/** Positions of the pieces on the 3x3x3 grid and the quarter-turn rotations
    that a completed face turn applies to them. */
module Geometry {

  /** The three rotation axes of the scene. */
  datatype Axis = X | Y | Z

  /** A piece position; every piece sits on an integer grid point. */
  datatype Point = Point(x: int, y: int, z: int)

  /** The coordinate of `p` along `a` (the source's `position[axis]`). */
  function Coord(p: Point, a: Axis): int {
    match a
    case X => p.x
    case Y => p.y
    case Z => p.z
  }

  predicate InRange(v: int) {
    -1 <= v <= 1
  }

  /** `p` is one of the 27 points of {-1,0,1}^3. */
  predicate InCube(p: Point) {
    InRange(p.x) && InRange(p.y) && InRange(p.z)
  }

  /** One counter-clockwise quarter turn (+pi/2, right-handed) about `a`. */
  function RotateOnce(p: Point, a: Axis): (r: Point)
    ensures Coord(r, a) == Coord(p, a)
    ensures InCube(p) ==> InCube(r)
  {
    match a
    case X => Point(p.x, -p.z, p.y)
    case Y => Point(p.z, p.y, -p.x)
    case Z => Point(-p.y, p.x, p.z)
  }

  /** `n` successive quarter turns about `a`. */
  function Spin(p: Point, a: Axis, n: nat): (r: Point)
    ensures Coord(r, a) == Coord(p, a)
    ensures InCube(p) ==> InCube(r)
    decreases n
  {
    if n == 0 then p else RotateOnce(Spin(p, a, n - 1), a)
  }

  /** The rotation by `turns` * pi/2 about `a`; negative counts turn clockwise. */
  function Rotate(p: Point, a: Axis, turns: int): (r: Point)
    ensures Coord(r, a) == Coord(p, a)
    ensures InCube(p) ==> InCube(r)
  {
    Spin(p, a, turns % 4)
  }

  /** cos(k * pi/2) and sin(k * pi/2), exactly. */
  function CosQuarter(k: int): int {
    var m := k % 4;
    if m == 0 then 1 else if m == 2 then -1 else 0
  }

  function SinQuarter(k: int): int {
    var m := k % 4;
    if m == 1 then 1 else if m == 3 then -1 else 0
  }

  /** The rotation matrix about a principal axis, as the rendering library
      builds it from an Euler angle, applied to `p`. */
  function MatrixRotate(p: Point, a: Axis, c: int, s: int): Point {
    match a
    case X => Point(p.x, c * p.y - s * p.z, s * p.y + c * p.z)
    case Y => Point(c * p.x + s * p.z, p.y, -s * p.x + c * p.z)
    case Z => Point(c * p.x - s * p.y, s * p.x + c * p.y, p.z)
  }

  lemma {:induction false} SpinFour(p: Point, a: Axis)
    ensures Spin(p, a, 4) == p
  {
  }

  lemma {:induction false} SpinAdd(p: Point, a: Axis, m: nat, n: nat)
    ensures Spin(Spin(p, a, m), a, n) == Spin(p, a, m + n)
    decreases n
  {
    if n > 0 {
      SpinAdd(p, a, m, n - 1);
    }
  }

  /** The quarter-turn count of a sum, from the counts of its parts. */
  lemma QuarterSum(j: int, k: int)
    ensures (j + k) % 4 == if j % 4 + k % 4 >= 4 then j % 4 + k % 4 - 4 else j % 4 + k % 4
  {
    var q := j / 4 + k / 4;
    assert j + k == 4 * q + (j % 4 + k % 4);
    if j % 4 + k % 4 >= 4 {
      assert j + k == 4 * (q + 1) + (j % 4 + k % 4 - 4);
    }
  }

  /** Turning by `j` then by `k` quarter turns is turning by `j + k`. */
  lemma {:induction false} RotateAdd(p: Point, a: Axis, j: int, k: int)
    ensures Rotate(Rotate(p, a, j), a, k) == Rotate(p, a, j + k)
  {
    var m, n := j % 4, k % 4;
    SpinAdd(p, a, m, n);
    QuarterSum(j, k);
    if m + n >= 4 {
      SpinAdd(p, a, 4, m + n - 4);
      SpinFour(p, a);
    }
  }

  /** A turn by `-k` undoes a turn by `k` (U followed by U' is the identity). */
  lemma RotateInverse(p: Point, a: Axis, k: int)
    ensures Rotate(Rotate(p, a, k), a, -k) == p
  {
    RotateAdd(p, a, k, -k);
  }

  /** Different points never land on the same point. */
  lemma RotateInjective(p: Point, q: Point, a: Axis, k: int)
    requires Rotate(p, a, k) == Rotate(q, a, k)
    ensures p == q
  {
    RotateInverse(p, a, k);
    RotateInverse(q, a, k);
  }

  /** The quarter-turn rotation is the right-handed rotation matrix of angle
      k * pi/2 about the axis, the convention of `group.rotation[axis]`. */
  lemma {:induction false} RotateIsMatrix(p: Point, a: Axis, k: int)
    ensures Rotate(p, a, k) == MatrixRotate(p, a, CosQuarter(k), SinQuarter(k))
  {
    assert Spin(p, a, 1) == RotateOnce(p, a);
    assert Spin(p, a, 2) == RotateOnce(Spin(p, a, 1), a);
    assert Spin(p, a, 3) == RotateOnce(Spin(p, a, 2), a);
  }
}
