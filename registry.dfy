/** The piece registry: the positions of the 27 pieces, the selection of the
    pieces that make up one layer, and the effect of a completed turn on them. */
module Registry {
  import opened Geometry

  /** No two pieces share a position. */
  predicate Distinct(s: seq<Point>) {
    forall i, j :: 0 <= i < j < |s| ==> s[i] != s[j]
  }

  /** The registry invariant: 27 pieces on pairwise distinct points of {-1,0,1}^3. */
  predicate IsLattice(s: seq<Point>) {
    |s| == 27 && Distinct(s) && forall i :: 0 <= i < |s| ==> InCube(s[i])
  }

  /** The position of the `k`-th piece created by the x/y/z nested loops
      (x outermost, z innermost, each from -1 to 1). */
  function LatticePoint(k: nat): Point
    requires k < 27
  {
    Point(k / 9 - 1, k / 3 % 3 - 1, k % 3 - 1)
  }

  /** The loops create the point (x, y, z) as piece 9(x+1) + 3(y+1) + (z+1). */
  lemma LatticePointAt(x: int, y: int, z: int)
    requires InRange(x) && InRange(y) && InRange(z)
    ensures LatticePoint(9 * (x + 1) + 3 * (y + 1) + (z + 1)) == Point(x, y, z)
  {
    var k := 9 * (x + 1) + 3 * (y + 1) + (z + 1);
    assert k / 9 == x + 1;
    assert k / 3 == 3 * (x + 1) + (y + 1);
  }

  /** The registry as created at start-up. */
  function Lattice(): seq<Point> {
    seq(27, k requires 0 <= k < 27 => LatticePoint(k))
  }

  /** The indices, in registry order, of the pieces whose coordinate on `a`
      equals `l`: the pieces a move on layer `l` of axis `a` picks up. */
  function LayerIndices(s: seq<Point>, a: Axis, l: int): (r: seq<nat>)
    ensures forall k :: 0 <= k < |r| ==> r[k] < |s| && Coord(s[r[k]], a) == l
    ensures forall i :: 0 <= i < |s| && Coord(s[i], a) == l ==> i in r
    ensures forall j, k :: 0 <= j < k < |r| ==> r[j] < r[k]
    decreases |s|
  {
    if s == [] then []
    else
      var n := |s| - 1;
      var r0 := LayerIndices(s[..n], a, l);
      if Coord(s[n], a) == l then r0 + [n] else r0
  }

  /** The positions after turning layer `l` of axis `a` by `k` quarter turns:
      the pieces of that layer are rotated, every other piece stays put. */
  function TurnLayer(s: seq<Point>, a: Axis, l: int, k: int): (r: seq<Point>)
    ensures |r| == |s|
    ensures forall i :: 0 <= i < |s| ==> Coord(r[i], a) == Coord(s[i], a)
    ensures forall i :: 0 <= i < |s| && InCube(s[i]) ==> InCube(r[i])
    ensures forall i :: 0 <= i < |s| && Coord(s[i], a) != l ==> r[i] == s[i]
  {
    seq(|s|, i requires 0 <= i < |s| =>
      if Coord(s[i], a) == l then Rotate(s[i], a, k) else s[i])
  }

  /** The nine points of {-1,0,1}^3 whose coordinate on `a` is `l`. */
  function Embed(a: Axis, l: int, u: int, v: int): Point {
    match a
    case X => Point(l, u, v)
    case Y => Point(u, l, v)
    case Z => Point(u, v, l)
  }

  function Plane(a: Axis, l: int): set<Point> {
    {Embed(a, l, -1, -1), Embed(a, l, -1, 0), Embed(a, l, -1, 1),
     Embed(a, l, 0, -1), Embed(a, l, 0, 0), Embed(a, l, 0, 1),
     Embed(a, l, 1, -1), Embed(a, l, 1, 0), Embed(a, l, 1, 1)}
  }

  lemma PlaneSize(a: Axis, l: int)
    ensures |Plane(a, l)| == 9
  {
  }

  lemma PlaneCovers(p: Point, a: Axis)
    requires InCube(p)
    ensures p in Plane(a, Coord(p, a))
  {
  }

  lemma LatticePointsDistinct(i: nat, j: nat)
    requires i < j < 27
    ensures LatticePoint(i) != LatticePoint(j)
  {
  }

  /** The start-up registry satisfies the invariant. */
  lemma LatticeIsLattice()
    ensures IsLattice(Lattice())
  {
    var s := Lattice();
    forall i, j | 0 <= i < j < |s| ensures s[i] != s[j] {
      LatticePointsDistinct(i, j);
    }
  }

  /** Every piece lies in exactly one of the three layers of an axis. */
  lemma {:induction false} LayersPartition(s: seq<Point>, a: Axis)
    requires forall i :: 0 <= i < |s| ==> InCube(s[i])
    ensures |LayerIndices(s, a, -1)| + |LayerIndices(s, a, 0)| + |LayerIndices(s, a, 1)| == |s|
    decreases |s|
  {
    if s != [] {
      LayersPartition(s[..|s| - 1], a);
    }
  }

  /** Pieces on distinct points: a layer holds no more pieces than there are
      points in any set that contains all of its pieces. */
  lemma {:induction false} LayerBound(s: seq<Point>, a: Axis, l: int, t: set<Point>)
    requires Distinct(s)
    requires forall i :: 0 <= i < |s| && Coord(s[i], a) == l ==> s[i] in t
    ensures |LayerIndices(s, a, l)| <= |t|
    decreases |s|
  {
    if s != [] {
      var n := |s| - 1;
      if Coord(s[n], a) == l {
        LayerBound(s[..n], a, l, t - {s[n]});
      } else {
        LayerBound(s[..n], a, l, t);
      }
    }
  }

  lemma LayerAtMostNine(s: seq<Point>, a: Axis, m: int)
    requires Distinct(s)
    requires forall i :: 0 <= i < |s| ==> InCube(s[i])
    ensures |LayerIndices(s, a, m)| <= 9
  {
    forall i | 0 <= i < |s| && Coord(s[i], a) == m ensures s[i] in Plane(a, m) {
      PlaneCovers(s[i], a);
    }
    LayerBound(s, a, m, Plane(a, m));
    PlaneSize(a, m);
  }

  /** Under the registry invariant every layer query returns exactly nine
      pieces, so a move never picks up a wrong number of pieces. */
  lemma LayerHasNine(s: seq<Point>, a: Axis, l: int)
    requires IsLattice(s)
    requires InRange(l)
    ensures |LayerIndices(s, a, l)| == 9
  {
    LayerAtMostNine(s, a, -1);
    LayerAtMostNine(s, a, 0);
    LayerAtMostNine(s, a, 1);
    LayersPartition(s, a);
  }

  lemma {:induction false} TurnLayerPrefix(s: seq<Point>, a: Axis, l: int, k: int, n: nat)
    requires n <= |s|
    ensures TurnLayer(s, a, l, k)[..n] == TurnLayer(s[..n], a, l, k)
  {
  }

  /** A turn leaves the turned layer made of the same pieces. */
  lemma {:induction false} TurnKeepsLayer(s: seq<Point>, a: Axis, l: int, k: int)
    ensures LayerIndices(TurnLayer(s, a, l, k), a, l) == LayerIndices(s, a, l)
    decreases |s|
  {
    if s != [] {
      var n := |s| - 1;
      TurnLayerPrefix(s, a, l, k, n);
      TurnKeepsLayer(s[..n], a, l, k);
    }
  }

  /** A turn keeps the registry invariant: positions stay distinct and on the grid. */
  lemma TurnKeepsLattice(s: seq<Point>, a: Axis, l: int, k: int)
    requires IsLattice(s)
    ensures IsLattice(TurnLayer(s, a, l, k))
  {
    var t := TurnLayer(s, a, l, k);
    forall i, j | 0 <= i < j < |t| ensures t[i] != t[j] {
      if Coord(s[i], a) == l && Coord(s[j], a) == l {
        if t[i] == t[j] {
          RotateInjective(s[i], s[j], a, k);
        }
      }
    }
  }

  /** Turning a layer by `j` and then by `k` is turning it by `j + k`. */
  lemma TurnAdd(s: seq<Point>, a: Axis, l: int, j: int, k: int)
    ensures TurnLayer(TurnLayer(s, a, l, j), a, l, k) == TurnLayer(s, a, l, j + k)
  {
    var t := TurnLayer(TurnLayer(s, a, l, j), a, l, k);
    forall i | 0 <= i < |s| ensures t[i] == TurnLayer(s, a, l, j + k)[i] {
      if Coord(s[i], a) == l {
        RotateAdd(s[i], a, j, k);
      }
    }
  }

  /** Turning a layer back by the opposite amount restores every position. */
  lemma TurnInverse(s: seq<Point>, a: Axis, l: int, k: int)
    ensures TurnLayer(TurnLayer(s, a, l, k), a, l, -k) == s
  {
    TurnAdd(s, a, l, k, -k);
    var t := TurnLayer(s, a, l, 0);
    forall i | 0 <= i < |s| ensures t[i] == s[i] {
      assert Rotate(s[i], a, 0) == Spin(s[i], a, 0);
    }
  }

  /** A whole number of full turns restores every position. */
  lemma TurnFull(s: seq<Point>, a: Axis, l: int, k: int)
    requires k % 4 == 0
    ensures TurnLayer(s, a, l, k) == s
  {
  }
}
