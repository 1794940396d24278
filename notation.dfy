/** Face-turn notation: decoding a token such as `R`, `U'` or `F2` into the
    axis, the layer and the signed target angle of a pending move. */
module Notation {
  import opened Geometry
  import opened Registry

  /** The angle unit is 1e-4 rad: a quarter turn (pi/2) is 15708 units. */
  const QUARTER: int := 15708

  predicate IsFace(c: char) {
    c == 'U' || c == 'D' || c == 'L' || c == 'R' || c == 'F' || c == 'B'
  }

  /** A token whose face letter the decoder's table knows. Anything after the
      first character is a modifier; only `'` and `2` change the turn. */
  predicate Decodable(token: string) {
    |token| > 0 && IsFace(token[0])
  }

  /** One of the 18 tokens of the notation: a face with no suffix, `'` or `2`. */
  predicate IsToken(token: string) {
    Decodable(token) && (|token| == 1 || (|token| == 2 && (token[1] == '\'' || token[1] == '2')))
  }

  /** A queued move, fully resolved: no modifier is looked at again. */
  datatype PendingMove = PendingMove(axis: Axis, layer: int, target: int)

  /** A target angle a decoded move can have: +-pi/2 or +-pi. */
  predicate IsTarget(target: int) {
    target == QUARTER || target == -QUARTER || target == 2 * QUARTER || target == -2 * QUARTER
  }

  predicate WellFormed(m: PendingMove) {
    (m.layer == 1 || m.layer == -1) && IsTarget(m.target)
  }

  /** The number of quarter turns a move performs. */
  function Turns(m: PendingMove): int {
    m.target / QUARTER
  }

  /** The outward unit normal of a face, with x to the right, y up and z
      towards the front: the reference geometry of the notation. */
  function FaceNormal(c: char): Point
    requires IsFace(c)
  {
    if c == 'U' then Point(0, 1, 0)
    else if c == 'D' then Point(0, -1, 0)
    else if c == 'L' then Point(-1, 0, 0)
    else if c == 'R' then Point(1, 0, 0)
    else if c == 'F' then Point(0, 0, 1)
    else Point(0, 0, -1)
  }

  function Dot(p: Point, q: Point): int {
    p.x * q.x + p.y * q.y + p.z * q.z
  }

  function Cross(p: Point, q: Point): Point {
    Point(p.y * q.z - p.z * q.y, p.z * q.x - p.x * q.z, p.x * q.y - p.y * q.x)
  }

  /** Rodrigues' formula for a rotation by -pi/2 about the unit vector `n`:
      a clockwise quarter turn as seen by someone looking at the face from outside. */
  function ClockwiseAbout(p: Point, n: Point): Point {
    var d := Dot(p, n);
    var c := Cross(n, p);
    Point(d * n.x - c.x, d * n.y - c.y, d * n.z - c.z)
  }

  /** The axis of the layer a face letter names. */
  function FaceAxis(c: char): Axis
    requires IsFace(c)
  {
    if c == 'U' || c == 'D' then Y else if c == 'L' || c == 'R' then X else Z
  }

  /** The layer a face letter names on its axis. */
  function FaceLayer(c: char): int
    requires IsFace(c)
  {
    if c == 'U' || c == 'R' || c == 'F' then 1 else -1
  }

  /** The direction of the plain turn of a face letter. */
  function FaceBase(c: char): int
    requires IsFace(c)
  {
    if c == 'U' || c == 'R' || c == 'F' then -1 else 1
  }

  /** Decodes a token: the face letter picks the axis, the layer and the base
      direction; a `'` suffix negates the direction and a `2` suffix doubles it.
      The move's layer is the face the letter names and its target is a
      quarter or a half turn either way. */
  function Decode(token: string): (m: PendingMove)
    requires Decodable(token)
    ensures WellFormed(m)
    ensures FaceNormal(token[0]) == Embed(m.axis, m.layer, 0, 0)
  {
    var face := token[0];
    var modifier := token[1..];
    var base := FaceBase(face);
    var direction :=
      if modifier == "'" then -base
      else if modifier == "2" then 2 * base
      else base;
    PendingMove(FaceAxis(face), FaceLayer(face), QUARTER * direction)
  }

  /** A move picks up exactly the pieces on the face its letter names:
      those whose position projects to 1 on the face's outward normal. */
  lemma DecodeSelectsFace(token: string, p: Point)
    requires Decodable(token)
    requires InCube(p)
    ensures Coord(p, Decode(token).axis) == Decode(token).layer <==> Dot(p, FaceNormal(token[0])) == 1
  {
    var m := Decode(token);
    assert FaceNormal(token[0]) == Embed(m.axis, m.layer, 0, 0);
  }

  /** A token with no modifier turns its face a quarter turn clockwise, as
      seen from outside that face. */
  lemma PlainTurnIsClockwise(c: char, p: Point)
    requires IsFace(c)
    ensures Rotate(p, Decode([c]).axis, Turns(Decode([c]))) == ClockwiseAbout(p, FaceNormal(c))
  {
    var m := Decode([c]);
    assert [c][1..] == [];
    RotateIsMatrix(p, m.axis, Turns(m));
  }

  /** `'` reverses the turn of the bare face, `2` doubles it and any other
      suffix is ignored; the axis and the layer depend on the face alone. */
  lemma ModifierEffect(token: string)
    requires Decodable(token)
    ensures var m, b := Decode(token), Decode([token[0]]);
      m.axis == b.axis && m.layer == b.layer &&
      m.target == (if token[1..] == "'" then -b.target
                   else if token[1..] == "2" then 2 * b.target
                   else b.target)
  {
  }

  /** Every token of the notation, and every decodable token, turns by
      -2, -1, 1 or 2 quarter turns. */
  lemma DecodeTurns(token: string)
    requires Decodable(token)
    ensures var k := Turns(Decode(token)); k == -2 || k == -1 || k == 1 || k == 2
    ensures Decode(token).target == QUARTER * Turns(Decode(token))
  {
  }

  /** The net effect of the prime of a face undoes the face's turn. */
  lemma PrimeUndoesTurn(c: char, s: seq<Point>)
    requires IsFace(c)
    ensures var m, p := Decode([c]), Decode([c, '\'']);
      m.axis == p.axis && m.layer == p.layer &&
      TurnLayer(TurnLayer(s, m.axis, m.layer, Turns(m)), p.axis, p.layer, Turns(p)) == s
  {
    var m, p := Decode([c]), Decode([c, '\'']);
    ModifierEffect([c, '\'']);
    DecodeTurns([c]);
    assert Turns(p) == -Turns(m);
    TurnInverse(s, m.axis, m.layer, Turns(m));
  }

  /** A double turn has the net effect of two single turns of the same face. */
  lemma DoubleIsTwoTurns(c: char, s: seq<Point>)
    requires IsFace(c)
    ensures var m, d := Decode([c]), Decode([c, '2']);
      m.axis == d.axis && m.layer == d.layer &&
      TurnLayer(s, d.axis, d.layer, Turns(d)) ==
      TurnLayer(TurnLayer(s, m.axis, m.layer, Turns(m)), m.axis, m.layer, Turns(m))
  {
    ModifierEffect([c, '2']);
    var m := Decode([c]);
    TurnAdd(s, m.axis, m.layer, Turns(m), Turns(m));
  }

  /** A double turn is its own inverse. */
  lemma DoubleIsSelfInverse(c: char, s: seq<Point>)
    requires IsFace(c)
    ensures var d := Decode([c, '2']);
      TurnLayer(TurnLayer(s, d.axis, d.layer, Turns(d)), d.axis, d.layer, Turns(d)) == s
  {
    var d := Decode([c, '2']);
    DecodeTurns([c, '2']);
    TurnAdd(s, d.axis, d.layer, Turns(d), Turns(d));
    TurnFull(s, d.axis, d.layer, Turns(d) + Turns(d));
  }
}
