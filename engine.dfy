module EngineState {
  import opened Geometry
  import opened Registry
  import opened Notation
  import opened Stepping

  datatype Option<T> = None | Some(value: T)

  /** The move being animated: its axis, the pieces grouped under the pivot
      (chosen when the move starts and frozen until it ends), the target
      angle and the angle accumulated so far. */
  datatype ActiveMove = ActiveMove(axis: Axis, targets: seq<nat>, target: int, angle: int)

  /** The engine invariant, on the values of the fields: the registry holds
      27 distinct grid points, every queued move is well formed, and an active
      move has grouped exactly the pieces of its layer and has not yet reached
      its target. */
  ghost predicate EngineInvariant(pieces: seq<Point>, queue: seq<PendingMove>,
                                  current: Option<ActiveMove>, activeLayer: int) {
    IsLattice(pieces) &&
    (forall m :: m in queue ==> WellFormed(m)) &&
    (current.Some? ==>
      (activeLayer == 1 || activeLayer == -1) &&
      IsTarget(current.value.target) &&
      current.value.targets == LayerIndices(pieces, current.value.axis, activeLayer) &&
      Between(current.value.angle, current.value.target) &&
      current.value.angle != current.value.target)
  }

}

/** The animation engine: the piece registry, the FIFO move queue and the
    single active move, advanced one capped step per display frame. */
module Engine {
  import opened Geometry
  import opened Registry
  import opened Notation
  import opened Stepping
  import opened EngineState

  /** The face letters and suffixes the shuffle draws from. */
  const FACES: string := "UDLRFB"
  const SUFFIXES: seq<string> := ["", "'", "2"]

  /** The token the shuffle builds from a draw of a face index and a suffix index. */
  function ShuffleToken(pick: (nat, nat)): (t: string)
    requires pick.0 < 6 && pick.1 < 3
    ensures IsToken(t)
  {
    [FACES[pick.0]] + SUFFIXES[pick.1]
  }

  /** The draw that produces a token of the notation. */
  function PickOf(t: string): (pick: (nat, nat))
    requires IsToken(t)
    ensures pick.0 < 6 && pick.1 < 3
  {
    var f := t[0];
    var face := if f == 'U' then 0 else if f == 'D' then 1 else if f == 'L' then 2
                else if f == 'R' then 3 else if f == 'F' then 4 else 5;
    var suffix := if |t| == 1 then 0 else if t[1] == '\'' then 1 else 2;
    (face, suffix)
  }

  /** The shuffle's draws and the 18 tokens of the notation correspond one to
      one: every draw gives a token and every token comes from exactly one draw. */
  lemma ShuffleDrawsAllTokens(pick: (nat, nat), t: string)
    requires pick.0 < 6 && pick.1 < 3
    requires IsToken(t)
    ensures PickOf(ShuffleToken(pick)) == pick
    ensures ShuffleToken(PickOf(t)) == t
  {
  }

  /** `s.split(' ')`: the fields between single spaces, empty ones included. */
  function Split(s: string): (r: seq<string>)
    ensures |r| >= 1
    ensures forall j :: 0 <= j < |r| ==> ' ' !in r[j]
    decreases |s|
  {
    if s == [] then [[]]
    else
      var rest := Split(s[1..]);
      if s[0] == ' ' then [[]] + rest else [[s[0]] + rest[0]] + rest[1..]
  }

  /** The fields joined back with single spaces. */
  function Join(fields: seq<string>): string
    requires |fields| >= 1
    decreases |fields|
  {
    if |fields| == 1 then fields[0] else fields[0] + " " + Join(fields[1..])
  }

  lemma {:induction false} JoinSplit(s: string)
    ensures Join(Split(s)) == s
    decreases |s|
  {
    if s != [] {
      var rest := Split(s[1..]);
      JoinSplit(s[1..]);
      if s[0] == ' ' {
        assert Split(s) == [[]] + rest;
        assert Split(s)[1..] == rest;
      } else {
        var r := [[s[0]] + rest[0]] + rest[1..];
        if |rest| == 1 {
          assert Join(r) == [s[0]] + rest[0];
        } else {
          assert r[1..] == rest[1..];
          assert Join(r) == [s[0]] + (rest[0] + " " + Join(rest[1..]));
        }
      }
    }
  }

  /** Splitting on spaces, then joining with spaces, is the identity, and
      splitting the join of space-free fields gives those fields back. */
  lemma {:induction false} SplitJoin(fields: seq<string>)
    requires |fields| >= 1
    requires forall j :: 0 <= j < |fields| ==> ' ' !in fields[j]
    ensures Split(Join(fields)) == fields
    decreases |fields|
  {
    var f := fields[0];
    if |fields| == 1 {
      SplitField(f, []);
      assert f + [] == f;
      assert Split([]) == [[]];
    } else {
      var j := Join(fields[1..]);
      SplitJoin(fields[1..]);
      SplitField(f, " " + j);
      assert (" " + j)[0] == ' ';
      assert (" " + j)[1..] == j;
      var r := Split(" " + j);
      assert r == [[]] + fields[1..];
      assert r[1..] == fields[1..];
      assert f + r[0] == f;
      assert f + " " + j == f + (" " + j);
      assert fields == [f] + fields[1..];
    }
  }

  /** Splitting a space-free prefix in front of `tail` extends the first field of `tail`. */
  lemma {:induction false} SplitField(f: string, tail: string)
    requires ' ' !in f
    ensures var r := Split(tail); Split(f + tail) == [f + r[0]] + r[1..]
    decreases |f|
  {
    var r := Split(tail);
    if f == [] {
      assert f + tail == tail;
      assert f + r[0] == r[0];
      assert [f + r[0]] + r[1..] == r;
    } else {
      SplitField(f[1..], tail);
      var rest := Split(f[1..] + tail);
      assert rest == [f[1..] + r[0]] + r[1..];
      assert (f + tail)[1..] == f[1..] + tail;
      assert (f + tail)[0] == f[0];
      assert Split(f + tail) == [[f[0]] + rest[0]] + rest[1..];
      assert [f[0]] + (f[1..] + r[0]) == f + r[0];
    }
  }

  /** Every token applyMove would be handed is empty or decodable. */
  predicate AllDecodable(tokens: seq<string>) {
    forall j :: 0 <= j < |tokens| ==> tokens[j] == [] || Decodable(tokens[j])
  }

  /** The moves that applying `tokens` in order enqueues: one per non-empty token. */
  function Enqueued(tokens: seq<string>): (r: seq<PendingMove>)
    requires AllDecodable(tokens)
    ensures |r| <= |tokens|
    ensures forall j :: 0 <= j < |r| ==> WellFormed(r[j])
    decreases |tokens|
  {
    if tokens == [] then []
    else
      var n := |tokens| - 1;
      Enqueued(tokens[..n]) + (if tokens[n] == [] then [] else [Decode(tokens[n])])
  }

  /** The non-empty tokens of `tokens`, in order: those handed to the logical cube. */
  function NonEmpty(tokens: seq<string>): (r: seq<string>)
    ensures |r| <= |tokens|
    ensures forall j :: 0 <= j < |r| ==> r[j] != []
    ensures (forall j :: 0 <= j < |tokens| ==> tokens[j] != []) ==> r == tokens
    decreases |tokens|
  {
    if tokens == [] then []
    else
      var n := |tokens| - 1;
      NonEmpty(tokens[..n]) + (if tokens[n] == [] then [] else [tokens[n]])
  }

  /** A token is forwarded exactly when it is one of the tokens and is not empty. */
  lemma {:induction false} NonEmptyMembers(tokens: seq<string>)
    ensures forall t :: t in NonEmpty(tokens) <==> t in tokens && t != []
    decreases |tokens|
  {
    if tokens != [] {
      var n := |tokens| - 1;
      NonEmptyMembers(tokens[..n]);
      assert tokens == tokens[..n] + [tokens[n]];
    }
  }

  /** Forwarding distributes over concatenation: each part's non-empty tokens
      are forwarded once, the first part's before the second's. */
  lemma {:induction false} NonEmptyConcat(a: seq<string>, b: seq<string>)
    ensures NonEmpty(a + b) == NonEmpty(a) + NonEmpty(b)
    decreases |b|
  {
    if b == [] {
      assert a + b == a;
    } else {
      var n := |b| - 1;
      NonEmptyConcat(a, b[..n]);
      assert (a + b)[..|a + b| - 1] == a + b[..n];
    }
  }

  /** Enqueueing distributes over concatenation: the moves of the first part
      come before those of the second, each exactly once. */
  lemma {:induction false} EnqueuedConcat(a: seq<string>, b: seq<string>)
    requires AllDecodable(a) && AllDecodable(b)
    ensures AllDecodable(a + b)
    ensures Enqueued(a + b) == Enqueued(a) + Enqueued(b)
    decreases |b|
  {
    if b == [] {
      assert a + b == a;
    } else {
      var n := |b| - 1;
      EnqueuedConcat(a, b[..n]);
      assert (a + b)[..|a + b| - 1] == a + b[..n];
    }
  }

  /** A single token: an empty one contributes nothing, any other is forwarded
      as itself and enqueues its own decoding. */
  lemma SingleToken(t: string)
    requires t == [] || Decodable(t)
    ensures NonEmpty([t]) == if t == [] then [] else [t]
    ensures Enqueued([t]) == if t == [] then [] else [Decode(t)]
  {
    assert [t][..0] == [];
  }

  /** The queue receives exactly the decodings of the tokens forwarded to the
      logical cube, one for one and in the same order. */
  lemma {:induction false} EnqueuedIsDecodedNonEmpty(tokens: seq<string>)
    requires AllDecodable(tokens)
    ensures |Enqueued(tokens)| == |NonEmpty(tokens)|
    ensures forall j :: 0 <= j < |NonEmpty(tokens)| ==> Decodable(NonEmpty(tokens)[j])
    ensures forall j :: 0 <= j < |Enqueued(tokens)| ==> Enqueued(tokens)[j] == Decode(NonEmpty(tokens)[j])
    decreases |tokens|
  {
    if tokens != [] {
      var n := |tokens| - 1;
      EnqueuedIsDecodedNonEmpty(tokens[..n]);
    }
  }

  /** Applying one more token extends the queue and the forwarded log by that
      token's contribution alone. */
  lemma TokensStep(tokens: seq<string>, i: nat)
    requires AllDecodable(tokens)
    requires i < |tokens|
    ensures Enqueued(tokens[..i + 1]) ==
      Enqueued(tokens[..i]) + (if tokens[i] == [] then [] else [Decode(tokens[i])])
    ensures NonEmpty(tokens[..i + 1]) ==
      NonEmpty(tokens[..i]) + (if tokens[i] == [] then [] else [tokens[i]])
  {
    assert tokens[..i + 1][..i] == tokens[..i];
  }

  /** With no empty token, every token enqueues exactly its own decoded move. */
  lemma {:induction false} EnqueuedOnePerToken(tokens: seq<string>)
    requires forall j :: 0 <= j < |tokens| ==> Decodable(tokens[j])
    ensures |Enqueued(tokens)| == |tokens|
    ensures forall j :: 0 <= j < |tokens| ==> Enqueued(tokens)[j] == Decode(tokens[j])
    decreases |tokens|
  {
    if tokens != [] {
      EnqueuedOnePerToken(tokens[..|tokens| - 1]);
    }
  }

  /** A command of the keyboard table. */
  datatype Command = ShuffleCommand | SolveCommand | MoveCommand(token: string)

  /** The keyboard table: `s` shuffles, `Enter` solves, and the six lower-case
      face letters issue the plain turn of the upper-case face. */
  function KeyMap(key: string): (r: Option<Command>)
    ensures r == Some(ShuffleCommand) <==> key == "s"
    ensures r == Some(SolveCommand) <==> key == "Enter"
    ensures r.None? <==> key !in {"s", "Enter", "r", "u", "f", "l", "d", "b"}
    ensures r.Some? && r.value.MoveCommand? ==>
      |key| == 1 && 'a' <= key[0] <= 'z' &&
      r.value.token == [(key[0] as int - 32) as char] && IsToken(r.value.token)
  {
    if key == "s" then Some(ShuffleCommand)
    else if key == "Enter" then Some(SolveCommand)
    else if key == "r" then Some(MoveCommand("R"))
    else if key == "u" then Some(MoveCommand("U"))
    else if key == "f" then Some(MoveCommand("F"))
    else if key == "l" then Some(MoveCommand("L"))
    else if key == "d" then Some(MoveCommand("D"))
    else if key == "b" then Some(MoveCommand("B"))
    else None
  }

  /** The command for a key press: looked up by the key, then by the key code.
      The keyboard only ever issues plain face turns. */
  function KeyCommand(key: string, code: string): (c: Option<Command>)
    ensures KeyMap(key).Some? ==> c == KeyMap(key)
    ensures KeyMap(key).None? ==> c == KeyMap(code)
    ensures c.Some? && c.value.MoveCommand? ==> IsToken(c.value.token) && |c.value.token| == 1
    ensures c.None? <==> KeyMap(key).None? && KeyMap(code).None?
  {
    if KeyMap(key).Some? then KeyMap(key) else KeyMap(code)
  }

  /** The engine state: the pieces, the queue of pending moves, the active
      move if any, and the tokens forwarded to the logical cube model. */
  class AnimationCore {
    var pieces: array<Point>
    var queue: seq<PendingMove>
    var current: Option<ActiveMove>
    var forwarded: seq<string>
    /** The layer the active move was started on; the source keeps only the
        pieces it selected. */
    ghost var activeLayer: int

    ghost predicate Valid()
      reads this, pieces
    {
      EngineInvariant(pieces[..], queue, current, activeLayer)
    }

    /** The ticks still needed to finish the active move. */
    ghost function RemainingTicks(): nat
      reads this
    {
      if current.None? then 0 else Ticks(current.value.target - current.value.angle)
    }

    /** Creates the 27 pieces, x outermost and z innermost, each from -1 to 1. */
    constructor ()
      ensures Valid() && fresh(pieces)
      ensures pieces[..] == Lattice()
      ensures queue == [] && current == None && forwarded == []
    {
      var cubies := new Point[27];
      var n := 0;
      for x := -1 to 2
        invariant n == 9 * (x + 1)
        invariant forall k :: 0 <= k < n ==> cubies[k] == LatticePoint(k)
      {
        for y := -1 to 2
          invariant n == 9 * (x + 1) + 3 * (y + 1)
          invariant forall k :: 0 <= k < n ==> cubies[k] == LatticePoint(k)
        {
          for z := -1 to 2
            invariant n == 9 * (x + 1) + 3 * (y + 1) + (z + 1)
            invariant forall k :: 0 <= k < n ==> cubies[k] == LatticePoint(k)
          {
            LatticePointAt(x, y, z);
            cubies[n] := Point(x, y, z);
            n := n + 1;
          }
        }
      }
      pieces := cubies;
      queue := [];
      current := None;
      forwarded := [];
      activeLayer := 0;
      new;
      assert pieces[..] == Lattice();
      LatticeIsLattice();
    }

    /** Accepts a token: an empty token does nothing; otherwise the token is
        forwarded to the logical cube and its decoded move is appended to the
        tail of the queue, leaving every earlier entry as it was. */
    method ApplyMove(token: string)
      requires Valid()
      requires token == [] || Decodable(token)
      modifies this`queue, this`forwarded
      ensures Valid()
      ensures token == [] ==> queue == old(queue) && forwarded == old(forwarded)
      ensures token != [] ==> queue == old(queue) + [Decode(token)] && forwarded == old(forwarded) + [token]
    {
      if token == [] {
        return;
      }
      forwarded := forwarded + [token];
      queue := queue + [Decode(token)];
    }

    /** Starts the head of the queue when no move is active: removes only the
        head and groups the nine pieces of its layer, at accumulated angle 0. */
    method StartNextMove()
      requires Valid()
      modifies this
      ensures Valid() && pieces == old(pieces) && forwarded == old(forwarded)
      ensures old(queue) == [] || old(current).Some? ==>
        queue == old(queue) && current == old(current) && activeLayer == old(activeLayer)
      ensures old(queue) != [] && old(current).None? ==>
        var m := old(queue)[0];
        queue == old(queue)[1..] && activeLayer == m.layer &&
        current == Some(ActiveMove(m.axis, LayerIndices(pieces[..], m.axis, m.layer), m.target, 0)) &&
        |current.value.targets| == 9 &&
        RemainingTicks() == Ticks(m.target)
    {
      if queue == [] || current.Some? {
        return;
      }
      var m := queue[0];
      assert m in queue;
      queue := queue[1..];
      var targets := LayerIndices(pieces[..], m.axis, m.layer);
      current := Some(ActiveMove(m.axis, targets, m.target, 0));
      activeLayer := m.layer;
      LayerHasNine(pieces[..], m.axis, m.layer);
    }

    /** One display frame. With no active move it only tries to start the
        next one. Otherwise it adds one capped step to the accumulated angle;
        on reaching the target it commits the rotation to the grouped pieces,
        which leaves every other piece where it was, and becomes idle. */
    method UpdateAnimation()
      requires Valid()
      modifies this, pieces
      ensures Valid() && pieces == old(pieces) && forwarded == old(forwarded)
      ensures old(current).None? ==> pieces[..] == old(pieces[..])
      ensures old(current).None? && old(queue) == [] ==> queue == old(queue) && current == old(current)
      ensures old(current).None? && old(queue) != [] ==>
        var m := old(queue)[0];
        queue == old(queue)[1..] &&
        current == Some(ActiveMove(m.axis, LayerIndices(pieces[..], m.axis, m.layer), m.target, 0))
      ensures old(current).Some? ==>
        queue == old(queue) && RemainingTicks() + 1 == old(RemainingTicks())
      ensures old(current).Some? ==>
        var am := old(current).value;
        var next := am.angle + Step(am.target - am.angle);
        if next == am.target then
          current == None &&
          pieces[..] == TurnLayer(old(pieces[..]), am.axis, old(activeLayer), am.target / QUARTER)
        else
          current == Some(am.(angle := next)) && pieces[..] == old(pieces[..])
    {
      if current.None? {
        StartNextMove();
        return;
      }
      var am := current.value;
      var remain := am.target - am.angle;
      var step := Step(remain);
      StepConverges(am.angle, am.target);
      var angle := am.angle + step;
      if angle != am.target {
        current := Some(am.(angle := angle));
        return;
      }
      CommitTurn(am.targets, am.axis, activeLayer, am.target / QUARTER);
      current := None;
    }

    /** Ends a move: hands every grouped piece back to the scene at its
        rotated position; the pieces outside the group do not move. */
    method CommitTurn(targets: seq<nat>, a: Axis, ghost l: int, turns: int)
      requires IsLattice(pieces[..])
      requires targets == LayerIndices(pieces[..], a, l)
      modifies pieces
      ensures IsLattice(pieces[..])
      ensures pieces[..] == TurnLayer(old(pieces[..]), a, l, turns)
    {
      ghost var before := pieces[..];
      for j := 0 to |targets|
        invariant forall i :: 0 <= i < pieces.Length ==>
          pieces[i] == if i in targets[..j] then Rotate(before[i], a, turns) else before[i]
      {
        var i := targets[j];
        assert i !in targets[..j];
        pieces[i] := Rotate(pieces[i], a, turns);
      }
      assert pieces[..] == TurnLayer(before, a, l, turns);
      TurnKeepsLattice(before, a, l, turns);
    }

    /** Enqueues twenty moves, the i-th built from the i-th draw of a face and a
        suffix; the draws stand for the random choices. */
    method Shuffle(picks: seq<(nat, nat)>)
      requires Valid()
      requires |picks| == 20
      requires forall j :: 0 <= j < |picks| ==> picks[j].0 < 6 && picks[j].1 < 3
      modifies this`queue, this`forwarded
      ensures Valid()
      ensures |queue| == |old(queue)| + 20 && queue[..|old(queue)|] == old(queue)
      ensures forall j :: 0 <= j < 20 ==> queue[|old(queue)| + j] == Decode(ShuffleToken(picks[j]))
      ensures |forwarded| == |old(forwarded)| + 20 && forwarded[..|old(forwarded)|] == old(forwarded)
      ensures forall j :: 0 <= j < 20 ==> forwarded[|old(forwarded)| + j] == ShuffleToken(picks[j])
    {
      ghost var q0, f0 := queue, forwarded;
      for i := 0 to 20
        invariant Valid()
        invariant |queue| == |q0| + i && queue[..|q0|] == q0
        invariant forall j :: 0 <= j < i ==> queue[|q0| + j] == Decode(ShuffleToken(picks[j]))
        invariant |forwarded| == |f0| + i && forwarded[..|f0|] == f0
        invariant forall j :: 0 <= j < i ==> forwarded[|f0| + j] == ShuffleToken(picks[j])
      {
        var move := FACES[picks[i].0];
        var suffix := SUFFIXES[picks[i].1];
        assert [move] + suffix == ShuffleToken(picks[i]);
        ApplyMove([move] + suffix);
      }
    }

    /** Applies each token in order (`tokens.forEach(applyMove)`). */
    method ApplyAll(tokens: seq<string>)
      requires Valid()
      requires AllDecodable(tokens)
      modifies this`queue, this`forwarded
      ensures Valid()
      ensures queue == old(queue) + Enqueued(tokens)
      ensures forwarded == old(forwarded) + NonEmpty(tokens)
    {
      ghost var q0, f0 := queue, forwarded;
      for i := 0 to |tokens|
        invariant Valid()
        invariant queue == q0 + Enqueued(tokens[..i])
        invariant forwarded == f0 + NonEmpty(tokens[..i])
      {
        TokensStep(tokens, i);
        ghost var e, n := Enqueued(tokens[..i]), NonEmpty(tokens[..i]);
        ghost var c := if tokens[i] == [] then [] else [Decode(tokens[i])];
        ghost var d := if tokens[i] == [] then [] else [tokens[i]];
        ApplyMove(tokens[i]);
        assert q0 + e + c == q0 + (e + c);
        assert f0 + n + d == f0 + (n + d);
      }
      assert tokens[..|tokens|] == tokens;
    }

    /** Enqueues every field of the solver's answer, in order; nothing when
        the solver gives no answer or an empty one. */
    method Solve(solution: Option<string>)
      requires Valid()
      requires solution.Some? ==> AllDecodable(Split(solution.value))
      modifies this`queue, this`forwarded
      ensures Valid()
      ensures solution.None? || solution.value == [] ==>
        queue == old(queue) && forwarded == old(forwarded)
      ensures solution.Some? && solution.value != [] ==>
        queue == old(queue) + Enqueued(Split(solution.value)) &&
        forwarded == old(forwarded) + NonEmpty(Split(solution.value))
    {
      if solution.None? || solution.value == [] {
        return;
      }
      ApplyAll(Split(solution.value));
    }
  }
}
