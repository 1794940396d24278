# Rubik's cube move-queue animation engine, modelled in Dafny

This project models the animation core of a browser 3x3x3 cube viewer
(`main.js`). Face-turn tokens such as `R`, `U'` and `F2` are decoded into a
pending move: an axis, a layer (`-1` or `1`) and a signed target angle. The
move is appended to a FIFO queue. The engine animates at most one move at a
time. When idle it takes the head of the queue and groups the pieces of that
layer. Each frame it adds one capped step to the accumulated angle. On
arrival it commits the rotation to the grouped pieces and becomes idle again.
`shuffle` enqueues twenty drawn tokens. `solve` enqueues every non-empty
field of the solver's space-separated answer, in order; empty fields are
skipped.

Modules, one per component:

- `Geometry` (geometry.dfy): axes, grid points, quarter-turn rotations about
  an axis. It proves they agree with the right-handed rotation matrix of the
  angle.
- `Registry` (registry.dfy): the 27 piece positions, the layer query
  (`cubies.filter(...)`) and the net effect of a completed turn (`TurnLayer`).
  Its main result: under the registry invariant (27 distinct points of
  {-1,0,1}^3) every layer query returns exactly nine pieces, and a committed
  turn keeps the invariant.
- `Notation` (notation.dfy): the token decoder, and what the modifiers mean
  geometrically. A plain turn is clockwise seen from outside the face. A prime
  turn undoes it. A double turn is two plain turns and is its own inverse.
- `Stepping` (stepping.dfy): the step rule `sign(remain) * min(|remain|, SPEED)`.
  It never overshoots, it converges monotonically, and it takes
  ceil(|target| / SPEED) ticks.
- `EngineState` (engine.dfy): the active-move record and the engine
  invariant, stated on the values of the engine's fields.
- `Engine` (engine.dfy): the class `AnimationCore`. It holds the piece array,
  the queue, the active move and the log of tokens forwarded to the logical
  cube. It also holds `applyMove`, `startNextMove`, `updateAnimation`,
  `shuffle`, `solve`, the string split used by `solve`, and the keyboard table.

Angles are exact integers in units of 1e-4 rad. A quarter turn is
`QUARTER = 15708` and the per-tick cap is `SPEED = 1500` (0.15 rad). So a
quarter turn takes 11 ticks and a half turn 21, as with the source's
floating-point values. Because the steps are exact, the completion test
`|current - target| < 0.001` becomes equality.

## Model

| member | source | states |
|---|---|---|
| Geometry.Rotate | main.js:114-119 | a turn about an axis keeps every point's coordinate on that axis and keeps grid points in {-1,0,1}^3 |
| Geometry.RotateIsMatrix | main.js:114-119 | the quarter-turn rotation by k equals the right-handed rotation matrix of angle k*pi/2 about the axis (the convention of `group.rotation[axis]`) |
| Geometry.RotateAdd | main.js:114-115 | turning by j and then by k quarter turns is turning by j + k, so the accumulated angle is all that matters |
| Geometry.RotateInverse | main.js:114-119 | turning back by -k restores every point |
| Registry.LayerIndices | main.js:93 | the selected indices are exactly the pieces whose coordinate on the axis equals the layer, in registry order, each once |
| Registry.LatticePointAt | main.js:27-47 | the nested loops create the point (x, y, z) as piece 9(x+1) + 3(y+1) + (z+1) |
| Registry.LatticeIsLattice | main.js:27-47 | the 27 positions created by the nested loops are pairwise distinct points of {-1,0,1}^3, so they fill the grid |
| Registry.LayersPartition | main.js:93 | the three layers of an axis together hold every piece exactly once |
| Registry.LayerBound | main.js:93 | on distinct positions a layer holds at most as many pieces as a set containing all of them |
| Registry.LayerHasNine | main.js:27-47 | under the registry invariant every (axis, layer) query returns exactly 9 pieces |
| Registry.TurnLayer | main.js:114-120 | a committed turn keeps the number of pieces and every piece's coordinate on the axis, keeps grid points on the grid, and leaves every piece off the layer where it was |
| Registry.TurnKeepsLattice | main.js:117-121 | committing a turn keeps the 27 positions distinct and on the grid |
| Registry.TurnKeepsLayer | main.js:93-119 | after a turn the turned layer is made of the same pieces |
| Registry.TurnAdd | main.js:114-119 | turning a layer by j then k quarter turns equals turning it by j + k |
| Registry.TurnInverse | main.js:114-119 | turning a layer by k and then by -k restores every position |
| Registry.TurnFull | main.js:114-119 | a whole number of full turns leaves every position unchanged |
| Notation.Decode | main.js:58-78 | a decodable token gives a layer of +-1 on the axis of its face's outward normal and a target of +-pi/2 or +-pi |
| Notation.DecodeSelectsFace | main.js:63-70 | a move selects exactly the grid points on the face its letter names (projection 1 on the outward normal) |
| Notation.PlainTurnIsClockwise | main.js:63-70 | each face's base direction makes its plain turn a clockwise quarter turn seen from outside the face, by Rodrigues' formula |
| Notation.ModifierEffect | main.js:72-76 | `'` negates the bare face's direction, `2` doubles it, any other suffix leaves it; axis and layer depend on the face only |
| Notation.DecodeTurns | main.js:72-78 | every decodable token turns by -2, -1, 1 or 2 quarter turns |
| Notation.PrimeUndoesTurn | main.js:72-73 | the prime of a face has the same axis and layer and undoes the face's turn |
| Notation.DoubleIsTwoTurns | main.js:74-75 | the double of a face has the net effect of two plain turns of that face |
| Notation.DoubleIsSelfInverse | main.js:74-78 | a double turn applied twice restores every position |
| Stepping.Step | main.js:111-112 | the step has the sign of the remaining angle, magnitude at most SPEED and at most the remaining angle, and is either a full step or exactly the remainder |
| Stepping.StepConverges | main.js:111-117 | from an angle between 0 and the target, one step keeps it between them, does not decrease its magnitude, strictly shrinks the distance left and uses up one tick |
| Stepping.Ticks | main.js:111-117 | the tick count is zero exactly when nothing remains, and is the least count whose capped steps cover the remaining angle |
| Stepping.TicksIsCeiling | main.js:111-117 | the step rule covers a remaining angle r in exactly ceil(abs(r) / SPEED) ticks |
| Stepping.TurnDurations | main.js:21 | a quarter turn takes 11 ticks and a half turn 21 |
| Engine.ShuffleToken | main.js:128-132 | every draw of a face index and a suffix index builds one of the 18 tokens of the notation |
| Engine.ShuffleDrawsAllTokens | main.js:128-132 | draws and the 18 tokens correspond one to one |
| Engine.Split | main.js:139 | `split(' ')` gives at least one field and no field contains a space |
| Engine.JoinSplit | main.js:139 | joining the fields of a split with single spaces gives back the string |
| Engine.SplitJoin | main.js:139 | splitting the space-joined form of space-free fields gives back those fields |
| Engine.Enqueued | main.js:139 | applying a list of tokens enqueues at most one well-formed move per token |
| Engine.NonEmpty | main.js:55-56 | no more tokens are forwarded than given, none of them empty, and with no empty token all are forwarded as given |
| Engine.NonEmptyMembers | main.js:55-56 | a token is forwarded exactly when it is one of the given tokens and is not empty |
| Engine.NonEmptyConcat | main.js:139 | forwarding the tokens of a + b forwards those of a and then those of b, each once, so with `SingleToken` the forwarded log is fixed in number and order |
| Engine.EnqueuedConcat | main.js:139 | enqueueing the tokens of a + b enqueues the moves of a and then those of b, each once |
| Engine.SingleToken | main.js:55-81 | an empty token forwards and enqueues nothing; any other is forwarded as itself and enqueues its own decoding |
| Engine.EnqueuedIsDecodedNonEmpty | main.js:55-81 | the queue receives exactly one move per forwarded token, the i-th being the decoding of the i-th forwarded token |
| Engine.TokensStep | main.js:139 | one more token adds exactly its own decoded move to the queue and itself to the forwarded log, or nothing if it is empty |
| Engine.EnqueuedOnePerToken | main.js:139 | with no empty field, field i enqueues exactly the decoding of field i |
| Engine.KeyMap | main.js:144 | `s` is the only key that shuffles and `Enter` the only one that solves; exactly the eight listed keys map to a command; a move key is a lower-case letter that issues the plain turn of its upper-case face |
| Engine.KeyCommand | main.js:145 | the key's command wins when it has one, otherwise the code's command is used; nothing is found only if neither maps; every move command is a single plain face letter |
| Engine.AnimationCore.constructor | main.js:25-51 | the pieces are created in x/y/z loop order at the 27 lattice points, with an empty queue and no active move |
| Engine.AnimationCore.ApplyMove | main.js:54-82 | an empty token changes nothing; otherwise the token is forwarded to the logical cube and exactly its decoded move is appended at the tail, earlier entries unchanged |
| Engine.AnimationCore.StartNextMove | main.js:84-103 | with an empty queue or an active move nothing changes; otherwise only the head is removed and becomes the active move at angle 0 over the 9 pieces of its layer |
| Engine.AnimationCore.UpdateAnimation | main.js:105-123 | idle: only starts the next move, no step; rotating: adds one capped step, uses up exactly one remaining tick, and on reaching the target rotates exactly the selected layer and becomes idle |
| Engine.AnimationCore.CommitTurn | main.js:118-120 | the grouped pieces move to their rotated positions and every other piece stays put |
| Engine.AnimationCore.Shuffle | main.js:127-134 | exactly 20 moves are appended in draw order, the i-th from the i-th draw, earlier entries unchanged |
| Engine.AnimationCore.ApplyAll | main.js:139 | applying the tokens in order appends exactly `Enqueued(tokens)` to the queue and `NonEmpty(tokens)` to the forwarded log, and changes nothing else |
| Engine.AnimationCore.Solve | main.js:136-141 | no answer, or an empty one, changes nothing; otherwise every field is applied in order |

## Left out

- Rendering is not modelled. This covers the three.js scene, camera,
  renderer, orbit controls, light, materials, edge geometry and the
  `animate` / `requestAnimationFrame` loop (main.js:1-16, 26, 30-45,
  151-157). Only the lattice positions of `createCube` are kept.
- Piece orientation and face colours are not modelled. The model tracks each
  piece's position only. So the round trip "shuffle then solve restores the
  solved orientations" is not stated.
- The pivot group and the world-transform-preserving `attach` calls
  (main.js:90-94, 114, 118-120) are replaced by their net effect. While a
  move is active, the piece positions stay as they were when it started. The
  group's rotation is the accumulated angle. When the move completes,
  `CommitTurn` applies the rotation by `target / QUARTER` quarter turns to the
  selected pieces. `Math.round` is not needed, because positions are exact
  integers.
- The logical cube (`cubejs`: `initSolver`, `internalCube.move`,
  `internalCube.solve`, main.js:3-6, 56, 137) is an external library. Calls to
  `move` are recorded in the `forwarded` log. The solver's answer is the
  `solution` parameter of `Solve`.
- `Math.random` in `shuffle` (main.js:130-131) is replaced by the `picks`
  parameter: 20 index pairs, each face index below 6 and each suffix index
  below 3.
- Floating-point angles, `Math.PI` and the 0.001 tolerance (main.js:21, 78,
  117) are replaced by exact integer units.
- Engine.AnimationCore.ApplyMove: requires the token to be empty or to start
  with one of `UDLRFB`. The switch at main.js:63-70 has no default branch, so
  nothing rejects an unknown face. Such a token is still forwarded
  (main.js:56), and the entry pushed at main.js:81 has an undefined axis and
  layer and a `NaN` target (main.js:78). When that entry starts, the filter at
  main.js:93 selects no piece. Every step is `NaN` (main.js:112), and
  `Math.abs(NaN) < 0.001` is never true (main.js:117). So the move never
  completes, and every later move stays queued for good, assuming
  `internalCube.move` at main.js:56 returns normally for such a token. The
  model does not represent that entry, and it does not invent a rejection
  path either.
- Engine.AnimationCore.Solve: requires every field of the solver's answer to
  be empty or decodable, because the solver is not part of this model.
- The only falsy token a typed string can be is the empty string, so
  `undefined` and `null` (main.js:55) are not represented.
- A suffix other than `'` or `2` (for example `R3`) decodes like the bare face,
  as the code does (main.js:72-76). The notation has 18 tokens, but the code
  never checks the suffix, so the model does not either.
- The keyboard and resize listeners (main.js:143-149, 159-163) are not
  modelled. Only the key-to-command table and its key-then-code lookup are
  modelled, as `Engine.KeyCommand`.
