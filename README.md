# Game scene: a verified model of the per-frame update

This project models the `Game` scene of a small top-down game (`src/game/scenes/Game.ts`).
Each frame, `update()` moves the player by the held cursor keys and moves one NPC, a frog,
around a fixed cycle inside a rectangle. When the player touches the NPC, the scene shows a
"Ribbet Ribbet!" text for 1000 ms. The text always follows the NPC.

The modules:

- `Heading` (heading.dfy): the four headings and the animation last requested of a sprite.
- `Movement` (movement.dfy): player movement. Left beats right and up beats down. The speed
  is 1 per axis per tick. The walk animation stops when no key is held.
- `Patrol` (patrol.dfy): the NPC's direction switch as a pure step function `Step`, and
  `Run` for `k` ticks. The rectangle is `npcBounds` (left 800, right 1200, top 600,
  bottom 900). The cycle is right, down, left, up, right. Each tick the NPC first moves and
  then tests the bound with the coordinate it just moved. `create()` puts the NPC at
  (1000, 700) and does not assign the heading. The heading is initialised to right once per
  scene instance, so when the engine starts the same instance again the NPC resumes with the
  heading of its previous run (`Spawn`). NPC coordinates are integers in half-units, because
  the NPC moves 0.5 per tick. The proofs rely on that integrality: a coordinate below 1200
  that reaches 1200 after a 0.5 step is exactly 1200.
- `Feedback` (feedback.dfy): `showRibbitText()` and its one-shot hide. The engine's
  `time.delayedCall` becomes an explicit deadline. A hide is pending exactly when the text is
  visible, because only `showRibbitText()` arms one (and only while hidden) and only the hide
  makes the text hidden.
- `Scene` (game.dfy): class `Game` holds the scene's fields. The constructor models the field
  initialiser of `npcDirection` followed by the first `create()`; `Create` models `create()`
  itself, which a restart of the scene runs again.
  `Update` models `update()`, split into `MovePlayer`, `MoveNpc` and `ShowRibbitText`. Each
  method's `ensures` ties the new fields to the pure functions above. `Valid()` is the patrol
  invariant, and `Update` keeps it. `RunDueHide` is the engine firing the due hide callback.
  `Frame` is one engine frame: due callbacks first, then `update()`. `Session` is a usage
  example: a few frames driven through the contracts alone, with asserts on the outcome.

Inputs passed in as parameters: the held keys, the result of `checkCollision`, the clock
time `now` in milliseconds, and the measured `ribbitText.width`.

Consequences worth knowing:

- From the position `create()` sets, whatever the heading, the NPC never leaves the closed
  rectangle (`Patrol.StaysInBounds`). "Inside the rectangle" alone is not preserved by a
  step. The invariant that is preserved, `Patrol.Patrolling`, adds one more condition:
  neither the edge the NPC heads for nor the next edge in the cycle has been reached yet.
- From the first start (heading right), after 800 ticks the NPC is at the bottom-right
  corner heading left. From then on it circles the border of the rectangle, repeating every
  2800 ticks (`Patrol.Periodic`).
- The hide fires before `update()` within a frame. So on a frame where the hide is due and
  the player still touches the NPC, the text is hidden and then shown again at once, with a
  new deadline (`Feedback.HiddenAfterDeadline`). Under continuous contact the text therefore
  stays visible from frame to frame.

## Model

| member | source | states |
|---|---|---|
| Movement.Move | src/game/scenes/Game.ts:158-181 | each axis moves by at most 1; x decreases exactly when left is held; x is unchanged exactly when neither left nor right is held; the same for y with up and down |
| Movement.Animation | src/game/scenes/Game.ts:160-186 | the player's animation is stopped exactly when no key is held; otherwise it is the walk for a held key, vertical over horizontal, left over right, up over down |
| Movement.MoveDeterminedByContract | src/game/scenes/Game.ts:163-181 | the per-axis rules of Move determine the new position completely |
| Movement.AxesIndependent | src/game/scenes/Game.ts:162-181 | a diagonal tick equals a horizontal-only tick followed by a vertical-only tick |
| Movement.LeftBeatsRight | src/game/scenes/Game.ts:163-171 | with left held, also holding right changes nothing, and x decreases by exactly 1 |
| Movement.UpBeatsDown | src/game/scenes/Game.ts:173-181 | with up held, also holding down changes nothing, and y decreases by exactly 1 |
| Patrol.Step | src/game/scenes/Game.ts:188-220 | the NPC moves exactly 0.5 along its heading's axis and keeps its other coordinate; the heading changes if and only if the moved coordinate reached that heading's bound (x >= 1200, y >= 900, x <= 800, y <= 600), and then only to the next heading of the cycle |
| Patrol.StepKeepsPatrolling | src/game/scenes/Game.ts:188-220 | one tick preserves the patrol invariant |
| Patrol.RunKeepsPatrolling | src/game/scenes/Game.ts:188-220 | any number of ticks preserve the patrol invariant |
| Patrol.SpawnPatrolling | src/game/scenes/Game.ts:46 | the position (1000, 700) set by `create()` satisfies the patrol invariant with every heading |
| Patrol.StaysInBounds | src/game/scenes/Game.ts:10-16 | starting from (1000, 700) with any heading, after any number of ticks the NPC lies in [800,1200]x[600,900] and does not head for an edge it stands on |
| Patrol.LegKeepsHeading | src/game/scenes/Game.ts:191-220 | before the NPC has covered its distance to the edge of its heading, it keeps that heading and its other coordinate, and the distance shrinks by one half-unit per tick |
| Patrol.Leg | src/game/scenes/Game.ts:191-220 | after exactly its distance to the edge of its heading, the NPC is on that edge, turned to the next heading of the cycle |
| Patrol.ReachesCorner | src/game/scenes/Game.ts:188-220 | 800 ticks after the start the NPC is at (1200, 900) heading left |
| Patrol.Lap | src/game/scenes/Game.ts:191-220 | from the bottom-right corner heading left, one lap of the border (2800 ticks) returns the NPC to the same state |
| Patrol.Periodic | src/game/scenes/Game.ts:188-220 | after the first 800 ticks the NPC's state repeats every 2800 ticks |
| Feedback.Show | src/game/scenes/Game.ts:247-254 | showing leaves the text visible; it changes nothing when the text is already visible; if the text was hidden, the hide is armed for now + 1000 |
| Feedback.Expire | src/game/scenes/Game.ts:250-252 | after the clock runs, the text is visible if and only if it was visible and its deadline has not come; the deadline is unchanged |
| Feedback.Tick | src/game/scenes/Game.ts:222-225 | after a frame the text is visible if and only if the frame collides or an unexpired show was pending; the deadline is re-armed to now + 1000 exactly when a collision finds the text hidden |
| Feedback.VisibleUntilDeadline | src/game/scenes/Game.ts:247-254 | while the text is visible and its deadline is in the future, no frame changes the marker, whatever the collisions |
| Feedback.ShownOncePerContact | src/game/scenes/Game.ts:222-254 | a contact starting at t while the text is hidden shows it once with hide time t + 1000, however many colliding frames follow before t + 1000 |
| Feedback.HiddenAfterDeadline | src/game/scenes/Game.ts:250-252 | once the deadline has come, a frame without collision ends with the text hidden; a frame with collision hides it and shows it again with a new deadline |
| Scene.Game.constructor | src/game/scenes/Game.ts:10-16 | a new scene instance has `npcDirection` right and, after its first `create()`, the NPC at (1000, 700), the player at (1024, 768) and the text hidden; the patrol invariant holds |
| Scene.Game.Create | src/game/scenes/Game.ts:35-153 | the player is put at (1024, 768) and the NPC at (1000, 700) with its heading unchanged; no animation plays; the text is hidden at the origin with no hide pending; the patrol invariant holds |
| Scene.Game.Update | src/game/scenes/Game.ts:158-232 | the player, NPC and text fields become Move, Step and Show of their old values; the text is placed at (npc.x - width/2, npc.y - 50) using the moved NPC, visible or not; the patrol invariant is kept |
| Scene.Game.MovePlayer | src/game/scenes/Game.ts:159-186 | the key-driven player position and animation match Move and Animation |
| Scene.Game.MoveNpc | src/game/scenes/Game.ts:188-220 | the switch on the NPC's heading computes Step; the NPC's animation is the walk of the heading it moved along; the patrol invariant is kept |
| Scene.Game.ShowRibbitText | src/game/scenes/Game.ts:247-254 | the text and its deadline become Show of their old values, and nothing else changes |
| Scene.Game.RunDueHide | src/game/scenes/Game.ts:250-252 | the due hide callback turns the text and its deadline into Expire of their old values |
| Scene.Game.Frame | src/game/scenes/Game.ts:222-231 | a whole frame (due hide, then update) turns the text state into Tick of its old value and moves the player and NPC as in Update |

## Left out

- Asset loading in `preload()` and the animation frame tables: engine bindings with no behaviour.
- The camera (follow, bounds, zoom), the `EventBus` event and `changeScene()`: engine plumbing.
- `checkCollision`: it calls the engine's `getBounds()` and rectangle intersection, whose code
  is not part of this model. Its result is an input, and no property of touching rectangles
  is claimed.
- Animation playback: only the name of the last requested animation is kept.
- The engine's timer mechanics: the delayed callback becomes a deadline checked as
  `now >= deadline`, and `now` is a parameter. Per-frame delta accumulation is not modelled.
  Nor is the engine's order within a frame (timer callbacks before `update()`) beyond
  `Scene.Game.Frame`, which assumes it.
- Floating point: positions are exact (integers for the player, integers in half-units for
  the NPC, reals for the text). Every value the code produces from its integer starts is
  exact in floating point too.
- `ribbitText.width` is measured by the engine and is a parameter.
- What happens to a hide still pending when the scene is left: the engine's clock is not
  part of this model; `Create` starts with no hide pending.
