# Storm Chaser: a verified model of the game's core

Storm Chaser is a browser game. The player drives and walks across a square
terrain at night while a tornado hunts them. The tornado levels trees, and it
can flatten the player's house. Each fallen tree pays 25 credits and the house
pays 1000. The money is spent on the in-game tablet: repairs, three upgrade
tracks and better interceptor vehicles.

This project models the game's core in Dafny and proves properties of it:

- **`Game`** (`app.dfy`) is the session the top-level component keeps.
  - Each functional state updater is a pure function from the old session to
    the new one: damage, repair, upgrade, vehicle purchase, the
    tree-destroyed callback, the tornado and clock intervals, entering and
    leaving the car, and driving it.
  - Key F is modelled both as written and corrected; the session's action
    semantics uses the corrected version (see "Findings").
  - It also models the generation of the 2500-tree registry and the invariant
    every reachable session keeps.
- **`Player`** (`player.dfy`) is the per-frame player controller, a class over
  the camera position and the jump state. It covers:
  - driving at a speed set by the model, the engine level and the car's health;
  - walking with normalised diagonals;
  - the jump parabola;
  - the "near the car" prompt;
  - the tornado's two damage bands.
- **`Particles`** (`particles.dfy`) is the debris system, a class holding the
  wood and brick lists. It spawns a burst for the newest destruction event,
  then moves, ages and culls the particles every frame.
- **`CarPhysics`** (`car.dfy`) is the rendered car's flight model. Inside the
  pull radius the car is thrown away from the tornado. It then flies
  ballistically and lands. A class holds the `flyRef` record and the drawn
  group.
- **`InstancedTrees`** (`instanced_trees.dfy`) is the forest renderer's
  per-frame scan over four instanced meshes. Trees in the kill zone are
  reported, fallen trees are parked at a sentinel, and every other tree gets
  its layout.
- **`Terrain`** (`terrain.dfy`) covers:
  - the height field: a sinusoidal undulation plus the boundary wall;
  - the road grid, which uses JavaScript's truncating `%`;
  - the in-place geometry pass that writes heights and vertex colours.
- **`Tablet`** (`tablet_ui.dfy`) is the shop: the vehicle catalogue, upgrade
  costs, and the enabled/disabled state and caption of each button.
- **`Numerics`** and **`Types`** hold the shared vectors, the records of the
  game's types, and the host maths.
  - `Math.sin`, `Math.cos` and `Math.sqrt` are a `MathLib` parameter.
  - Proofs that need them assume only the laws stated in `Lawful`:
    - sine and cosine lie in [-1, 1] and satisfy `sin² + cos² = 1`;
    - cosine is even;
    - `sqrt` is the non-negative root.
  - JavaScript numbers are modelled as exact reals.

Randomness (`Math.random`), time stamps (`Date.now()`), the camera's
orientation and the frame time are parameters of the functions that use them.

Where the code does something a player might not expect, the model follows
the code:

- The reward of 25 is paid on every `onTreeDestroyed` call, even when the tree
  is missing or already down.
- The house check measures the 3-D distance from where the tornado was
  *before* this interval's step.
- The car's spin accumulators are never reset by a landing.
- While driving, the base speeds are 20/30/40. The tablet's catalogue lists
  15/22/30, and that column is never read by the driving code.

## Model

| member | source | states |
|---|---|---|
| Numerics.JsRem | components/Terrain.tsx:19 | JavaScript's `%`: the result has the dividend's sign and is smaller in magnitude than the divisor |
| Numerics.JsRemOdd | components/Terrain.tsx:19 | the truncating remainder is odd in the dividend |
| Numerics.DistBelow | App.tsx:553 | `distanceTo(b) < r` holds exactly when the squared length of the difference is below `r²` |
| Types.Upgrades.WithLevel | App.tsx:464 | the updated upgrade record has the new level on the chosen track and every other track unchanged |
| Terrain.HeightBounds | components/Terrain.tsx:5-14 | the ground is never below -8; it is at most 8 inside the wall-free square; it is at least 142 at and beyond the ground's edge |
| Terrain.UndulationBounded | components/Terrain.tsx:8 | the undulation stays within [-8, 8] |
| Terrain.FlatInsideMargin | components/Terrain.tsx:7-13 | at least 30 inside the edge (in the max-norm), the height is the undulation alone |
| Terrain.WallGrows | components/Terrain.tsx:9-11 | the wall starts at 0, grows strictly with the distance past its start, and is exactly 150 at the edge |
| Terrain.WallPastEdge | components/Terrain.tsx:9-11 | past its start the wall is non-negative, and at or past the edge it is at least 150 |
| Terrain.WallVanishesAtStart | components/Terrain.tsx:10-11 | within `30·d` of its start the wall is at most `150·d²`, so the height is continuous where the wall begins |
| Terrain.HeightEvenInZ | components/Terrain.tsx:5-14 | the height field is symmetric under `z -> -z` |
| Terrain.IsOnRoadSymmetric | components/Terrain.tsx:17-20 | the road test is unchanged by negating either coordinate or by swapping them |
| Terrain.OnRoadNearAxis | components/Terrain.tsx:17-20 | every point within 10 of an axis is on a road |
| Terrain.RoadBand | components/Terrain.tsx:19 | in the k-th positive 300-unit band, a point is on the road exactly in the first 10 units |
| Terrain.FillVertex | components/Terrain.tsx:70-85 | one vertex gets its terrain height and its colour; no other entry of either array changes |
| Terrain.FillGeometry | components/Terrain.tsx:70-85 | each vertex keeps its x and y, gets the terrain height as z, and gets the road colour or the grass colour by the road test |
| Tablet.Catalogue | components/TabletUI.tsx:10-14 | every model id has its catalogue entry, and that entry is one of the listed models |
| Tablet.CatalogueTable | components/TabletUI.tsx:10-14 | three models with distinct ids; prices 0, 1500 and 5000; price, speed and durability increase along the list |
| Tablet.UpgradeCost | components/TabletUI.tsx:108-110 | an upgrade never costs less than 400 |
| Tablet.RowCost | components/TabletUI.tsx:108-110 | every row's cost is `(level + 1) · 400` for its own track |
| Tablet.UpgradeCaption | components/TabletUI.tsx:167 | the caption is MAX exactly at level 5 or above, and otherwise the row's price |
| Tablet.VehicleCaption | components/TabletUI.tsx:90 | ATIVO exactly for the current model; SELECIONAR exactly for another unlocked model; the price exactly for a locked model |
| Tablet.UpgradeRowConsistent | components/TabletUI.tsx:166-167 | a MAX row is always disabled, and a priced row is enabled exactly when the money covers the price shown |
| InstancedTrees.Firing | components/InstancedTrees.tsx:28-45 | every reported position is an index into the registry |
| InstancedTrees.IdsAt | components/InstancedTrees.tsx:43 | the reported ids are the ids of the trees at the reported indices, one each |
| InstancedTrees.FiringExact | components/InstancedTrees.tsx:28-45 | in one frame, a tree is reported exactly when it is standing and in the kill zone; each at most once, in array order |
| InstancedTrees.DestroyedParked | components/InstancedTrees.tsx:29-37 | a fallen tree is never reported; all four of its slots go to the sentinel and keep the dummy's stale scale |
| InstancedTrees.KillIgnoresHeight | components/InstancedTrees.tsx:41-42 | the kill test ignores the heights of both the tree and the tornado |
| InstancedTrees.KillZoneIsPlanarDistance | components/InstancedTrees.tsx:41-42 | the kill test holds exactly when the ground-plane distance is below 8 |
| InstancedTrees.LayersStacked | components/InstancedTrees.tsx:47-72 | the trunk stands on the tree and is `4·scale` tall; the foliage sits 2, 4.5 and 6 above the trunk with shrinking widths; all layers are centred and unrotated |
| InstancedTrees.TreeInstances.constructor | components/InstancedTrees.tsx:83-92 | four distinct meshes with one slot per tree |
| InstancedTrees.TreeInstances.Place | components/InstancedTrees.tsx:47-72 | a surviving tree's four slots get its layer layouts; the dummy ends as the top block; no other slot changes |
| InstancedTrees.TreeInstances.Park | components/InstancedTrees.tsx:29-37 | a fallen tree's four slots get the dummy moved to the sentinel; no other slot changes |
| InstancedTrees.TreeInstances.Visit | components/InstancedTrees.tsx:29-72 | handling one tree parks, reports or lays out exactly its four slots, moves the dummy by one step, and reports the tree exactly when it fires |
| InstancedTrees.TreeInstances.Frame | components/InstancedTrees.tsx:28-73 | the onDestroy calls are the firing trees' ids in order; every slot and the dummy end as the per-tree specification says |
| CarPhysics.WeightFactor | components/Car.tsx:27 | the weight factor is positive: 0.4 for the beast, 0.8 for the tracker, 1.2 for the scout |
| CarPhysics.PullStrength | components/Car.tsx:31 | the pull is never negative, and it vanishes once the chassis level reaches 100/15 |
| CarPhysics.ChassisHelps | components/Car.tsx:30-31 | a higher chassis level raises the pull radius and lowers the pull strength |
| CarPhysics.PullTable | components/Car.tsx:30-31 | for chassis levels 0 to 5, the radius is `(40 + 5c)·w` and the strength is `(100 - 15c)·w > 0` |
| CarPhysics.PullPushesAway | components/Car.tsx:33-41 | a grabbed car flies, gains `delta·strength/2` of lift, adds exactly `5·delta` and `3·delta` to its spin accumulators, and ends exactly `delta·strength` farther from the tornado |
| CarPhysics.PushAlong | components/Car.tsx:39-40 | a push along the normalised offset adds its length to the distance |
| CarPhysics.GroundedCopy | components/Car.tsx:56-60 | a grounded car outside the pull radius shows the session's position and heading, and its flight record is unchanged |
| CarPhysics.Landing | components/Car.tsx:49-55 | more than 0.5 below its resting height, a flying car lands: it stops, sits at the resting height, and is drawn level |
| CarPhysics.FreeFlight | components/Car.tsx:43-48 | in free flight the vertical speed drops by exactly `49·delta` per frame |
| CarPhysics.SpinNeverResets | components/Car.tsx:33-55 | the spin accumulators never decrease and are not reset by landing; they grow exactly when the car is grabbed |
| CarPhysics.EventuallyLands | components/Car.tsx:43-55 | once the tornado stops reaching it, a flying car lands after finitely many frames at a fixed frame time |
| CarPhysics.DescentProgress | components/Car.tsx:44-45 | each frame of flight that does not land decreases the climb/fall measure |
| CarPhysics.Car.constructor | components/Car.tsx:19 | a new car is not flying, is at rest, and has no spin |
| CarPhysics.Car.Frame | components/Car.tsx:21-61 | one frame takes the car state to the flight specification's next state |
| CarPhysics.Car.Grab | components/Car.tsx:33-41 | the pull half of a frame applies the grab inside the radius and changes nothing outside it |
| CarPhysics.Car.Integrate | components/Car.tsx:43-60 | the integration half of a frame follows the flight or landing specification, or copies the session's record |
| Game.InitialSession | App.tsx:305-344 | a new game starts on the start screen with the tablet closed, at 20:00 (night), with 500 credits, full health, no trees, no events, the house standing, every upgrade at level 0, the tornado at (600, 0, 600), and only the scout unlocked and parked at (35, 0, 35) facing rotation 0, not driven, with 100 health |
| Game.DamageEffect | App.tsx:435-448 | health drops by the amount, clamps at 0 and stays 0 once 0; a driven car loses a tenth of the amount, clamped at 0; nothing else changes |
| Game.RepairEffect | App.tsx:450-457 | with 250 credits and a car, 250 is paid and the car is at health 100; otherwise nothing changes |
| Game.UpgradeEffect | App.tsx:459-467 | the session changes exactly when the money covers `(level + 1)·400` and the level is below 5; then that level rises by one and the cost is paid |
| Game.BuyEffect | App.tsx:469-478 | a locked, affordable model is bought once, repaired and made current; an unlocked one is selected for free; otherwise nothing changes |
| Game.UpgradeButtonAgrees | components/TabletUI.tsx:167 | an upgrade button is enabled exactly when clicking it changes the session |
| Game.RepairButtonAgrees | components/TabletUI.tsx:105 | an enabled repair button charges 250 and repairs fully; a damaged car's disabled button would change nothing |
| Game.VehicleButtonAgrees | components/TabletUI.tsx:82-90 | an enabled vehicle button puts the car on that model and charges the caption's price, or nothing for SELECIONAR; ATIVO changes nothing |
| Game.FindTree | App.tsx:565 | `find` returns the first tree with the id, or none when no tree has it |
| Game.FindByIndex | App.tsx:528-531 | in the generated registry, where the id is the index, `find` returns the index exactly when it is in range |
| Game.TreeCallForm | App.tsx:563-573 | in a registry whose ids are the indices, a call for a standing tree marks exactly that entry, appends one tree event at its position and pays 25; any other call only pays 25 |
| Game.TreeDestroyedEffect | App.tsx:563-573 | the call pays 25 every time; it fells exactly the matching tree and records one event at its position, only if that tree was standing; nothing else changes |
| Game.TreeRewardRepeats | App.tsx:563-573 | a repeated call for the same tree pays 25 again but fells and records nothing |
| Game.UnknownTreePays | App.tsx:572 | a call for an id no tree has still pays 25 and changes nothing else |
| Game.ApplyDistinct | App.tsx:563-573 | calls for distinct standing trees fell exactly those, pay 25 each and record one tree event each |
| Game.IdsAtIndices | components/InstancedTrees.tsx:43 | in an id-indexed registry, the reported ids are the scan's indices |
| Game.NothingToReport | components/InstancedTrees.tsx:28-45 | with no standing tree in the kill zone, the scan reports nothing |
| Game.ScanThenCallbacks | components/InstancedTrees.tsx:41-45 | after a scan and its callbacks, exactly the standing trees in the kill zone have fallen, 25 is paid per call, a rescan reports nothing, and the invariant holds |
| Game.GenerateTrees | App.tsx:527-534 | one tree per draw, with ids equal to indices |
| Game.TreeShape | App.tsx:528-531 | a tree drawn from values in [0, 1) sits within ±8 of height 0 and has scale in [3, 10) |
| Game.GeneratedTrees | App.tsx:528-531 | generated trees stand within ±700, on the ground, within ±8 of height 0, with scale in [3, 10), and none has fallen |
| Game.NewGame | App.tsx:527-534 | a new game holds 2500 trees |
| Game.ClockWraps | App.tsx:538 | the clock advances by 0.03, wraps from 24 back to 0, and stays in [0, 24) |
| Game.ClockTick | App.tsx:536-540 | the clock interval changes only the time, and changes nothing outside play or while the tablet is open |
| Game.TornadoGrounded | App.tsx:545-550 | after each step the tornado is on the ground, at height -8 or above |
| Game.TornadoTickEffect | App.tsx:542-561 | by day, outside play or with the tablet open, nothing changes; otherwise the tornado steps, and the house falls once, paying 1000, if the tornado was within 45 before the step |
| Game.TornadoPursuit | App.tsx:547-548 | the new horizontal offset to the player is the old offset scaled by `1 - 5.5/d` |
| Game.PursuitByRoot | App.tsx:547-548 | the same scaling, for any host whose `normalize` divides the offset by a positive length `d` |
| Game.TornadoCloses | App.tsx:547-548 | farther than 2.75 away, each step brings the tornado strictly closer to the player horizontally |
| Game.FrameDamageWellFormed | App.tsx:280-284 | the damage the player's frame reports is never negative |
| Game.ToggleTwice | App.tsx:168-173 | pressing F twice at the same spot restores the session; a press that acts flips the driving flag |
| Game.NewGameInv | App.tsx:305-344 | a new game satisfies the session invariant |
| Game.ApplyInv | App.tsx:435-573 | every handler preserves the invariant: money ≥ 0; levels 0..5; the scout unlocked and no model unlocked twice; healths in [0, 100]; the car's model unlocked; time in [0, 24); one house event exactly when the house has fallen; one tree event per fallen tree |
| Game.DamageInv | App.tsx:435-448 | a non-negative hit keeps the session invariant |
| Game.RepairInv | App.tsx:450-457 | a repair keeps the session invariant |
| Game.UpgradeInv | App.tsx:459-467 | an upgrade purchase keeps the session invariant |
| Game.BuyInv | App.tsx:469-478 | buying or selecting a model keeps the session invariant |
| Game.TreeDestroyedInv | App.tsx:563-573 | the tree callback keeps the session invariant: a felled tree adds exactly one tree event |
| Game.TornadoInv | App.tsx:542-561 | the tornado interval keeps the session invariant: the house event is added only while the house stands, and marks it fallen |
| Game.ClockInv | App.tsx:536-540 | the clock interval keeps the session invariant, the time staying in [0, 24) |
| Game.ToggleInv | App.tsx:168-173 | getting in or out of the car, with the corrected key F, keeps the session invariant |
| Player.ChaseCameraFar | App.tsx:234 | the chase camera is always at squared distance 449 from the car, so never within the 15-unit reach of key F |
| Game.CannotLeaveCar | App.tsx:168-173 | as written, key F pressed from the chase camera leaves a driven car's session unchanged |
| Game.LeaveAlways | App.tsx:168-173 | corrected key F: a press while driving always gets the player out, whatever the camera position, and changes nothing else |
| Game.LeaveFromChaseCamera | App.tsx:168-173 | from the chase camera the written toggle does nothing while the corrected one gets the player out |
| Game.EnterAsWritten | App.tsx:168-173 | for a parked car (or none) the corrected key F is exactly the toggle as written |
| Game.EnterThenLeave | App.tsx:168-173 | after getting in, the next press of the corrected key F, from anywhere, restores the session |
| Game.DriveInv | App.tsx:206-231 | a frame of driving keeps the session invariant |
| Game.RunInv | App.tsx:435-573 | any sequence of well-formed actions preserves the invariant |
| Game.HouseFallsOnce | App.tsx:552-558 | from a new game, in every play-through, the house event is recorded at most once and the money never goes negative |
| Player.Flag | App.tsx:241-242 | `Number(bool)` is 0 or 1 |
| Player.DriveSpeedRange | App.tsx:207-215 | drive speed lies between 30% and 100% of (base + 10·engine), and equals the full value at health 100 |
| Player.DriveSpeedMonotone | App.tsx:208-215 | more engine and more health never make the car slower; the tracker is faster than the scout and the beast faster than the tracker |
| Player.AdvanceOffset | App.tsx:222-229 | each horizontal coordinate moves by the heading component times the net throttle (forward 1, reverse 0.5) |
| Player.DriveDisplacement | App.tsx:217-229 | in the ground plane, a frame moves the car by exactly `throttle·speed·delta`, in whichever direction it faces |
| Player.OnUnitHeading | App.tsx:220-229 | the same displacement, for any heading on the unit circle |
| Player.DriveTurnsAndGrounds | App.tsx:217-231 | the turn keys turn the car by `1.8·delta` each way; the car ends on the ground; its model, health and driving flag are kept |
| Player.JumpFrame | App.tsx:252-262 | the player never ends below eye level; a finished jump leaves them at eye level; on foot without a jump they stand at eye level |
| Player.JumpArc | App.tsx:252-259 | over flat ground the k-th frame of a jump is at height `0.011·k·(51 - k)` with speed `0.55 - 0.022·k` |
| Player.JumpLands | App.tsx:255-259 | the jump lands on frame 51, at eye level and at rest, and stays landed |
| Player.LocalStepLength | App.tsx:238-244 | a walking step, diagonal or straight, is exactly `speed·delta` long |
| Player.DamageBands | App.tsx:280-284 | damage is reported exactly when the tornado is out and within 100: 450/s within 50, 35/s from 50 to 100 |
| Player.DamageMonotone | App.tsx:282-283 | closer to the tornado, the damage is never lower |
| Player.PlayerController.constructor | App.tsx:674 | the camera starts at (0, 5, 0), not jumping, with no car prompt |
| Player.PlayerController.PressSpace | App.tsx:158-166 | Space starts a jump at speed 0.55 exactly when play is not paused, no jump is under way, and the player is not driving |
| Player.PlayerController.UpdateNearCar | App.tsx:197-204 | the prompt shows exactly when the camera is within 15 of a parked car |
| Player.PlayerController.Drive | App.tsx:206-236 | the driven car is the driving specification's next car; the camera sits 7 up and 20 behind it; the jump state is kept |
| Player.PlayerController.Walk | App.tsx:237-262 | the camera moves by the oriented step, and its height follows the jump specification over the new ground |
| Player.PlayerController.Frame | App.tsx:192-285 | paused: nothing changes, the car prompt included; otherwise the prompt updates when there is a car (and is kept when there is none), then the player drives (camera at the chase position) or walks (camera moved by the oriented step, height by the jump specification), and damage is reported from the new position |
| Particles.BurstShape | App.tsx:61-74 | every new particle has life 1, flies up at 15 to 35, starts up to 5 above the event, and is brick for the house or wood for a tree |
| Particles.SurvivorsExact | App.tsx:96 | the filter keeps exactly the live particles, never grows the list, and keeps an all-live list whole |
| Particles.SurvivorsCount | App.tsx:96 | each live particle survives exactly as many times as it occurs, a dead one zero times |
| Particles.SurvivorsAppend | App.tsx:96 | the filter keeps order: filtering a concatenation is the concatenation of the filtered parts |
| Particles.StepLives | App.tsx:84-96 | after a frame every surviving particle is alive and has lost `0.7·delta` of life |
| Particles.LivesFall | App.tsx:78-103 | after n frames every particle has lost `n·0.7·delta` of life |
| Particles.BurstExpires | App.tsx:71-96 | once `n·0.7·delta ≥ 1`, every particle of a burst is gone |
| Particles.DestructionParticles.constructor | App.tsx:51-52 | both lists start empty |
| Particles.DestructionParticles.Spawn | App.tsx:54-76 | only the newest event spawns: 40 bricks for the house or 12 wood chips for a tree, appended to the matching list |
| Particles.DestructionParticles.Process | App.tsx:79-99 | in-place updating and then filtering gives the one-frame specification `StepAll` |
| Particles.DestructionParticles.Frame | App.tsx:78-103 | both lists advance exactly one frame |

## Left out

- Rendering is not modelled: meshes, materials, textures, lights, sky, camera `lookAt`, the flashlight target, the particles' display scale and mesh counts, and `instanceMatrix` updates.
- Audio (jump, footsteps, cash and crash sounds) and the mute switch have no effect on state and are not modelled.
- Persistence is not modelled: save/load through `localStorage`, video recording, and the gallery.
- The Gemini service call is not modelled.
- The intro cutscene, the story screens, and the transitions between game phases are not modelled; the phase is a field the handlers only read.
- Radar placement (key H, `handlePlaceRadar`), the inventory and flashlight toggles, the tablet toggle (key C), and the brief damage flash (`takingDamage`) are not modelled.
- The footstep timer drives only audio and is not modelled.
- Mount guards (`if (!groupRef.current) return`, the meshes' null checks, and `if (!mesh) return`) are not modelled; each component is modelled as mounted.
- React's scheduling is simplified: each handler applies all of its state updates at once, and effects run when their dependencies change.
- IEEE-754 rounding, overflow, NaN and infinities are not modelled. Numbers are exact reals, and `Math.sin`, `Math.cos` and `Math.sqrt` are host functions constrained only by `Lawful`.
- Player.PlayerController.Walk: the camera's orientation (the pointer-lock quaternion) is an arbitrary function parameter, so the walking length is proved for the local step (`Player.LocalStepLength`) and not after rotation.
- Player.PlayerController.Drive: the car record the source mutates in place, shared with the session's state, is passed by value and the driven copy is returned, so that aliasing is not captured; `Game.DriveCar` writes it back.
- CarPhysics.Car.Frame: the component's group is separate from the session's car record and does not write to it; the session record is an input.
- Game.TornadoTickEffect: the stale closure is modelled as the pre-step position; React's batching of the position update with the check is not.
- Game.ApplyInv: damage actions are assumed non-negative (`WellFormed`), which the frame loop guarantees (`Game.FrameDamageWellFormed`); direct calls with negative amounts are not covered.
- Terrain.FillGeometry: vertex colours are the hex channels divided by 255; three.js's conversion to its linear working colour space is not modelled.
- Random draws (`Math.random`) and time stamps (`Date.now()`) are parameters; the model does not capture their distribution or uniqueness.

## Findings

| source | as written | input that shows it | evidently intended | confidence | as-written member | corrected member |
|---|---|---|---|---|---|---|
| App.tsx:168-173 | key F toggles driving only when the camera is within 15 units of the car; while driving, every frame (App.tsx:234) puts the camera 7 up and 20 behind the car, √449 ≈ 21.2 away | any session with the car driven and the camera at the chase position set by the previous frame: the press does nothing, so the player can never leave the car | a press while driving leaves the car; the 15-unit test applies to getting in | not executed | Game.CannotLeaveCar | Game.EnterOrLeaveCar |
