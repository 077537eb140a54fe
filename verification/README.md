# Visitor interaction controller, modelled in Dafny

This project models the first-person visitor of an interactive exhibit
space (`scripts/Visitor.cs`): the controller that tracks the exhibit under
the visitor's look-raycast, fills or clears an info panel from the
exhibit's `about` metadata, locks the view onto an exhibit camera named by
the `cvc` metadata, and handles mouse look, the spotlight toggle and the
spotlight focus.

The engine disappears into data:

- The scene (`Exhibits.Scene`) is a map from a node to its parent's metadata
  (an optional `about` dictionary and an optional `cvc` camera path), a map
  from a node and a `cvc` path to the camera that path names from the node's
  parent, the visitor's own `%camera` and the language code. `GetParent`, `HasMeta`, `GetMeta` and `GetNodeOrNull` become lookups
  in these maps.
- The controller state (`Controller.Visitor`) is an immutable record. It
  holds the view state (`FreeLook` stands for the `View` handler, `Locked`
  for `QuitView`) and the active camera. It holds the target and the armed
  render-tick action (`NoAction`, `InspectNode(n)` or `UndoAction`). It holds
  the panel, whose fields exist only when their sub-elements do. Last come
  the light colour and the colour captured at start-up, the spot angle, and
  the head's pitch and the neck's yaw.
- Each callback is a pure function: `Ready`, `PhysicsProcess` (the raycast
  half only, with the collider as input), `Process`, `UnhandledInput`, and
  the handlers `Inspect`, `UndoInspect`, `View` and `QuitView`.
  `Session.Run` applies a sequence of callbacks.
- The one exception in the code is kept as an outcome. `UndoInspect`
  dereferences the panel layer without checking it (line 136), so clearing
  with no layer returns `Failure(NullLayer)` before anything is written.
  The host logs the exception and keeps calling back, so `Session.Run`
  carries the unchanged state on to the next callback.

Two quirks of the code are kept as written:

- Every physics tick that reports a collider re-arms the inspection, even
  when the collider is unchanged. The panel is therefore re-populated once
  per physics tick, not once per distinct target.
  `Properties.RepopulationIsHarmless` proves that the repeated population
  leaves the state exactly as the first one left it.
- An inspection that returns early does not disarm. Each later render tick
  retries it until the next physics tick re-arms.

Other behaviour of the code worth knowing:

- The FreeLook handler also stays put when the `cvc` path resolves to no camera.
- With no layer set, clearing the panel throws at line 136 on every render
  tick, leaving the clear armed and the target held, until a physics tick
  with a collider re-arms. Populating the panel checks for the layer.
- When the captured colour is black, the toggle does nothing: the light stays black.
- The cone stays within [5, 30] degrees only if it starts there. A wider
  starting cone is narrowed one degree at a time by focus-inc, and focus-dec
  snaps it to 30.

## Model

| member | source | states |
|---|---|---|
| Controller.Ready | scripts/Visitor.cs:61-74 | start-up is in free look with no target and nothing armed; the light's current colour becomes the colour to restore, so the light starts on one of its two colours; the camera, panel, cone, pitch and yaw are kept as given |
| Controller.PhysicsProcess | scripts/Visitor.cs:45-54 | a collider becomes the target and arms an inspection of it, even when it already was the target; with no collider the clearing action is armed and the old target is kept; nothing else changes and the armed inspection aims at the target |
| Controller.Process | scripts/Visitor.cs:56-60 | the render tick runs the armed action: an armed inspection runs `Inspect` on its node, an armed clear runs `UndoInspect`; it faults exactly when clearing a panel with no layer; with nothing armed nothing changes; it touches only the panel, the target and the armed action; an action still armed afterwards means nothing changed |
| Controller.Inspect | scripts/Visitor.cs:104-133 | with no layer, no `about` or an empty `about`, the state is unchanged and the action stays armed; otherwise the name and the description are each written from their localised key only when that key and that sub-element exist, and kept otherwise; the panel keeps its sub-elements and the action is disarmed |
| Controller.UndoInspect | scripts/Visitor.cs:134-149 | fails exactly when there is no panel layer; otherwise every existing field becomes empty text, no sub-element appears or disappears, the target is cleared and the action disarmed |
| Controller.View | scripts/Visitor.cs:150-162 | no change when the target is absent, when its parent has no `cvc`, or when the `cvc` path names no camera; otherwise the named camera becomes active and the view locks, nothing else changing |
| Controller.ClampPitch | scripts/Visitor.cs:83-90 | the resulting pitch lies within plus or minus 90 degrees and is the in-range angle nearest to the rotated one |
| Controller.MouseLook | scripts/Visitor.cs:79-91 | the pitch ends within plus or minus 90 degrees and is the rotated angle clamped by overwrite, so it equals the rotated angle when that is in range; the yaw accumulates unclamped; nothing else changes |
| Controller.ToggleLight | scripts/Visitor.cs:92-93 | the light ends on black or the captured colour; it ends on the captured colour exactly when it did not show the captured colour, or that colour is black |
| Controller.FocusInc | scripts/Visitor.cs:94-95 | the cone narrows by one degree but never below 5; it never widens from 5 or more, and an angle in [5, 30] stays there |
| Controller.FocusDec | scripts/Visitor.cs:96-97 | the cone widens by one degree but never beyond 30; it never narrows from 30 or less, and an angle in [5, 30] stays there |
| Controller.UnhandledInput | scripts/Visitor.cs:75-103 | in free look, a motion turns the yaw and sets the clamped pitch, the toggle toggles the light, focus-inc then focus-dec step the cone, and interact has the effect of `View` on the view state and camera; when locked, only interact has an effect, and it restores the own camera and free look; without interact neither the view state nor the camera changes; the target, armed action, panel and captured colour are never touched; the pitch, cone and light ranges are kept |
| Session.Step | scripts/Visitor.cs:20-103 | a physics tick runs `PhysicsProcess` on the collider, a render tick runs `Process`, an input runs `UnhandledInput`; only a render tick that clears a layer-less panel faults; only an interact input changes the view state or the camera; physics and render ticks leave the light, cone and head alone |
| Controller.QuitView | scripts/Visitor.cs:163-167 | the visitor's own camera becomes active and free look resumes, nothing else changing |
| Controller.Interact | scripts/Visitor.cs:100-101 | the view state machine: when locked, interact returns to free look on the own camera; in free look it changes nothing without a target or a resolvable `cvc` camera, and otherwise locks onto that camera; the view state changes exactly when it was locked or the target's camera resolves |
| Controller.LookAndLight | scripts/Visitor.cs:79-97 | in the script's order: a motion turns the yaw and sets the pitch to the clamped rotated angle, otherwise the head stays; the toggle toggles the light against the captured colour; focus-inc then focus-dec step the cone; nothing else changes |
| Properties.NameOnlyPopulation | scripts/Visitor.cs:120-130 | with an `about` dictionary that holds only the localised name, an inspection writes the name when its sub-element exists, leaves the description as it was, and disarms |
| Properties.ToggleTwiceRestores | scripts/Visitor.cs:92-93 | from the captured colour, one toggle switches the light to black and a second restores the captured colour, for every captured colour |
| Properties.ToggleAlternates | scripts/Visitor.cs:92-93 | while the light shows one of its two colours and the captured colour is not black, each toggle changes the light and two toggles restore it |
| Properties.InteractRoundTrip | scripts/Visitor.cs:150-167 | interact on a target with a resolvable `cvc` locks the view on that camera; the next interact returns to free look on the own camera with everything else as before |
| Properties.ViewChangesOnlyOnInteract | scripts/Visitor.cs:100-101 | any callback sequence without interact keeps the view state and the active camera |
| Properties.LockedIgnoresInput | scripts/Visitor.cs:77-101 | while locked and until the next interact, no callback changes the pitch, yaw, light colour, cone angle or active camera |
| Properties.SpotStaysInRange | scripts/Visitor.cs:94-97 | a cone that starts within [5, 30] degrees stays within it for any callback sequence |
| Properties.PitchStaysInRange | scripts/Visitor.cs:83-90 | a pitch that starts within plus or minus 90 degrees stays within it for any callback sequence |
| Properties.LightStaysTwoValued | scripts/Visitor.cs:71-93 | a light that shows its captured colour or black keeps doing so for any callback sequence, and the captured colour never changes |
| Properties.StaysCoherent | scripts/Visitor.cs:45-58 | an armed inspection always aims at the current target, for any callback sequence |
| Properties.ReadyInvariants | scripts/Visitor.cs:61-74 | from start-up, every callback sequence leaves the light on one of its two colours, the captured colour unchanged and the armed inspection aimed at the target |
| Properties.EarlyReturnStaysArmed | scripts/Visitor.cs:104-118 | an inspection that returns early stays armed, so any number of render ticks leave the state exactly as it was |
| Properties.LayerlessClearRepeats | scripts/Visitor.cs:134-149 | with no panel layer, an armed clear faults on every one of any number of render ticks and leaves the state, the armed clear and the target exactly as they were |
| Properties.WriteFieldIdempotent | scripts/Visitor.cs:120-130 | offering the same metadata to a panel field twice leaves what the first offer wrote |
| Properties.RepopulationIsHarmless | scripts/Visitor.cs:45-58 | after a physics and render round on an exhibit that can be inspected, the action is disarmed, yet the next physics tick re-arms it on the unchanged target; the second round leaves the state exactly as the first left it |
| Properties.StaleTargetStillLocks | scripts/Visitor.cs:45-54 | after a physics tick with no collider the old target is still held, so an interact before the render tick still locks onto the old exhibit's camera |
| Properties.ClearedTargetCannotLock | scripts/Visitor.cs:134-152 | once a render tick has cleared the panel, the target is gone and an interact leaves free look and the camera unchanged |

## Left out

- Movement (`MoveAndSlide`, `IsOnFloor`, `MoveAndCollide` along the head's yaw-projected axes, lines 22-43) is engine physics on float vectors. It runs only when grounded and in free look. The model has no position.
- Raycast geometry: the collider `GetCollider` reports is an input of `PhysicsProcess`. A collider that is not a node is modelled as no collider.
- Rotation math: the turn of 0.0075 radians per pixel, the conversion to degrees and the Euler-angle extraction behind `RotationDegrees` are engine floating point. A `Motion` carries the yaw and pitch turns already in degrees, and the model keeps the update-then-clamp step.
- Node lookup by unique name (`GetNode`, `HasNode`, `GetNodeOrNull`) is presence in the scene maps and in the panel's optional fields. The `cvc` path is resolved relative to the exhibit's parent; the model keys the camera map by the exhibit node and the path, and does not force two children of one parent to resolve a path alike.
- A `cvc` or `about` value of the wrong variant type is not modelled. An `about` that is not a dictionary is treated like a missing one.
- Rendering, mouse capture (line 73), `Velocity` set at start-up and `GD.Print` logging are not modelled. `MakeCurrent` is an assignment to the active camera.
- Input polling: `IsActionJustPressed` and `IsActionPressed` are read while an unhandled event is handled, so several events in one frame can each see the same press. Each event is modelled as one step that carries the polled actions. The event is applied in the script's order: motion, toggle, focus-inc, focus-dec, then interact.
- A target node freed by the engine, or a target without a parent, is not modelled. The target is a handle that stays valid.
- Floating-point spot angles and colours are modelled as reals. Colour equality is exact component equality.
