/**
  The first-person visitor: an immutable state record and one pure function
  per engine callback or handler of the visitor script (`_Ready`,
  `_PhysicsProcess`, `_Process`, `_UnhandledInput`, `Inspect`,
  `UndoInspect`, `View`, `QuitView`).
 */
module Controller {
  import opened Outcomes
  import opened Exhibits

  /** A light colour; colours are compared component-wise, as the engine does. */
  datatype Color = Color(r: real, g: real, b: real, a: real)

  /** The engine's opaque black, the colour of a switched-off spotlight. */
  const Black: Color := Color(0.0, 0.0, 0.0, 1.0)

  /** Narrowest and widest spotlight cone, in degrees. */
  const MinSpot: real := 5.0
  const MaxSpot: real := 30.0

  /** The head's pitch is kept within plus or minus this many degrees. */
  const PitchLimit: real := 90.0

  /** Which handler the interact input invokes: `View` in FreeLook, `QuitView` when Locked. */
  datatype ViewState = FreeLook | Locked

  /** The action the next render tick invokes; NoAction is the script's `null`. */
  datatype InspectAction = NoAction | InspectNode(node: Node) | UndoAction

  /** The info panel's text elements; a field is None when its sub-element does not exist. */
  datatype Panel = Panel(name: Option<string>, description: Option<string>)

  /** A fault that aborts a callback: `UndoInspect` dereferences a missing panel layer. */
  datatype Fault = NullLayer

  /**
    The controller state. `panel` is None when no panel layer is set;
    `original` is the light colour captured at start-up; `pitch` and `yaw`
    are the head's and the neck's rotations, in degrees.
   */
  datatype Visitor = Visitor(
    view: ViewState,
    active: Camera,
    target: Option<Node>,
    pending: InspectAction,
    panel: Option<Panel>,
    light: Color,
    original: Color,
    spot: real,
    pitch: real,
    yaw: real)

  /** A mouse motion, already turned into degrees of neck yaw and head pitch. */
  datatype Motion = Motion(yawTurn: real, pitchTurn: real)

  /**
    One unhandled input event together with the actions polled while it is
    handled: toggle and interact were just pressed, the focus actions are held.
   */
  datatype InputEvent = InputEvent(
    motion: Option<Motion>,
    toggleLight: bool,
    focusInc: bool,
    focusDec: bool,
    interact: bool)

  /** Two optional panels have the same layer and the same sub-elements. */
  predicate SameShape(p: Option<Panel>, q: Option<Panel>)
  {
    && p.Some? == q.Some?
    && (p.Some? ==> p.value.name.Some? == q.value.name.Some? && p.value.description.Some? == q.value.description.Some?)
  }

  /** Every render-tick action aimed at a node aims at the current target. */
  predicate Coherent(v: Visitor)
  {
    v.pending.InspectNode? ==> v.target == Some(v.pending.node)
  }

  /** The light is either at its captured colour or switched off. */
  predicate LightTwoValued(v: Visitor)
  {
    v.light == v.original || v.light == Black
  }

  /**
    The state after `_Ready`: free look, no target, nothing armed, and the
    light's current colour captured as the colour to restore.
   */
  function Ready(active: Camera, panel: Option<Panel>, light: Color, spot: real, pitch: real, yaw: real): (v: Visitor)
    ensures v.view == FreeLook && v.target.None? && v.pending == NoAction
    ensures v.original == light && v.light == light
    ensures v.active == active && v.panel == panel
    ensures v.spot == spot && v.pitch == pitch && v.yaw == yaw
    ensures Coherent(v) && LightTwoValued(v)
  {
    Visitor(FreeLook, active, None, NoAction, panel, light, light, spot, pitch, yaw)
  }

  /**
    The raycast half of a physics tick. A collider becomes the target and
    arms an inspection of it, even when it already was the target; without
    a collider the clearing action is armed and the target is kept until
    that action runs.
   */
  function PhysicsProcess(v: Visitor, collider: Option<Node>): (r: Visitor)
    ensures collider.Some? ==> r.target == collider && r.pending == InspectNode(collider.value)
    ensures collider.None? ==> r.target == v.target && r.pending == UndoAction
    ensures r == v.(target := r.target, pending := r.pending)
    ensures Coherent(r)
  {
    match collider
    case Some(n) => v.(target := Some(n), pending := InspectNode(n))
    case None => v.(pending := UndoAction)
  }

  /** An inspection of n gets past the early returns: a layer and a non-empty `about`. */
  predicate CanPopulate(v: Visitor, scene: Scene, n: Node)
  {
    v.panel.Some? && About(scene, n).Some? && |About(scene, n).value| > 0
  }

  /** The text a panel field holds after an inspection offers `about[key]` to it. */
  function WriteField(field: Option<string>, about: map<string, string>, key: string): Option<string>
  {
    if field.Some? && key in about then Some(about[key]) else field
  }

  /**
    Fill the panel from the `about` metadata of n's parent. Without a layer,
    without `about`, or with an empty `about` nothing changes and the action
    stays armed. Otherwise each field is written on its own, when both its
    localised key and its sub-element exist, and the action is disarmed.
   */
  function Inspect(v: Visitor, scene: Scene, n: Node): (r: Visitor)
    ensures !CanPopulate(v, scene, n) ==> r == v
    ensures CanPopulate(v, scene, n) ==>
      && r == v.(panel := r.panel, pending := NoAction)
      && SameShape(v.panel, r.panel)
    ensures CanPopulate(v, scene, n) ==>
      var about := About(scene, n).value;
      var key := NameKey(scene.language);
      && (v.panel.value.name.Some? && key in about ==> r.panel.value.name == Some(about[key]))
      && (v.panel.value.name.None? || key !in about ==> r.panel.value.name == v.panel.value.name)
    ensures CanPopulate(v, scene, n) ==>
      var about := About(scene, n).value;
      var key := DescriptionKey(scene.language);
      && (v.panel.value.description.Some? && key in about ==> r.panel.value.description == Some(about[key]))
      && (v.panel.value.description.None? || key !in about ==> r.panel.value.description == v.panel.value.description)
  {
    if !CanPopulate(v, scene, n) then v
    else
      var about := About(scene, n).value;
      var p := v.panel.value;
      var name := WriteField(p.name, about, NameKey(scene.language));
      var description := WriteField(p.description, about, DescriptionKey(scene.language));
      v.(panel := Some(Panel(name, description)), pending := NoAction)
  }

  /**
    Blank every panel field that exists, forget the target and disarm. The
    layer is dereferenced without a check, so a missing layer is a fault.
   */
  function UndoInspect(v: Visitor): (r: Result<Visitor, Fault>)
    ensures r.Failure? <==> v.panel.None?
    ensures r.Success? ==>
      && r.value == v.(panel := r.value.panel, target := None, pending := NoAction)
      && SameShape(v.panel, r.value.panel)
      && (r.value.panel.value.name.Some? ==> r.value.panel.value.name == Some(""))
      && (r.value.panel.value.description.Some? ==> r.value.panel.value.description == Some(""))
  {
    match v.panel
    case None => Failure(NullLayer)
    case Some(p) =>
      var name := if p.name.Some? then Some("") else None;
      var description := if p.description.Some? then Some("") else None;
      Success(v.(panel := Some(Panel(name, description)), target := None, pending := NoAction))
  }

  /**
    A render tick runs the armed action. It faults only when clearing a
    panel that has no layer; an action is still armed afterwards only when
    an inspection returned early, which changed nothing.
   */
  function Process(v: Visitor, scene: Scene): (r: Result<Visitor, Fault>)
    ensures r.Failure? <==> v.pending == UndoAction && v.panel.None?
    ensures v.pending == NoAction ==> r == Success(v)
    ensures v.pending.InspectNode? ==> r == Success(Inspect(v, scene, v.pending.node))
    ensures v.pending == UndoAction ==> r == UndoInspect(v)
    ensures r.Success? ==> r.value == v.(panel := r.value.panel, target := r.value.target, pending := r.value.pending)
    ensures r.Success? && r.value.pending != NoAction ==> r.value == v
    ensures r.Success? ==> SameShape(v.panel, r.value.panel)
  {
    match v.pending
    case NoAction => Success(v)
    case InspectNode(n) => Success(Inspect(v, scene, n))
    case UndoAction => UndoInspect(v)
  }

  /**
    The FreeLook interact handler: switch to the exhibit camera that the
    target's parent names through `cvc` and lock the view. Without a target,
    without `cvc`, or when the path names no camera, nothing changes.
   */
  function View(v: Visitor, scene: Scene): (r: Visitor)
    ensures v.target.None? ==> r == v
    ensures v.target.Some? ==>
      var t := v.target.value;
      && (t !in scene.parentMeta || scene.parentMeta[t].cvc.None? ==> r == v)
      && (t in scene.parentMeta && scene.parentMeta[t].cvc.Some? ==>
            var path := scene.parentMeta[t].cvc.value;
            && ((t, path) !in scene.cameras ==> r == v)
            && ((t, path) in scene.cameras ==> r == v.(active := scene.cameras[(t, path)], view := Locked)))
  {
    match v.target
    case None => v
    case Some(t) =>
      match ExhibitCamera(scene, t)
      case None => v
      case Some(camera) => v.(active := camera, view := Locked)
  }

  /** The Locked interact handler: back to the visitor's own camera and to free look. */
  function QuitView(v: Visitor, scene: Scene): (r: Visitor)
    ensures r.view == FreeLook && r.active == scene.ownCamera
    ensures r == v.(view := r.view, active := r.active)
  {
    v.(active := scene.ownCamera, view := FreeLook)
  }

  /**
    The interact input invokes the handler of the current view state: the
    view state machine FreeLook -> Locked (on a target whose `cvc` camera
    resolves) -> FreeLook (on the visitor's own camera).
   */
  function Interact(v: Visitor, scene: Scene): (r: Visitor)
    ensures v.view == Locked ==> r == v.(view := FreeLook, active := scene.ownCamera)
    ensures v.view == FreeLook && (v.target.None? || ExhibitCamera(scene, v.target.value).None?) ==> r == v
    ensures v.view == FreeLook && v.target.Some? && ExhibitCamera(scene, v.target.value).Some? ==>
      r == v.(view := Locked, active := ExhibitCamera(scene, v.target.value).value)
    ensures r.view != v.view <==> v.view == Locked || (v.target.Some? && ExhibitCamera(scene, v.target.value).Some?)
  {
    match v.view
    case FreeLook => View(v, scene)
    case Locked => QuitView(v, scene)
  }

  /** Distance between two angles on the real line. */
  function Dist(a: real, b: real): real
  {
    if a >= b then a - b else b - a
  }

  /**
    The head's pitch after a rotation: the reachable angle nearest to p,
    obtained by overwriting an out-of-range angle with the limit.
   */
  function ClampPitch(p: real): (r: real)
    ensures -PitchLimit <= r <= PitchLimit
    ensures forall q :: -PitchLimit <= q <= PitchLimit ==> Dist(r, p) <= Dist(q, p)
  {
    if p > PitchLimit then PitchLimit
    else if p < -PitchLimit then -PitchLimit
    else p
  }

  /** Mouse look: the yaw turns freely, the pitch turns and is then clamped. */
  function MouseLook(v: Visitor, m: Motion): (r: Visitor)
    ensures -PitchLimit <= r.pitch <= PitchLimit
    ensures -PitchLimit <= v.pitch + m.pitchTurn <= PitchLimit ==> r.pitch == v.pitch + m.pitchTurn
    ensures r.pitch == ClampPitch(v.pitch + m.pitchTurn)
    ensures r.yaw == v.yaw + m.yawTurn
    ensures r == v.(pitch := r.pitch, yaw := r.yaw)
  {
    v.(yaw := v.yaw + m.yawTurn, pitch := ClampPitch(v.pitch + m.pitchTurn))
  }

  /**
    The light toggle: switched off when the light shows exactly the captured
    colour, otherwise the captured colour is restored.
   */
  function ToggleLight(current: Color, original: Color): (r: Color)
    ensures r == Black || r == original
    ensures r == original <==> current != original || original == Black
  {
    if current == original then Black else original
  }

  /** Narrow the cone by one degree, never below the narrowest cone. */
  function FocusInc(a: real): (r: real)
    ensures MinSpot <= r && a - 1.0 <= r
    ensures r == MinSpot || r == a - 1.0
    ensures MinSpot <= a ==> r <= a
    ensures MinSpot <= a <= MaxSpot ==> MinSpot <= r <= MaxSpot
  {
    if a - 1.0 > MinSpot then a - 1.0 else MinSpot
  }

  /** Widen the cone by one degree, never beyond the widest cone. */
  function FocusDec(a: real): (r: real)
    ensures r <= MaxSpot && r <= a + 1.0
    ensures r == MaxSpot || r == a + 1.0
    ensures a <= MaxSpot ==> a <= r
    ensures MinSpot <= a <= MaxSpot ==> MinSpot <= r <= MaxSpot
  {
    if a + 1.0 < MaxSpot then a + 1.0 else MaxSpot
  }

  /**
    The part of an input event that only FreeLook honours, in the script's
    order: mouse look, then the light toggle, then focus-inc, then focus-dec.
   */
  function LookAndLight(v: Visitor, e: InputEvent): (r: Visitor)
    ensures r == v.(light := r.light, spot := r.spot, pitch := r.pitch, yaw := r.yaw)
    ensures e.motion.None? ==> r.pitch == v.pitch && r.yaw == v.yaw
    ensures e.motion.Some? ==>
      r.pitch == ClampPitch(v.pitch + e.motion.value.pitchTurn) && r.yaw == v.yaw + e.motion.value.yawTurn
    ensures r.light == if e.toggleLight then ToggleLight(v.light, v.original) else v.light
    ensures
      var narrowed := if e.focusInc then FocusInc(v.spot) else v.spot;
      r.spot == if e.focusDec then FocusDec(narrowed) else narrowed
  {
    var looked := if e.motion.Some? then MouseLook(v, e.motion.value) else v;
    var lit := if e.toggleLight then looked.(light := ToggleLight(looked.light, looked.original)) else looked;
    var narrowed := if e.focusInc then lit.(spot := FocusInc(lit.spot)) else lit;
    if e.focusDec then narrowed.(spot := FocusDec(narrowed.spot)) else narrowed
  }

  /**
    An unhandled input event. Locked ignores everything but interact; only
    interact changes the view state or the camera; the target, the armed
    action and the panel are never touched.
   */
  function UnhandledInput(v: Visitor, scene: Scene, e: InputEvent): (r: Visitor)
    ensures v.view == Locked && !e.interact ==> r == v
    ensures v.view == Locked && e.interact ==> r == v.(view := FreeLook, active := scene.ownCamera)
    ensures !e.interact ==> r.view == v.view && r.active == v.active
    ensures r.target == v.target && r.pending == v.pending && r.panel == v.panel && r.original == v.original
    ensures e.motion.None? ==> r.pitch == v.pitch && r.yaw == v.yaw
    ensures v.view == FreeLook && e.motion.Some? ==> -PitchLimit <= r.pitch <= PitchLimit
    ensures -PitchLimit <= v.pitch <= PitchLimit ==> -PitchLimit <= r.pitch <= PitchLimit
    ensures !e.toggleLight ==> r.light == v.light
    ensures !e.focusInc && !e.focusDec ==> r.spot == v.spot
    ensures MinSpot <= v.spot <= MaxSpot ==> MinSpot <= r.spot <= MaxSpot
    ensures LightTwoValued(v) ==> LightTwoValued(r)
    ensures v.view == FreeLook && e.motion.Some? ==>
      r.pitch == ClampPitch(v.pitch + e.motion.value.pitchTurn) && r.yaw == v.yaw + e.motion.value.yawTurn
    ensures v.view == FreeLook && e.toggleLight ==> r.light == ToggleLight(v.light, v.original)
    ensures v.view == FreeLook ==>
      var narrowed := if e.focusInc then FocusInc(v.spot) else v.spot;
      r.spot == if e.focusDec then FocusDec(narrowed) else narrowed
    ensures v.view == FreeLook && e.interact ==>
      r.view == View(v, scene).view && r.active == View(v, scene).active
  {
    var handled := if v.view == FreeLook then LookAndLight(v, e) else v;
    if e.interact then Interact(handled, scene) else handled
  }
}
