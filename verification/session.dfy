/**
  The host's callback sequence: physics ticks (with the collider the
  look-raycast reports), render ticks and unhandled input events, applied
  one after another to the controller state.
 */
module Session {
  import opened Outcomes
  import opened Exhibits
  import opened Controller

  /** One callback issued by the host engine. */
  datatype Event = Physics(collider: Option<Node>) | Render | Input(event: InputEvent)

  /** An input event in which the interact action was just pressed. */
  predicate IsInteract(e: Event)
  {
    e.Input? && e.event.interact
  }

  /** No event of the sequence presses interact. */
  predicate NoInteract(es: seq<Event>)
  {
    forall i :: 0 <= i < |es| ==> !IsInteract(es[i])
  }

  /** An input event that presses interact and nothing else. */
  const InteractOnly: InputEvent := InputEvent(None, false, false, false, true)

  /**
    Dispatch one callback. Only a render tick that clears a layer-less panel
    faults; only interact moves between the view states or changes camera.
   */
  function Step(v: Visitor, scene: Scene, e: Event): (r: Result<Visitor, Fault>)
    ensures e.Physics? ==> r == Success(PhysicsProcess(v, e.collider))
    ensures e.Render? ==> r == Process(v, scene)
    ensures e.Input? ==> r == Success(UnhandledInput(v, scene, e.event))
    ensures r.Failure? <==> e.Render? && v.pending == UndoAction && v.panel.None?
    ensures r.Success? && !IsInteract(e) ==> r.value.view == v.view && r.value.active == v.active
    ensures r.Success? ==> r.value.original == v.original && SameShape(v.panel, r.value.panel)
    ensures r.Success? && !e.Input? ==>
      && r.value.light == v.light && r.value.spot == v.spot
      && r.value.pitch == v.pitch && r.value.yaw == v.yaw
  {
    match e
    case Physics(collider) => Success(PhysicsProcess(v, collider))
    case Render => Process(v, scene)
    case Input(event) => Success(UnhandledInput(v, scene, event))
  }

  /**
    Apply a sequence of callbacks. A callback that faults throws before it
    writes anything, and the host logs the exception and keeps issuing
    callbacks, so the state carries over unchanged to the next one.
   */
  function Run(v: Visitor, scene: Scene, es: seq<Event>): Visitor
    decreases |es|
  {
    if es == [] then v
    else
      match Step(v, scene, es[0])
      case Failure(_) => Run(v, scene, es[1..])
      case Success(w) => Run(w, scene, es[1..])
  }

  /** k render ticks in a row. */
  function Renders(k: nat): (es: seq<Event>)
    ensures |es| == k && forall i :: 0 <= i < k ==> es[i] == Render
  {
    seq(k, _ => Render)
  }
}
