/**
  Properties of the visitor controller that relate several callbacks: the
  view round trip, the light toggle pair, the ranges every callback
  sequence keeps, and the inspect action's re-arming.
 */
module Properties {
  import opened Outcomes
  import opened Exhibits
  import opened Controller
  import opened Session

  /**
    One toggle from the captured colour switches the light off, and a second
    restores the captured colour; with a black captured colour both toggles
    leave the light black, which is that colour.
   */
  lemma ToggleTwiceRestores(original: Color)
    ensures ToggleLight(original, original) == Black
    ensures ToggleLight(ToggleLight(original, original), original) == original
  {
  }

  /**
    While the light shows one of its two colours and the captured colour is
    not black, every toggle changes the light.
   */
  lemma ToggleAlternates(v: Visitor)
    requires LightTwoValued(v) && v.original != Black
    ensures ToggleLight(v.light, v.original) != v.light
    ensures ToggleLight(ToggleLight(v.light, v.original), v.original) == v.light
  {
  }

  /**
    Interact on a target whose `cvc` path resolves locks the view on that
    camera; the next interact returns to free look on the visitor's own
    camera and restores everything else.
   */
  lemma InteractRoundTrip(v: Visitor, scene: Scene)
    requires v.view == FreeLook && v.target.Some?
    requires v.target.value in scene.parentMeta && scene.parentMeta[v.target.value].cvc.Some?
    requires (v.target.value, scene.parentMeta[v.target.value].cvc.value) in scene.cameras
    ensures
      var locked := UnhandledInput(v, scene, InteractOnly);
      && locked.view == Locked
      && locked.active == scene.cameras[(v.target.value, scene.parentMeta[v.target.value].cvc.value)]
      && UnhandledInput(locked, scene, InteractOnly) == v.(active := scene.ownCamera)
  {
  }

  /** Dropping the first event of a sequence without interact leaves a sequence without interact. */
  lemma NoInteractTail(es: seq<Event>)
    requires es != [] && NoInteract(es)
    ensures !IsInteract(es[0]) && NoInteract(es[1..])
  {
  }

  /**
    Any callback sequence without interact keeps the view state and the
    active camera; a faulting render tick changes nothing either.
   */
  lemma {:induction false} ViewChangesOnlyOnInteract(v: Visitor, scene: Scene, es: seq<Event>)
    requires NoInteract(es)
    ensures Run(v, scene, es).view == v.view && Run(v, scene, es).active == v.active
    decreases |es|
  {
    if es != [] {
      NoInteractTail(es);
      match Step(v, scene, es[0])
      case Failure(_) => ViewChangesOnlyOnInteract(v, scene, es[1..]);
      case Success(w) => ViewChangesOnlyOnInteract(w, scene, es[1..]);
    }
  }

  /**
    While Locked and until the next interact, no callback moves the head,
    the light or the cone, and the exhibit camera stays active.
   */
  lemma {:induction false} LockedIgnoresInput(v: Visitor, scene: Scene, es: seq<Event>)
    requires v.view == Locked && NoInteract(es)
    ensures
      var w := Run(v, scene, es);
      && w.view == Locked && w.active == v.active
      && w.light == v.light && w.spot == v.spot && w.pitch == v.pitch && w.yaw == v.yaw
    decreases |es|
  {
    if es != [] {
      NoInteractTail(es);
      match Step(v, scene, es[0])
      case Failure(_) => LockedIgnoresInput(v, scene, es[1..]);
      case Success(w) =>
        assert w.view == Locked;
        assert w.light == v.light && w.spot == v.spot && w.pitch == v.pitch && w.yaw == v.yaw;
        LockedIgnoresInput(w, scene, es[1..]);
    }
  }

  /** A cone within [5, 30] degrees stays within it for every callback sequence. */
  lemma {:induction false} SpotStaysInRange(v: Visitor, scene: Scene, es: seq<Event>)
    requires MinSpot <= v.spot <= MaxSpot
    ensures MinSpot <= Run(v, scene, es).spot <= MaxSpot
    decreases |es|
  {
    if es != [] {
      match Step(v, scene, es[0])
      case Failure(_) => SpotStaysInRange(v, scene, es[1..]);
      case Success(w) => SpotStaysInRange(w, scene, es[1..]);
    }
  }

  /** A pitch within plus or minus 90 degrees stays within it for every callback sequence. */
  lemma {:induction false} PitchStaysInRange(v: Visitor, scene: Scene, es: seq<Event>)
    requires -PitchLimit <= v.pitch <= PitchLimit
    ensures -PitchLimit <= Run(v, scene, es).pitch <= PitchLimit
    decreases |es|
  {
    if es != [] {
      match Step(v, scene, es[0])
      case Failure(_) => PitchStaysInRange(v, scene, es[1..]);
      case Success(w) => PitchStaysInRange(w, scene, es[1..]);
    }
  }

  /**
    The light only ever shows its captured colour or black, and the captured
    colour never changes.
   */
  lemma {:induction false} LightStaysTwoValued(v: Visitor, scene: Scene, es: seq<Event>)
    requires LightTwoValued(v)
    ensures LightTwoValued(Run(v, scene, es)) && Run(v, scene, es).original == v.original
    decreases |es|
  {
    if es != [] {
      match Step(v, scene, es[0])
      case Failure(_) => LightStaysTwoValued(v, scene, es[1..]);
      case Success(w) => LightStaysTwoValued(w, scene, es[1..]);
    }
  }

  /** An armed inspection always aims at the current target. */
  lemma {:induction false} StaysCoherent(v: Visitor, scene: Scene, es: seq<Event>)
    requires Coherent(v)
    ensures Coherent(Run(v, scene, es))
    decreases |es|
  {
    if es != [] {
      match Step(v, scene, es[0])
      case Failure(_) => StaysCoherent(v, scene, es[1..]);
      case Success(w) =>
        assert Coherent(w);
        StaysCoherent(w, scene, es[1..]);
    }
  }

  /**
    From start-up, every callback sequence leaves the light on one of its
    two colours, the captured colour unchanged and the armed action aimed
    at the target.
   */
  lemma ReadyInvariants(active: Camera, panel: Option<Panel>, light: Color, spot: real, pitch: real, yaw: real,
                        scene: Scene, es: seq<Event>)
    ensures
      var r := Run(Ready(active, panel, light, spot, pitch, yaw), scene, es);
      LightTwoValued(r) && r.original == light && Coherent(r)
  {
    var v := Ready(active, panel, light, spot, pitch, yaw);
    LightStaysTwoValued(v, scene, es);
    StaysCoherent(v, scene, es);
  }

  /**
    An inspection that returns early leaves the action armed, so any number
    of later render ticks repeat it without effect until a physics tick re-arms.
   */
  lemma {:induction false} EarlyReturnStaysArmed(v: Visitor, scene: Scene, k: nat)
    requires v.pending.InspectNode? && !CanPopulate(v, scene, v.pending.node)
    ensures Run(v, scene, Renders(k)) == v
    decreases k
  {
    if k > 0 {
      assert Renders(k)[1..] == Renders(k - 1);
      assert Step(v, scene, Render) == Success(v);
      EarlyReturnStaysArmed(v, scene, k - 1);
    }
  }

  /**
    Clearing with no panel layer throws on every render tick and leaves the
    clear armed and the target held, until a physics tick re-arms.
   */
  lemma {:induction false} LayerlessClearRepeats(v: Visitor, scene: Scene, k: nat)
    requires v.pending == UndoAction && v.panel.None?
    ensures forall i :: 0 <= i < k ==> Step(v, scene, Renders(k)[i]).Failure?
    ensures Run(v, scene, Renders(k)) == v
    decreases k
  {
    if k > 0 {
      assert Renders(k)[1..] == Renders(k - 1);
      assert Step(v, scene, Render).Failure?;
      LayerlessClearRepeats(v, scene, k - 1);
    }
  }

  /**
    Partial population: when the `about` dictionary holds only the localised
    name, an inspection writes the name (if its sub-element exists), leaves
    the description as it was, and disarms.
   */
  lemma NameOnlyPopulation(v: Visitor, scene: Scene, n: Node, text: string)
    requires v.panel.Some?
    requires About(scene, n) == Some(map[NameKey(scene.language) := text])
    ensures
      var r := Inspect(v, scene, n);
      && r.panel == Some(Panel(if v.panel.value.name.Some? then Some(text) else None, v.panel.value.description))
      && r.pending == NoAction
  {
  }

  /** Offering the same text to a field twice leaves what the first offer wrote. */
  lemma WriteFieldIdempotent(field: Option<string>, about: map<string, string>, key: string)
    ensures WriteField(WriteField(field, about, key), about, key) == WriteField(field, about, key)
  {
  }

  /**
    The inspection is re-armed on every physics tick that reports a
    collider, even an unchanged one; a second physics/render round on the
    same exhibit writes the same texts again and leaves the state as the
    first round left it.
   */
  lemma RepopulationIsHarmless(v: Visitor, scene: Scene, n: Node)
    requires CanPopulate(v, scene, n)
    ensures
      var once := Run(v, scene, [Physics(Some(n)), Render]);
      && once.pending == NoAction
      && PhysicsProcess(once, Some(n)).pending == InspectNode(n)
      && Run(once, scene, [Physics(Some(n)), Render]) == once
  {
    var round := [Physics(Some(n)), Render];
    assert round[1..] == [Render];
    var w := PhysicsProcess(v, Some(n));
    var u := Inspect(w, scene, n);
    assert Run(v, scene, round) == Run(w, scene, [Render]);
    assert Run(w, scene, [Render]) == Run(u, scene, []);
    var about := About(scene, n).value;
    var name := WriteField(w.panel.value.name, about, NameKey(scene.language));
    var description := WriteField(w.panel.value.description, about, DescriptionKey(scene.language));
    assert u == w.(panel := Some(Panel(name, description)), pending := NoAction);
    var w' := PhysicsProcess(u, Some(n));
    assert w' == u.(pending := InspectNode(n));
    WriteFieldIdempotent(w.panel.value.name, about, NameKey(scene.language));
    WriteFieldIdempotent(w.panel.value.description, about, DescriptionKey(scene.language));
    assert Inspect(w', scene, n) == w'.(panel := Some(Panel(name, description)), pending := NoAction);
    assert Run(u, scene, round) == Run(w', scene, [Render]);
    assert Run(w', scene, [Render]) == Run(Inspect(w', scene, n), scene, []);
  }

  /**
    A physics tick without a collider keeps the target until the render tick
    clears it, so an interact in between still locks onto the old exhibit.
   */
  lemma StaleTargetStillLocks(v: Visitor, scene: Scene)
    requires v.view == FreeLook && v.target.Some?
    requires ExhibitCamera(scene, v.target.value).Some?
    ensures
      var r := Run(v, scene, [Physics(None), Input(InteractOnly)]);
      && r.view == Locked
      && r.active == ExhibitCamera(scene, v.target.value).value
  {
    var es := [Physics(None), Input(InteractOnly)];
    assert es[1..] == [Input(InteractOnly)];
    var w := PhysicsProcess(v, None);
    assert Run(v, scene, es) == Run(w, scene, es[1..]);
    assert Run(w, scene, es[1..]) == Run(UnhandledInput(w, scene, InteractOnly), scene, []);
  }

  /**
    Once the render tick has cleared the panel, interact finds no target
    and free look stays.
   */
  lemma ClearedTargetCannotLock(v: Visitor, scene: Scene)
    requires v.view == FreeLook && v.panel.Some?
    ensures
      var r := Run(v, scene, [Physics(None), Render, Input(InteractOnly)]);
      && r.view == FreeLook && r.target.None?
      && r.active == v.active
  {
    var es := [Physics(None), Render, Input(InteractOnly)];
    assert es[1..] == [Render, Input(InteractOnly)];
    assert es[1..][1..] == [Input(InteractOnly)];
    var w := PhysicsProcess(v, None);
    assert Run(v, scene, es) == Run(w, scene, es[1..]);
    var u := UndoInspect(w).value;
    assert Run(w, scene, es[1..]) == Run(u, scene, es[1..][1..]);
    assert Run(u, scene, es[1..][1..]) == Run(UnhandledInput(u, scene, InteractOnly), scene, []);
  }
}
