/** The physics-free draft interactor: a single unmasked raycast per frame,
    buttons win over items even for hover, left click grabs and drops, R
    toggles an inspect mode driven by Euler angles. */
module InteractorSimple {
  import opened Common
  import opened Interactable
  import opened DeskButtons
  import opened GameLoop

  datatype Settings = Settings(
    hasCamera: bool,
    hasLoop: bool,
    floatHeight: real,
    inspectDistance: real,
    rotateSpeed: real)

  /** `inspect` holds the Euler angles being edited in inspect mode. */
  datatype Simple = Simple(hover: Option<ItemId>, held: Option<ItemId>, inspecting: bool, inspect: Vec3)

  datatype Input = Input(
    mouse: bool,
    leftPressed: bool,
    keyboard: bool,
    rPressed: bool,
    aHeld: bool,
    dHeld: bool,
    wHeld: bool,
    sHeld: bool,
    dt: real)

  /** The unmasked raycast, the camera pose, and the engine's Euler-angle
      reading of the held item's current rotation. */
  datatype Probe = Probe(any: RayHit, camPos: Vec3, camForward: Vec3, visualEuler: Vec3)

  datatype Frame = Frame(s: Simple, items: map<ItemId, Item>, pressed: Option<nat>, decision: Option<Decision>)

  const Initial: Simple := Simple(None, None, false, Zero)

  ghost predicate Valid(s: Simple, items: map<ItemId, Item>) {
    && (s.held.Some? ==> s.held.value in items)
    && (s.held.None? ==> !s.inspecting)
  }

  /** The inspect angles after one frame of A/D (yaw) and W/S (pitch). */
  function Rotate(cfg: Settings, e: Vec3, input: Input): (r: Vec3)
    ensures r.z == e.z
    ensures var k := cfg.rotateSpeed * input.dt;
      && r.y == e.y + (if input.keyboard && input.dHeld then k else 0.0) - (if input.keyboard && input.aHeld then k else 0.0)
      && r.x == e.x + (if input.keyboard && input.sHeld then k else 0.0) - (if input.keyboard && input.wHeld then k else 0.0)
  {
    if !input.keyboard then e
    else
      var k := cfg.rotateSpeed * input.dt;
      var y1 := if input.aHeld then e.y - k else e.y;
      var y2 := if input.dHeld then y1 + k else y1;
      var x1 := if input.wHeld then e.x - k else e.x;
      var x2 := if input.sHeld then x1 + k else x1;
      Vec3(x2, y2, e.z)
  }

  /** An idle frame whose ray found no button: hover is the item found, if
      any, and a left press grabs it. */
  function HoverOrGrab(s: Simple, items: map<ItemId, Item>, input: Input, hover: Option<ItemId>): (r: Frame)
    requires Valid(s, items) && s.held.None? && (hover.Some? ==> hover.value in items)
    ensures Valid(r.s, r.items) && r.items.Keys == items.Keys && r.s.hover == hover
    ensures r.s.held == (if input.leftPressed then hover else None)
    ensures r.pressed.None? && r.decision.None?
  {
    if input.leftPressed && hover.Some? then
      var h := hover.value;
      Frame(s.(hover := hover, held := hover, inspecting := false),
            items[h := items[h].(rotation := items[h].defaultRotation)], None, None)
    else Frame(s.(hover := hover), items, None, None)
  }

  /** One Update call. */
  function Step(cfg: Settings, s: Simple, items: map<ItemId, Item>, input: Input, probe: Probe): (r: Frame)
    requires Valid(s, items) && RayIn(probe.any, items.Keys)
    ensures Valid(r.s, r.items) && r.items.Keys == items.Keys
    ensures r.decision.Some? ==> r.pressed.Some? && cfg.hasLoop && input.leftPressed
  {
    if !input.mouse || !cfg.hasCamera then Frame(s, items, None, None)
    else if s.held.None? then
      match probe.any
      case RayHit(_, Some(b), _) =>
        if input.leftPressed then
          Frame(s.(hover := None), items, Some(b.id),
                if cfg.hasLoop then Some(if b.kind == Green then Accept else Reject) else None)
        else Frame(s.(hover := None), items, None, None)
      case RayHit(_, None, item) => HoverOrGrab(s, items, input, item)
      case RayMiss => HoverOrGrab(s, items, input, None)
    else
      var h := s.held.value;
      var toggled := input.keyboard && input.rPressed;
      var inspecting := if toggled then !s.inspecting else s.inspecting;
      var s1 := s.(inspecting := inspecting,
                   inspect := if toggled && inspecting then probe.visualEuler else s.inspect);
      var items1 := if toggled && !inspecting then items[h := items[h].(rotation := items[h].defaultRotation)] else items;
      if !inspecting && input.leftPressed then Frame(s1.(held := None), items1, None, None)
      else if !inspecting then
        if probe.any.RayHit? then
          Frame(s1, items1[h := items1[h].(position := probe.any.point.Plus(Up.Times(cfg.floatHeight)))], None, None)
        else Frame(s1, items1, None, None)
      else
        var angles := Rotate(cfg, s1.inspect, input);
        var placed := items1[h].(position := probe.camPos.Plus(probe.camForward.Times(cfg.inspectDistance)),
                                 rotation := Euler(angles));
        Frame(s1.(inspect := angles), items1[h := placed], None, None)
  }

  // ---------------------------------------------------------------------
  // Properties

  /** A raycast on a button clears hover and ends the frame: nothing can be
      grabbed; a left press forwards Green as Accept and Red as Reject. */
  lemma ButtonHitBlocksGrab(cfg: Settings, s: Simple, items: map<ItemId, Item>, input: Input, probe: Probe)
    requires Valid(s, items) && RayIn(probe.any, items.Keys)
    requires cfg.hasCamera && input.mouse && s.held.None?
    requires probe.any.RayHit? && probe.any.button.Some?
    ensures var r := Step(cfg, s, items, input, probe);
      && r.s.held.None? && r.s.hover.None? && r.items == items
      && (r.decision.Some? <==> input.leftPressed && cfg.hasLoop)
      && (r.decision.Some? ==> (r.decision.value == Accept <==> probe.any.button.value.kind == Green))
  {
  }

  /** A grab needs an item under the pointer and a left press; it starts
      outside inspect mode at the default rotation, and the same click does
      not drop it again. */
  lemma GrabNeedsHover(cfg: Settings, s: Simple, items: map<ItemId, Item>, input: Input, probe: Probe)
    requires Valid(s, items) && RayIn(probe.any, items.Keys) && s.held.None?
    ensures var r := Step(cfg, s, items, input, probe);
      r.s.held.Some? <==>
        cfg.hasCamera && input.mouse && input.leftPressed
        && probe.any.RayHit? && probe.any.button.None? && probe.any.item.Some?
    ensures var r := Step(cfg, s, items, input, probe);
      r.s.held.Some? ==>
        && r.s.held == probe.any.item && !r.s.inspecting
        && r.items[r.s.held.value].rotation == items[r.s.held.value].defaultRotation
  {
  }

  /** While held, R flips inspect mode: entering seeds the angles from the
      current rotation, leaving resets the rotation to the default. A left
      click drops only outside inspect mode and then only clears held. */
  lemma ToggleAndDrop(cfg: Settings, s: Simple, items: map<ItemId, Item>, input: Input, probe: Probe)
    requires Valid(s, items) && RayIn(probe.any, items.Keys)
    requires cfg.hasCamera && input.mouse && s.held.Some?
    ensures var r := Step(cfg, s, items, input, probe);
      var toggled := input.keyboard && input.rPressed;
      var h := s.held.value;
      && r.s.inspecting == (if toggled then !s.inspecting else s.inspecting)
      && (toggled && !s.inspecting ==> Rotate(cfg, probe.visualEuler, input) == r.s.inspect)
      && (toggled && s.inspecting ==> r.items[h].rotation == items[h].defaultRotation)
      && (r.s.held.None? <==> !r.s.inspecting && input.leftPressed)
      && (r.s.held.None? ==>
            r.items == (if toggled then items[h := items[h].(rotation := items[h].defaultRotation)] else items))
  {
  }

  /** In inspect mode the item sits in front of the camera: where the
      pointer's ray lands plays no part. */
  lemma InspectIgnoresPointer(cfg: Settings, s: Simple, items: map<ItemId, Item>, input: Input, p1: Probe, p2: Probe)
    requires Valid(s, items) && RayIn(p1.any, items.Keys) && RayIn(p2.any, items.Keys)
    requires s.held.Some? && s.inspecting && !(input.keyboard && input.rPressed)
    requires p1.camPos == p2.camPos && p1.camForward == p2.camForward
    ensures Step(cfg, s, items, input, p1) == Step(cfg, s, items, input, p2)
    ensures cfg.hasCamera && input.mouse ==>
              Step(cfg, s, items, input, p1).items[s.held.value].position
                == p1.camPos.Plus(p1.camForward.Times(cfg.inspectDistance))
  {
  }

  /** Outside inspect mode a held item sits floatHeight above the ray hit. */
  lemma HeldFollowsHit(cfg: Settings, s: Simple, items: map<ItemId, Item>, input: Input, probe: Probe)
    requires Valid(s, items) && RayIn(probe.any, items.Keys)
    requires cfg.hasCamera && input.mouse && s.held.Some?
    ensures var r := Step(cfg, s, items, input, probe);
      r.s.held.Some? && !r.s.inspecting && probe.any.RayHit? ==>
        r.items[s.held.value].position == probe.any.point.Plus(Vec3(0.0, cfg.floatHeight, 0.0))
  {
  }
}
