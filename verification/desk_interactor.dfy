/** The main desk interactor: hover, decision buttons before grabbing, grab
    with a Rigidbody snapshot, desk-plane following, an inspect toggle with
    a size-relative zoom clamp, and drop with restoration.

    Engine queries (the two raycasts, the desk-plane intersection, the
    camera pose) arrive as a `Probe` per frame; cursor changes and
    decisions leave as requests in the `Frame` result. */
module DeskInteractor {
  import opened Common
  import opened Physics
  import opened Interactable
  import opened DeskButtons
  import opened CursorManager
  import opened GameLoop

  datatype Settings = Settings(
    hasCamera: bool,
    hasLoop: bool,
    floatHeight: real,
    followSpeed: real)

  datatype Interactor = Interactor(
    deskY: real,
    hover: Option<ItemId>,
    held: Option<ItemId>,
    inspecting: bool,
    heldRb: Option<BodyId>,
    heldUsedGravity: bool,
    heldOldConstraints: int,
    holdTargetPos: Vec3,
    hasHoldTarget: bool,
    inspectRot: Orientation,
    inspectDistance: real,
    minInspectDistance: real,
    maxInspectDistance: real)

  /** One frame's device state; `keyboard` is false when no keyboard exists. */
  datatype Input = Input(
    mouse: bool,
    leftPressed: bool,
    keyboard: bool,
    rPressed: bool,
    dt: real)

  datatype Probe = Probe(
    masked: MaskedHit,
    any: RayHit,
    deskPoint: Option<Vec3>,
    camPos: Vec3,
    camForward: Vec3)

  datatype Frame = Frame(
    s: Interactor,
    world: World,
    cursor: seq<CursorRequest>,
    pressed: Option<nat>,
    decision: Option<Decision>)

  /** Desk height from the desk-top transform, 0 without one. */
  function Start(deskTopY: Option<real>): (s: Interactor)
    ensures s.held.None? && s.hover.None? && !s.inspecting && s.heldRb.None? && !s.hasHoldTarget
    ensures s.deskY == (if deskTopY.Some? then deskTopY.value else 0.0)
  {
    Interactor(if deskTopY.Some? then deskTopY.value else 0.0,
               None, None, false, None, false, ConstraintsNone, Zero, false,
               Quat(0.0, 0.0, 0.0, 0.0), 0.0, 0.0, 0.0)
  }

  /** The invariant every frame keeps: the held item and its body exist,
      nothing is hovered or inspected without a held item, and the body
      reference is the held item's own. */
  ghost predicate Valid(s: Interactor, w: World) {
    && Wired(w)
    && (s.held.None? ==> !s.inspecting && s.heldRb.None?)
    && (s.held.Some? ==> s.held.value in w.items && s.hover.None?
                         && s.heldRb == w.items[s.held.value].body)
  }

  function DecisionOf(kind: ButtonType): (d: Decision)
    ensures d == Accept <==> kind == Green
  {
    if kind == Green then Accept else Reject
  }

  /** Hover follows the masked raycast every idle frame. */
  function UpdateHover(s: Interactor, hit: MaskedHit): (r: (Interactor, CursorRequest))
    ensures r.0 == s.(hover := r.0.hover)
    ensures hit.MaskMiss? ==> r.0.hover.None? && r.1 == SetDefault
    ensures hit.MaskHit? ==> r.0.hover == hit.item && r.1 == SetHover
  {
    if hit.MaskHit? then (s.(hover := hit.item), SetHover) else (s.(hover := None), SetDefault)
  }

  /** Takes the item: snaps its rotation to the default, snapshots gravity
      and constraints, then switches gravity off, zeroes velocities, makes
      the body non-kinematic and freezes its rotation. */
  function Grab(s: Interactor, w: World, it: ItemId): (r: (Interactor, World))
    requires it in w.items && Wired(w)
    ensures r.0.held == Some(it) && r.0.hover.None? && r.0.heldRb == w.items[it].body
    ensures r.0.inspecting == s.inspecting
    ensures r.1.items == w.items[it := w.items[it].(rotation := w.items[it].defaultRotation)]
    ensures Wired(r.1) && r.1.bodies.Keys == w.bodies.Keys
    ensures forall b :: b in w.bodies && Some(b) != w.items[it].body ==> r.1.bodies[b] == w.bodies[b]
    ensures w.items[it].body.Some? ==>
              var b := w.items[it].body.value;
              && r.0.heldUsedGravity == w.bodies[b].useGravity
              && r.0.heldOldConstraints == w.bodies[b].constraints
              && Suspended(r.1.bodies[b])
              && r.1.bodies[b].position == w.bodies[b].position
  {
    var item := w.items[it];
    var items := w.items[it := item.(rotation := item.defaultRotation)];
    var s1 := s.(held := Some(it), hover := None, heldRb := item.body);
    match item.body
    case None => (s1, World(items, w.bodies))
    case Some(b) =>
      var before := w.bodies[b];
      var frozen := before.(useGravity := false, isKinematic := false,
                         linearVelocity := Zero, angularVelocity := Zero,
                         constraints := FreezeRotation);
      (s1.(heldUsedGravity := before.useGravity, heldOldConstraints := before.constraints),
       World(items, w.bodies[b := frozen]))
  }

  /** The body state while held. */
  ghost predicate Suspended(b: Body) {
    !b.useGravity && !b.isKinematic && b.constraints == FreezeRotation
    && b.linearVelocity == Zero && b.angularVelocity == Zero
  }

  /** Lets go: restores constraints and gravity from the snapshot, makes the
      body non-kinematic, and clears held, body reference and inspecting. */
  function Drop(s: Interactor, w: World): (r: (Interactor, World))
    requires s.heldRb.Some? ==> s.heldRb.value in w.bodies
    ensures r.0 == s.(held := None, heldRb := None, inspecting := false)
    ensures r.1.items == w.items && r.1.bodies.Keys == w.bodies.Keys
    ensures forall b :: b in w.bodies && Some(b) != s.heldRb ==> r.1.bodies[b] == w.bodies[b]
    ensures s.heldRb.Some? ==>
              var b := s.heldRb.value;
              && r.1.bodies[b].useGravity == s.heldUsedGravity
              && r.1.bodies[b].constraints == s.heldOldConstraints
              && !r.1.bodies[b].isKinematic
              && r.1.bodies[b].position == w.bodies[b].position
  {
    var s1 := s.(held := None, heldRb := None, inspecting := false);
    match s.heldRb
    case None => (s1, w)
    case Some(b) =>
      var restored := w.bodies[b].(constraints := s.heldOldConstraints, isKinematic := false,
                                   useGravity := s.heldUsedGravity);
      (s1, w.(bodies := w.bodies[b := restored]))
  }

  /** Follow target on the desk plane: the hit point raised to deskY +
      floatHeight; a miss withdraws the target. */
  function UpdateHoldOnDesk(cfg: Settings, s: Interactor, deskPoint: Option<Vec3>): (r: Interactor)
    ensures r == s.(holdTargetPos := r.holdTargetPos, hasHoldTarget := r.hasHoldTarget)
    ensures r.hasHoldTarget <==> deskPoint.Some?
    ensures deskPoint.Some? ==> r.holdTargetPos == Vec3(deskPoint.value.x, s.deskY + cfg.floatHeight, deskPoint.value.z)
    ensures deskPoint.None? ==> r.holdTargetPos == s.holdTargetPos
  {
    match deskPoint
    case Some(p) => s.(holdTargetPos := Vec3(p.x, s.deskY + cfg.floatHeight, p.z), hasHoldTarget := true)
    case None => s.(hasHoldTarget := false)
  }

  /** The zoom range from the item's size, floored at 0.0001. */
  function ZoomSize(item: Item): (size: real)
    ensures size >= 0.0001 && size >= item.approxSize
  {
    Max(0.0001, item.approxSize)
  }

  /** Enters inspect mode: the distance is the default multiplier clamped
      into [minZoomK·size, maxZoomK·size], and the accumulated inspect
      rotation starts from the item's current rotation. */
  function EnterInspect(s: Interactor, item: Item): (r: Interactor)
    ensures r.inspecting && r.inspectRot == item.rotation
    ensures r.minInspectDistance == item.minZoomK * ZoomSize(item)
    ensures r.maxInspectDistance == item.maxZoomK * ZoomSize(item)
    ensures item.minZoomK <= item.maxZoomK ==>
              r.minInspectDistance <= r.inspectDistance <= r.maxInspectDistance
    ensures r == s.(inspecting := true, inspectRot := r.inspectRot, inspectDistance := r.inspectDistance,
                    minInspectDistance := r.minInspectDistance, maxInspectDistance := r.maxInspectDistance)
  {
    var size := ZoomSize(item);
    var lo := item.minZoomK * size;
    var hi := item.maxZoomK * size;
    assert item.minZoomK <= item.maxZoomK ==> lo <= hi;
    s.(inspecting := true, minInspectDistance := lo, maxInspectDistance := hi,
       inspectDistance := Clamp(item.defaultDistanceK * size, lo, hi), inspectRot := item.rotation)
  }

  /** Inspect mode pulls the visual toward the point inspectDistance in
      front of the camera, with the per-frame fraction dt·followSpeed. */
  function UpdateInspect(cfg: Settings, s: Interactor, item: Item, input: Input, probe: Probe): (r: Item)
    ensures r == item.(position := r.position)
    ensures input.dt * cfg.followSpeed >= 1.0 ==>
              r.position == probe.camPos.Plus(probe.camForward.Times(s.inspectDistance))
  {
    var target := probe.camPos.Plus(probe.camForward.Times(s.inspectDistance));
    item.(position := LerpVec(item.position, target, input.dt * cfg.followSpeed))
  }

  /** One Update call. */
  function Step(cfg: Settings, s: Interactor, w: World, input: Input, probe: Probe): (r: Frame)
    requires Valid(s, w) && MaskedIn(probe.masked, w.items.Keys)
    ensures Valid(r.s, r.world)
    ensures r.world.items.Keys == w.items.Keys && r.world.bodies.Keys == w.bodies.Keys
    ensures r.decision.Some? ==> r.pressed.Some? && cfg.hasLoop
  {
    if !cfg.hasCamera || !input.mouse then Frame(s, w, [], None, None)
    else if s.held.None? then
      var (s1, req) := UpdateHover(s, probe.masked);
      if !input.leftPressed then Frame(s1, w, [req], None, None)
      else if probe.any.RayHit? && probe.any.button.Some? then
        var b := probe.any.button.value;
        Frame(s1, w, [req], Some(b.id), if cfg.hasLoop then Some(DecisionOf(b.kind)) else None)
      else if s1.hover.Some? then
        var (s2, w2) := Grab(s1, w, s1.hover.value);
        Frame(s2, w2, [req, SetGrab], None, None)
      else Frame(s1, w, [req], None, None)
    else
      var it := s.held.value;
      var toggle := input.keyboard && input.rPressed;
      var (s1, w1) :=
        if !toggle then (s, w)
        else if !s.inspecting then (EnterInspect(s, w.items[it]), w)
        else (s.(inspecting := false),
              w.(items := w.items[it := w.items[it].(rotation := w.items[it].defaultRotation)]));
      var (s2, w2) :=
        if !s1.inspecting then (UpdateHoldOnDesk(cfg, s1, probe.deskPoint), w1)
        else (s1, w1.(items := w1.items[it := UpdateInspect(cfg, s1, w1.items[it], input, probe)]));
      if !s2.inspecting && input.leftPressed then
        var (s3, w3) := Drop(s2, w2);
        Frame(s3, w3, [SetDefault], None, None)
      else Frame(s2, w2, [], None, None)
  }

  /** One FixedUpdate call: moves the held body toward the hold target and
      stops its spin, unless there is no body, the item is being
      inspected, or there is no target. */
  function FixedStep(cfg: Settings, s: Interactor, w: World, fixedDt: real): (r: World)
    requires Valid(s, w)
    ensures s.heldRb.None? || s.inspecting || !s.hasHoldTarget ==> r == w
    ensures r.items == w.items && r.bodies.Keys == w.bodies.Keys
    ensures forall b :: b in w.bodies && Some(b) != s.heldRb ==> r.bodies[b] == w.bodies[b]
    ensures s.heldRb.Some? && !s.inspecting && s.hasHoldTarget ==>
              var b := s.heldRb.value;
              && r.bodies[b] == w.bodies[b].(position := r.bodies[b].position, angularVelocity := Zero)
              && Between(r.bodies[b].position.y, w.bodies[b].position.y, s.holdTargetPos.y)
  {
    if s.heldRb.None? || s.inspecting || !s.hasHoldTarget then w
    else
      var b := s.heldRb.value;
      var body := w.bodies[b];
      var moved := body.(position := LerpVec(body.position, s.holdTargetPos, fixedDt * cfg.followSpeed),
                         angularVelocity := Zero);
      w.(bodies := w.bodies[b := moved])
  }

  datatype Tick = Update(input: Input, probe: Probe) | Fixed(fixedDt: real)

  ghost predicate TickIn(t: Tick, items: set<ItemId>) {
    t.Update? ==> MaskedIn(t.probe.masked, items)
  }

  function StepTick(cfg: Settings, s: Interactor, w: World, t: Tick): (r: (Interactor, World))
    requires Valid(s, w) && TickIn(t, w.items.Keys)
    ensures Valid(r.0, r.1)
    ensures r.1.items.Keys == w.items.Keys && r.1.bodies.Keys == w.bodies.Keys
  {
    match t
    case Update(input, probe) => var f := Step(cfg, s, w, input, probe); (f.s, f.world)
    case Fixed(dt) => (s, FixedStep(cfg, s, w, dt))
  }

  // ---------------------------------------------------------------------
  // Properties

  /** With nothing held, a click on a decision button presses it and
      forwards its decision (Green accepts, Red rejects) instead of
      grabbing, even when an item is hovered. */
  lemma ButtonsBeforeGrab(cfg: Settings, s: Interactor, w: World, input: Input, probe: Probe)
    requires Valid(s, w) && MaskedIn(probe.masked, w.items.Keys)
    requires cfg.hasCamera && input.mouse && s.held.None? && input.leftPressed
    requires probe.any.RayHit? && probe.any.button.Some?
    ensures var r := Step(cfg, s, w, input, probe);
      && r.s.held.None? && r.world == w
      && r.pressed == Some(probe.any.button.value.id)
      && (cfg.hasLoop ==> r.decision == Some(if probe.any.button.value.kind == Green then Accept else Reject))
  {
  }

  /** An idle frame ends holding an item exactly when the click was not on
      a button and the masked raycast found an Interactable; it is that
      item. Clicking empty space never grabs. */
  lemma GrabOnlyWhenHovered(cfg: Settings, s: Interactor, w: World, input: Input, probe: Probe)
    requires Valid(s, w) && MaskedIn(probe.masked, w.items.Keys)
    requires s.held.None?
    ensures var r := Step(cfg, s, w, input, probe);
      r.s.held.Some? <==>
        && cfg.hasCamera && input.mouse && input.leftPressed
        && !(probe.any.RayHit? && probe.any.button.Some?)
        && probe.masked.MaskHit? && probe.masked.item.Some?
    ensures var r := Step(cfg, s, w, input, probe);
      r.s.held.Some? ==> r.s.held == probe.masked.item && !r.s.inspecting
  {
  }

  /** While an item is held its body stays suspended and the snapshot keeps
      the values from before the grab. */
  ghost predicate HoldKeeps(s: Interactor, w: World, b: BodyId, orig: Body) {
    && s.held.Some? && s.heldRb == Some(b) && b in w.bodies
    && s.heldUsedGravity == orig.useGravity && s.heldOldConstraints == orig.constraints
    && Suspended(w.bodies[b])
  }

  /** The body has its pre-grab gravity and constraints back and is not
      kinematic. */
  ghost predicate RestoredTo(body: Body, orig: Body) {
    body.useGravity == orig.useGravity && body.constraints == orig.constraints && !body.isKinematic
  }

  lemma GrabSuspends(cfg: Settings, s: Interactor, w: World, input: Input, probe: Probe)
    requires Valid(s, w) && MaskedIn(probe.masked, w.items.Keys) && s.held.None?
    ensures var r := Step(cfg, s, w, input, probe);
      r.s.held.Some? && r.s.heldRb.Some? ==>
        var b := r.s.heldRb.value;
        b in w.bodies && HoldKeeps(r.s, r.world, b, w.bodies[b])
  {
  }

  /** One tick of a hold either keeps the hold and its snapshot, or drops
      the item and restores its body exactly as snapshotted. */
  lemma HeldTick(cfg: Settings, s: Interactor, w: World, t: Tick, b: BodyId, orig: Body)
    requires Valid(s, w) && TickIn(t, w.items.Keys) && HoldKeeps(s, w, b, orig)
    ensures var r := StepTick(cfg, s, w, t);
      && (r.0.held.Some? ==> HoldKeeps(r.0, r.1, b, orig))
      && (r.0.held.None? ==> RestoredTo(r.1.bodies[b], orig))
  {
  }

  /** The ticks of a hold: each one leaves the item held. */
  ghost predicate StaysHeld(cfg: Settings, s: Interactor, w: World, ticks: seq<Tick>)
    decreases |ticks|
  {
    |ticks| == 0 ||
    (Valid(s, w) && TickIn(ticks[0], w.items.Keys) &&
     var r := StepTick(cfg, s, w, ticks[0]);
     r.0.held.Some? && StaysHeld(cfg, r.0, r.1, ticks[1..]))
  }

  function RunTicks(cfg: Settings, s: Interactor, w: World, ticks: seq<Tick>): (r: (Interactor, World))
    requires Valid(s, w) && forall i :: 0 <= i < |ticks| ==> TickIn(ticks[i], w.items.Keys)
    ensures Valid(r.0, r.1) && r.1.items.Keys == w.items.Keys && r.1.bodies.Keys == w.bodies.Keys
    decreases |ticks|
  {
    if |ticks| == 0 then (s, w)
    else
      var n := StepTick(cfg, s, w, ticks[0]);
      RunTicks(cfg, n.0, n.1, ticks[1..])
  }

  /** Any number of held ticks, with inspect toggled in and out at will,
      keeps the snapshot and the suspension. */
  lemma {:induction false} HoldSurvivesTicks(cfg: Settings, s: Interactor, w: World, ticks: seq<Tick>, b: BodyId, orig: Body)
    requires Valid(s, w) && forall i :: 0 <= i < |ticks| ==> TickIn(ticks[i], w.items.Keys)
    requires HoldKeeps(s, w, b, orig) && StaysHeld(cfg, s, w, ticks)
    ensures var r := RunTicks(cfg, s, w, ticks); HoldKeeps(r.0, r.1, b, orig)
    decreases |ticks|
  {
    if |ticks| > 0 {
      var n := StepTick(cfg, s, w, ticks[0]);
      HeldTick(cfg, s, w, ticks[0], b, orig);
      HoldSurvivesTicks(cfg, n.0, n.1, ticks[1..], b, orig);
    }
  }

  /** Grab, any held ticks, then the tick that drops: the body ends with
      exactly the gravity and constraints it had before the grab, and is
      not kinematic whatever it was before. */
  lemma GrabHoldDropRestores(cfg: Settings, s: Interactor, w: World, grab: Tick, ticks: seq<Tick>, drop: Tick)
    requires Valid(s, w) && s.held.None? && grab.Update?
    requires TickIn(grab, w.items.Keys) && TickIn(drop, w.items.Keys) && forall i :: 0 <= i < |ticks| ==> TickIn(ticks[i], w.items.Keys)
    requires var g := StepTick(cfg, s, w, grab); g.0.held.Some? && g.0.heldRb.Some? && StaysHeld(cfg, g.0, g.1, ticks)
    ensures var g := StepTick(cfg, s, w, grab);
      var b := g.0.heldRb.value;
      var h := RunTicks(cfg, g.0, g.1, ticks);
      b in w.bodies &&
      (StepTick(cfg, h.0, h.1, drop).0.held.None? ==>
        RestoredTo(StepTick(cfg, h.0, h.1, drop).1.bodies[b], w.bodies[b]))
  {
    var g := StepTick(cfg, s, w, grab);
    var b := g.0.heldRb.value;
    GrabSuspends(cfg, s, w, grab.input, grab.probe);
    HoldSurvivesTicks(cfg, g.0, g.1, ticks, b, w.bodies[b]);
    var h := RunTicks(cfg, g.0, g.1, ticks);
    HeldTick(cfg, h.0, h.1, drop, b, w.bodies[b]);
  }

  /** While held, R flips inspecting; a left click drops exactly when the
      frame ends not inspecting. */
  lemma InspectToggleAndDrop(cfg: Settings, s: Interactor, w: World, input: Input, probe: Probe)
    requires Valid(s, w) && MaskedIn(probe.masked, w.items.Keys)
    requires cfg.hasCamera && input.mouse && s.held.Some?
    ensures var r := Step(cfg, s, w, input, probe);
      var inspectingAfterToggle := if input.keyboard && input.rPressed then !s.inspecting else s.inspecting;
      && (r.s.held.None? <==> input.leftPressed && !inspectingAfterToggle)
      && (r.s.held.Some? ==> r.s.inspecting == inspectingAfterToggle && r.s.held == s.held)
      && (r.s.held.None? ==> !r.s.inspecting && r.s.heldRb.None?)
  {
  }

  /** Leaving inspect puts the item back at its default rotation. */
  lemma ExitInspectRestoresRotation(cfg: Settings, s: Interactor, w: World, input: Input, probe: Probe)
    requires Valid(s, w) && MaskedIn(probe.masked, w.items.Keys)
    requires cfg.hasCamera && input.mouse && s.held.Some? && s.inspecting
    requires input.keyboard && input.rPressed
    ensures var r := Step(cfg, s, w, input, probe);
      r.world.items[s.held.value].rotation == w.items[s.held.value].defaultRotation
  {
  }

  /** While held and not inspecting, the hold target sits at deskY +
      floatHeight; a desk-plane miss withdraws it. */
  lemma HoldTargetHeight(cfg: Settings, s: Interactor, w: World, input: Input, probe: Probe)
    requires Valid(s, w) && MaskedIn(probe.masked, w.items.Keys)
    requires cfg.hasCamera && input.mouse && s.held.Some?
    ensures var r := Step(cfg, s, w, input, probe);
      r.s.held.Some? && !r.s.inspecting ==>
        && (r.s.hasHoldTarget <==> probe.deskPoint.Some?)
        && (r.s.hasHoldTarget ==> r.s.holdTargetPos.y == s.deskY + cfg.floatHeight)
  {
  }
}
