/** The hand-and-camera manipulation controller: an explicit Idle / Held /
    Inspect state over Holdable objects. Hover and grabbing run only in
    Idle; R toggles Held and Inspect; the right button drops, and only
    from Held. Rotation composition and Slerp are not modelled; positions
    follow their targets through Vector3.Lerp. */
module InteractionController {
  import opened Common
  import opened Physics
  import opened Holdable
  import Hold = Holdable
  import opened Interactable

  datatype Mode = Idle | Held | Inspect

  datatype Settings = Settings(
    hasCamera: bool,
    deskFloatHeight: real,
    followSmooth: real,
    rotateSpeedDeg: real,
    inspectDistance: real,
    inspectPosSmooth: real,
    freezeAfterInspect: real)

  datatype Controller = Controller(
    mode: Mode,
    hover: Option<nat>,
    held: Option<nat>,
    deskY: real,
    yaw: real,
    pitch: real,
    resumeFollowTime: real,
    heldDeskPos: Vec3,
    heldBaseRot: Orientation,
    inspectRot: Orientation)

  /** Per-frame devices; `keyboard` is false when no keyboard exists. */
  datatype Input = Input(
    mouse: bool,
    leftPressed: bool,
    rightPressed: bool,
    keyboard: bool,
    rPressed: bool,
    qHeld: bool,
    eHeld: bool,
    dt: real,
    time: real)

  /** The masked raycast (reporting the Holdable on the hit collider, if
      any), the desk-plane intersection, the camera pose, and the hold
      anchor's offset in world space (zero without an anchor). */
  datatype Probe = Probe(
    masked: MaskedHit,
    deskPoint: Option<Vec3>,
    camPos: Vec3,
    camForward: Vec3,
    anchorOffset: Vec3)

  type Holdables = map<nat, Holdable>

  function Start(deskTopY: Option<real>): (c: Controller)
    ensures c.mode == Idle && c.hover.None? && c.held.None?
    ensures c.deskY == (if deskTopY.Some? then deskTopY.value else 0.0)
  {
    Controller(Idle, None, None, if deskTopY.Some? then deskTopY.value else 0.0,
               0.0, 0.0, 0.0, Zero, Quat(0.0, 0.0, 0.0, 0.0), Quat(0.0, 0.0, 0.0, 0.0))
  }

  /** A held object exists exactly outside Idle, and it is marked held. */
  ghost predicate Valid(c: Controller, hs: Holdables) {
    && (c.mode == Idle <==> c.held.None?)
    && (c.held.Some? ==> c.held.value in hs && hs[c.held.value].isHeld)
    && (c.hover.Some? ==> c.hover.value in hs)
  }

  /** Q gives -1, E gives +1, both or neither 0, no keyboard 0. */
  function Spin(input: Input): (spin: real)
    ensures spin == -1.0 || spin == 0.0 || spin == 1.0
    ensures spin == -1.0 <==> input.keyboard && input.qHeld && !input.eHeld
    ensures spin == 1.0 <==> input.keyboard && input.eHeld && !input.qHeld
  {
    if !input.keyboard then 0.0
    else (if input.qHeld then -1.0 else 0.0) + (if input.eHeld then 1.0 else 0.0)
  }

  /** Hover bookkeeping on a hit: when the hit object differs from the
      hovered one, the old one is told HoverExit and the new one HoverEnter
      unless it is held. */
  function ChangeHover(c: Controller, hs: Holdables, h: Option<nat>): (r: (Controller, Holdables))
    requires c.hover.Some? ==> c.hover.value in hs
    requires h.Some? ==> h.value in hs
    ensures r.0 == c.(hover := h)
    ensures r.1.Keys == hs.Keys
    ensures h == c.hover ==> r.1 == hs
    ensures forall i :: i in hs && Some(i) != c.hover && Some(i) != h ==> r.1[i] == hs[i]
    ensures h != c.hover && h.Some? ==> r.1[h.value] == HoverEnter(hs[h.value])
    ensures h != c.hover && c.hover.Some? ==>
              r.1[c.hover.value] == HoverExit(hs[c.hover.value])
  {
    if h == c.hover then (c, hs)
    else
      var exited := if c.hover.Some? then hs[c.hover.value := HoverExit(hs[c.hover.value])] else hs;
      var entered := if h.Some? then exited[h.value := HoverEnter(exited[h.value])] else exited;
      (c.(hover := h), entered)
  }

  function BeginHold(c: Controller, hs: Holdables, h: nat): (r: (Controller, Holdables))
    requires h in hs
    ensures r.0.mode == Held && r.0.held == Some(h) && r.0.yaw == 0.0 && r.0.pitch == 0.0
    ensures r.0.heldBaseRot == hs[h].rotation
    ensures r.0.heldDeskPos == Vec3(hs[h].position.x, c.deskY, hs[h].position.z)
    ensures r.0.hover == c.hover && r.0.deskY == c.deskY
    ensures r.1 == hs[h := Hold.BeginHold(hs[h])]
  {
    var it := hs[h];
    (c.(held := Some(h), mode := Held, heldDeskPos := Vec3(it.position.x, c.deskY, it.position.z),
        heldBaseRot := it.rotation, yaw := 0.0, pitch := 0.0),
     hs[h := Hold.BeginHold(it)])
  }

  function HeldUpdate(cfg: Settings, c: Controller, hs: Holdables, input: Input, probe: Probe): (r: (Controller, Holdables))
    requires Valid(c, hs) && c.mode == Held
    ensures Valid(r.0, r.1) && r.1.Keys == hs.Keys && r.0.hover == c.hover
  {
    var h := c.held.value;
    if input.keyboard && input.rPressed then
      (c.(inspectRot := hs[h].rotation, mode := Inspect,
          resumeFollowTime := input.time + cfg.freezeAfterInspect), hs)
    else
      var turned := c.(yaw := c.yaw + Spin(input) * cfg.rotateSpeedDeg * input.dt);
      if input.rightPressed then
        (turned.(held := None, mode := Idle), hs[h := DropWithPhysics(hs[h])])
      else
        var deskPos := if probe.deskPoint.Some? then Vec3(probe.deskPoint.value.x, c.deskY, probe.deskPoint.value.z)
                       else c.heldDeskPos;
        var target := Vec3(deskPos.x, c.deskY + cfg.deskFloatHeight, deskPos.z);
        (turned.(heldDeskPos := deskPos),
         hs[h := hs[h].(position := LerpVec(hs[h].position, target, input.dt * cfg.followSmooth))])
  }

  function InspectUpdate(cfg: Settings, c: Controller, hs: Holdables, input: Input, probe: Probe): (r: (Controller, Holdables))
    requires Valid(c, hs) && c.mode == Inspect
    ensures Valid(r.0, r.1) && r.1.Keys == hs.Keys && r.0.hover == c.hover
    ensures r.0.held == c.held && r.0.mode != Idle
  {
    var h := c.held.value;
    if input.keyboard && input.rPressed then
      (c.(heldBaseRot := hs[h].rotation, yaw := 0.0, mode := Held,
          resumeFollowTime := input.time + cfg.freezeAfterInspect), hs)
    else
      var target := probe.camPos.Plus(probe.camForward.Times(cfg.inspectDistance)).Plus(probe.anchorOffset);
      (c, hs[h := hs[h].(position := LerpVec(hs[h].position, target, input.dt * cfg.inspectPosSmooth))])
  }

  /** One Update call. */
  function Step(cfg: Settings, c: Controller, hs: Holdables, input: Input, probe: Probe): (r: (Controller, Holdables))
    requires Valid(c, hs) && MaskedIn(probe.masked, hs.Keys)
    ensures Valid(r.0, r.1) && r.1.Keys == hs.Keys
    ensures r.0.deskY == c.deskY
  {
    if !cfg.hasCamera || !input.mouse then (c, hs)
    else
      var (c1, hs1) :=
        if c.mode != Idle then (c, hs)
        else match probe.masked
          case MaskHit(h) => ChangeHover(c, hs, h)
          case MaskMiss =>
            if c.hover.Some? then (c.(hover := None), hs[c.hover.value := HoverExit(hs[c.hover.value])])
            else (c, hs);
      if c.mode == Idle && input.leftPressed && probe.masked.MaskHit? && probe.masked.item.Some? then
        BeginHold(c1, hs1, probe.masked.item.value)
      else if c1.mode == Held then HeldUpdate(cfg, c1, hs1, input, probe)
      else if c1.mode == Inspect then InspectUpdate(cfg, c1, hs1, input, probe)
      else (c1, hs1)
  }

  // ---------------------------------------------------------------------
  // Properties

  /** Outside Idle the frame does no hover work: the hovered object and
      every object's colour stay as they were. */
  lemma HoverOnlyInIdle(cfg: Settings, c: Controller, hs: Holdables, input: Input, probe: Probe)
    requires Valid(c, hs) && MaskedIn(probe.masked, hs.Keys) && c.mode != Idle
    ensures var r := Step(cfg, c, hs, input, probe);
      && r.0.hover == c.hover
      && forall i :: i in hs ==> r.1[i].color == hs[i].color
  {
  }

  /** Idle becomes Held exactly on a left press whose raycast hit a
      Holdable; the hold starts from the object's current rotation with
      zero yaw and pitch. */
  lemma BeginHoldNeedsClickOnHoldable(cfg: Settings, c: Controller, hs: Holdables, input: Input, probe: Probe)
    requires Valid(c, hs) && MaskedIn(probe.masked, hs.Keys) && c.mode == Idle
    ensures var r := Step(cfg, c, hs, input, probe);
      && r.0.mode != Inspect
      && (r.0.mode == Held <==>
           cfg.hasCamera && input.mouse && input.leftPressed && probe.masked.MaskHit? && probe.masked.item.Some?)
    ensures var r := Step(cfg, c, hs, input, probe);
      r.0.mode == Held ==>
        var h := probe.masked.item.value;
        && r.0.held == Some(h) && r.0.hover == Some(h)
        && r.0.yaw == 0.0 && r.0.pitch == 0.0 && r.0.heldBaseRot == hs[h].rotation
        && r.1[h].isHeld && r.1[h].rb.isKinematic
  {
  }

  /** R in Held enters Inspect, seeding the inspect rotation, and leaves the
      frame before yaw or drop are looked at. */
  lemma HeldToInspect(cfg: Settings, c: Controller, hs: Holdables, input: Input, probe: Probe)
    requires Valid(c, hs) && MaskedIn(probe.masked, hs.Keys) && c.mode == Held
    requires cfg.hasCamera && input.mouse && input.keyboard && input.rPressed
    ensures var r := Step(cfg, c, hs, input, probe);
      && r.0.mode == Inspect && r.0.held == c.held
      && r.0.inspectRot == hs[c.held.value].rotation
      && r.0.yaw == c.yaw && r.1 == hs
  {
  }

  /** R in Inspect goes back to Held with a fresh zero yaw on top of the
      object's current rotation. */
  lemma InspectToHeld(cfg: Settings, c: Controller, hs: Holdables, input: Input, probe: Probe)
    requires Valid(c, hs) && MaskedIn(probe.masked, hs.Keys) && c.mode == Inspect
    requires cfg.hasCamera && input.mouse && input.keyboard && input.rPressed
    ensures var r := Step(cfg, c, hs, input, probe);
      && r.0.mode == Held && r.0.held == c.held && r.0.yaw == 0.0
      && r.0.heldBaseRot == hs[c.held.value].rotation && r.1 == hs
  {
  }

  /** Idle is entered only from Held, by the right button without R; it
      drops the object with physics. Inspect has no way to Idle in one
      frame. */
  lemma DropOnlyFromHeld(cfg: Settings, c: Controller, hs: Holdables, input: Input, probe: Probe)
    requires Valid(c, hs) && MaskedIn(probe.masked, hs.Keys) && c.mode != Idle
    ensures var r := Step(cfg, c, hs, input, probe);
      r.0.mode == Idle <==>
        c.mode == Held && cfg.hasCamera && input.mouse && input.rightPressed && !(input.keyboard && input.rPressed)
    ensures var r := Step(cfg, c, hs, input, probe);
      r.0.mode == Idle ==>
        r.0.held.None? && r.1[c.held.value] == DropWithPhysics(hs[c.held.value])
    ensures c.mode == Inspect ==> Step(cfg, c, hs, input, probe).0.mode != Idle
  {
  }

  /** A Held frame that stays Held turns by spin·rate·dt, keeps the last
      desk position when the desk plane is missed, and moves the object
      toward the height deskY + deskFloatHeight. */
  lemma HeldFollowsDesk(cfg: Settings, c: Controller, hs: Holdables, input: Input, probe: Probe)
    requires Valid(c, hs) && MaskedIn(probe.masked, hs.Keys) && c.mode == Held
    requires cfg.hasCamera && input.mouse
    ensures var r := Step(cfg, c, hs, input, probe);
      r.0.mode == Held ==>
        var h := c.held.value;
        && r.0.yaw == c.yaw + Spin(input) * cfg.rotateSpeedDeg * input.dt
        && (probe.deskPoint.None? ==> r.0.heldDeskPos == c.heldDeskPos)
        && r.0.heldDeskPos.y == (if probe.deskPoint.Some? then c.deskY else c.heldDeskPos.y)
        && Between(r.1[h].position.y, hs[h].position.y, c.deskY + cfg.deskFloatHeight)
  {
  }

  /** In Idle, a raycast hit on a different object moves hover to it,
      exiting the old one and entering the new one only if it is not held;
      losing the hit clears hover after exiting it. */
  lemma HoverHandOver(cfg: Settings, c: Controller, hs: Holdables, input: Input, probe: Probe)
    requires Valid(c, hs) && MaskedIn(probe.masked, hs.Keys) && c.mode == Idle
    requires cfg.hasCamera && input.mouse && !input.leftPressed
    ensures var r := Step(cfg, c, hs, input, probe);
      && (probe.masked.MaskHit? ==> r.0.hover == probe.masked.item)
      && (probe.masked.MaskMiss? ==> r.0.hover.None?)
      && (probe.masked.MaskHit? && probe.masked.item.Some? && probe.masked.item != c.hover ==>
            var n := probe.masked.item.value;
            r.1[n].color == (if !hs[n].isHeld && hs[n].hasRenderer && hs[n].hasColor then hs[n].hoverColor else hs[n].color))
      && (probe.masked.MaskMiss? && c.hover.Some? ==> r.1[c.hover.value] == HoverExit(hs[c.hover.value]))
  {
  }

  /** The controller never touches gravity or constraints of any body. */
  lemma GravityAndConstraintsUntouched(cfg: Settings, c: Controller, hs: Holdables, input: Input, probe: Probe)
    requires Valid(c, hs) && MaskedIn(probe.masked, hs.Keys)
    ensures var r := Step(cfg, c, hs, input, probe);
      forall i :: i in hs ==> r.1[i].rb.useGravity == hs[i].rb.useGravity && r.1[i].rb.constraints == hs[i].rb.constraints
  {
  }
}
