/** The cursor icon per interaction state, with texture fallback chains,
    and the single-instance guard of the manager. */
module CursorManager {
  import opened Common

  datatype Texture = Texture(id: nat)

  /** The serialized textures (each may be unassigned) and hotspots. */
  datatype Cursors = Cursors(
    defaultCursor: Option<Texture>,
    hoverCursor: Option<Texture>,
    holdCursor: Option<Texture>,
    inspectCursor: Option<Texture>,
    defaultHotspot: Vec2,
    hoverHotspot: Vec2,
    holdHotspot: Vec2,
    inspectHotspot: Vec2)

  /** What the engine currently draws as the cursor. */
  datatype Shown = Shown(texture: Texture, hotspot: Vec2)

  datatype CursorRequest = SetDefault | SetHover | SetHold | SetGrab | SetInspect

  /** Reference definition of a fallback chain: the first assigned texture. */
  function FirstAssigned(chain: seq<Option<Texture>>): (r: Option<Texture>)
    ensures r.None? <==> forall i :: 0 <= i < |chain| ==> chain[i].None?
    ensures r.Some? ==> exists i :: 0 <= i < |chain| && chain[i] == r
                          && forall j :: 0 <= j < i ==> chain[j].None?
    decreases |chain|
  {
    if |chain| == 0 then None
    else if chain[0].Some? then chain[0]
    else
      var rest := FirstAssigned(chain[1..]);
      assert forall i :: 1 <= i < |chain| ==> chain[i] == chain[1..][i - 1];
      rest
  }

  /** Sets the cursor; an unassigned texture leaves it as it was. */
  function Apply(current: Option<Shown>, tex: Option<Texture>, hotspot: Vec2): (r: Option<Shown>)
    ensures tex.None? ==> r == current
    ensures tex.Some? ==> r == Some(Shown(tex.value, hotspot))
  {
    if tex.None? then current else Some(Shown(tex.value, hotspot))
  }

  /** The texture each request asks for, after falling back. */
  function TextureFor(c: Cursors, req: CursorRequest): Option<Texture> {
    match req
    case SetDefault => c.defaultCursor
    case SetHover => if c.hoverCursor.Some? then c.hoverCursor else c.defaultCursor
    case SetHold | SetGrab =>
      if c.holdCursor.Some? then c.holdCursor
      else if c.hoverCursor.Some? then c.hoverCursor else c.defaultCursor
    case SetInspect =>
      if c.inspectCursor.Some? then c.inspectCursor
      else if c.holdCursor.Some? then c.holdCursor else c.defaultCursor
  }

  /** The hotspot each request uses: always the requested state's own. */
  function HotspotFor(c: Cursors, req: CursorRequest): Vec2 {
    match req
    case SetDefault => c.defaultHotspot
    case SetHover => c.hoverHotspot
    case SetHold | SetGrab => c.holdHotspot
    case SetInspect => c.inspectHotspot
  }

  function Request(c: Cursors, current: Option<Shown>, req: CursorRequest): (r: Option<Shown>)
    ensures r != current ==> r.Some? && r.value.hotspot == HotspotFor(c, req)
  {
    Apply(current, TextureFor(c, req), HotspotFor(c, req))
  }

  /** The requests a frame issues, applied in order. */
  function RequestAll(c: Cursors, current: Option<Shown>, reqs: seq<CursorRequest>): Option<Shown>
    decreases |reqs|
  {
    if |reqs| == 0 then current else RequestAll(c, Request(c, current, reqs[0]), reqs[1..])
  }

  /** Each state's fallback chain, as an ordered list of preferences. */
  function Chain(c: Cursors, req: CursorRequest): seq<Option<Texture>> {
    match req
    case SetDefault => [c.defaultCursor]
    case SetHover => [c.hoverCursor, c.defaultCursor]
    case SetHold | SetGrab => [c.holdCursor, c.hoverCursor, c.defaultCursor]
    case SetInspect => [c.inspectCursor, c.holdCursor, c.defaultCursor]
  }

  lemma FirstOfTwo(a: Option<Texture>, b: Option<Texture>)
    ensures FirstAssigned([a, b]) == if a.Some? then a else b
  {
  }

  lemma FirstOfThree(a: Option<Texture>, b: Option<Texture>, d: Option<Texture>)
    ensures FirstAssigned([a, b, d]) == if a.Some? then a else if b.Some? then b else d
  {
    assert [a, b, d][1..] == [b, d];
    FirstOfTwo(b, d);
  }

  /** Every request shows the first assigned texture of its chain, with
      its own hotspot; grab is hold; inspect falls back from hold straight
      to default, skipping hover. */
  lemma RequestFollowsChain(c: Cursors, current: Option<Shown>, req: CursorRequest)
    ensures Request(c, current, req) == Apply(current, FirstAssigned(Chain(c, req)), HotspotFor(c, req))
    ensures Request(c, current, SetGrab) == Request(c, current, SetHold)
    ensures c.inspectCursor.None? && c.holdCursor.None? ==>
              Request(c, current, SetInspect) == Apply(current, c.defaultCursor, c.inspectHotspot)
  {
    match req
    case SetDefault => assert [c.defaultCursor][1..] == [];
    case SetHover => FirstOfTwo(c.hoverCursor, c.defaultCursor);
    case SetHold => FirstOfThree(c.holdCursor, c.hoverCursor, c.defaultCursor);
    case SetGrab => FirstOfThree(c.holdCursor, c.hoverCursor, c.defaultCursor);
    case SetInspect => FirstOfThree(c.inspectCursor, c.holdCursor, c.defaultCursor);
  }

  /** With nothing assigned at all, no request changes the cursor. */
  lemma NothingAssignedNothingChanges(c: Cursors, current: Option<Shown>, req: CursorRequest)
    requires c.defaultCursor.None? && c.hoverCursor.None? && c.holdCursor.None? && c.inspectCursor.None?
    ensures Request(c, current, req) == current
  {
  }

  /** The static instance slot. `alive` is false once the registered
      manager's GameObject has been destroyed (the manager is not kept
      across scene loads); the engine's overloaded `!= null` then reads
      the slot as empty. */
  datatype Registry = Registry(instance: Option<nat>, alive: bool)

  /** The slot as the engine's null test sees it. */
  predicate Occupied(reg: Registry) {
    reg.instance.Some? && reg.alive
  }

  /** A scene change destroys the registered manager but leaves the
      static reference dangling. */
  function SceneUnload(reg: Registry): (r: Registry)
    ensures r.instance == reg.instance && !Occupied(r)
  {
    Registry(reg.instance, false)
  }

  datatype AwakeResult = AwakeResult(
    registry: Registry,
    destroyed: bool,
    cursor: Option<Shown>,
    lockedToCentre: bool,
    visible: bool)

  /** A second manager destroys itself and leaves the slot alone; otherwise
      the manager claims the slot, frees and shows the cursor, and applies
      the default. */
  function Awake(reg: Registry, self: nat, c: Cursors, current: Option<Shown>, locked: bool, visible: bool): (r: AwakeResult)
    ensures r.destroyed <==> Occupied(reg) && reg.instance.value != self
    ensures r.destroyed ==> r.registry == reg && r.cursor == current
                            && r.lockedToCentre == locked && r.visible == visible
    ensures !r.destroyed ==> r.registry == Registry(Some(self), true) && r.visible && !r.lockedToCentre
                              && r.cursor == Request(c, current, SetDefault)
    ensures Occupied(r.registry)
  {
    if Occupied(reg) && reg.instance.value != self then AwakeResult(reg, true, current, locked, visible)
    else AwakeResult(Registry(Some(self), true), false, Request(c, current, SetDefault), false, true)
  }

  /** While the registered instance lives, no later Awake displaces it. */
  lemma FirstInstanceStays(reg: Registry, selves: seq<nat>, c: Cursors, current: Option<Shown>)
    requires Occupied(reg)
    ensures forall i :: 0 <= i < |selves| ==> Awake(reg, selves[i], c, current, false, true).registry == reg
  {
  }

  /** After the registered manager is destroyed by a scene change, the
      next manager's Awake takes the slot instead of destroying itself. */
  lemma ReplacedAfterSceneUnload(reg: Registry, self: nat, c: Cursors, current: Option<Shown>)
    requires Occupied(reg)
    ensures var r := Awake(SceneUnload(reg), self, c, current, false, true);
            !r.destroyed && r.registry.instance == Some(self)
  {
  }
}
