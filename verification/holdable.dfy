/** A pickable object of the hand-and-camera controller: hover tint, held
    flag, and the Rigidbody it freezes while held. */
module Holdable {
  import opened Common
  import opened Physics

  datatype Color = Color(r: real, g: real, b: real, a: real)

  const Black: Color := Color(0.0, 0.0, 0.0, 0.0)

  /** What Awake finds on the game object. */
  datatype Scene = Scene(
    hasRenderer: bool,
    materialHasColor: bool,
    materialColor: Color,
    existingBody: Option<Body>,
    layer: int,
    position: Vec3,
    rotation: Orientation)

  /** `color` is the renderer's material colour; `origColor` is the value
      cached at Awake (the field's default when nothing was cached). */
  datatype Holdable = Holdable(
    hoverColor: Color,
    hasRenderer: bool,
    hasColor: bool,
    origColor: Color,
    color: Color,
    origLayer: int,
    layer: int,
    rb: Body,
    isHeld: bool,
    position: Vec3,
    rotation: Orientation)

  /** Finds the renderer, guarantees a Rigidbody (adding a default one when
      none exists), caches the layer and, if the material has a colour
      property, the original colour. */
  function Awake(hoverColor: Color, scene: Scene): (h: Holdable)
    ensures scene.existingBody.Some? ==> h.rb == scene.existingBody.value
    ensures scene.existingBody.None? ==> h.rb == FreshBody(scene.position)
    ensures h.origLayer == scene.layer && h.layer == scene.layer
    ensures h.hasColor <==> scene.hasRenderer && scene.materialHasColor
    ensures h.hasColor ==> h.origColor == scene.materialColor && h.color == h.origColor
    ensures !h.isHeld
  {
    var hasColor := scene.hasRenderer && scene.materialHasColor;
    Holdable(
      hoverColor, scene.hasRenderer, hasColor,
      if hasColor then scene.materialColor else Black,
      scene.materialColor,
      scene.layer, scene.layer,
      if scene.existingBody.Some? then scene.existingBody.value else FreshBody(scene.position),
      false, scene.position, scene.rotation)
  }

  /** Tints the object with the hover colour, unless it is held, has no
      renderer, or its material has no colour. */
  function HoverEnter(h: Holdable): (r: Holdable)
    ensures r == h.(color := r.color)
    ensures r.color != h.color ==> !h.isHeld && h.hasRenderer && h.hasColor
    ensures !h.isHeld && h.hasRenderer && h.hasColor ==> r.color == h.hoverColor
  {
    if h.isHeld || !h.hasRenderer then h
    else if h.hasColor then h.(color := h.hoverColor)
    else h
  }

  /** Puts the cached original colour back (held or not). */
  function HoverExit(h: Holdable): (r: Holdable)
    ensures r == h.(color := r.color)
    ensures h.hasRenderer && h.hasColor ==> r.color == h.origColor
    ensures !(h.hasRenderer && h.hasColor) ==> r == h
  {
    if !h.hasRenderer then h
    else if h.hasColor then h.(color := h.origColor)
    else h
  }

  /** Marks the object held and freezes its body: zero velocities and
      kinematic. Gravity, constraints and layer are left alone. */
  function BeginHold(h: Holdable): (r: Holdable)
    ensures r.isHeld
    ensures r.rb.linearVelocity == Zero && r.rb.angularVelocity == Zero && r.rb.isKinematic
    ensures r.rb.useGravity == h.rb.useGravity && r.rb.constraints == h.rb.constraints
    ensures r.rb.position == h.rb.position
    ensures r == h.(isHeld := true, rb := r.rb)
  {
    h.(isHeld := true,
       rb := h.rb.(linearVelocity := Zero, angularVelocity := Zero, isKinematic := true))
  }

  /** Releases the object: not held, body non-kinematic, layer back to the
      one cached at Awake. */
  function DropWithPhysics(h: Holdable): (r: Holdable)
    ensures !r.isHeld && !r.rb.isKinematic && r.layer == h.origLayer
    ensures r.rb == h.rb.(isKinematic := false)
    ensures r == h.(isHeld := false, rb := r.rb, layer := r.layer)
  {
    h.(isHeld := false, rb := h.rb.(isKinematic := false), layer := h.origLayer)
  }

  // ---------------------------------------------------------------------
  // Properties

  lemma HoverExitIdempotent(h: Holdable)
    ensures HoverExit(HoverExit(h)) == HoverExit(h)
  {
  }

  /** Hovering in and out of a resting object gives back the object. */
  lemma HoverRoundTrip(h: Holdable)
    requires h.color == h.origColor || !h.hasColor
    ensures HoverExit(HoverEnter(h)) == h
  {
  }

  /** A hold followed by a drop leaves the body non-kinematic whatever it
      was before, keeps gravity and constraints, and clears the held flag. */
  lemma HoldThenDrop(h: Holdable)
    ensures var r := DropWithPhysics(BeginHold(h));
      && !r.isHeld && !r.rb.isKinematic
      && r.rb.useGravity == h.rb.useGravity && r.rb.constraints == h.rb.constraints
      && r.rb.linearVelocity == Zero && r.rb.angularVelocity == Zero
      && r.layer == h.origLayer && r.color == h.color
  {
  }

  datatype Call = CallHoverEnter | CallHoverExit | CallBeginHold | CallDrop

  function Apply(h: Holdable, c: Call): Holdable {
    match c
    case CallHoverEnter => HoverEnter(h)
    case CallHoverExit => HoverExit(h)
    case CallBeginHold => BeginHold(h)
    case CallDrop => DropWithPhysics(h)
  }

  function ApplyAll(h: Holdable, calls: seq<Call>): Holdable
    decreases |calls|
  {
    if |calls| == 0 then h else ApplyAll(Apply(h, calls[0]), calls[1..])
  }

  /** The shown colour is always the cached original or the hover colour. */
  ghost predicate Tinted(h: Holdable) {
    h.hasColor ==> h.color == h.origColor || h.color == h.hoverColor
  }

  /** Over any sequence of calls the Awake caches never change, the colour
      stays the original or the hover colour. */
  lemma {:induction false} CallsKeepCaches(h: Holdable, calls: seq<Call>)
    requires Tinted(h)
    ensures var r := ApplyAll(h, calls);
      && r.origLayer == h.origLayer && r.origColor == h.origColor && r.hasColor == h.hasColor
      && r.hoverColor == h.hoverColor && Tinted(r)
    decreases |calls|
  {
    if |calls| > 0 {
      CallsKeepCaches(Apply(h, calls[0]), calls[1..]);
    }
  }

  lemma AwakeIsTinted(hoverColor: Color, scene: Scene)
    ensures Tinted(Awake(hoverColor, scene))
  {
  }
}
