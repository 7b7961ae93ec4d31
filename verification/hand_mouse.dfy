/** The hand that follows the mouse: the mouse moves a target point inside
    a box, and the hand eases toward the target each frame. */
module HandMouse {
  import opened Common

  datatype Settings = Settings(requireRightReleased: bool, sensitivity: real, minLocal: Vec3, maxLocal: Vec3)

  const Defaults: Settings :=
    Settings(true, 0.0025, Vec3(-0.45, -0.45, 0.45), Vec3(0.45, 0.25, 0.95))

  datatype Hand = Hand(target: Vec3, position: Vec3)

  /** `alpha` stands for the frame's smoothing factor 1 - exp(-smooth * dt);
      Lerp clamps it to [0, 1]. */
  datatype Input = Input(mouse: bool, rightHeld: bool, delta: Vec2, alpha: real)

  predicate BoxOk(st: Settings) {
    st.minLocal.x <= st.maxLocal.x && st.minLocal.y <= st.maxLocal.y && st.minLocal.z <= st.maxLocal.z
  }

  predicate InBox(st: Settings, v: Vec3) {
    && st.minLocal.x <= v.x <= st.maxLocal.x
    && st.minLocal.y <= v.y <= st.maxLocal.y
    && st.minLocal.z <= v.z <= st.maxLocal.z
  }

  function Start(position: Vec3): (h: Hand)
    ensures h.target == h.position == position
  {
    Hand(position, position)
  }

  function ClampBox(st: Settings, v: Vec3): (r: Vec3)
    ensures BoxOk(st) ==> InBox(st, r)
    ensures InBox(st, v) ==> r == v
  {
    Vec3(Clamp(v.x, st.minLocal.x, st.maxLocal.x),
         Clamp(v.y, st.minLocal.y, st.maxLocal.y),
         Clamp(v.z, st.minLocal.z, st.maxLocal.z))
  }

  /** The target before clamping: mouse x moves it right, mouse y up. */
  function Moved(st: Settings, h: Hand, delta: Vec2): (t: Vec3)
    ensures t.x == h.target.x + delta.x * st.sensitivity
    ensures t.y == h.target.y + delta.y * st.sensitivity
    ensures t.z == h.target.z
  {
    Vec3(h.target.x + delta.x * st.sensitivity, h.target.y + delta.y * st.sensitivity, h.target.z)
  }

  predicate Blocked(st: Settings, input: Input) {
    !input.mouse || (st.requireRightReleased && input.rightHeld)
  }

  function Update(st: Settings, h: Hand, input: Input): (r: Hand)
    ensures Blocked(st, input) ==> r == h
    ensures !Blocked(st, input) && BoxOk(st) ==> InBox(st, r.target)
    ensures !Blocked(st, input) && InBox(st, Moved(st, h, input.delta)) ==> r.target == Moved(st, h, input.delta)
    ensures !Blocked(st, input) ==>
              && Between(r.position.x, h.position.x, r.target.x)
              && Between(r.position.y, h.position.y, r.target.y)
              && Between(r.position.z, h.position.z, r.target.z)
  {
    if Blocked(st, input) then h
    else
      var target := ClampBox(st, Moved(st, h, input.delta));
      Hand(target, LerpVec(h.position, target, input.alpha))
  }

  /** The mouse never moves the target in depth: the new target's z is
      the same for every mouse delta. */
  lemma DepthIgnoresMouse(st: Settings, h: Hand, i1: Input, i2: Input)
    requires !Blocked(st, i1) && !Blocked(st, i2)
    ensures Update(st, h, i1).target.z == Update(st, h, i2).target.z
  {
  }

  /** A full-strength frame puts the hand on its target; a zero-strength
      frame leaves it where it was. */
  lemma AlphaExtremes(st: Settings, h: Hand, input: Input)
    requires !Blocked(st, input)
    ensures input.alpha >= 1.0 ==> Update(st, h, input).position == Update(st, h, input).target
    ensures input.alpha <= 0.0 ==> Update(st, h, input).position == h.position
  {
  }

  function UpdateAll(st: Settings, h: Hand, inputs: seq<Input>): Hand
    decreases |inputs|
  {
    if |inputs| == 0 then h else UpdateAll(st, Update(st, h, inputs[0]), inputs[1..])
  }

  /** A step between two points of the box stays in the box. */
  lemma BetweenInBox(st: Settings, p: Vec3, q: Vec3, t: Vec3)
    requires InBox(st, p) && InBox(st, q)
    requires Between(t.x, p.x, q.x) && Between(t.y, p.y, q.y) && Between(t.z, p.z, q.z)
    ensures InBox(st, t)
  {
  }

  /** A hand that starts inside its box keeps both its target and its
      position inside the box, whatever the mouse does. */
  lemma {:induction false} StaysInBox(st: Settings, h: Hand, inputs: seq<Input>)
    requires BoxOk(st) && InBox(st, h.target) && InBox(st, h.position)
    ensures InBox(st, UpdateAll(st, h, inputs).target) && InBox(st, UpdateAll(st, h, inputs).position)
    decreases |inputs|
  {
    if |inputs| > 0 {
      var h' := Update(st, h, inputs[0]);
      if !Blocked(st, inputs[0]) {
        BetweenInBox(st, h.position, h'.target, h'.position);
      }
      StaysInBox(st, h', inputs[1..]);
    }
  }
}
