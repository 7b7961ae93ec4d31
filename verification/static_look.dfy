/** The right-mouse look script: yaw and pitch are kept within limits
    around the rotation the object started with. */
module StaticLook {
  import opened Common

  /** True when x is a whole number of turns. */
  predicate WholeTurns(x: real) {
    (x / 360.0).Floor as real == x / 360.0
  }

  /** Whole numbers of turns are closed under adding or removing a turn. */
  lemma TurnShift(x: real, y: real)
    requires WholeTurns(x) && (y == x + 360.0 || y == x - 360.0)
    ensures WholeTurns(y)
  {
    var k := (x / 360.0).Floor;
    if y == x + 360.0 {
      assert y / 360.0 == x / 360.0 + 1.0;
      assert (y / 360.0).Floor == k + 1;
    } else {
      assert y / 360.0 == x / 360.0 - 1.0;
      assert (y / 360.0).Floor == k - 1;
    }
  }

  function Down(a: real): (r: real)
    ensures r <= 180.0 && WholeTurns(r - a)
    ensures a <= 180.0 ==> r == a
    ensures a > 180.0 ==> r > -180.0
    decreases if a > 180.0 then a.Floor else 0
  {
    if a > 180.0 then
      var r := Down(a - 360.0);
      TurnShift(r - (a - 360.0), r - a);
      r
    else
      assert (a - a) / 360.0 == 0.0;
      a
  }

  function Up(a: real): (r: real)
    ensures r >= -180.0 && WholeTurns(r - a)
    ensures a >= -180.0 ==> r == a
    ensures a < -180.0 ==> r < 180.0
    decreases if a < -180.0 then (-a).Floor else 0
  {
    if a < -180.0 then
      var r := Up(a + 360.0);
      TurnShift(r - (a + 360.0), r - a);
      r
    else
      assert (a - a) / 360.0 == 0.0;
      a
  }

  /** Reference definition of the two wrapping loops. */
  function Normalize(a: real): (r: real)
    ensures -180.0 <= r <= 180.0
    ensures WholeTurns(r - a)
    ensures -180.0 <= a <= 180.0 ==> r == a
  {
    Up(Down(a))
  }

  /** The two while loops as written: subtract 360 while above 180, then
      add 360 while below -180. */
  method NormalizeAngle(a: real) returns (r: real)
    ensures -180.0 <= r <= 180.0
    ensures WholeTurns(r - a)
    ensures -180.0 <= a <= 180.0 ==> r == a
    ensures r == Normalize(a)
  {
    r := a;
    ghost var turns: int := 0;
    while r > 180.0
      invariant r == a - 360.0 * turns as real
      invariant Down(r) == Down(a)
      decreases r.Floor
    {
      r := r - 360.0;
      turns := turns + 1;
    }
    while r < -180.0
      invariant r <= 180.0
      invariant r == a - 360.0 * turns as real
      invariant Up(r) == Up(Down(a))
      decreases (-r).Floor
    {
      r := r + 360.0;
      turns := turns - 1;
    }
    assert (r - a) / 360.0 == -turns as real;
  }

  /** Normalizing twice is normalizing once. */
  lemma NormalizeIdempotent(a: real)
    ensures Normalize(Normalize(a)) == Normalize(a)
  {
  }

  /** Inspector values: sensitivity and limits, in degrees. */
  datatype Settings = Settings(sensitivity: real, yawLimit: real, minPitch: real, maxPitch: real)

  const Defaults: Settings := Settings(0.08, 60.0, -30.0, 30.0)

  datatype Look = Look(startYaw: real, startPitch: real, yaw: real, pitch: real, rotation: Vec3)

  /** One frame of the input devices; `mouse` is false when no mouse is
      present. */
  datatype Input = Input(mouse: bool, rightHeld: bool, delta: Vec2)

  /** Start also unlocks and shows the cursor. */
  datatype Started = Started(look: Look, cursorLocked: bool, cursorVisible: bool)

  function Start(euler: Vec3): (r: Started)
    ensures -180.0 <= r.look.startYaw <= 180.0 && -180.0 <= r.look.startPitch <= 180.0
    ensures WholeTurns(r.look.startYaw - euler.y) && WholeTurns(r.look.startPitch - euler.x)
    ensures r.look.startYaw == Normalize(euler.y) && r.look.startPitch == Normalize(euler.x)
    ensures r.look.yaw == r.look.startYaw && r.look.pitch == r.look.startPitch
    ensures r.look.rotation == euler
    ensures !r.cursorLocked && r.cursorVisible
  {
    var y := Normalize(euler.y);
    var p := Normalize(euler.x);
    Started(Look(y, p, y, p, euler), false, true)
  }

  predicate YawInLimits(st: Settings, s: Look) {
    s.startYaw - st.yawLimit <= s.yaw <= s.startYaw + st.yawLimit
  }

  predicate PitchInLimits(st: Settings, s: Look) {
    s.startPitch + st.minPitch <= s.pitch <= s.startPitch + st.maxPitch
  }

  function Update(st: Settings, s: Look, input: Input): (r: Look)
    ensures !input.mouse || !input.rightHeld ==> r == s
    ensures r.startYaw == s.startYaw && r.startPitch == s.startPitch
    ensures input.mouse && input.rightHeld ==>
              && (st.yawLimit >= 0.0 ==> YawInLimits(st, r))
              && (st.minPitch <= st.maxPitch ==> PitchInLimits(st, r))
              && r.rotation == Vec3(r.pitch, r.yaw, 0.0)
  {
    if !input.mouse || !input.rightHeld then s
    else
      var yaw := s.yaw + input.delta.x * st.sensitivity;
      var pitch := s.pitch - input.delta.y * st.sensitivity;
      var yaw' := Clamp(yaw, s.startYaw - st.yawLimit, s.startYaw + st.yawLimit);
      var pitch' := Clamp(pitch, s.startPitch + st.minPitch, s.startPitch + st.maxPitch);
      s.(yaw := yaw', pitch := pitch', rotation := Vec3(pitch', yaw', 0.0))
  }

  /** Inside the limits the mouse moves the view by delta times the
      sensitivity: right turns right, up looks up (pitch decreases). */
  lemma UnclampedMove(st: Settings, s: Look, input: Input)
    requires input.mouse && input.rightHeld
    requires var r := s.(yaw := s.yaw + input.delta.x * st.sensitivity,
                         pitch := s.pitch - input.delta.y * st.sensitivity);
             YawInLimits(st, r) && PitchInLimits(st, r)
    ensures Update(st, s, input).yaw == s.yaw + input.delta.x * st.sensitivity
    ensures Update(st, s, input).pitch == s.pitch - input.delta.y * st.sensitivity
  {
  }

  function UpdateAll(st: Settings, s: Look, inputs: seq<Input>): Look
    decreases |inputs|
  {
    if |inputs| == 0 then s else UpdateAll(st, Update(st, s, inputs[0]), inputs[1..])
  }

  /** With well-formed limits that contain the start, the view never
      leaves its box, whatever the mouse does. */
  lemma {:induction false} StaysInLimits(st: Settings, s: Look, inputs: seq<Input>)
    requires st.yawLimit >= 0.0 && st.minPitch <= st.maxPitch
    requires YawInLimits(st, s) && PitchInLimits(st, s)
    ensures YawInLimits(st, UpdateAll(st, s, inputs)) && PitchInLimits(st, UpdateAll(st, s, inputs))
    decreases |inputs|
  {
    if |inputs| > 0 {
      StaysInLimits(st, Update(st, s, inputs[0]), inputs[1..]);
    }
  }

  /** The default limits contain the starting rotation. */
  lemma StartWithinDefaults(euler: Vec3)
    ensures YawInLimits(Defaults, Start(euler).look) && PitchInLimits(Defaults, Start(euler).look)
  {
  }
}
