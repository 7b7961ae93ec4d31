/** The first-person look camera: like the right-mouse look script, but
    pitch is limited to an absolute range, only yaw is limited around the
    start direction, the cursor is locked and hidden, and the start angles
    are folded by a single subtraction. */
module StaticLookCamera {
  import opened Common
  import StaticLook

  /** Subtract one turn from angles above 180; leave all others alone. */
  function NormalizeOnce(angle: real): (r: real)
    ensures 0.0 <= angle < 360.0 ==> -180.0 < r <= 180.0
    ensures angle <= 180.0 ==> r == angle
    ensures r == angle || r == angle - 360.0
  {
    if angle > 180.0 then angle - 360.0 else angle
  }

  /** On the range Unity reports Euler angles in, [0, 360), the single
      subtraction agrees with the full two-loop normalization. */
  lemma OnceAgreesOnEulerRange(angle: real)
    ensures 0.0 <= angle < 360.0 ==> NormalizeOnce(angle) == StaticLook.Normalize(angle)
  {
  }

  /** Outside that range they differ: an angle of -200 stays -200. */
  lemma OnceLeavesLowAnglesAlone()
    ensures NormalizeOnce(-200.0) == -200.0
    ensures StaticLook.Normalize(-200.0) == 160.0
  {
  }

  datatype Settings = Settings(sensitivity: real, minPitch: real, maxPitch: real, yawLimit: real)

  const Defaults: Settings := Settings(0.08, -30.0, 30.0, 60.0)

  datatype Camera = Camera(yawCenter: real, yaw: real, pitch: real, rotation: Vec3)

  datatype Started = Started(camera: Camera, cursorLocked: bool, cursorVisible: bool)

  function Start(euler: Vec3): (r: Started)
    ensures r.cursorLocked && !r.cursorVisible
    ensures r.camera.yaw == r.camera.yawCenter
    ensures r.camera.yawCenter == euler.y || r.camera.yawCenter == euler.y - 360.0
    ensures r.camera.pitch == euler.x || r.camera.pitch == euler.x - 360.0
    ensures 0.0 <= euler.y < 360.0 ==> r.camera.yawCenter == StaticLook.Normalize(euler.y)
    ensures 0.0 <= euler.x < 360.0 ==> r.camera.pitch == StaticLook.Normalize(euler.x)
    ensures r.camera.rotation == euler
  {
    OnceAgreesOnEulerRange(euler.y);
    OnceAgreesOnEulerRange(euler.x);
    var y := NormalizeOnce(euler.y);
    Started(Camera(y, y, NormalizeOnce(euler.x), euler), true, false)
  }

  predicate InLimits(st: Settings, c: Camera) {
    && st.minPitch <= c.pitch <= st.maxPitch
    && c.yawCenter - st.yawLimit <= c.yaw <= c.yawCenter + st.yawLimit
  }

  function Update(st: Settings, c: Camera, input: StaticLook.Input): (r: Camera)
    ensures !input.mouse || !input.rightHeld ==> r == c
    ensures r.yawCenter == c.yawCenter
    ensures input.mouse && input.rightHeld ==>
              && (st.minPitch <= st.maxPitch ==> st.minPitch <= r.pitch <= st.maxPitch)
              && (st.yawLimit >= 0.0 ==> c.yawCenter - st.yawLimit <= r.yaw <= c.yawCenter + st.yawLimit)
              && r.rotation == Vec3(r.pitch, r.yaw, 0.0)
  {
    if !input.mouse || !input.rightHeld then c
    else
      var yaw := c.yaw + input.delta.x * st.sensitivity;
      var pitch := c.pitch - input.delta.y * st.sensitivity;
      var pitch' := Clamp(pitch, st.minPitch, st.maxPitch);
      var yaw' := Clamp(yaw, c.yawCenter - st.yawLimit, c.yawCenter + st.yawLimit);
      c.(yaw := yaw', pitch := pitch', rotation := Vec3(pitch', yaw', 0.0))
  }

  /** The pitch limits are absolute: two cameras that started looking in
      different directions get the same pitch from the same input, as long
      as their pitch before the frame was the same; the start direction
      plays no part. */
  lemma PitchIgnoresStart(st: Settings, c1: Camera, c2: Camera, input: StaticLook.Input)
    requires c1.pitch == c2.pitch
    ensures Update(st, c1, input).pitch == Update(st, c2, input).pitch
  {
  }

  /** A camera whose start pitch lies outside the absolute range is pulled
      into it by the first frame with the right button held, even with no
      mouse movement. */
  lemma FirstFrameSnapsPitch()
    ensures var c := Start(Vec3(45.0, 0.0, 0.0)).camera;
      && c.pitch == 45.0
      && Update(Defaults, c, StaticLook.Input(true, true, Vec2(0.0, 0.0))).pitch == 30.0
  {
  }

  /** Inside the limits the mouse moves the view by delta times the
      sensitivity. */
  lemma UnclampedMove(st: Settings, c: Camera, input: StaticLook.Input)
    requires input.mouse && input.rightHeld
    requires InLimits(st, c.(yaw := c.yaw + input.delta.x * st.sensitivity,
                             pitch := c.pitch - input.delta.y * st.sensitivity))
    ensures Update(st, c, input).yaw == c.yaw + input.delta.x * st.sensitivity
    ensures Update(st, c, input).pitch == c.pitch - input.delta.y * st.sensitivity
  {
  }

  function UpdateAll(st: Settings, c: Camera, inputs: seq<StaticLook.Input>): Camera
    decreases |inputs|
  {
    if |inputs| == 0 then c else UpdateAll(st, Update(st, c, inputs[0]), inputs[1..])
  }

  lemma {:induction false} StaysInLimits(st: Settings, c: Camera, inputs: seq<StaticLook.Input>)
    requires st.yawLimit >= 0.0 && st.minPitch <= st.maxPitch
    requires InLimits(st, c)
    ensures InLimits(st, UpdateAll(st, c, inputs))
    decreases |inputs|
  {
    if |inputs| > 0 {
      StaysInLimits(st, Update(st, c, inputs[0]), inputs[1..]);
    }
  }
}
