/** The accept/reject buttons on the desk. A press pushes the button down
    by a fixed depth; after a fixed delay it springs back. The delayed
    half of the press is the `Release` event. */
module DeskButtons {
  import opened Common

  datatype ButtonType = Green | Red

  datatype Button = Button(
    kind: ButtonType,
    pressDepth: real,
    startLocalPos: Vec3,
    localPos: Vec3,
    isPressed: bool)

  /** The serialized type and depth, and the rest position captured at Awake. */
  function Awake(kind: ButtonType, pressDepth: real, localPos: Vec3): (b: Button)
    ensures b.kind == kind && b.startLocalPos == localPos && b.localPos == localPos && !b.isPressed
  {
    Button(kind, pressDepth, localPos, localPos, false)
  }

  /** Where the button sits while pressed. */
  function PressedPos(b: Button): Vec3 {
    b.startLocalPos.Minus(Up.Times(b.pressDepth))
  }

  /** Starts the press animation unless one is running. */
  function PressVisual(b: Button): (r: Button)
    ensures b.isPressed ==> r == b
    ensures !b.isPressed ==> r.isPressed && r.localPos == PressedPos(b)
    ensures r.kind == b.kind && r.startLocalPos == b.startLocalPos && r.pressDepth == b.pressDepth
  {
    if b.isPressed then b
    else b.(isPressed := true, localPos := PressedPos(b))
  }

  /** The animation's wait has elapsed: back to the rest position. With no
      animation running there is nothing to resume. */
  function Release(b: Button): (r: Button)
    ensures b.isPressed ==> !r.isPressed && r.localPos == b.startLocalPos
    ensures !b.isPressed ==> r == b
    ensures r.kind == b.kind && r.startLocalPos == b.startLocalPos && r.pressDepth == b.pressDepth
  {
    if b.isPressed then b.(isPressed := false, localPos := b.startLocalPos) else b
  }

  datatype ButtonEvent = Press | ReleaseTimer

  function Step(b: Button, e: ButtonEvent): Button {
    match e
    case Press => PressVisual(b)
    case ReleaseTimer => Release(b)
  }

  function Steps(b: Button, events: seq<ButtonEvent>): Button
    decreases |events|
  {
    if |events| == 0 then b else Steps(Step(b, events[0]), events[1..])
  }

  /** The button is either at rest or fully pressed, as its flag says. */
  ghost predicate AtRestOrPressed(b: Button) {
    b.localPos == (if b.isPressed then PressedPos(b) else b.startLocalPos)
  }

  /** Over any sequence of presses and releases the type, depth and rest
      position never change, and the position is always exactly the rest or
      the pressed position: repeated presses never drift it. */
  lemma {:induction false} NoDrift(b: Button, events: seq<ButtonEvent>)
    requires AtRestOrPressed(b)
    ensures var r := Steps(b, events);
      && r.kind == b.kind && r.pressDepth == b.pressDepth && r.startLocalPos == b.startLocalPos
      && AtRestOrPressed(r)
    decreases |events|
  {
    if |events| > 0 {
      NoDrift(Step(b, events[0]), events[1..]);
    }
  }

  /** A press while the animation is running changes nothing, so any burst
      of presses acts like a single one. */
  lemma {:induction false} PressesDoNotStack(b: Button, n: nat)
    ensures Steps(b, seq(n + 1, _ => Press)) == PressVisual(b)
    decreases n
  {
    if n > 0 {
      assert seq(n + 1, _ => Press)[1..] == seq(n, _ => Press);
      var p := PressVisual(b);
      assert PressVisual(p) == p;
      PressesStayPut(p, n);
    } else {
      assert seq(1, _ => Press)[1..] == [];
    }
  }

  lemma {:induction false} PressesStayPut(b: Button, n: nat)
    requires b.isPressed
    ensures Steps(b, seq(n, _ => Press)) == b
    decreases n
  {
    if n > 0 {
      assert seq(n, _ => Press)[1..] == seq(n - 1, _ => Press);
      PressesStayPut(b, n - 1);
    }
  }

  lemma AwakeAtRest(kind: ButtonType, pressDepth: real, localPos: Vec3)
    ensures AtRestOrPressed(Awake(kind, pressDepth, localPos))
  {
  }
}
