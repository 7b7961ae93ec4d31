/** The desk as a whole: one frame of the physics interactor, the press
    animation of the button it clicked, and the decision it forwards to the
    round sequencer. */
module Desk {
  import opened Common
  import opened Interactable
  import opened DeskButtons
  import DeskInteractor
  import opened GameLoop

  datatype Desk = Desk(
    interactor: DeskInteractor.Interactor,
    world: World,
    buttons: map<nat, Button>,
    loop: Loop)

  ghost predicate Valid(d: Desk) {
    DeskInteractor.Valid(d.interactor, d.world)
  }

  /** One Update of the interactor: the clicked button runs its press
      animation (if one is not already running) and the loop receives the
      decision, in that order. */
  function Frame(cfg: DeskInteractor.Settings, w: Wiring, d: Desk, input: DeskInteractor.Input, probe: DeskInteractor.Probe): (r: Desk)
    requires Valid(d) && MaskedIn(probe.masked, d.world.items.Keys)
    ensures Valid(r)
    ensures r.buttons.Keys == d.buttons.Keys
    ensures r.loop.correct + r.loop.mistakes <= d.loop.correct + d.loop.mistakes + 1
  {
    var f := DeskInteractor.Step(cfg, d.interactor, d.world, input, probe);
    var buttons :=
      if f.pressed.Some? && f.pressed.value in d.buttons
      then d.buttons[f.pressed.value := PressVisual(d.buttons[f.pressed.value])]
      else d.buttons;
    var loop := if f.decision.Some? then Handle(w, d.loop, Decide(f.decision.value)).loop else d.loop;
    Desk(f.s, f.world, buttons, loop)
  }

  /** The click a player makes on a decision button with nothing held. */
  predicate ButtonClick(cfg: DeskInteractor.Settings, d: Desk, input: DeskInteractor.Input, probe: DeskInteractor.Probe, id: nat) {
    && cfg.hasCamera && cfg.hasLoop && input.mouse && input.leftPressed
    && d.interactor.held.None?
    && probe.any.RayHit? && probe.any.button.Some? && probe.any.button.value.id == id
    && id in d.buttons && d.buttons[id].kind == probe.any.button.value.kind
  }

  /** Clicking a button twice before its animation ends: the second click
      does not restart the animation, but the decision is forwarded again.
      With the resolution director assigned the sequencer's phase guard
      drops it; without it the round is scored twice. The button's own
      guard never protects the tally. */
  lemma DoubleClickGuardedOnlyByPhase(cfg: DeskInteractor.Settings, w: Wiring, d: Desk,
                                      input: DeskInteractor.Input, probe: DeskInteractor.Probe, id: nat)
    requires Valid(d) && MaskedIn(probe.masked, d.world.items.Keys)
    requires ButtonClick(cfg, d, input, probe, id)
    requires d.loop.phase == AwaitingDecision
    ensures var d1 := Frame(cfg, w, d, input, probe);
      && d1.buttons[id].isPressed
      && ButtonClick(cfg, d1, input, probe, id)
      && var d2 := Frame(cfg, w, d1, input, probe);
      && d2.buttons[id] == d1.buttons[id]
      && var decision := if d.buttons[id].kind == Green then Accept else Reject;
      && var resolved := if decision == Accept then w.successDirector else w.failDirector && w.audio;
      && (resolved ==> d2.loop == d1.loop && d1.loop.correct + d1.loop.mistakes == d.loop.correct + d.loop.mistakes + 1)
      && (!resolved && w.audio ==> d2.loop.correct + d2.loop.mistakes == d.loop.correct + d.loop.mistakes + 2)
  {
  }

  /** A whole round with every reference assigned: the card comes out
      invalid, the player rejects it, and the round is scored correct and
      resolved through the fail timeline, which leads back to a new
      entrance. */
  lemma RejectingAnInvalidCard()
    ensures var w := Wiring(true, true, true, true, true, true);
      var s0 := GameLoop.Start(w).loop;
      var s1 := Handle(w, s0, EnterStopped(SpawnedCard(Some(false), true))).loop;
      var s2 := Handle(w, s1, Decide(Reject)).loop;
      var s3 := Handle(w, s2, FailStopped).loop;
      && s1.phase == AwaitingDecision && !s1.currentIdIsValid
      && s2.correct == 1 && s2.mistakes == 0 && s2.phase == PlayingFail
      && s3.phase == PlayingEnter && s3.correct == 1 && s3.mistakes == 0
  {
  }
}
