/** The round sequencer of the desk game: four phases driven by the two
    decision buttons and by the "stopped" callbacks of three timelines, with
    a correct/mistake tally.

    Timeline playback, root visibility, audio, score text and the card's
    physics are collaborators; every call into them is recorded as an
    `Effect` in the order the controller makes it. The audio reference is
    dereferenced without a null check, so an unassigned one throws: the
    call stops at that point (`aborted`), keeping the state changes made
    before it. */
module GameLoop {
  import opened Common

  datatype Phase = PlayingEnter | AwaitingDecision | PlayingSuccess | PlayingFail

  datatype Decision = Accept | Reject

  datatype Timeline = EnterTimeline | SuccessTimeline | FailTimeline

  /** Which serialized references are assigned in the scene. */
  datatype Wiring = Wiring(
    enterDirector: bool,
    successDirector: bool,
    failDirector: bool,
    audio: bool,
    idCardPrefab: bool,
    idMouthPoint: bool)

  /** What an instantiated card turns out to carry: the validity stored on
      its result component, if it has one, and whether it has a Rigidbody. */
  datatype SpawnedCard = SpawnedCard(result: Option<bool>, hasBody: bool)

  datatype Loop = Loop(phase: Phase, correct: nat, mistakes: nat, currentIdIsValid: bool)

  /** Calls into collaborators, in the order they are made. */
  datatype Effect =
    | MachineSound
    | RobotDie
    | EjectSound
    | ShowRoots(enter: bool, success: bool, fail: bool)
    | StopAll
    | Play(timeline: Timeline)
    | ShowScore(correct: nat, mistakes: nat)
    | SpawnCard
    | EjectImpulse

  datatype Outcome = Outcome(loop: Loop, effects: seq<Effect>, aborted: bool)

  /** External inputs: the two public decisions and the three timeline
      callbacks. The enter callback carries what the spawned card holds. */
  datatype Event =
    | Decide(decision: Decision)
    | EnterStopped(card: SpawnedCard)
    | SuccessStopped
    | FailStopped

  /** The field initialisers; the phase field starts at the enum's first value. */
  const Initial: Loop := Loop(PlayingEnter, 0, 0, true)

  function NoChange(s: Loop): Outcome {
    Outcome(s, [], false)
  }

  /** The truth table of a decision: accepting a valid card or rejecting an
      invalid one is correct. */
  predicate IsCorrect(d: Decision, valid: bool) {
    match d
    case Accept => valid
    case Reject => !valid
  }

  /** AddCorrect / AddMistake together with the score refresh they make. */
  function Tally(s: Loop, d: Decision): (r: Loop)
    ensures r.phase == s.phase && r.currentIdIsValid == s.currentIdIsValid
    ensures IsCorrect(d, s.currentIdIsValid) ==> r.correct == s.correct + 1 && r.mistakes == s.mistakes
    ensures !IsCorrect(d, s.currentIdIsValid) ==> r.mistakes == s.mistakes + 1 && r.correct == s.correct
  {
    if (d == Accept) == s.currentIdIsValid then s.(correct := s.correct + 1)
    else s.(mistakes := s.mistakes + 1)
  }

  function Start(w: Wiring): (r: Outcome)
    ensures |r.effects| > 0 && r.effects[0] == ShowScore(0, 0)
    ensures r.loop.correct == 0 && r.loop.mistakes == 0 && r.loop.currentIdIsValid
    ensures r.loop.phase == (if w.audio && w.enterDirector then PlayingEnter else AwaitingDecision)
  {
    var o := StartRound(w, Initial);
    Outcome(o.loop, [ShowScore(0, 0)] + o.effects, o.aborted)
  }

  /** Resets the round: the phase is parked at AwaitingDecision while the
      directors are stopped, so their stop callbacks are ignored, and moves
      to PlayingEnter only when the enter timeline exists and is played. */
  function StartRound(w: Wiring, s: Loop): (r: Outcome)
    decreases 2
    ensures r.loop == s.(phase := r.loop.phase)
    ensures r.aborted <==> !w.audio
    ensures r.loop.phase == PlayingEnter <==> w.audio && w.enterDirector
    ensures r.loop.phase != PlayingEnter ==> r.loop.phase == AwaitingDecision
    ensures Play(EnterTimeline) in r.effects <==> r.loop.phase == PlayingEnter
  {
    var parked := s.(phase := AwaitingDecision);
    if !w.audio then Outcome(parked, [], true)
    else
      var stopped := StopAllDirectors(w, parked);
      var effects := [MachineSound, ShowRoots(true, false, false), StopAll] + stopped.effects;
      if !w.enterDirector then Outcome(stopped.loop, effects, false)
      else Outcome(stopped.loop.(phase := PlayingEnter), effects + [Play(EnterTimeline)], false)
  }

  /** Stopping every assigned director raises its stopped callback; each is
      delivered here to its handler. Called only while the phase is parked
      at AwaitingDecision, where every handler ignores it. */
  function StopAllDirectors(w: Wiring, s: Loop): (r: Outcome)
    requires s.phase == AwaitingDecision
    decreases 1
    ensures r == NoChange(s)
  {
    // The card is never looked at: the enter handler returns at its guard.
    var afterEnter := if w.enterDirector then OnEnterStopped(w, s, SpawnedCard(None, false)) else NoChange(s);
    var afterSuccess := if w.successDirector then OnSuccessStopped(w, afterEnter.loop) else NoChange(afterEnter.loop);
    var afterFail := if w.failDirector then OnFailStopped(w, afterSuccess.loop) else NoChange(afterSuccess.loop);
    Outcome(afterFail.loop, afterEnter.effects + afterSuccess.effects + afterFail.effects, false)
  }

  /** The enter timeline finished: spawn and eject a card, then wait for a
      decision. If ejecting throws on the missing audio reference the phase
      stays PlayingEnter. */
  function OnEnterStopped(w: Wiring, s: Loop, card: SpawnedCard): (r: Outcome)
    decreases 0
    ensures s.phase != PlayingEnter ==> r == NoChange(s)
    ensures s.phase == PlayingEnter && !r.aborted ==> r.loop.phase == AwaitingDecision
    ensures r.aborted ==> r.loop.phase == PlayingEnter
    ensures r.loop.correct == s.correct && r.loop.mistakes == s.mistakes
  {
    if s.phase != PlayingEnter then NoChange(s)
    else
      var spawned := SpawnAndEjectId(w, s, card);
      var effects := [ShowRoots(true, false, false)] + spawned.effects;
      if spawned.aborted then Outcome(spawned.loop, effects, true)
      else Outcome(spawned.loop.(phase := AwaitingDecision), effects, false)
  }

  function OnSuccessStopped(w: Wiring, s: Loop): (r: Outcome)
    decreases if s.phase == PlayingSuccess then 3 else 0
    ensures s.phase != PlayingSuccess ==> r == NoChange(s)
    ensures s.phase == PlayingSuccess ==> r.loop.phase in {PlayingEnter, AwaitingDecision}
    ensures r.loop.correct == s.correct && r.loop.mistakes == s.mistakes
  {
    if s.phase != PlayingSuccess then NoChange(s) else StartRound(w, s)
  }

  function OnFailStopped(w: Wiring, s: Loop): (r: Outcome)
    decreases if s.phase == PlayingFail then 3 else 0
    ensures s.phase != PlayingFail ==> r == NoChange(s)
    ensures s.phase == PlayingFail ==> r.loop.phase in {PlayingEnter, AwaitingDecision}
    ensures r.loop.correct == s.correct && r.loop.mistakes == s.mistakes
  {
    if s.phase != PlayingFail then NoChange(s) else StartRound(w, s)
  }

  /** Instantiates the card and reads its validity: the stored flag when the
      card has a result component, true when it has none, and nothing at
      all when the prefab or the mouth point is unassigned. */
  function SpawnAndEjectId(w: Wiring, s: Loop, card: SpawnedCard): (r: Outcome)
    ensures r.loop.phase == s.phase && r.loop.correct == s.correct && r.loop.mistakes == s.mistakes
    ensures !(w.idCardPrefab && w.idMouthPoint) ==> r == NoChange(s)
    ensures w.idCardPrefab && w.idMouthPoint ==>
              r.loop.currentIdIsValid == (card.result.None? || card.result.value)
    ensures r.aborted <==> w.idCardPrefab && w.idMouthPoint && card.hasBody && !w.audio
    ensures EjectImpulse in r.effects <==> w.idCardPrefab && w.idMouthPoint && card.hasBody && w.audio
  {
    if !w.idCardPrefab || !w.idMouthPoint then NoChange(s)
    else
      var read := s.(currentIdIsValid := if card.result.Some? then card.result.value else true);
      if !card.hasBody then Outcome(read, [SpawnCard], false)
      else if !w.audio then Outcome(read, [SpawnCard], true)
      else Outcome(read, [SpawnCard, EjectSound, EjectImpulse], false)
  }

  /** Accept and Reject. Both score the decision against the card's
      validity, then route by the button pressed: Accept always plays the
      success timeline and Reject the fail timeline, whatever the score. */
  function OnDecision(w: Wiring, s: Loop, d: Decision): (r: Outcome)
    ensures s.phase != AwaitingDecision ==> r == NoChange(s)
    ensures s.phase == AwaitingDecision ==>
              r.loop == Tally(s, d).(phase := r.loop.phase)
    ensures s.phase == AwaitingDecision && d == Accept ==>
              r.loop.phase == (if w.successDirector then PlayingSuccess else AwaitingDecision)
    ensures s.phase == AwaitingDecision && d == Reject ==>
              r.loop.phase == (if w.failDirector && w.audio then PlayingFail else AwaitingDecision)
    ensures r.aborted <==> s.phase == AwaitingDecision && d == Reject && !w.audio
  {
    if s.phase != AwaitingDecision then NoChange(s)
    else
      var scored := Tally(s, d);
      var shown := [ShowScore(scored.correct, scored.mistakes)];
      match d
      case Accept =>
        var stopped := StopAllDirectors(w, scored);
        var effects := shown + [ShowRoots(false, true, false), StopAll] + stopped.effects;
        if !w.successDirector then Outcome(stopped.loop, effects, false)
        else Outcome(stopped.loop.(phase := PlayingSuccess), effects + [Play(SuccessTimeline)], false)
      case Reject =>
        if !w.audio then Outcome(scored, shown, true)
        else
          var stopped := StopAllDirectors(w, scored);
          var effects := shown + [RobotDie, ShowRoots(false, false, true), StopAll] + stopped.effects;
          if !w.failDirector then Outcome(stopped.loop, effects, false)
          else Outcome(stopped.loop.(phase := PlayingFail), effects + [Play(FailTimeline)], false)
  }

  function Handle(w: Wiring, s: Loop, e: Event): (r: Outcome)
    ensures r.loop.correct >= s.correct && r.loop.mistakes >= s.mistakes
    ensures r.loop.correct + r.loop.mistakes <= s.correct + s.mistakes + 1
  {
    match e
    case Decide(d) => OnDecision(w, s, d)
    case EnterStopped(card) => OnEnterStopped(w, s, card)
    case SuccessStopped => OnSuccessStopped(w, s)
    case FailStopped => OnFailStopped(w, s)
  }

  /** The state after a sequence of events. */
  function Run(w: Wiring, s: Loop, events: seq<Event>): Loop
    decreases |events|
  {
    if |events| == 0 then s else Run(w, Handle(w, s, events[0]).loop, events[1..])
  }

  // ---------------------------------------------------------------------
  // Properties

  /** Exactly one counter goes up by exactly one for an admitted decision,
      and it is the correct counter precisely for the truth table's
      correct combinations. */
  lemma DecisionTallyTruthTable(w: Wiring, s: Loop, d: Decision)
    requires s.phase == AwaitingDecision
    ensures var r := OnDecision(w, s, d).loop;
      && (r.correct == s.correct + 1 && r.mistakes == s.mistakes) == IsCorrect(d, s.currentIdIsValid)
      && (r.mistakes == s.mistakes + 1 && r.correct == s.correct) == !IsCorrect(d, s.currentIdIsValid)
    ensures d == Accept && s.currentIdIsValid ==> OnDecision(w, s, d).loop.correct == s.correct + 1
    ensures d == Accept && !s.currentIdIsValid ==> OnDecision(w, s, d).loop.mistakes == s.mistakes + 1
    ensures d == Reject && s.currentIdIsValid ==> OnDecision(w, s, d).loop.mistakes == s.mistakes + 1
    ensures d == Reject && !s.currentIdIsValid ==> OnDecision(w, s, d).loop.correct == s.correct + 1
  {
  }

  /** Once a decision has moved the round to its resolution timeline, a
      second decision is ignored and leaves the tally alone. */
  lemma SecondDecisionIgnored(w: Wiring, s: Loop, first: Decision, second: Decision)
    requires s.phase == AwaitingDecision
    requires first == Accept ==> w.successDirector
    requires first == Reject ==> w.failDirector && w.audio
    ensures var mid := OnDecision(w, s, first).loop;
      OnDecision(w, mid, second) == NoChange(mid)
  {
  }

  /** With the resolution director unassigned the phase stays at
      AwaitingDecision, so a second decision in the same round is admitted
      and scored again. */
  lemma MissingDirectorAdmitsSecondDecision(w: Wiring, s: Loop, d: Decision)
    requires s.phase == AwaitingDecision
    requires d == Accept ==> !w.successDirector
    requires d == Reject ==> !w.failDirector && w.audio
    ensures var mid := OnDecision(w, s, d).loop;
      && mid.phase == AwaitingDecision
      && OnDecision(w, mid, d).loop.correct + OnDecision(w, mid, d).loop.mistakes
         == s.correct + s.mistakes + 2
  {
  }

  /** Which timeline plays after a decision depends only on the button. */
  lemma RoutingIgnoresValidity(w: Wiring, s: Loop, d: Decision)
    requires s.phase == AwaitingDecision
    ensures OnDecision(w, s, d).loop.phase == OnDecision(w, s.(currentIdIsValid := !s.currentIdIsValid), d).loop.phase
  {
  }

  /** A resolution phase is only ever entered from a different phase by the
      matching button: PlayingSuccess by Accept, PlayingFail by Reject. */
  lemma ResolutionEnteredOnlyByItsButton(w: Wiring, s: Loop, e: Event)
    ensures var p := Handle(w, s, e).loop.phase;
      && (p == PlayingSuccess && s.phase != PlayingSuccess ==> e == Decide(Accept))
      && (p == PlayingFail && s.phase != PlayingFail ==> e == Decide(Reject))
  {
  }

  /** Every timeline callback is ignored while the round is parked at
      AwaitingDecision, which is the phase at every StopAllDirectors call. */
  lemma StopCallbacksIgnoredWhileParked(w: Wiring, s: Loop, e: Event)
    requires s.phase == AwaitingDecision
    requires !e.Decide?
    ensures Handle(w, s, e) == NoChange(s)
  {
  }

  /** A callback only acts in its own phase, and the phases its action
      leads to. */
  lemma CallbacksMatchTheirPhase(w: Wiring, s: Loop, card: SpawnedCard)
    ensures OnEnterStopped(w, s, card).loop != s ==> s.phase == PlayingEnter
    ensures OnSuccessStopped(w, s).loop != s ==> s.phase == PlayingSuccess
    ensures OnFailStopped(w, s).loop != s ==> s.phase == PlayingFail
    ensures s.phase == PlayingEnter && w.audio ==> OnEnterStopped(w, s, card).loop.phase == AwaitingDecision
    ensures s.phase == PlayingSuccess && w.audio && w.enterDirector ==> OnSuccessStopped(w, s).loop.phase == PlayingEnter
    ensures s.phase == PlayingFail && w.audio && w.enterDirector ==> OnFailStopped(w, s).loop.phase == PlayingEnter
  {
  }

  /** Neither counter ever decreases over any sequence of events, and the
      two together grow by at most one per event. */
  lemma {:induction false} CountersNeverDecrease(w: Wiring, s: Loop, events: seq<Event>)
    ensures Run(w, s, events).correct >= s.correct
    ensures Run(w, s, events).mistakes >= s.mistakes
    ensures Run(w, s, events).correct + Run(w, s, events).mistakes <= s.correct + s.mistakes + |events|
    decreases |events|
  {
    if |events| > 0 {
      var next := Handle(w, s, events[0]).loop;
      CountersNeverDecrease(w, next, events[1..]);
    }
  }
}
