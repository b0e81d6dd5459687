/** The agent as the program keeps it: a tracker whose snapshot is replaced, the SDK's listeners and
    action methods, and the counted loop. */
module AgentProcess {
  import opened Common
  import opened Wrappers
  import opened AgentLoop

  /** One turn of the loop: what arrives before the completion check, before the decision and while
      the action is under way, and how the action ends. */
  datatype Turn = Turn(before: seq<Step>, deciding: seq<Step>, during: seq<Step>, ok: bool, found: Ticket)

  function FirstPart(t: Turn): seq<Step> {
    t.before + ([LoopTop] + (t.deciding + [Decide]))
  }

  function SecondPart(t: Turn): seq<Step> {
    t.during + [ActionEnds(t.ok, t.found)]
  }

  function StepsOfTurn(t: Turn): seq<Step> {
    FirstPart(t) + SecondPart(t)
  }

  function StepsOf(turns: seq<Turn>): seq<Step> {
    if turns == [] then [LoopsExhausted] else StepsOfTurn(turns[0]) + StepsOf(turns[1..])
  }

  predicate ProperTurn(t: Turn) {
    && (forall e | e in t.before :: Arrival(e))
    && (forall e | e in t.deciding :: Arrival(e))
    && (forall e | e in t.during :: Arrival(e))
  }

  class Agent {
    const config: Config
    var snapshot: Snapshot
    var currentDeal: Option<Ticket>
    var place: Place
    ghost var log: seq<Success>
    ghost var umbraRequests: nat

    ghost function View(): State
      reads this
    {
      State(snapshot, currentDeal, place, log, umbraRequests)
    }

    constructor (c: Config)
      ensures config == c && View() == START
    {
      config := c;
      snapshot, currentDeal, place := INITIAL, None, Top;
      log, umbraRequests := [], 0;
    }

    predicate IsRelevantTicket(t: Ticket)
      reads this
      ensures IsRelevantTicket(t) == Relevant(View(), t)
    {
      if currentDeal.Some? then currentDeal.value == t else snapshot.activeTicket == Some(t)
    }

    method SetActive(t: Ticket)
      modifies this`snapshot, this`currentDeal
      ensures View() == SetActiveDeal(old(View()), t)
    {
      currentDeal := Some(t);
      snapshot := snapshot.(activeTicket := Some(t), currentPhase := RollupNegotiation);
    }

    /** The completion flag, decided on the updated snapshot. */
    method JudgeCompletion()
      modifies this`snapshot
      ensures snapshot == Judged(config, old(snapshot))
    {
      var complete := SuccessfulTerminal(snapshot.currentPhase) && EvidenceSatisfied(config, snapshot);
      snapshot := snapshot.(dealCompleted := complete);
    }

    /** A listener's body. */
    method OnNews(t: Ticket, news: News)
      modifies this`snapshot, this`umbraRequests
      ensures View() == Hear(config, old(View()), t, news)
    {
      if !IsRelevantTicket(t) {
        return;
      }
      match news {
        case NewPhase(p) =>
          snapshot := snapshot.(activeTicket := Some(t), currentPhase := p);
          JudgeCompletion();
        case RollupSessionReady => snapshot := snapshot.(activeTicket := Some(t), rollupReady := true);
        case FundingRequest => snapshot := snapshot.(activeTicket := Some(t));
        case ReleaseRequest =>
          var phase := if snapshot.currentPhase == Idle then AwaitingBuyerReleaseConfirmation else snapshot.currentPhase;
          snapshot := snapshot.(activeTicket := Some(t), releaseRequestPending := true, currentPhase := phase);
        case UmbraRequest =>
          snapshot := snapshot.(activeTicket := Some(t), umbraPending := true, umbraComplete := false);
          umbraRequests := umbraRequests + 1;
        case DealComplete =>
          snapshot := snapshot.(activeTicket := Some(t), currentPhase := Completed);
          JudgeCompletion();
      }
    }

    /** One listener call, or one part of the status refresh at the top of the loop. */
    method Deliver(e: Step)
      requires Arrival(e)
      modifies this
      ensures View() == Next(config, old(View()), e) && place == old(place)
    {
      if place == Stopped {
        return;
      }
      match e {
        case Matched(t) => SetActive(t);
        case Notice(t, news) => OnNews(t, news);
        case PhaseChanged(named, phase) =>
          var t := if named.Some? then named else currentDeal;
          if t.Some? {
            OnNews(t.value, NewPhase(if phase.Some? then phase.value else snapshot.currentPhase));
          }
        case StatusRefreshed(p) =>
          if place == Top && currentDeal.Some? { OnNews(currentDeal.value, NewPhase(p)); }
        case DealRecovered(t) =>
          if place == Top && config.role == Seller && snapshot.activeOffer { SetActive(t); }
      }
    }

    method DeliverAll(events: seq<Step>)
      requires forall e | e in events :: Arrival(e)
      modifies this
      ensures View() == Run(config, old(View()), events) && place == old(place)
    {
      var i := 0;
      while i < |events|
        invariant 0 <= i <= |events| && place == old(place)
        invariant Run(config, View(), events[i..]) == Run(config, old(View()), events)
      {
        assert events[i..][1..] == events[i + 1..] && events[i..][0] == events[i];
        assert events[i] in events;
        Deliver(events[i]);
        i := i + 1;
      }
    }

    /** What each action method writes once its chain-facing calls are through. */
    method Perform(action: Action)
      modifies this`snapshot
      ensures snapshot == Performed(config, old(snapshot), action)
    {
      match action {
        case PostOffer => snapshot := snapshot.(activeOffer := true);
        case CompletePrivateAgreement => snapshot := snapshot.(done := snapshot.done.(agreed := true));
        case AutoFundPrivateDeal => snapshot := snapshot.(done := snapshot.done.(funded := true));
        case SendEncryptedDelivery => snapshot := snapshot.(done := snapshot.done.(deliverySent := true));
        case CheckEncryptedDelivery => snapshot := snapshot.(done := snapshot.done.(deliveryReceived := true));
        case ConfirmPrivateDelivery => snapshot := snapshot.(done := snapshot.done.(deliveryConfirmed := true), releaseRequestPending := false);
        case CompleteUmbraLifecycle =>
          snapshot := snapshot.(umbraPending := false, umbraComplete := true);
          JudgeCompletion();
        case _ =>
      }
    }

    /** The awaited action returned, or threw and was caught. */
    method FinishAction(ok: bool, found: Ticket)
      modifies this
      ensures View() == Next(config, old(View()), ActionEnds(ok, found))
    {
      if !place.Acting? {
        return;
      }
      var action, deal := place.action, place.deal;
      if ok && !(OnDeal(action) && deal.None?) {
        if action == BrowseAndAcceptOffer {
          SetActive(found);
          snapshot := snapshot.(activeOffer := true);
        } else {
          Perform(action);
          if OnDeal(action) {
            log := log + [Success(action, deal.value)];
          }
        }
      }
      place := if snapshot.dealCompleted then Stopped else Top;
    }

    /** The completion check at the top of a turn. */
    method CheckCompleted()
      modifies this`place
      ensures View() == Next(config, old(View()), LoopTop)
    {
      if place == Top {
        place := if snapshot.dealCompleted then Stopped else Deciding;
      }
    }

    /** The recommendation is read when the action begins, not when the turn did. */
    method DecideNextAction()
      modifies this`place
      ensures View() == Next(config, old(View()), Decide)
    {
      if place != Deciding {
        return;
      }
      var action := Recommend(config, snapshot);
      if action == Stop {
        place := Stopped;
      } else if action == Wait {
        place := if snapshot.dealCompleted then Stopped else Top;
      } else {
        place := Acting(action, currentDeal);
      }
    }

    /** The first part of a turn, up to the start of its action. */
    method BeginTurn(turn: Turn)
      requires place == Top && ProperTurn(turn)
      modifies this
      ensures View() == Run(config, old(View()), FirstPart(turn))
      ensures place != Deciding
    {
      ghost var checking := [LoopTop] + (turn.deciding + [Decide]);
      RunJoin(config, View(), turn.before, checking);
      DeliverAll(turn.before);
      RunFirst(config, View(), LoopTop, turn.deciding + [Decide]);
      CheckCompleted();
      RunJoin(config, View(), turn.deciding, [Decide]);
      DeliverAll(turn.deciding);
      RunOne(config, View(), Decide);
      DecideNextAction();
    }

    /** The rest: the action is awaited, and ends. */
    method EndTurn(turn: Turn)
      requires ProperTurn(turn) && place != Deciding
      modifies this
      ensures View() == Run(config, old(View()), SecondPart(turn))
      ensures place == Top || place == Stopped
    {
      RunJoin(config, View(), turn.during, [ActionEnds(turn.ok, turn.found)]);
      DeliverAll(turn.during);
      RunOne(config, View(), ActionEnds(turn.ok, turn.found));
      FinishAction(turn.ok, turn.found);
    }

    method RunTurn(turn: Turn)
      requires place == Top && ProperTurn(turn)
      modifies this
      ensures View() == Run(config, old(View()), StepsOfTurn(turn))
      ensures place == Top || place == Stopped
    {
      RunJoin(config, View(), FirstPart(turn), SecondPart(turn));
      BeginTurn(turn);
      EndTurn(turn);
    }

    /** The loop, over any turns. It always ends stopped, in the state the steps describe. */
    method RunLoop(turns: seq<Turn>)
      requires place == Top && forall t | t in turns :: ProperTurn(t)
      modifies this
      ensures View() == Run(config, old(View()), StepsOf(turns))
      ensures place == Stopped
    {
      var i := 0;
      while i < |turns|
        invariant 0 <= i <= |turns|
        invariant place == Top
        invariant Run(config, View(), StepsOf(turns[i..])) == Run(config, old(View()), StepsOf(turns))
      {
        assert turns[i] in turns;
        assert turns[i..][1..] == turns[i + 1..] && turns[i..][0] == turns[i];
        RunJoin(config, View(), StepsOfTurn(turns[i]), StepsOf(turns[i + 1..]));
        RunTurn(turns[i]);
        i := i + 1;
        if place == Stopped {
          StoppedStays(config, View(), StepsOf(turns[i..]));
          return;
        }
      }
      RunFirst(config, View(), LoopsExhausted, []);
      place := Stopped;
    }
  }

  lemma RunFirst(c: Config, s: State, first: Step, rest: seq<Step>)
    ensures Run(c, s, [first] + rest) == Run(c, Next(c, s, first), rest)
  {
    assert ([first] + rest)[1..] == rest;
  }

  lemma RunOne(c: Config, s: State, step: Step)
    ensures Run(c, s, [step]) == Next(c, s, step)
  {
    assert Run(c, Next(c, s, step), []) == Next(c, s, step);
  }
}
