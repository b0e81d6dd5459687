/** What every run of the agent keeps, whatever the SDK's events and whichever actions fail. */
module AgentRuns {
  import opened Common
  import opened Wrappers
  import opened AgentLoop

  /** The deal actions in the order the deal needs them. */
  function Script(role: Role): (script: seq<Action>)
    ensures |script| >= 3
  {
    if role == Buyer
    then [CompletePrivateAgreement, AutoFundPrivateDeal, CheckEncryptedDelivery, ConfirmPrivateDelivery]
    else [CompletePrivateAgreement, AutoFundPrivateDeal, SendEncryptedDelivery]
  }

  /** The i-th deal action: the script, and from its end on nothing but Umbra lifecycles. */
  function Expected(role: Role, i: nat): Action {
    if i < |Script(role)| then Script(role)[i] else CompleteUmbraLifecycle
  }

  function UmbraSuccesses(role: Role, log: seq<Success>): nat {
    if |log| < |Script(role)| then 0 else |log| - |Script(role)|
  }

  predicate InOrder(role: Role, log: seq<Success>) {
    forall i | 0 <= i < |log| :: log[i].action == Expected(role, i)
  }

  /** The snapshot's flags say exactly how much of the script is done. */
  predicate FlagsFollowLog(c: Config, s: State) {
    && (s.snapshot.done.agreed <==> |s.log| >= 1)
    && (s.snapshot.done.funded <==> |s.log| >= 2)
    && (s.snapshot.done.deliverySent <==> c.role == Seller && |s.log| >= 3)
    && (s.snapshot.done.deliveryReceived <==> c.role == Buyer && |s.log| >= 3)
    && (s.snapshot.done.deliveryConfirmed <==> c.role == Buyer && |s.log| >= 4)
  }

  predicate Budget(c: Config, s: State) {
    UmbraSuccesses(c.role, s.log) + One(s.snapshot.umbraPending) <= s.umbraRequests
  }

  predicate ActingOnNext(c: Config, s: State) {
    s.place.Acting? && OnDeal(s.place.action) ==>
      && s.place.deal.Some?
      && s.place.action == Expected(c.role, |s.log|)
      && (s.place.action == CompleteUmbraLifecycle ==> s.snapshot.umbraPending)
  }

  /** All the evidence but that of the Umbra lifecycle, which a new request can take back. */
  predicate EvidenceButUmbra(c: Config, s: Snapshot) {
    EvidenceSatisfied(c, s.(umbraComplete := true))
  }

  predicate CompletionFounded(c: Config, s: Snapshot) {
    s.dealCompleted ==>
      EvidenceButUmbra(c, s) && (RequiresUmbra(c) ==> s.umbraComplete || s.umbraPending)
  }

  predicate Inv(c: Config, s: State) {
    && s.snapshot.activeTicket == s.currentDeal
    && InOrder(c.role, s.log)
    && FlagsFollowLog(c, s)
    && Budget(c, s)
    && ActingOnNext(c, s)
    && CompletionFounded(c, s.snapshot)
  }

  /** An arrival or a check leaves the log and the script's flags alone, and withdraws no request. */
  predicate SameProgress(s: State, s': State) {
    && s'.log == s.log
    && s'.snapshot.done == s.snapshot.done
    && (s'.place == s.place || !s'.place.Acting?)
    && (s.snapshot.umbraPending ==> s'.snapshot.umbraPending)
    && s'.umbraRequests - s.umbraRequests >= One(s'.snapshot.umbraPending && !s.snapshot.umbraPending)
    && (s.snapshot.umbraComplete ==> s'.snapshot.umbraComplete || s'.snapshot.umbraPending)
  }

  lemma HearFrame(c: Config, s: State, t: Ticket, news: News)
    requires s.snapshot.activeTicket == s.currentDeal && CompletionFounded(c, s.snapshot)
    ensures var s' := Hear(c, s, t, news);
            SameProgress(s, s') && s'.snapshot.activeTicket == s'.currentDeal && CompletionFounded(c, s'.snapshot)
  {
  }

  lemma ArrivalFrame(c: Config, s: State, step: Step)
    requires s.snapshot.activeTicket == s.currentDeal && CompletionFounded(c, s.snapshot) && Arrival(step)
    ensures var s' := Arrive(c, s, step);
            SameProgress(s, s') && s'.snapshot.activeTicket == s'.currentDeal && CompletionFounded(c, s'.snapshot)
  {
    match step
    case Notice(t, news) => HearFrame(c, s, t, news);
    case PhaseChanged(named, phase) =>
      var t := if named.Some? then named else s.currentDeal;
      if t.Some? {
        HearFrame(c, s, t.value, NewPhase(if phase.Some? then phase.value else s.snapshot.currentPhase));
      }
    case StatusRefreshed(p) =>
      if s.currentDeal.Some? { HearFrame(c, s, s.currentDeal.value, NewPhase(p)); }
    case _ =>
  }

  lemma ProgressKept(c: Config, s: State, s': State)
    requires Inv(c, s) && SameProgress(s, s')
    ensures InOrder(c.role, s'.log) && FlagsFollowLog(c, s') && Budget(c, s') && ActingOnNext(c, s')
  {
  }

  lemma ArrivalKeepsInv(c: Config, s: State, step: Step)
    requires Inv(c, s) && Arrival(step)
    ensures Inv(c, Arrive(c, s, step))
  {
    ArrivalFrame(c, s, step);
    ProgressKept(c, s, Arrive(c, s, step));
  }

  /** What the loop recommends on a deal is the next thing in order. */
  lemma DecideKeepsInv(c: Config, s: State)
    requires Inv(c, s)
    ensures Inv(c, Decision(c, s))
  {
  }

  lemma PerformedAction(c: Config, s: State, a: Action, t: Ticket)
    requires Inv(c, s) && OnDeal(a) && a == Expected(c.role, |s.log|)
    requires a == CompleteUmbraLifecycle ==> s.snapshot.umbraPending
    ensures var s' := s.(snapshot := Performed(c, s.snapshot, a), log := s.log + [Success(a, t)]);
            FlagsFollowLog(c, s') && Budget(c, s') && CompletionFounded(c, s'.snapshot) && InOrder(c.role, s'.log)
  {
  }

  lemma FailedActionKeepsInv(c: Config, s: State)
    requires Inv(c, s)
    ensures Inv(c, AfterAction(s))
  {
  }

  lemma OfferActionKeepsInv(c: Config, s: State, a: Action, deal: Option<Ticket>, found: Ticket)
    requires Inv(c, s) && !OnDeal(a)
    ensures Inv(c, EndAction(c, s, a, deal, true, found))
  {
    ProgressKept(c, s, EndAction(c, s, a, deal, true, found));
  }

  lemma ActionEndKeepsInv(c: Config, s: State, ok: bool, found: Ticket)
    requires Inv(c, s) && s.place.Acting?
    ensures Inv(c, EndAction(c, s, s.place.action, s.place.deal, ok, found))
  {
    var a, deal := s.place.action, s.place.deal;
    if !ok {
      FailedActionKeepsInv(c, s);
    } else if !OnDeal(a) {
      OfferActionKeepsInv(c, s, a, deal, found);
    } else {
      PerformedAction(c, s, a, deal.value);
    }
  }

  lemma InvStep(c: Config, s: State, step: Step)
    requires Inv(c, s)
    ensures Inv(c, Next(c, s, step))
  {
    if s.place != Stopped {
      if Arrival(step) {
        ArrivalKeepsInv(c, s, step);
      } else if step.Decide? {
        DecideKeepsInv(c, s);
      } else if step.ActionEnds? && s.place.Acting? {
        ActionEndKeepsInv(c, s, step.ok, step.found);
      }
    }
  }

  lemma {:induction false} InvRun(c: Config, s: State, steps: seq<Step>)
    requires Inv(c, s)
    ensures Inv(c, Run(c, s, steps))
    decreases |steps|
  {
    if steps != [] {
      InvStep(c, s, steps[0]);
      InvRun(c, Next(c, s, steps[0]), steps[1..]);
    }
  }

  predicate Fresh(s: State) {
    s == START
  }

  lemma FreshInv(c: Config, s: State)
    requires Fresh(s)
    ensures Inv(c, s)
  {
  }

  /** In every run the successful deal actions are the role's script in order, each at most once, and
      then only Umbra lifecycles, no more of them than requests: funding comes only after agreement,
      confirmation only after receipt, and Umbra only after the whole script. */
  lemma ActionsFollowScript(c: Config, s: State, steps: seq<Step>)
    requires Fresh(s)
    ensures InOrder(c.role, Run(c, s, steps).log)
    ensures UmbraSuccesses(c.role, Run(c, s, steps).log) <= Run(c, s, steps).umbraRequests
    ensures FlagsFollowLog(c, Run(c, s, steps))
  {
    FreshInv(c, s);
    InvRun(c, s, steps);
  }

  /** A deal action is recommended exactly when it is the next one, there is a ticket with a ready
      session, nothing says stop, and what the step itself waits for is there. */
  lemma RecommendsNextIff(c: Config, s: State, a: Action)
    requires Inv(c, s) && OnDeal(a)
    ensures Recommend(c, s.snapshot) == a <==>
            && a == Expected(c.role, |s.log|)
            && s.snapshot.activeTicket.Some? && s.snapshot.rollupReady
            && !FailedTerminal(s.snapshot.currentPhase)
            && !((s.snapshot.dealCompleted || Terminal(s.snapshot.currentPhase)) && EvidenceSatisfied(c, s.snapshot))
            && (a == SendEncryptedDelivery ==> DeliveryWindowOpen(s.snapshot))
            && (a == CompleteUmbraLifecycle ==>
                  RequiresUmbra(c) && s.snapshot.umbraPending && !s.snapshot.umbraComplete)
  {
  }

  /** Whenever a run holds a deal complete, the evidence is missing exactly when the Umbra lifecycle
      is required and was asked for again. */
  lemma CompletedEvidenceIff(c: Config, s: State, steps: seq<Step>)
    requires Fresh(s) && Run(c, s, steps).snapshot.dealCompleted
    ensures EvidenceSatisfied(c, Run(c, s, steps).snapshot) <==>
            !(RequiresUmbra(c) && Run(c, s, steps).snapshot.umbraPending && !Run(c, s, steps).snapshot.umbraComplete)
  {
    FreshInv(c, s);
    InvRun(c, s, steps);
  }

  /** A deal action counts exactly when it did not fail, for the deal it took when it began; a failed
      one leaves the snapshot as it is, to be recommended again. */
  lemma ActionCountsIff(c: Config, s: State, ok: bool, found: Ticket)
    requires Inv(c, s) && s.place.Acting? && OnDeal(s.place.action)
    ensures var s' := Next(c, s, ActionEnds(ok, found));
            && (ok <==> |s'.log| == |s.log| + 1)
            && (ok ==> s'.log == s.log + [Success(s.place.action, s.place.deal.value)])
            && (!ok ==> s'.log == s.log && s'.snapshot == s.snapshot)
  {
  }

  predicate AgreedFor(log: seq<Success>, t: Ticket) {
    Success(CompletePrivateAgreement, t) in log
  }

  /** The script's flags belong to the process and not to a ticket: an agreement is made for the
      ticket of the first deal action and for no ticket the agent is matched into later. */
  lemma AgreedTicketIff(c: Config, s: State, steps: seq<Step>, t: Ticket)
    requires Fresh(s)
    ensures AgreedFor(Run(c, s, steps).log, t) <==>
            Run(c, s, steps).log != [] && Run(c, s, steps).log[0].ticket == t
  {
    ActionsFollowScript(c, s, steps);
    var log := Run(c, s, steps).log;
    if AgreedFor(log, t) {
      var i :| 0 <= i < |log| && log[i] == Success(CompletePrivateAgreement, t);
      assert Expected(c.role, i) == CompletePrivateAgreement;
    }
    if log != [] {
      assert log[0].action == Expected(c.role, 0);
      assert log[0] in log;
    }
  }

  /** A turn of the loop in which the recommended deal action succeeds. */
  function Turn(t: Ticket): seq<Step> {
    [LoopTop, Decide, ActionEnds(true, t)]
  }

  /** The state after such a turn. */
  function AfterTurn(c: Config, s: State, a: Action, deal: Ticket): State {
    AfterAction(s.(snapshot := Performed(c, s.snapshot, a), log := s.log + [Success(a, deal)]))
  }

  lemma TurnPerforms(c: Config, s: State, t: Ticket)
    requires s.place == Top && !s.snapshot.dealCompleted && OnDeal(Recommend(c, s.snapshot)) && s.currentDeal.Some?
    ensures Run(c, s, Turn(t)) == AfterTurn(c, s, Recommend(c, s.snapshot), s.currentDeal.value)
  {
    var s1 := CheckTop(s);
    var s2 := Decision(c, s1);
    RunThree(c, s, LoopTop, Decide, ActionEnds(true, t));
    assert Next(c, s, LoopTop) == s1 && Next(c, s1, Decide) == s2;
  }

  lemma RunThree(c: Config, s: State, a: Step, b: Step, d: Step)
    ensures Run(c, s, [a, b, d]) == Next(c, Next(c, Next(c, s, a), b), d)
  {
    var s1 := Next(c, s, a);
    var s2 := Next(c, s1, b);
    assert [a, b, d][1..] == [b, d] && [b, d][1..] == [d];
    assert Run(c, s2, [d]) == Run(c, Next(c, s2, d), []);
    assert Run(c, s1, [b, d]) == Run(c, s2, [d]);
  }

  lemma RunOneMore(c: Config, s: State, first: Step, rest: seq<Step>)
    ensures Run(c, s, [first] + rest) == Run(c, Next(c, s, first), rest)
  {
    assert ([first] + rest)[1..] == rest;
  }

  /** The agent can still agree to the terms of a ticket it has not agreed to exactly when it has made
      no agreement at all: the flag belongs to the process and outlives the ticket. */
  lemma NewTicketAgreedIff(c: Config, s: State, t: Ticket)
    requires Inv(c, s) && s.place == Top && !s.snapshot.dealCompleted && !AgreedFor(s.log, t)
    ensures (exists steps :: AgreedFor(Run(c, s, steps).log, t)) <==> !s.snapshot.done.agreed
  {
    if s.snapshot.done.agreed {
      forall steps
        ensures !AgreedFor(Run(c, s, steps).log, t)
      {
        OnlyFirstAgrees(c, s, steps, t);
      }
    } else {
      var s1 := Next(c, s, Matched(t));
      var s2 := Next(c, s1, Notice(t, RollupSessionReady));
      assert Recommend(c, s2.snapshot) == CompletePrivateAgreement;
      TurnPerforms(c, s2, t);
      var steps := [Matched(t)] + ([Notice(t, RollupSessionReady)] + Turn(t));
      RunOneMore(c, s, Matched(t), [Notice(t, RollupSessionReady)] + Turn(t));
      RunOneMore(c, s1, Notice(t, RollupSessionReady), Turn(t));
      var log := Run(c, s, steps).log;
      assert log[|log| - 1] == Success(CompletePrivateAgreement, t);
    }
  }

  lemma {:induction false} LogGrows(c: Config, s: State, steps: seq<Step>)
    ensures s.log <= Run(c, s, steps).log
    decreases |steps|
  {
    if steps != [] {
      LogGrows(c, Next(c, s, steps[0]), steps[1..]);
    }
  }

  lemma OnlyFirstAgrees(c: Config, s: State, steps: seq<Step>, t: Ticket)
    requires Inv(c, s) && s.snapshot.done.agreed && !AgreedFor(s.log, t)
    ensures !AgreedFor(Run(c, s, steps).log, t)
  {
    InvRun(c, s, steps);
    LogGrows(c, s, steps);
    var log := Run(c, s, steps).log;
    forall i | 0 <= i < |log|
      ensures log[i] != Success(CompletePrivateAgreement, t)
    {
      if i == 0 {
        assert log[0] == s.log[0] && s.log[0] in s.log;
      } else {
        assert log[i].action == Expected(c.role, i);
      }
    }
  }

  // ---------- one ticket ----------

  /** The events that can give the agent a deal name only these tickets. */
  predicate NamesOnly(steps: seq<Step>, allowed: set<Ticket>) {
    forall i | 0 <= i < |steps| :: NameAllowed(steps[i], allowed)
  }

  predicate NameAllowed(step: Step, allowed: set<Ticket>) {
    match step
    case Matched(t) => t in allowed
    case DealRecovered(t) => t in allowed
    case ActionEnds(_, t) => t in allowed
    case _ => true
  }

  /** Every success, and the deal any action in progress was begun for, is on this ticket. */
  predicate OnTicket(s: State, t: Ticket) {
    && (forall i | 0 <= i < |s.log| :: s.log[i].ticket == t)
    && (s.currentDeal.Some? ==> s.currentDeal.value == t)
    && (s.place.Acting? && s.place.deal.Some? ==> s.place.deal.value == t)
  }

  lemma OnTicketArrival(c: Config, s: State, step: Step, t: Ticket)
    requires OnTicket(s, t) && NameAllowed(step, {t}) && Arrival(step)
    ensures OnTicket(Arrive(c, s, step), t)
  {
  }

  lemma OnTicketEnd(c: Config, s: State, a: Action, deal: Option<Ticket>, ok: bool, found: Ticket, t: Ticket)
    requires OnTicket(s, t) && found == t && (deal.Some? ==> deal.value == t)
    ensures OnTicket(EndAction(c, s, a, deal, ok, found), t)
  {
  }

  lemma OnTicketStep(c: Config, s: State, step: Step, t: Ticket)
    requires OnTicket(s, t) && NameAllowed(step, {t})
    ensures OnTicket(Next(c, s, step), t)
  {
    if s.place != Stopped {
      if Arrival(step) {
        OnTicketArrival(c, s, step, t);
      } else if step.ActionEnds? && s.place.Acting? {
        OnTicketEnd(c, s, s.place.action, s.place.deal, step.ok, step.found, t);
      }
    }
  }

  /** As long as the SDK's matches, recoveries and accepted offers name one ticket, every deal action
      of the run is for it. */
  lemma {:induction false} OneTicketRun(c: Config, s: State, steps: seq<Step>, t: Ticket)
    requires OnTicket(s, t) && NamesOnly(steps, {t})
    ensures OnTicket(Run(c, s, steps), t)
    decreases |steps|
  {
    if steps != [] {
      assert NameAllowed(steps[0], {t});
      OnTicketStep(c, s, steps[0], t);
      assert NamesOnly(steps[1..], {t}) by {
        assert forall i | 0 <= i < |steps[1..]| :: steps[1..][i] == steps[i + 1];
      }
      OneTicketRun(c, Next(c, s, steps[0]), steps[1..], t);
    }
  }

  /** A match with another ticket, and the next action of the script is for that one. */
  lemma NextActionFollowsTheMatch(c: Config, s: State, t: Ticket)
    requires Inv(c, s) && s.place == Top && !s.snapshot.dealCompleted && s.snapshot.rollupReady
    requires |s.log| < |Script(c.role)|
    ensures Run(c, s, [Matched(t)] + ([Notice(t, NewPhase(Delivery))] + Turn(t))).log
            == s.log + [Success(Expected(c.role, |s.log|), t)]
  {
    var s1 := Next(c, s, Matched(t));
    var s2 := Next(c, s1, Notice(t, NewPhase(Delivery)));
    RunOneMore(c, s, Matched(t), [Notice(t, NewPhase(Delivery))] + Turn(t));
    RunOneMore(c, s1, Notice(t, NewPhase(Delivery)), Turn(t));
    InvStep(c, s, Matched(t));
    InvStep(c, s1, Notice(t, NewPhase(Delivery)));
    assert s2.log == s.log && s2.currentDeal == Some(t);
    RecommendsNextIff(c, s2, Expected(c.role, |s.log|));
    TurnPerforms(c, s2, t);
  }

  /** The whole deal is done for the ticket it was begun for, in every continuation, exactly when the
      SDK can name no other: one match with another ticket is enough to take the next action there. */
  lemma OneTicketIff(c: Config, s: State, t: Ticket, allowed: set<Ticket>)
    requires Inv(c, s) && OnTicket(s, t) && s.place == Top && !s.snapshot.dealCompleted && s.snapshot.rollupReady
    requires s.log != [] && |s.log| < |Script(c.role)|
    ensures (forall steps | NamesOnly(steps, allowed) :: OnTicket(Run(c, s, steps), t)) <==> allowed <= {t}
  {
    if allowed <= {t} {
      forall steps | NamesOnly(steps, allowed)
        ensures OnTicket(Run(c, s, steps), t)
      {
        assert NamesOnly(steps, {t}) by {
          forall i | 0 <= i < |steps|
            ensures NameAllowed(steps[i], {t})
          {
            assert NameAllowed(steps[i], allowed);
          }
        }
        OneTicketRun(c, s, steps, t);
      }
    } else {
      var other :| other in allowed && other != t;
      var steps := [Matched(other)] + ([Notice(other, NewPhase(Delivery))] + Turn(other));
      NextActionFollowsTheMatch(c, s, other);
      var log := Run(c, s, steps).log;
      assert log[|s.log|].ticket == other;
      assert NamesOnly(steps, allowed);
    }
  }

  // ---------- the Umbra lifecycle ----------

  /** With the script done, a request is answered by an Umbra lifecycle in the next turn, however many
      there were before, exactly when the lifecycle is required, the deal neither counts as complete
      nor failed, and the request is for the agent's ticket or another is still open. */
  lemma UmbraRunsIff(c: Config, s: State, t: Ticket, about: Ticket)
    requires Inv(c, s) && s.place == Top && |s.log| >= |Script(c.role)| && s.currentDeal == Some(t)
    requires s.snapshot.rollupReady
    ensures Run(c, s, [Notice(about, UmbraRequest)] + Turn(t)).log == s.log + [Success(CompleteUmbraLifecycle, t)] <==>
              && RequiresUmbra(c) && !s.snapshot.dealCompleted && !FailedTerminal(s.snapshot.currentPhase)
              && (about == t || (s.snapshot.umbraPending && !s.snapshot.umbraComplete))
  {
    var s1 := Next(c, s, Notice(about, UmbraRequest));
    RunOneMore(c, s, Notice(about, UmbraRequest), Turn(t));
    InvStep(c, s, Notice(about, UmbraRequest));
    RecommendsNextIff(c, s1, CompleteUmbraLifecycle);
    assert s1.log == s.log && s1.currentDeal == Some(t);
    if Recommend(c, s1.snapshot) == CompleteUmbraLifecycle && !s1.snapshot.dealCompleted {
      TurnPerforms(c, s1, t);
    } else {
      TurnWithoutAction(c, s1, t);
    }
  }

  /** With the script done, a turn that runs no Umbra lifecycle logs nothing. */
  lemma TurnWithoutAction(c: Config, s: State, t: Ticket)
    requires Inv(c, s) && s.place == Top && s.currentDeal.Some? && |s.log| >= |Script(c.role)|
    requires s.snapshot.dealCompleted || Recommend(c, s.snapshot) != CompleteUmbraLifecycle
    ensures Run(c, s, Turn(t)).log == s.log
  {
    RunThree(c, s, LoopTop, Decide, ActionEnds(true, t));
    var s1 := Next(c, s, LoopTop);
    if !s.snapshot.dealCompleted {
      assert Recommend(c, s1.snapshot) == Wait || Recommend(c, s1.snapshot) == Stop;
    }
  }

  /** A seller at the top of its loop, on a deal in delivery that does not count as complete. */
  predicate InDelivery(c: Config, s: State, t: Ticket) {
    && c.role == Seller && s.place == Top && s.currentDeal == Some(t) && s.snapshot.activeTicket == Some(t)
    && s.snapshot.currentPhase == Delivery && !s.snapshot.dealCompleted && s.snapshot.rollupReady
  }

  const SCRIPT_DONE := Done(true, true, true, false, false)

  /** One turn of the script. */
  lemma ScriptTurn(c: Config, s: State, t: Ticket) returns (s': State)
    requires InDelivery(c, s, t) && !s.snapshot.done.deliverySent
    ensures s' == Run(c, s, Turn(t)) && InDelivery(c, s', t)
    ensures |s'.log| == |s.log| + 1 && s'.umbraRequests == s.umbraRequests
    ensures s'.snapshot.done ==
              if !s.snapshot.done.agreed then s.snapshot.done.(agreed := true)
              else if !s.snapshot.done.funded then s.snapshot.done.(funded := true)
              else s.snapshot.done.(deliverySent := true)
  {
    var a := Recommend(c, s.snapshot);
    TurnPerforms(c, s, t);
    s' := AfterTurn(c, s, a, t);
  }

  /** One more request and its lifecycle. */
  lemma UmbraTurn(c: Config, s: State, t: Ticket) returns (s': State)
    requires InDelivery(c, s, t) && RequiresUmbra(c) && s.snapshot.done == SCRIPT_DONE
    ensures s' == Run(c, s, [Notice(t, UmbraRequest)] + Turn(t)) && InDelivery(c, s', t)
    ensures s'.snapshot.done == SCRIPT_DONE
    ensures |s'.log| == |s.log| + 1 && s'.umbraRequests == s.umbraRequests + 1
  {
    var s1 := Next(c, s, Notice(t, UmbraRequest));
    RunOneMore(c, s, Notice(t, UmbraRequest), Turn(t));
    TurnPerforms(c, s1, t);
    s' := AfterTurn(c, s1, CompleteUmbraLifecycle, t);
  }

  /** A seller's deal, just matched and in delivery. */
  function Opening(t: Ticket): seq<Step> {
    [Matched(t), Notice(t, RollupSessionReady), Notice(t, NewPhase(Delivery))]
  }

  lemma Opened(c: Config, s: State, t: Ticket) returns (s': State)
    requires Fresh(s) && c.role == Seller
    ensures s' == Run(c, s, Opening(t)) && InDelivery(c, s', t)
    ensures s'.snapshot.done == INITIAL.done && s'.log == [] && s'.umbraRequests == 0
  {
    RunThree(c, s, Matched(t), Notice(t, RollupSessionReady), Notice(t, NewPhase(Delivery)));
    s' := Run(c, s, Opening(t));
  }

  /** A seller's run in which the lifecycle succeeds twice. */
  lemma UmbraTwice(c: Config, s: State, t: Ticket)
    requires Fresh(s) && c.role == Seller && RequiresUmbra(c)
    ensures exists steps :: UmbraSuccesses(Seller, Run(c, s, steps).log) == 2 && Run(c, s, steps).umbraRequests == 2
  {
    var turn, again := Turn(t), [Notice(t, UmbraRequest)] + Turn(t);
    var s0 := Opened(c, s, t);
    var s1 := ScriptTurn(c, s0, t);
    var s2 := ScriptTurn(c, s1, t);
    var s3 := ScriptTurn(c, s2, t);
    var s4 := UmbraTurn(c, s3, t);
    var s5 := UmbraTurn(c, s4, t);
    RunJoin(c, s3, again, again);
    RunJoin(c, s2, turn, again + again);
    RunJoin(c, s1, turn, turn + (again + again));
    RunJoin(c, s0, turn, turn + (turn + (again + again)));
    RunJoin(c, s, Opening(t), turn + (turn + (turn + (again + again))));
    assert Run(c, s, Opening(t) + (turn + (turn + (turn + (again + again))))) == s5;
  }

  /** A request for the Umbra lifecycle that arrives once the deal counts as complete takes the
      evidence back but not the completion: the loop stops as successful without it. */
  lemma LateUmbraRequest(c: Config, s: State, t: Ticket)
    requires Inv(c, s) && s.place == Top && s.snapshot.dealCompleted && s.currentDeal == Some(t) && RequiresUmbra(c)
    ensures var s' := Next(c, Next(c, s, Notice(t, UmbraRequest)), LoopTop);
            s'.place == Stopped && s'.snapshot.dealCompleted && !EvidenceSatisfied(c, s'.snapshot)
  {
  }
}
