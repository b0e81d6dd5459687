/** Who takes which action and when, and what each event and each action leaves behind, told on the
    fields of the snapshot alone. */
module AgentLaws {
  import opened Common
  import opened Wrappers
  import opened AgentLoop
  import AgentRuns

  /** The evidence the settings ask of this role. */
  predicate HasEvidence(c: Config, umbra: bool, sent: bool, received: bool, confirmed: bool) {
    c.privateMode ==>
      && (c.fullUmbra ==> umbra)
      && (c.encryptedDelivery ==> if c.role == Seller then sent else received)
      && (c.privateRelease && c.role == Buyer ==> confirmed)
  }

  predicate Evidence(c: Config, s: Snapshot) {
    HasEvidence(c, s.umbraComplete, s.done.deliverySent, s.done.deliveryReceived, s.done.deliveryConfirmed)
  }

  /** The deal has failed, or has ended well with all the evidence. */
  predicate StopDue(c: Config, s: Snapshot) {
    || s.currentPhase in {Failed, Cancelled, Disputed}
    || ((s.dealCompleted || s.currentPhase in {Completed, Settled}) && Evidence(c, s))
  }

  /** A seller may deliver: the money is on its way, or somebody asked for the next step. */
  predicate MayDeliver(s: Snapshot) {
    || s.releaseRequestPending || s.umbraPending
    || s.currentPhase in {EscrowCreated, CreatedAwaitingDeposits, Delivery, AwaitingBuyerReleaseConfirmation,
                          UmbraLifecyclePending, AwaitingSettlementPlanApprovals, AwaitingReleaseApprovals}
  }

  /** What each action but waiting asks for; no action is due together with another. */
  predicate Due(c: Config, s: Snapshot, a: Action)
    requires a != Wait
  {
    var d := s.done;
    var open := !StopDue(c, s) && s.activeTicket.Some? && s.rollupReady;
    match a
    case Stop => StopDue(c, s)
    case PostOffer => !StopDue(c, s) && s.activeTicket.None? && c.role == Seller && !s.activeOffer
    case BrowseAndAcceptOffer => !StopDue(c, s) && s.activeTicket.None? && c.role == Buyer
    case CompletePrivateAgreement => open && !d.agreed
    case AutoFundPrivateDeal => open && d.agreed && !d.funded
    case SendEncryptedDelivery => open && d.agreed && d.funded && c.role == Seller && !d.deliverySent && MayDeliver(s)
    case CheckEncryptedDelivery => open && d.agreed && d.funded && c.role == Buyer && !d.deliveryReceived
    case ConfirmPrivateDelivery =>
      open && d.agreed && d.funded && c.role == Buyer && d.deliveryReceived && !d.deliveryConfirmed
    case CompleteUmbraLifecycle =>
      && open && d.agreed && d.funded && c.privateMode && c.fullUmbra && s.umbraPending && !s.umbraComplete
      && if c.role == Seller then d.deliverySent else d.deliveryReceived && d.deliveryConfirmed
    case Wait => false
  }

  lemma EvidenceIff(c: Config, s: Snapshot)
    ensures EvidenceSatisfied(c, s) <==> Evidence(c, s)
  {
  }

  /** Every action is recommended exactly when it is due, and waiting exactly when none is. */
  lemma RecommendedIff(c: Config, s: Snapshot, a: Action)
    ensures a != Wait ==> (Recommend(c, s) == a <==> Due(c, s, a))
    ensures Recommend(c, s) == Wait <==> forall b | b != Wait :: !Due(c, s, b)
  {
    EvidenceIff(c, s);
    if Recommend(c, s) != Wait {
      assert Due(c, s, Recommend(c, s));
    }
  }

  /** An action begins exactly when the loop decides and the action is due, and then for the deal the
      agent has at that moment. */
  lemma BeginsIff(c: Config, s: State, step: Step, a: Action, deal: Option<Ticket>)
    requires !s.place.Acting?
    ensures Next(c, s, step).place == Acting(a, deal) <==>
              && s.place == Deciding && step == Decide
              && a !in {Wait, Stop} && Due(c, s.snapshot, a) && deal == s.currentDeal
  {
    if s.place == Deciding && step == Decide && a !in {Wait, Stop} {
      RecommendedIff(c, s.snapshot, a);
    }
  }

  /** The loop ends exactly where the deal counts as complete between two awaits, where stopping is
      due, and where its turns run out. */
  lemma EndsIff(c: Config, s: State, step: Step)
    requires s.place != Stopped
    ensures Next(c, s, step).place == Stopped <==>
              || (s.place == Top && (step == LoopsExhausted || (step == LoopTop && s.snapshot.dealCompleted)))
              || (s.place == Deciding && step == Decide && StopDue(c, s.snapshot))
              || (s.place == Deciding && step == Decide && s.snapshot.dealCompleted
                  && forall a | a != Wait :: !Due(c, s.snapshot, a))
              || (s.place.Acting? && step.ActionEnds? && Next(c, s, step).snapshot.dealCompleted)
  {
    RecommendedIff(c, s.snapshot, Stop);
  }

  // ---------- whose action it is, over whole runs ----------

  /** An action under way belongs to the agent's role, and one on the market has no deal yet. */
  predicate RolesKept(c: Config, place: Place) {
    place.Acting? ==>
      && place.action !in {Wait, Stop}
      && (place.action in {PostOffer, SendEncryptedDelivery} ==> c.role == Seller)
      && (place.action in {BrowseAndAcceptOffer, CheckEncryptedDelivery, ConfirmPrivateDelivery} ==> c.role == Buyer)
      && (place.action == CompleteUmbraLifecycle ==> c.privateMode && c.fullUmbra)
      && (place.action in {PostOffer, BrowseAndAcceptOffer} <==> place.deal.None?)
  }

  lemma RolesKeptStep(c: Config, s: State, step: Step)
    requires RolesKept(c, s.place) && s.snapshot.activeTicket == s.currentDeal
    ensures RolesKept(c, Next(c, s, step).place)
  {
    if s.place == Deciding && step == Decide {
      RecommendedIff(c, s.snapshot, Recommend(c, s.snapshot));
    }
  }

  lemma {:induction false} RolesRun(c: Config, s: State, steps: seq<Step>)
    requires RolesKept(c, s.place) && AgentRuns.Inv(c, s)
    ensures RolesKept(c, Run(c, s, steps).place)
    decreases |steps|
  {
    if steps != [] {
      RolesKeptStep(c, s, steps[0]);
      AgentRuns.InvStep(c, s, steps[0]);
      RolesRun(c, Next(c, s, steps[0]), steps[1..]);
    }
  }

  /** In every run from the start, whatever arrives and whatever fails, only a seller posts an offer
      or delivers, only a buyer browses, looks for the delivery or confirms it, an offer is posted or
      taken only while the agent has no deal, and every other action has one. */
  lemma RolesThroughout(c: Config, steps: seq<Step>)
    ensures RolesKept(c, Run(c, START, steps).place)
  {
    AgentRuns.FreshInv(c, START);
    RolesRun(c, START, steps);
  }

  /** The first decision: a buyer browses and a seller posts its offer, whatever the settings. */
  lemma FirstDecision(c: Config)
    ensures Run(c, START, [LoopTop, Decide]).place
            == Acting(if c.role == Buyer then BrowseAndAcceptOffer else PostOffer, None)
  {
    var s1 := Next(c, START, LoopTop);
    assert [LoopTop, Decide][1..] == [Decide];
    assert Run(c, s1, [Decide]) == Run(c, Next(c, s1, Decide), []);
    assert Run(c, START, [LoopTop, Decide]) == Run(c, s1, [Decide]);
  }

  // ---------- what the events and the actions leave behind ----------

  /** The ticket is the agent's: its deal's, or the snapshot's as long as there is no deal. */
  predicate Mine(s: State, t: Ticket) {
    s.currentDeal == Some(t) || (s.currentDeal.None? && s.snapshot.activeTicket == Some(t))
  }

  /** Every news about the agent's ticket adds exactly what it says; only a phase and the end of the
      deal decide the completion flag, on the phase and the evidence there are then. News about any
      other ticket leaves everything alone. */
  lemma NewsTaken(c: Config, s: State, t: Ticket, news: News)
    requires s.place != Stopped
    ensures var s' := Next(c, s, Notice(t, news));
            && s'.currentDeal == s.currentDeal && s'.place == s.place && s'.log == s.log
            && s'.snapshot.done == s.snapshot.done && s'.snapshot.activeOffer == s.snapshot.activeOffer
            && (!Mine(s, t) ==> s' == s)
            && (Mine(s, t) ==>
                  && s'.snapshot.activeTicket == Some(t)
                  && s'.snapshot.rollupReady == (s.snapshot.rollupReady || news == RollupSessionReady)
                  && s'.snapshot.releaseRequestPending == (s.snapshot.releaseRequestPending || news == ReleaseRequest)
                  && s'.snapshot.umbraPending == (s.snapshot.umbraPending || news == UmbraRequest)
                  && s'.snapshot.umbraComplete == (s.snapshot.umbraComplete && news != UmbraRequest)
                  && s'.umbraRequests == s.umbraRequests + (if news == UmbraRequest then 1 else 0))
  {
  }

  lemma PhaseTaken(c: Config, s: State, t: Ticket, news: News)
    requires s.place != Stopped && Mine(s, t)
    ensures var s' := Next(c, s, Notice(t, news)).snapshot;
            && (news.NewPhase? ==> s'.currentPhase == news.phase)
            && (news.DealComplete? ==> s'.currentPhase == Completed)
            && (news.ReleaseRequest? && s.snapshot.currentPhase == Idle ==>
                  s'.currentPhase == AwaitingBuyerReleaseConfirmation)
            && (news.ReleaseRequest? && s.snapshot.currentPhase != Idle ==> s'.currentPhase == s.snapshot.currentPhase)
            && (news in {RollupSessionReady, FundingRequest, UmbraRequest} ==>
                  s'.currentPhase == s.snapshot.currentPhase)
            && (news.NewPhase? || news.DealComplete? ==>
                  (s'.dealCompleted <==> s'.currentPhase in {Completed, Settled} && Evidence(c, s')))
            && (!news.NewPhase? && !news.DealComplete? ==> s'.dealCompleted == s.snapshot.dealCompleted)
  {
    EvidenceIff(c, Next(c, s, Notice(t, news)).snapshot);
  }

  /** A phase without a ticket is the current deal's, and one without a phase decides the completion
      flag anew on the phase there is; the status is taken only between two turns. */
  lemma PhaseHeard(c: Config, s: State, named: Option<Ticket>, phase: Option<Phase>, status: Phase)
    requires s.place != Stopped
    ensures var p := if phase == None then s.snapshot.currentPhase else phase.value;
            && (named.Some? ==>
                  Next(c, s, PhaseChanged(named, phase)) == Next(c, s, Notice(named.value, NewPhase(p))))
            && (named.None? && s.currentDeal.Some? ==>
                  Next(c, s, PhaseChanged(named, phase)) == Next(c, s, Notice(s.currentDeal.value, NewPhase(p))))
            && (named.None? && s.currentDeal.None? ==> Next(c, s, PhaseChanged(named, phase)) == s)
    ensures s.place == Top && s.currentDeal.Some? ==>
              Next(c, s, StatusRefreshed(status)) == Next(c, s, Notice(s.currentDeal.value, NewPhase(status)))
    ensures s.place != Top || s.currentDeal.None? ==> Next(c, s, StatusRefreshed(status)) == s
  {
  }

  /** The agent takes another deal exactly on a match, where a seller with a live offer recovers one
      between two turns, and where a buyer's acceptance succeeds; the deal then starts in negotiation
      and all that was done stays done. */
  lemma DealTaken(c: Config, s: State, step: Step, t: Ticket)
    requires s.place != Stopped && s.currentDeal != Some(t)
    ensures Next(c, s, step).currentDeal == Some(t) <==>
              || step == Matched(t)
              || (step == DealRecovered(t) && s.place == Top && c.role == Seller && s.snapshot.activeOffer)
              || (step == ActionEnds(true, t) && s.place.Acting? && s.place.action == BrowseAndAcceptOffer)
    ensures Next(c, s, step).currentDeal == Some(t) ==>
              && Next(c, s, step).snapshot == s.snapshot.(activeTicket := Some(t), currentPhase := RollupNegotiation,
                    activeOffer := s.snapshot.activeOffer || step.ActionEnds?)
              && Next(c, s, step).log == s.log
  {
  }

  /** The action ended well, and had a deal if it needed one. */
  predicate Works(place: Place, ok: bool)
    requires place.Acting?
  {
    ok && (place.action in {Wait, Stop, PostOffer} || place.deal.Some?)
  }

  lemma WorksIff(c: Config, s: State, found: Ticket, ok: bool)
    requires s.place.Acting? && s.place.action != BrowseAndAcceptOffer
    ensures Next(c, s, ActionEnds(ok, found)).snapshot
            == if Works(s.place, ok) then Performed(c, s.snapshot, s.place.action) else s.snapshot
  {
  }

  /** A successful action raises the one flag of its own, or posts the offer, answers the release
      request or answers the Umbra request, and leaves the rest; one that fails, or a deal action
      without a deal, changes nothing in the snapshot. */
  lemma ActionLeaves(c: Config, s: State, found: Ticket, ok: bool)
    requires s.place.Acting? && s.place.action != BrowseAndAcceptOffer
    ensures var old', new', a := s.snapshot, Next(c, s, ActionEnds(ok, found)).snapshot, s.place.action;
            && (!Works(s.place, ok) ==> new' == old')
            && (Works(s.place, ok) ==>
                  && (a == PostOffer ==> new' == old'.(activeOffer := true))
                  && (a == CompletePrivateAgreement ==> new' == old'.(done := old'.done.(agreed := true)))
                  && (a == AutoFundPrivateDeal ==> new' == old'.(done := old'.done.(funded := true)))
                  && (a == SendEncryptedDelivery ==> new' == old'.(done := old'.done.(deliverySent := true)))
                  && (a == CheckEncryptedDelivery ==> new' == old'.(done := old'.done.(deliveryReceived := true)))
                  && (a == ConfirmPrivateDelivery ==>
                        new' == old'.(done := old'.done.(deliveryConfirmed := true), releaseRequestPending := false))
                  && (a == CompleteUmbraLifecycle ==>
                        new' == old'.(umbraPending := false, umbraComplete := true, dealCompleted := new'.dealCompleted))
                  && (a in {Wait, Stop} ==> new' == old'))
  {
    WorksIff(c, s, found, ok);
  }

  /** Of the actions only the Umbra lifecycle decides the completion flag. */
  lemma CompletionAfterAction(c: Config, s: State, found: Ticket, ok: bool)
    requires s.place.Acting?
    ensures var s' := Next(c, s, ActionEnds(ok, found));
            s'.snapshot.dealCompleted ==
              if ok && s.place.action == CompleteUmbraLifecycle && s.place.deal.Some?
              then s'.snapshot.currentPhase in {Completed, Settled} && Evidence(c, s'.snapshot)
              else s.snapshot.dealCompleted
  {
    EvidenceIff(c, Next(c, s, ActionEnds(ok, found)).snapshot);
  }

  /** A turn goes on to its decision exactly while the deal does not count as complete; an action
      that ended leads to the next turn unless it does. */
  lemma TurnGoesOn(c: Config, s: State, ok: bool, found: Ticket)
    ensures s.place == Top ==>
              Next(c, s, LoopTop) == s.(place := if s.snapshot.dealCompleted then Stopped else Deciding)
    ensures s.place.Acting? ==>
              var s' := Next(c, s, ActionEnds(ok, found));
              s'.place == if s'.snapshot.dealCompleted then Stopped else Top
    ensures s.place == Deciding && Recommend(c, s.snapshot) == Wait && !s.snapshot.dealCompleted ==>
              Next(c, s, Decide) == s.(place := Top)
  {
  }
}
