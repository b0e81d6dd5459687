/** How a deal's phase moves: its history over any run, restarts, chain data and forced phases included. */
module DealHistory {
  import opened Common
  import opened Wrappers
  import opened DealTypes
  import opened AiJudge
  import opened DealPhase
  import opened DealRuns

  function Rank(p: Phase): nat {
    match p
    case Negotiation => 0
    case EscrowCreated => 1
    case AwaitingDeposits => 2
    case Delivery => 3
    case AwaitingRelease => 4
    case Disputed => 5
    case _ => 6
  }

  /** The history leads from negotiation to p, each transition raising the rank. */
  predicate Rising(h: seq<Transition>, p: Phase) {
    if h == [] then p == Negotiation
    else
      var last := h[|h| - 1];
      last.to == p && Rank(last.from) < Rank(p) && Rising(h[..|h| - 1], last.from)
  }

  function PhaseBefore(h: seq<Transition>, i: nat): Phase
    requires i <= |h|
  {
    if i == 0 then Negotiation else h[i - 1].to
  }

  predicate ConnectedPath(h: seq<Transition>, p: Phase) {
    && p == PhaseBefore(h, |h|)
    && forall i | 0 <= i < |h| :: h[i].from == PhaseBefore(h, i) && Rank(h[i].from) < Rank(h[i].to)
  }

  lemma {:induction false} RisingPath(h: seq<Transition>, p: Phase)
    requires Rising(h, p)
    ensures |h| <= Rank(p) && ConnectedPath(h, p)
  {
    if h != [] {
      var k := |h| - 1;
      RisingPath(h[..k], h[k].from);
      forall i | 0 <= i < |h|
        ensures Rank(h[i].from) < Rank(h[i].to) && h[i].from == PhaseBefore(h, i)
      {
        if i < k {
          assert h[..k][i] == h[i] && PhaseBefore(h[..k], i) == PhaseBefore(h, i);
        }
      }
    }
  }

  // ---------- which events step back ----------

  /** The chain, as served at start-up or on loading, names another phase that is not a higher one. */
  predicate ReconcilesBack(d: Deal, chain: Chain) {
    Served(d, chain) && PhaseAfter(d, chain) != d.phase && Rank(PhaseAfter(d, chain)) <= Rank(d.phase)
  }

  /** The account's status, compared with the deal's phase, decides whether a deal moves back. */
  lemma ReconcileMovesBackIff(d: Deal, chain: Chain)
    ensures Rank(Reconcile(d, chain).phase) < Rank(d.phase) <==>
              Served(d, chain) &&
              match Account(d, chain).status
              case ChainCreated => Rank(d.phase) > Rank(EscrowCreated)
              case ChainCollateralLocked => Rank(d.phase) > Rank(Delivery)
              case ChainPaymentLocked => Rank(d.phase) > Rank(Delivery)
              case _ => false
  {
  }

  /** A phase forced on a deal is another one and not a higher one. */
  predicate ForcesBack(from: Phase, status: string) {
    SyncTarget(status).Some? && SyncTarget(status).value != from && Rank(SyncTarget(status).value) <= Rank(from)
  }

  /** The events that record a transition that does not raise the rank: a load whose chain data says
      so, a phase forced by the execution status, and a dispute over a deal left disputed. */
  predicate StepsBack(s: Slice, e: Event) {
    match e
    case Restart(chain) => s.row.Some? && !Terminal(s.row.value.phase) && ReconcilesBack(FromRow(s.row.value), chain)
    case Do(c) =>
      match c
      case UpsertTerms(_, _, _, chain) => LoadsBack(s, chain)
      case SyncTerminal(status, chain) => SyncTarget(status).Some? && (LoadsBack(s, chain) || LoadForcesBack(s, status, chain))
      case Act(action, _, _, _, _, _, _) => action == Dispute && s.mem.Some? && s.mem.value.phase == Disputed
      case _ => false
  }

  predicate LoadsBack(s: Slice, chain: Chain) {
    s.mem.None? && s.row.Some? && ReconcilesBack(FromRow(s.row.value), chain)
  }

  predicate LoadForcesBack(s: Slice, status: string, chain: Chain) {
    if s.mem.Some? then ForcesBack(s.mem.value.phase, status)
    else s.row.Some? && ForcesBack(PhaseAfter(FromRow(s.row.value), chain), status)
  }

  // ---------- every other event keeps the path ----------

  predicate OnPath(s: Slice) {
    && (s.mem.Some? ==> Rising(s.mem.value.history, s.mem.value.phase))
    && (s.row.Some? ==> Rising(s.row.value.history, s.row.value.phase))
  }

  lemma RisingMoveIff(d: Deal, to: Phase, triggeredBy: string, trigger: Trigger)
    ensures Rising(Move(d, to, triggeredBy, trigger).history, to)
            <==> Rising(d.history, d.phase) && Rank(d.phase) < Rank(to)
  {
    var h := Move(d, to, triggeredBy, trigger).history;
    assert h[..|h| - 1] == d.history;
  }

  lemma RisingReconcileIff(d: Deal, chain: Chain)
    requires Rising(d.history, d.phase)
    ensures Rising(Reconcile(d, chain).history, Reconcile(d, chain).phase) <==> !ReconcilesBack(d, chain)
    ensures Reconcile(d, chain).phase == PhaseAfter(d, chain)
  {
    var snapshot := ReadSnapshot(d, chain);
    if snapshot.Some? && PhaseDiffers(d, snapshot.value) {
      RisingMoveIff(WithFlags(d, snapshot.value), snapshot.value.phase.value, "on_chain_reconcile", Auto);
    }
  }

  lemma OnPathMoveIff(s: Slice, d: Deal, to: Phase, triggeredBy: string, trigger: Trigger)
    ensures OnPath(Put(s, Move(d, to, triggeredBy, trigger)))
            <==> Rising(d.history, d.phase) && Rank(d.phase) < Rank(to)
  {
    RisingMoveIff(d, to, triggeredBy, trigger);
  }

  lemma OnPathAdvance(s: Slice)
    requires OnPath(s)
    ensures OnPath(DoAdvance(s).0)
  {
    if s.mem.Some? && s.mem.value.phase == EscrowCreated {
      OnPathMoveIff(s, s.mem.value, AwaitingDeposits, "system", Auto);
    }
  }

  lemma OnPathDeposit(s: Slice, party: Party)
    requires OnPath(s)
    ensures OnPath(DoDeposit(s, party).0)
  {
    if s.mem.Some? && s.mem.value.phase == AwaitingDeposits {
      OnPathMoveIff(s, Flag(s.mem.value, party).(paymentLocked := true), Delivery, "system", Auto);
      OnPathMoveIff(s, s.mem.value.(paymentLocked := true), Delivery, "system", Auto);
    }
  }

  lemma OnPathPayment(s: Slice)
    requires OnPath(s)
    ensures OnPath(DoConfirmPayment(s).0)
  {
    if s.mem.Some? && s.mem.value.phase == AwaitingDeposits {
      OnPathMoveIff(s, s.mem.value.(paymentLocked := true), Delivery, "system", Auto);
    }
  }

  lemma OnPathCreate(s: Slice, sender: string, proposed: Option<Terms>)
    requires OnPath(s) && s.mem.Some?
    ensures OnPath(DoCreateEscrow(s, s.mem.value, sender, proposed).0)
  {
    if s.mem.value.phase == Negotiation {
      OnPathMoveIff(s, s.mem.value.(terms := proposed), EscrowCreated, sender, Brain(CreateEscrow));
    }
  }

  lemma OnPathRelease(s: Slice, sender: string, dir: Directory)
    requires OnPath(s) && s.mem.Some?
    ensures OnPath(DoRelease(s, s.mem.value, sender, dir).0)
  {
    if s.mem.value.phase == Delivery {
      OnPathMoveIff(s, s.mem.value, AwaitingRelease, sender, Brain(ReleaseFunds));
    }
  }

  lemma OnPathCancel(s: Slice, sender: string)
    requires OnPath(s) && s.mem.Some?
    ensures OnPath(DoCancel(s, s.mem.value, sender).0)
  {
    if !Terminal(s.mem.value.phase) {
      OnPathMoveIff(s, s.mem.value, Cancelled, sender, Brain(CancelDeal));
    }
  }

  lemma OnPathTwoMovesIff(s: Slice, d: Deal, sender: string, to: Phase, trigger: Trigger)
    requires Rank(Disputed) < Rank(to)
    ensures OnPath(Put(s, Move(Move(d, Disputed, sender, Brain(Dispute)), to, "ai_judge", trigger)))
            <==> Rising(d.history, d.phase) && Rank(d.phase) < Rank(Disputed)
  {
    RisingMoveIff(d, Disputed, sender, Brain(Dispute));
    OnPathMoveIff(s, Move(d, Disputed, sender, Brain(Dispute)), to, "ai_judge", trigger);
  }

  lemma OnPathDisputeIff(s: Slice, sender: string, reply: ModelReply)
    requires OnPath(s) && s.mem.Some?
    ensures OnPath(DoDispute(s, s.mem.value, sender, reply).0) <==> s.mem.value.phase != Disputed
  {
    if Disputable(s.mem.value.phase) {
      var verdict := Adjudicate(s.mem.value.terms, reply).verdict;
      if verdict == CancelVerdict {
        OnPathTwoMovesIff(s, s.mem.value, sender, Cancelled, Brain(CancelDeal));
      } else if verdict == SplitVerdict {
        OnPathTwoMovesIff(s, s.mem.value, sender, Completed, Brain(FractionalSplit));
      } else {
        OnPathTwoMovesIff(s, s.mem.value, sender, Completed, Brain(ReleaseFunds));
      }
    }
  }

  lemma OnPathActIff(s: Slice, c: Command)
    requires OnPath(s) && c.Act?
    ensures OnPath(DoAct(s, c).0) <==> !StepsBack(s, Do(c))
  {
    var s1 := SelfHeal(s, c.healBuyer, c.healSeller);
    match c.action
    case CreateEscrow => OnPathCreate(s1, c.sender, c.proposed);
    case ReleaseFunds => OnPathRelease(s1, c.sender, c.dir);
    case CancelDeal => OnPathCancel(s1, c.sender);
    case Dispute => OnPathDisputeIff(s1, c.sender, c.reply);
    case _ =>
  }

  lemma OnPathLoadIff(s: Slice, chain: Chain)
    requires OnPath(s) && s.row.Some?
    ensures OnPath(LoadRow(s, chain)) <==> !ReconcilesBack(FromRow(s.row.value), chain)
    ensures LoadRow(s, chain).mem == Some(Reconcile(FromRow(s.row.value), chain))
    ensures Reconcile(FromRow(s.row.value), chain).phase == PhaseAfter(FromRow(s.row.value), chain)
  {
    RisingReconcileIff(FromRow(s.row.value), chain);
  }

  lemma OnPathUpsertIff(s: Slice, buyer: string, seller: string, terms: Terms, chain: Chain)
    requires OnPath(s)
    ensures OnPath(DoUpsert(s, buyer, seller, terms, chain).0) <==> !LoadsBack(s, chain)
  {
    if s.mem.None? && s.row.Some? {
      OnPathLoadIff(s, chain);
    }
  }

  lemma OnPathForceIff(s: Slice, d: Deal, status: string)
    requires SyncTarget(status).Some? && OnPath(s) && Rising(d.history, d.phase)
    ensures OnPath(Put(s, Force(d, SyncTarget(status).value))) <==> !ForcesBack(d.phase, status)
  {
    OnPathMoveIff(s, d, SyncTarget(status).value, "system", Auto);
    OnPathMoveIff(s, d.(paymentLocked := false), SyncTarget(status).value, "system", Auto);
  }

  /** A path once broken stays so, whatever is forced on top. */
  lemma BrokenStaysBroken(s: Slice, d: Deal, target: Phase)
    requires !Rising(d.history, d.phase)
    ensures !OnPath(Put(s, Force(d, target)))
  {
    RisingMoveIff(d, target, "system", Auto);
    RisingMoveIff(d.(paymentLocked := false), target, "system", Auto);
  }

  lemma OnPathSyncIff(s: Slice, status: string, chain: Chain)
    requires OnPath(s)
    ensures OnPath(DoSync(s, status, chain).0) <==> !StepsBack(s, Do(SyncTerminal(status, chain)))
  {
    var target := SyncTarget(status);
    if target.Some? {
      var s1 := WithFallback(s, chain);
      if s.mem.Some? {
        OnPathForceIff(s, s.mem.value, status);
      } else if s.row.Some? {
        OnPathLoadIff(s, chain);
        var d := FromRow(s.row.value);
        RisingReconcileIff(d, chain);
        if ReconcilesBack(d, chain) {
          BrokenStaysBroken(s1, s1.mem.value, target.value);
        } else {
          OnPathForceIff(s1, s1.mem.value, status);
        }
      }
    }
  }

  /** Every event keeps the history a rising path, exactly when it is none of those above. */
  lemma OnPathStepIff(s: Slice, e: Event)
    requires OnPath(s)
    ensures OnPath(Step(s, e)) <==> !StepsBack(s, e)
  {
    match e
    case Restart(chain) =>
      if s.row.Some? { OnPathLoadIff(s, chain); }
    case Do(c) =>
      match c {
        case Advance => OnPathAdvance(s);
        case RecordDeposit(party) => OnPathDeposit(s, party);
        case ConfirmPayment => OnPathPayment(s);
        case Act(_, _, _, _, _, _, _) => OnPathActIff(s, c);
        case UpsertTerms(buyer, seller, terms, chain) => OnPathUpsertIff(s, buyer, seller, terms, chain);
        case SyncTerminal(status, chain) => OnPathSyncIff(s, status, chain);
        case _ =>
      }
  }

  predicate NeverStepsBack(s: Slice, events: seq<Event>)
    decreases |events|
  {
    events == [] || (!StepsBack(s, events[0]) && NeverStepsBack(Step(s, events[0]), events[1..]))
  }

  lemma {:induction false} OnPathRun(s: Slice, events: seq<Event>)
    requires OnPath(s) && NeverStepsBack(s, events)
    ensures OnPath(Run(s, events))
    decreases |events|
  {
    if events != [] {
      OnPathStepIff(s, events[0]);
      OnPathRun(Step(s, events[0]), events[1..]);
    }
  }

  /** The history is a rising path at every moment of a run exactly when no event steps back. */
  lemma {:induction false} PathThroughoutIff(s: Slice, events: seq<Event>)
    requires OnPath(s)
    ensures (forall n | 0 <= n <= |events| :: OnPath(Run(s, events[..n]))) <==> NeverStepsBack(s, events)
    decreases |events|
  {
    if events != [] {
      var next, rest := Step(s, events[0]), events[1..];
      OnPathStepIff(s, events[0]);
      forall n | 0 <= n <= |rest|
        ensures Run(s, events[..n + 1]) == Run(next, rest[..n])
      {
        RunPrefix(s, events, n);
      }
      if StepsBack(s, events[0]) {
        assert Run(next, rest[..0]) == next;
      } else {
        PathThroughoutIff(next, rest);
        assert forall n | 1 <= n <= |events| :: Run(s, events[..n]) == Run(next, rest[..n - 1]);
      }
    }
  }

  /** From start-up, unless some event stepped back, the history is a connected path from negotiation
      to the current phase, each transition strictly raises the rank, and there are at most six. */
  lemma PhaseProgress(events: seq<Event>)
    requires NeverStepsBack(EMPTY, events)
    ensures var s := Run(EMPTY, events);
            s.mem.Some? ==> |s.mem.value.history| <= 6 && ConnectedPath(s.mem.value.history, s.mem.value.phase)
  {
    OnPathRun(EMPTY, events);
    var s := Run(EMPTY, events);
    if s.mem.Some? {
      RisingPath(s.mem.value.history, s.mem.value.phase);
    }
  }

  /** Commands and restarts, without the terminal sync and without chain data. */
  predicate Plain(e: Event) {
    Chainless(e) && (e.Do? ==> !e.command.SyncTerminal?)
  }

  predicate NeverDisputed(s: Slice) {
    && (s.mem.Some? ==> s.mem.value.phase != Disputed)
    && (s.row.Some? ==> s.row.value.phase != Disputed)
  }

  lemma PlainResult(s: Slice, s': Slice)
    requires NeverDisputed(s) && ActResult(s, s')
    ensures NeverDisputed(s')
  {
  }

  lemma PlainStep(s: Slice, e: Event)
    requires NeverDisputed(s) && Plain(e)
    ensures !StepsBack(s, e) && NeverDisputed(Step(s, e))
  {
    if e.Do? && e.command.Act? {
      ActSummary(s, e.command);
      PlainResult(SelfHeal(s, e.command.healBuyer, e.command.healSeller), DoAct(s, e.command).0);
    }
  }

  /** Runs of plain events never step back. */
  lemma {:induction false} PlainRunsGoForward(s: Slice, events: seq<Event>)
    requires NeverDisputed(s) && forall i | 0 <= i < |events| :: Plain(events[i])
    ensures NeverStepsBack(s, events)
    decreases |events|
  {
    if events != [] {
      PlainStep(s, events[0]);
      PlainRunsGoForward(Step(s, events[0]), events[1..]);
    }
  }

  /** A finished deal stays as it is: no command but a new initialisation or the terminal sync
      changes its phase or history or hands out an on-chain action. */
  lemma FinishedDealsStay(s: Slice, c: Command)
    requires Settled(s) && !c.InitDeal? && !c.SyncTerminal?
    ensures var s' := Apply(s, c).0;
            && s'.mem.Some? && s'.mem.value.phase == s.mem.value.phase && s'.mem.value.history == s.mem.value.history
            && s'.emitted == s.emitted
  {
  }
}
