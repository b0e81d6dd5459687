/** What is on record for a deal in each phase, and which events keep it. */
module DealFunding {
  import opened Common
  import opened Wrappers
  import opened DealTypes
  import opened AiJudge
  import opened DealPhase
  import opened DealRuns

  predicate Guarded(p: Phase) {
    p == AwaitingDeposits || p == Delivery || p == AwaitingRelease
  }

  predicate Funded(d: Deal) {
    && (Guarded(d.phase) ==> HasEscrow(d) && d.terms.Some?)
    && (d.phase == Delivery || d.phase == AwaitingRelease ==> d.paymentLocked)
    && (d.phase == AwaitingRelease ==> Both(d))
  }

  predicate FundedSlice(s: Slice) {
    s.mem.Some? ==> Funded(s.mem.value)
  }

  // ---------- one reconciliation ----------

  /** Funded but for the terms, which a row with a zero price does not give back. */
  predicate Backed(d: Deal) {
    && (Guarded(d.phase) ==> HasEscrow(d))
    && (d.phase == Delivery || d.phase == AwaitingRelease ==> d.paymentLocked)
    && (d.phase == AwaitingRelease ==> Both(d))
  }

  /** What the phase after loading asks of the terms and, when the chain serves one, of the account. */
  predicate AccountFunds(d: Deal, chain: Chain) {
    var p := PhaseAfter(d, chain);
    && (Guarded(p) ==> d.terms.Some?)
    && (Served(d, chain) ==>
          var a := Account(d, chain);
          (p == Delivery || p == AwaitingRelease ==> a.paymentLocked)
          && (p == AwaitingRelease ==> a.buyerLocked && a.sellerLocked))
  }

  /** Reconciliation gives a funded deal exactly when the account asks for no phase that it does not
      fund itself. */
  lemma ReconcileFundedIff(d: Deal, chain: Chain)
    requires Backed(d)
    ensures Funded(Reconcile(d, chain)) <==> AccountFunds(d, chain)
  {
  }

  // ---------- every event ----------

  /** The row restores to what the deal itself would restore to. */
  predicate Restorable(s: Slice) {
    s.mem.Some? ==> s.row.Some? && FromRow(s.row.value) == FromRow(ToRow(s.mem.value))
  }

  /** What a run keeps beside the funding itself: only finished deals are out of memory. */
  predicate Ready(s: Slice) {
    Restorable(s) && FundedSlice(s) && (s.mem.None? && s.row.Some? ==> Terminal(s.row.value.phase))
  }

  /** The events that break the invariant: an empty escrow address written to a deal that relies on
      one, and a load whose account, or whose lost terms, do not fund the phase. */
  predicate Harms(s: Slice, e: Event) {
    match e
    case Restart(chain) =>
      s.row.Some? && !Terminal(s.row.value.phase) && !AccountFunds(FromRow(s.row.value), chain)
    case Do(c) =>
      match c
      case SetEscrowPda(pda) => pda == "" && s.mem.Some? && Guarded(s.mem.value.phase)
      case UpsertTerms(_, _, terms, chain) =>
        s.mem.None? && s.row.Some? && !AccountFunds(FromRow(s.row.value).(terms := Some(terms)), chain)
      case _ => false
  }

  lemma FundingResult(s: Slice, s': Slice)
    requires Ready(s) && ActResult(s, s')
    ensures Ready(s')
  {
  }

  lemma FundingAct(s: Slice, c: Command)
    requires Ready(s) && c.Act?
    ensures Ready(DoAct(s, c).0)
  {
    ActSummary(s, c);
    FundingResult(SelfHeal(s, c.healBuyer, c.healSeller), DoAct(s, c).0);
  }

  lemma FundingDeposit(s: Slice, party: Party)
    requires Ready(s)
    ensures Ready(DoDeposit(s, party).0)
  {
  }

  lemma FundingLoad(s: Slice, chain: Chain)
    requires s.row.Some? && Backed(FromRow(s.row.value))
    ensures FundedSlice(LoadRow(s, chain)) <==> AccountFunds(FromRow(s.row.value), chain)
    ensures Restorable(LoadRow(s, chain)) && LoadRow(s, chain).mem.Some?
  {
    ReconcileFundedIff(FromRow(s.row.value), chain);
  }

  lemma FundingUpsertIff(s: Slice, buyer: string, seller: string, terms: Terms, chain: Chain)
    requires Ready(s)
    ensures FundedSlice(DoUpsert(s, buyer, seller, terms, chain).0)
            <==> !Harms(s, Do(UpsertTerms(buyer, seller, terms, chain)))
    ensures !Harms(s, Do(UpsertTerms(buyer, seller, terms, chain))) ==> Ready(DoUpsert(s, buyer, seller, terms, chain).0)
  {
    if s.mem.None? && s.row.Some? {
      var d := FromRow(s.row.value);
      ReconcileFundedIff(d.(terms := Some(terms)), chain);
      assert Reconcile(d.(terms := Some(terms)), chain) == Reconcile(d, chain).(terms := Some(terms));
    }
  }

  /** No phase that can be forced asks for anything. */
  lemma ForcedIsFunded(d: Deal, status: string)
    requires SyncTarget(status).Some?
    ensures Funded(Force(d, SyncTarget(status).value))
  {
  }

  lemma FundingSync(s: Slice, status: string, chain: Chain)
    requires Ready(s)
    ensures Ready(DoSync(s, status, chain).0)
  {
    var s1 := WithFallback(s, chain);
    if SyncTarget(status).Some? && s1.mem.Some? {
      ForcedIsFunded(s1.mem.value, status);
    }
  }

  lemma FundingRestartIff(s: Slice, chain: Chain)
    requires Ready(s)
    ensures FundedSlice(Recover(s, chain)) <==> !Harms(s, Restart(chain))
    ensures !Harms(s, Restart(chain)) ==> Ready(Recover(s, chain))
  {
    if s.row.Some? && !Terminal(s.row.value.phase) {
      FundingLoad(s, chain);
    }
  }

  /** Every event, with any chain data, keeps the funding invariant exactly when it is none of those. */
  lemma FundingStepIff(s: Slice, e: Event)
    requires Ready(s)
    ensures FundedSlice(Step(s, e)) <==> !Harms(s, e)
    ensures !Harms(s, e) ==> Ready(Step(s, e))
  {
    match e
    case Restart(chain) => FundingRestartIff(s, chain);
    case Do(c) =>
      match c {
        case Act(_, _, _, _, _, _, _) => FundingAct(s, c);
        case RecordDeposit(party) => FundingDeposit(s, party);
        case UpsertTerms(buyer, seller, terms, chain) => FundingUpsertIff(s, buyer, seller, terms, chain);
        case SyncTerminal(status, chain) => FundingSync(s, status, chain);
        case _ =>
      }
  }

  // ---------- runs ----------

  predicate HarmFree(s: Slice, events: seq<Event>)
    decreases |events|
  {
    events == [] || (!Harms(s, events[0]) && HarmFree(Step(s, events[0]), events[1..]))
  }

  lemma {:induction false} FundedThroughoutIff(s: Slice, events: seq<Event>)
    requires Ready(s)
    ensures (forall n | 0 <= n <= |events| :: FundedSlice(Run(s, events[..n]))) <==> HarmFree(s, events)
    decreases |events|
  {
    if events == [] {
      assert events[..0] == [];
    } else {
      var next, rest := Step(s, events[0]), events[1..];
      FundingStepIff(s, events[0]);
      forall n | 0 <= n <= |rest|
        ensures Run(s, events[..n + 1]) == Run(next, rest[..n])
      {
        RunPrefix(s, events, n);
      }
      if Harms(s, events[0]) {
        assert Run(next, rest[..0]) == next;
      } else {
        FundedThroughoutIff(next, rest);
        assert forall n | 1 <= n <= |events| :: Run(s, events[..n]) == Run(next, rest[..n - 1]);
      }
    }
  }

  /** From start-up, at every moment of a run: a deal awaiting deposits or beyond has an escrow address
      and terms, one in delivery or beyond has its payment locked, and one awaiting release has both
      collaterals; exactly when no event of the run harms, chain data and terminal sync included. */
  lemma FundingInvariantIff(events: seq<Event>)
    ensures (forall n | 0 <= n <= |events| :: FundedSlice(Run(EMPTY, events[..n]))) <==> HarmFree(EMPTY, events)
  {
    FundedThroughoutIff(EMPTY, events);
  }

  /** No chain data, no zero price and no empty escrow address: nothing of that kind can happen. */
  lemma QuietHarmsNothing(s: Slice, e: Event)
    requires Ready(s) && Synced(s) && Quiet(e) && e != Do(SetEscrowPda(""))
    ensures !Harms(s, e)
  {
    if e.Restart? && s.mem.Some? {
      RestoreInvertsPersistIff(s.mem.value);
    }
  }

  lemma {:induction false} QuietRun(s: Slice, events: seq<Event>)
    requires Ready(s) && Synced(s) && AllQuiet(events) && Do(SetEscrowPda("")) !in events
    ensures HarmFree(s, events) && FundedSlice(Run(s, events))
    decreases |events|
  {
    if events != [] {
      QuietHarmsNothing(s, events[0]);
      FundingStepIff(s, events[0]);
      SyncedStepIff(s, events[0]);
      QuietRun(Step(s, events[0]), events[1..]);
    }
  }

  /** In particular every run without chain data, zero prices and empty addresses is funded throughout. */
  lemma FundingInvariant(events: seq<Event>)
    requires AllQuiet(events) && Do(SetEscrowPda("")) !in events
    ensures FundedSlice(Run(EMPTY, events))
  {
    QuietRun(EMPTY, events);
  }

  /** Two snapshots with which reconciliation does harm: a chain that shows locked collateral but no payment
      puts a recovered deal into delivery without the lock, and one that still shows a created deal
      moves a deal awaiting deposits back. */
  lemma ReconciliationBreaksFunding(d: Deal, emitted: seq<Emission>)
    requires d.phase == AwaitingDeposits && Funded(d) && Priced(d)
    ensures var s := Slice(Some(d), Some(ToRow(d)), emitted);
            && !FundedSlice(Recover(s, map[d.escrowPda.value := ChainAccount(ChainCollateralLocked, true, true, false)]))
            && Recover(s, map[d.escrowPda.value := ChainAccount(ChainCreated, false, false, false)]).mem.value.phase
               == EscrowCreated
  {
    RestoreInvertsPersistIff(d);
  }
}
