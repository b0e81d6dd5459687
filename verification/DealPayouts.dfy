/** What justifies each on-chain action that pays out. */
module DealPayouts {
  import opened Common
  import opened Wrappers
  import opened DealTypes
  import opened AiJudge
  import opened DealPhase
  import opened DealRuns
  import opened DealFunding

  /** The command hands out this action. */
  predicate Emits(s: Slice, c: Command, action: OnChain) {
    var log := Apply(s, c).0.emitted;
    |log| > |s.emitted| && log[|log| - 1].action == action
  }

  predicate Judged(s: Slice, c: Command, verdict: Verdict) {
    c.Act? && c.action == Dispute && s.mem.Some? && Disputable(s.mem.value.phase)
    && Adjudicate(s.mem.value.terms, c.reply).verdict == verdict
  }

  predicate ReleasedByBuyer(s: Slice, c: Command) {
    && c.Act? && c.action == ReleaseFunds && s.mem.Some?
    && (s.mem.value.phase == Delivery || s.mem.value.phase == AwaitingRelease)
    && IdentitiesMatch(c.dir, c.sender, s.mem.value.buyer)
    && s.mem.value.terms.Some? && Both(s.mem.value) && s.mem.value.paymentLocked
  }

  /** A verdict other than a cancellation: terms on record and a confidence of at least 60. */
  predicate JudgedWithConfidence(s: Slice, c: Command) {
    && c.Act? && c.action == Dispute && s.mem.Some? && Disputable(s.mem.value.phase)
    && s.mem.value.terms.Some? && Confident(c.reply)
  }

  lemma ReleaseJustifiedIff(s: Slice, c: Command)
    ensures Emits(s, c, ReleaseOnChain) <==>
              ReleasedByBuyer(s, c)
              || (JudgedWithConfidence(s, c) && c.reply.verdict != CancelVerdict && c.reply.verdict != SplitVerdict)
  {
  }

  lemma SplitJustifiedIff(s: Slice, c: Command, split: Split)
    ensures Emits(s, c, SplitOnChain(split)) <==>
              JudgedWithConfidence(s, c) && c.reply.verdict == SplitVerdict && RatiosBalance(c.reply)
              && split == Split(Or(c.reply.buyerPct, 50.0), Or(c.reply.sellerPct, 50.0))
    ensures Emits(s, c, SplitOnChain(split)) ==> split.buyerRefundPercent + split.sellerReleasePercent == 100.0
  {
  }

  lemma CancelJustifiedIff(s: Slice, c: Command)
    ensures Emits(s, c, CancelOnChain) <==>
              s.mem.Some? && Disputable(s.mem.value.phase) && c.Act?
              && (c.action == CancelDeal || Judged(s, c, CancelVerdict))
  {
  }

  lemma DisputeEnds(s: Slice, d: Deal, sender: string, reply: ModelReply)
    requires Disputable(d.phase)
    ensures DoDispute(s, d, sender, reply).0.mem.Some?
    ensures var d' := DoDispute(s, d, sender, reply).0.mem.value;
            && d'.phase == (if Adjudicate(d.terms, reply).verdict == CancelVerdict then Cancelled else Completed)
            && |d'.history| == |d.history| + 2 && d.history <= d'.history
            && d'.history[|d.history|].to == Disputed && d'.history[|d.history| + 1].to == d'.phase
  {
  }

  /** A dispute accepted in a disputable phase is over at once: without terms, without a confident
      answer, with unbalanced ratios or with a failed judge it ends cancelled, else completed. */
  lemma DisputeEndsIff(s: Slice, c: Command)
    requires c.Act? && c.action == Dispute && s.mem.Some? && Disputable(s.mem.value.phase)
    ensures Apply(s, c).0.mem.Some?
    ensures var d, d' := s.mem.value, Apply(s, c).0.mem.value;
            && (d'.phase == Cancelled || d'.phase == Completed)
            && (d'.phase == Completed <==>
                  d.terms.Some? && Confident(c.reply) && c.reply.verdict != CancelVerdict
                  && (c.reply.verdict == SplitVerdict ==> RatiosBalance(c.reply)))
            && |d'.history| == |d.history| + 2 && d.history <= d'.history
            && d'.history[|d.history|].to == Disputed && d'.history[|d.history| + 1].to == d'.phase
  {
    DisputeEnds(s, s.mem.value, c.sender, c.reply);
    assert Apply(s, c) == DoDispute(s, s.mem.value, c.sender, c.reply);
  }

  /** A release handed out does not settle the ticket: from awaiting_release the buyer can have it
      handed out again, and either party can still have the deal cancelled on chain. */
  lemma ReleaseIsNotFinal(s: Slice, dir: Directory)
    requires s.mem.Some? && s.mem.value.phase == AwaitingRelease && Funded(s.mem.value)
    ensures var release := Act(ReleaseFunds, s.mem.value.buyer, None, NoReply, dir, "", "");
            Emits(s, release, ReleaseOnChain) && Apply(s, release).0.mem == s.mem
    ensures Emits(s, Act(CancelDeal, s.mem.value.seller, None, NoReply, dir, "", ""), CancelOnChain)
  {
  }

  // ---------- what a release looks back on ----------

  predicate Creates(s: Slice, e: Event) {
    e.Do? && Emits(s, e.command, CreateOnChain)
  }

  predicate InProgress(p: Phase) {
    p == EscrowCreated || p == AwaitingDeposits || p == Delivery || p == AwaitingRelease
  }

  /** The row has the deal's phase and deposit flags, and only finished deals are out of memory. */
  predicate Mirrored(s: Slice) {
    && (s.mem.Some? ==>
          s.row.Some? && s.row.value.phase == s.mem.value.phase
          && s.row.value.buyerDeposited == s.mem.value.buyerDeposited
          && s.row.value.sellerDeposited == s.mem.value.sellerDeposited)
    && (s.mem.None? && s.row.Some? ==> Terminal(s.row.value.phase))
  }

  predicate UnpaidInNegotiation(s: Slice) {
    s.mem.Some? && s.mem.value.phase == Negotiation ==> !s.mem.value.buyerDeposited && !s.mem.value.sellerDeposited
  }

  /** How a deal in progress got there by one event: it was just created, or it was in progress before,
      and any new deposit flag is this event's. */
  predicate Continues(s: Slice, e: Event, s': Slice) {
    s'.mem.Some? && InProgress(s'.mem.value.phase) ==>
      if Creates(s, e) then !s'.mem.value.buyerDeposited && !s'.mem.value.sellerDeposited
      else
        && s.mem.Some? && InProgress(s.mem.value.phase) && !(e.Do? && e.command.InitDeal?)
        && (s'.mem.value.buyerDeposited ==> s.mem.value.buyerDeposited || e == Do(RecordDeposit(Buyer)))
        && (s'.mem.value.sellerDeposited ==> s.mem.value.sellerDeposited || e == Do(RecordDeposit(Seller)))
  }

  /** Created is what hands out create_deal. */
  lemma ResultContinues(s: Slice, s': Slice)
    requires Mirrored(s) && UnpaidInNegotiation(s) && ActResult(s, s')
    ensures Mirrored(s') && UnpaidInNegotiation(s')
    ensures InProgress(s'.mem.value.phase) ==>
              if |s'.emitted| > |s.emitted| && s'.emitted[|s'.emitted| - 1].action == CreateOnChain
              then !s'.mem.value.buyerDeposited && !s'.mem.value.sellerDeposited
              else InProgress(s.mem.value.phase) && SameDeposits(s.mem.value, s'.mem.value)
  {
  }

  lemma ActContinues(s: Slice, c: Command)
    requires Mirrored(s) && UnpaidInNegotiation(s) && c.Act?
    ensures var s' := DoAct(s, c).0; Mirrored(s') && UnpaidInNegotiation(s') && Continues(s, Do(c), s')
  {
    var s1 := SelfHeal(s, c.healBuyer, c.healSeller);
    ActSummary(s, c);
    ResultContinues(s1, DoAct(s, c).0);
    assert Creates(s, Do(c)) <==>
           |DoAct(s, c).0.emitted| > |s1.emitted| && DoAct(s, c).0.emitted[|DoAct(s, c).0.emitted| - 1].action == CreateOnChain;
  }

  lemma SyncContinues(s: Slice, c: Command)
    requires Mirrored(s) && UnpaidInNegotiation(s) && c.SyncTerminal? && c.chain == map[]
    ensures var s' := Step(s, Do(c)); Mirrored(s') && UnpaidInNegotiation(s') && Continues(s, Do(c), s')
  {
  }

  lemma UpdateContinues(s: Slice, c: Command)
    requires Mirrored(s) && UnpaidInNegotiation(s) && Chainless(Do(c)) && !c.Act? && !c.SyncTerminal?
    ensures var s' := Step(s, Do(c)); Mirrored(s') && UnpaidInNegotiation(s') && Continues(s, Do(c), s')
  {
  }

  lemma StepContinues(s: Slice, e: Event)
    requires Mirrored(s) && UnpaidInNegotiation(s) && Chainless(e)
    ensures var s' := Step(s, e); Mirrored(s') && UnpaidInNegotiation(s') && Continues(s, e, s')
  {
    if e.Do? {
      if e.command.Act? {
        ActContinues(s, e.command);
      } else if e.command.SyncTerminal? {
        SyncContinues(s, e.command);
      } else {
        UpdateContinues(s, e.command);
      }
    }
  }

  /** The slice before event n of a run from start-up. */
  function Before(events: seq<Event>, n: nat): Slice
    requires n <= |events|
  {
    Run(EMPTY, events[..n])
  }

  /** Event i creates the deal, and up to event n it is not initialised again. */
  predicate CreatedAt(events: seq<Event>, i: nat, n: nat)
    requires n <= |events|
  {
    i < n && Creates(Before(events, i), events[i]) && forall k | i < k < n :: !(events[k].Do? && events[k].command.InitDeal?)
  }

  predicate DepositedBetween(events: seq<Event>, i: nat, n: nat, party: Party)
    requires n <= |events|
  {
    exists j | i < j < n :: events[j] == Do(RecordDeposit(party))
  }

  predicate Backs(events: seq<Event>, i: nat, n: nat, buyer: bool, seller: bool)
    requires n <= |events|
  {
    CreatedAt(events, i, n) && (buyer ==> DepositedBetween(events, i, n, Buyer)) && (seller ==> DepositedBetween(events, i, n, Seller))
  }

  lemma {:induction false} RunSnoc(s: Slice, events: seq<Event>, n: nat)
    requires n < |events|
    ensures Run(s, events[..n + 1]) == Step(Run(s, events[..n]), events[n])
    decreases |events|
  {
    RunPrefix(s, events, n);
    if n == 0 {
      assert events[1..][..0] == [] && events[..0] == [];
    } else {
      RunPrefix(s, events, n - 1);
      RunSnoc(Step(s, events[0]), events[1..], n - 1);
    }
  }

  lemma BackingCarries(events: seq<Event>, i: nat, n: nat, before: Deal, after: Deal)
    requires n < |events| && Backs(events, i, n, before.buyerDeposited, before.sellerDeposited)
    requires !(events[n].Do? && events[n].command.InitDeal?)
    requires after.buyerDeposited ==> before.buyerDeposited || events[n] == Do(RecordDeposit(Buyer))
    requires after.sellerDeposited ==> before.sellerDeposited || events[n] == Do(RecordDeposit(Seller))
    ensures Backs(events, i, n + 1, after.buyerDeposited, after.sellerDeposited)
  {
  }

  /** A deal in progress was created, and each deposit flag was set by a deposit since. */
  lemma {:induction false} ProgressIsBacked(events: seq<Event>, n: nat) returns (i: nat)
    requires n <= |events| && forall k | 0 <= k < |events| :: Chainless(events[k])
    ensures Mirrored(Before(events, n)) && UnpaidInNegotiation(Before(events, n))
    ensures var s := Before(events, n);
            s.mem.Some? && InProgress(s.mem.value.phase) ==>
              Backs(events, i, n, s.mem.value.buyerDeposited, s.mem.value.sellerDeposited)
  {
    i := 0;
    if n == 0 {
      assert events[..0] == [];
    } else {
      var k := n - 1;
      i := ProgressIsBacked(events, k);
      RunSnoc(EMPTY, events, k);
      var s, s' := Before(events, k), Before(events, n);
      StepContinues(s, events[k]);
      assert s' == Step(s, events[k]);
      if Creates(s, events[k]) {
        i := k;
        assert CreatedAt(events, k, n);
      } else if s'.mem.Some? && InProgress(s'.mem.value.phase) {
        BackingCarries(events, i, k, s.mem.value, s'.mem.value);
      }
    }
  }

  /** In every run without chain data, whenever the buyer's release is handed out the deal was created
      by an earlier event, was not initialised since, and both collaterals were deposited in between. */
  lemma ReleaseLooksBack(events: seq<Event>, n: nat)
    requires n < |events| && forall k | 0 <= k < |events| :: Chainless(events[k])
    requires events[n].Do? && ReleasedByBuyer(Before(events, n), events[n].command)
    ensures exists i :: Backs(events, i, n, true, true)
  {
    var i := ProgressIsBacked(events, n);
    assert Backs(events, i, n, true, true);
  }
}
