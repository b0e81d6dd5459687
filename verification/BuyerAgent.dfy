/** The buyer's agent. A message handler runs without interruption up to a transfer, which it awaits;
    other messages are handled meanwhile, and then it goes on where it stopped. Transfers are counted. */
module BuyerAgent {
  import opened Common
  import opened Wrappers

  datatype BuyerState =
    | Init | OfferSent | WaitingSeller | SellerAgreed | FinalConfirmSent
    | WaitEscrow | DepositSent | WaitDelivery | FundsReleased | Completed

  /** What the handler takes from a message: agreement, a join notice, an address, a sign of delivery. */
  datatype Msg = Msg(agreement: bool, joined: bool, address: Option<string>, delivery: bool)

  /** Handlers stopped at a collateral transfer, with the message they will go on with, and handlers
      stopped at the payment; the transfers that went through; and the release commands sent. */
  datatype State = State(
    phase: BuyerState, escrow: Option<string>, collateralSent: bool, paymentSent: bool,
    collateralPending: seq<Msg>, paymentPending: nat, releasesDue: nat,
    collateralDone: nat, paymentDone: nat, paymentAttempts: nat, releases: nat)

  const START := State(Init, None, false, false, [], 0, 0, 0, 0, 0, 0)

  datatype Step =
    | OfferMade
    | Message(msg: Msg)
    | CollateralEnds(k: nat, ok: bool)
    | PaymentEnds(ok: bool)
    | ReleaseTimer

  predicate Enabled(s: State, step: Step) {
    match step
    case OfferMade => true
    case Message(_) => true
    case CollateralEnds(k, _) => k < |s.collateralPending|
    case PaymentEnds(_) => s.paymentPending > 0
    case ReleaseTimer => s.releasesDue > 0
  }

  /** The first part: the seller's agreement. */
  function OnAgreement(s: State, m: Msg): State {
    if s.phase != OfferSent && s.phase != WaitingSeller then s
    else if m.agreement then s.(phase := FinalConfirmSent)
    else if m.joined then s.(phase := WaitingSeller)
    else s
  }

  predicate DepositTriggered(s: State, m: Msg) {
    !s.collateralSent && s.phase !in {Init, OfferSent, Completed} && m.address.Some?
  }

  predicate PaymentTriggered(s: State, m: Msg) {
    s.collateralSent && !s.paymentSent && s.phase == WaitDelivery && m.delivery && s.escrow.Some?
  }

  /** The last part, also reached after a collateral transfer: the payment. */
  function OnDelivery(s: State, m: Msg): State {
    if PaymentTriggered(s, m)
    then s.(paymentSent := true, paymentPending := s.paymentPending + 1, paymentAttempts := s.paymentAttempts + 1)
    else s
  }

  function Next(s: State, step: Step): State
    requires Enabled(s, step)
  {
    match step
    case OfferMade => if s.phase == Init then s.(phase := OfferSent) else s
    case Message(m) =>
      var s1 := OnAgreement(s, m);
      if DepositTriggered(s1, m)
      then s1.(phase := WaitEscrow, collateralSent := true, escrow := m.address, collateralPending := s1.collateralPending + [m])
      else OnDelivery(s1, m)
    case CollateralEnds(k, ok) =>
      var m := s.collateralPending[k];
      var s1 := s.(collateralPending := s.collateralPending[..k] + s.collateralPending[k + 1..],
                   collateralSent := ok && s.collateralSent,
                   collateralDone := s.collateralDone + One(ok));
      // the handler goes on the same way whether or not the transfer went through
      OnDelivery(s1.(phase := WaitDelivery), m)
    case PaymentEnds(ok) =>
      s.(paymentPending := s.paymentPending - 1, paymentSent := ok && s.paymentSent,
         paymentDone := s.paymentDone + One(ok), phase := FundsReleased, releasesDue := s.releasesDue + 1)
    case ReleaseTimer => s.(releasesDue := s.releasesDue - 1, releases := s.releases + 1, phase := Completed)
  }

  class BuyerAgentProcess {
    var state: BuyerState
    var escrowAddress: Option<string>
    var collateralSent: bool
    var paymentSent: bool
    var collateralPending: seq<Msg>
    var paymentPending: nat
    var releasesDue: nat
    ghost var collateralDone: nat
    ghost var paymentDone: nat
    ghost var paymentAttempts: nat
    ghost var releases: nat

    ghost function View(): State
      reads this
    {
      State(state, escrowAddress, collateralSent, paymentSent, collateralPending, paymentPending, releasesDue,
            collateralDone, paymentDone, paymentAttempts, releases)
    }

    constructor ()
      ensures View() == START
    {
      state, escrowAddress, collateralSent, paymentSent := Init, None, false, false;
      collateralPending, paymentPending, releasesDue := [], 0, 0;
      collateralDone, paymentDone, paymentAttempts, releases := 0, 0, 0, 0;
    }

    method StartOfferFlow()
      modifies this
      ensures View() == Next(old(View()), OfferMade)
    {
      if state == Init {
        state := OfferSent;
      }
    }

    /** The handler from its start to its first transfer, or to its end. */
    method HandleIncomingMessage(m: Msg)
      modifies this
      ensures View() == Next(old(View()), Message(m))
    {
      if state == OfferSent || state == WaitingSeller {
        if m.agreement {
          state := SellerAgreed;
          state := FinalConfirmSent;
        } else if m.joined {
          state := WaitingSeller;
        }
      }
      if !collateralSent && state != Init && state != OfferSent && state != Completed && m.address.Some? {
        state := WaitEscrow;
        collateralSent := true;
        escrowAddress := m.address;
        collateralPending := collateralPending + [m];
        return;
      }
      PayOnDelivery(m);
    }

    method PayOnDelivery(m: Msg)
      modifies this
      ensures View() == OnDelivery(old(View()), m)
    {
      if collateralSent && !paymentSent && state == WaitDelivery && m.delivery && escrowAddress.Some? {
        paymentSent := true;
        paymentPending := paymentPending + 1;
        paymentAttempts := paymentAttempts + 1;
      }
    }

    /** A handler resumes when its collateral transfer has gone through or failed. */
    method ResumeAfterCollateral(k: nat, ok: bool)
      requires Enabled(View(), CollateralEnds(k, ok))
      modifies this
      ensures View() == Next(old(View()), CollateralEnds(k, ok))
    {
      var m := collateralPending[k];
      collateralPending := collateralPending[..k] + collateralPending[k + 1..];
      if ok {
        collateralDone := collateralDone + 1;
      } else {
        collateralSent := false;
      }
      state := DepositSent;
      state := WaitDelivery;
      PayOnDelivery(m);
    }

    method ResumeAfterPayment(ok: bool)
      requires Enabled(View(), PaymentEnds(ok))
      modifies this
      ensures View() == Next(old(View()), PaymentEnds(ok))
    {
      paymentPending := paymentPending - 1;
      if ok {
        paymentDone := paymentDone + 1;
      } else {
        paymentSent := false;
      }
      state := FundsReleased;
      releasesDue := releasesDue + 1;
    }

    method SendRelease()
      requires Enabled(View(), ReleaseTimer)
      modifies this
      ensures View() == Next(old(View()), ReleaseTimer)
    {
      releasesDue := releasesDue - 1;
      releases := releases + 1;
      state := Completed;
    }
  }

  // ---------- runs ----------

  predicate ValidRun(s: State, steps: seq<Step>)
    decreases |steps|
  {
    steps == [] || (Enabled(s, steps[0]) && ValidRun(Next(s, steps[0]), steps[1..]))
  }

  function Run(s: State, steps: seq<Step>): State
    requires ValidRun(s, steps)
    decreases |steps|
  {
    if steps == [] then s else Run(Next(s, steps[0]), steps[1..])
  }

  predicate Inv(s: State) {
    && |s.collateralPending| + s.collateralDone == One(s.collateralSent)
    && s.paymentPending + s.paymentDone == One(s.paymentSent)
    && s.paymentDone <= s.paymentAttempts <= 1
    && s.releases + s.releasesDue + s.paymentPending == s.paymentAttempts
    && (s.collateralPending != [] ==> s.phase == WaitEscrow)
    && (s.paymentAttempts == 1 ==> s.collateralDone == 1)
    && (s.paymentPending == 1 ==> s.phase == WaitDelivery)
    && (s.paymentAttempts == 1 && s.paymentPending == 0 ==> s.phase == FundsReleased || s.phase == Completed)
  }

  lemma InvStep(s: State, step: Step)
    requires Inv(s) && Enabled(s, step)
    ensures Inv(Next(s, step))
  {
  }

  lemma {:induction false} InvRun(s: State, steps: seq<Step>)
    requires Inv(s) && ValidRun(s, steps)
    ensures Inv(Run(s, steps))
    decreases |steps|
  {
    if steps != [] {
      InvStep(s, steps[0]);
      InvRun(Next(s, steps[0]), steps[1..]);
    }
  }

  /** The claims of the lemmas below, for any state that satisfies the invariant. */
  predicate OneOfEach(s: State) {
    && |s.collateralPending| + s.collateralDone <= 1 && s.paymentPending + s.paymentDone <= 1
    && (s.collateralSent <==> |s.collateralPending| + s.collateralDone == 1)
    && (s.paymentSent <==> s.paymentPending + s.paymentDone == 1)
    && (s.paymentAttempts > 0 ==> s.collateralDone == 1) && s.paymentAttempts <= 1
  }

  lemma InvGivesOneOfEach(s: State)
    requires Inv(s)
    ensures OneOfEach(s)
  {
  }

  /** Under every interleaving of messages, transfers and failures: each transfer is in flight or
      done at most once, its flag is up exactly while it is, a payment is begun only after the
      collateral went through, and it is begun at most once. */
  lemma SendOnce(start: State, steps: seq<Step>)
    requires start == START && ValidRun(start, steps)
    ensures OneOfEach(Run(start, steps))
  {
    InvRun(start, steps);
    InvGivesOneOfEach(Run(start, steps));
  }

  /** From `s`, a message with an address begins the collateral transfer. */
  predicate CollateralDue(s: State, address: string) {
    && !s.collateralSent && s.collateralPending == []
    && Next(s, Message(Msg(false, false, Some(address), false))).collateralPending != []
  }

  predicate CanFail(s: State, k: nat) {
    k < |s.collateralPending|
  }

  predicate FailureLeavesItDue(s: State, k: nat, address: string)
    requires CanFail(s, k)
  {
    CollateralDue(Next(s, CollateralEnds(k, false)), address)
  }

  lemma RetryStep(s: State, k: nat, address: string)
    requires Inv(s) && CanFail(s, k)
    ensures FailureLeavesItDue(s, k, address)
  {
    var s' := Next(s, CollateralEnds(k, false));
    assert |s.collateralPending| == 1 && k == 0;
    assert s'.phase == WaitDelivery;
  }

  /** A failed collateral transfer can be tried again: the next message with an address begins it. */
  lemma CollateralIsRetried(start: State, steps: seq<Step>, k: nat, address: string)
    requires start == START && ValidRun(start, steps) && CanFail(Run(start, steps), k)
    ensures FailureLeavesItDue(Run(start, steps), k, address)
  {
    InvRun(start, steps);
    RetryStep(Run(start, steps), k, address);
  }

  /** A payment was begun, failed, and is neither in flight nor done. */
  predicate PaymentLost(s: State) {
    && s.paymentAttempts == 1 && !s.paymentSent && s.paymentPending == 0 && s.paymentDone == 0
    && s.releases + s.releasesDue == 1
  }

  lemma FailedPayment(s: State)
    requires Inv(s) && s.paymentPending > 0
    ensures Inv(Next(s, PaymentEnds(false))) && PaymentLost(Next(s, PaymentEnds(false)))
  {
  }

  lemma LostStep(s: State, step: Step)
    requires Inv(s) && PaymentLost(s) && Enabled(s, step)
    ensures PaymentLost(Next(s, step))
  {
  }

  lemma {:induction false} LostRun(s: State, steps: seq<Step>)
    requires Inv(s) && PaymentLost(s) && ValidRun(s, steps)
    ensures PaymentLost(Run(s, steps))
    decreases |steps|
  {
    if steps != [] {
      InvStep(s, steps[0]);
      LostStep(s, steps[0]);
      LostRun(Next(s, steps[0]), steps[1..]);
    }
  }

  /** A failed payment lowers its flag too, but no later message begins it again, and the release
      command goes out all the same. */
  lemma PaymentIsNotRetried(start: State, steps: seq<Step>, failed: State, later: seq<Step>)
    requires start == START && ValidRun(start, steps) && Run(start, steps).paymentPending > 0
    requires failed == Next(Run(start, steps), PaymentEnds(false)) && ValidRun(failed, later)
    ensures PaymentLost(Run(failed, later))
  {
    InvRun(start, steps);
    FailedPayment(Run(start, steps));
    LostRun(failed, later);
  }

  // ---------- what begins a transfer ----------

  /** The state a message finds once its first part is done. */
  predicate WaitsForDelivery(s: State) {
    s.phase == WaitDelivery && s.collateralSent && !s.paymentSent && s.escrow.Some?
  }

  /** A payment is begun exactly by a message with a sign of delivery, on its arrival or when its own
      collateral transfer has gone through, while the collateral is sent, no payment is and an address
      is known. */
  lemma PaymentBeginsIff(s: State, step: Step)
    requires Inv(s) && Enabled(s, step)
    ensures Next(s, step).paymentAttempts == s.paymentAttempts + One(Next(s, step).paymentAttempts > s.paymentAttempts)
    ensures Next(s, step).paymentAttempts > s.paymentAttempts <==>
              match step
              case Message(m) => m.delivery && WaitsForDelivery(s)
              case CollateralEnds(k, ok) =>
                s.collateralPending[k].delivery && ok && s.collateralSent && !s.paymentSent && s.escrow.Some?
              case _ => false
  {
  }

  predicate NoDelivery(steps: seq<Step>) {
    forall i | 0 <= i < |steps| && steps[i].Message? :: !steps[i].msg.delivery
  }

  predicate NothingDelivered(s: State) {
    && s.paymentAttempts == 0 && s.paymentPending == 0 && s.releasesDue == 0 && s.releases == 0
    && forall i | 0 <= i < |s.collateralPending| :: !s.collateralPending[i].delivery
  }

  lemma NothingDeliveredStep(s: State, step: Step)
    requires NothingDelivered(s) && Enabled(s, step) && (step.Message? ==> !step.msg.delivery)
    ensures NothingDelivered(Next(s, step))
  {
  }

  lemma {:induction false} NothingDeliveredRun(s: State, steps: seq<Step>)
    requires NothingDelivered(s) && ValidRun(s, steps) && NoDelivery(steps)
    ensures NothingDelivered(Run(s, steps))
    decreases |steps|
  {
    if steps != [] {
      NothingDeliveredStep(s, steps[0]);
      assert NoDelivery(steps[1..]) by { assert forall i | 0 <= i < |steps| - 1 :: steps[1..][i] == steps[i + 1]; }
      NothingDeliveredRun(Next(s, steps[0]), steps[1..]);
    }
  }

  /** As long as no message bears a sign of delivery nothing is paid and no release is sent. */
  lemma NoPaymentBeforeDelivery(start: State, steps: seq<Step>)
    requires start == START && ValidRun(start, steps) && NoDelivery(steps)
    ensures Run(start, steps).paymentAttempts == 0 && Run(start, steps).releases == 0
  {
    NothingDeliveredRun(start, steps);
  }

  /** The collateral transfer is begun exactly by a message with an address, while none is sent, once an
      offer was made and its seller has joined or agreed, and it goes to that address. */
  lemma CollateralBeginsIff(s: State, step: Step)
    requires Inv(s) && Enabled(s, step) && !step.CollateralEnds?
    ensures Next(s, step).collateralPending != s.collateralPending <==>
              step.Message? && step.msg.address.Some? && !s.collateralSent
              && s.phase != Init && s.phase != Completed
              && (s.phase == OfferSent ==> step.msg.agreement || step.msg.joined)
    ensures Next(s, step).collateralPending != s.collateralPending ==>
              && Next(s, step).collateralPending == s.collateralPending + [step.msg]
              && Next(s, step).escrow == step.msg.address && Next(s, step).collateralSent && Next(s, step).phase == WaitEscrow
  {
    if step.Message? {
      assert |s.collateralPending + [step.msg]| == |s.collateralPending| + 1;
    }
  }

  /** What the buyer hears of the seller before it has agreed, in a message with nothing else. */
  lemma SellerHeard(s: State, m: Msg)
    requires m.address.None? && !m.delivery
    ensures Next(s, Message(m)).phase ==
              if s.phase == OfferSent || s.phase == WaitingSeller
              then if m.agreement then FinalConfirmSent else if m.joined then WaitingSeller else s.phase
              else s.phase
    ensures Next(s, Message(m)) == s.(phase := Next(s, Message(m)).phase)
  {
  }

  lemma OfferOnlyAtFirst(s: State)
    ensures Next(s, OfferMade) == s.(phase := if s.phase == Init then OfferSent else s.phase)
  {
  }

  /** The states of an undisturbed deal, transfer by transfer. */
  lemma WholeDeal(address: string)
    ensures var agreed := Next(Next(START, OfferMade), Message(Msg(true, false, None, false)));
            var sending := Next(agreed, Message(Msg(false, false, Some(address), false)));
            var sent := Next(sending, CollateralEnds(0, true));
            var paying := Next(sent, Message(Msg(false, false, None, true)));
            var paid := Next(paying, PaymentEnds(true));
            var released := Next(paid, ReleaseTimer);
            && agreed.phase == FinalConfirmSent && sending.phase == WaitEscrow && sending.collateralSent
            && sent.phase == WaitDelivery && sent.collateralDone == 1 && sent.collateralPending == []
            && paying.phase == WaitDelivery && paying.paymentSent && paying.paymentPending == 1
            && paid.phase == FundsReleased && paid.paymentDone == 1 && paid.releasesDue == 1
            && released == State(Completed, Some(address), true, true, [], 0, 0, 1, 1, 1, 1)
  {
  }
}
