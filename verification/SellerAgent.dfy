/** The seller's agent. Like the buyer's, its message handler awaits the collateral transfer while other
    messages are handled; unlike the buyer's, it keeps its state during the transfer and has one more
    part after it, which can complete the deal. */
module SellerAgent {
  import opened Common
  import opened Wrappers

  datatype SellerState =
    | Init | WaitOffer | OfferReceived | Agreed | WaitFinalConfirm
    | WaitEscrow | DepositSent | WaitDelivery | FundsReleased | Completed

  /** What the handler takes from a message: the final confirmation, an address, a sign of delivery,
      a sign of completion. */
  datatype Msg = Msg(final: bool, address: Option<string>, delivery: bool, completed: bool)

  /** `pending` holds the messages of the handlers stopped at a transfer, `timersDue` counts the
      acceptances still to be sent, `done` the transfers that went through. */
  datatype State = State(
    phase: SellerState, ticketKnown: bool, collateralSent: bool, pending: seq<Msg>, timersDue: nat, done: nat)

  const START := State(Init, false, false, [], 0, 0)

  /** One log can hold several matching memos; each schedules an acceptance. */
  datatype Step =
    | Authenticated
    | MemosFound(count: nat)
    | AcceptTimer
    | Message(msg: Msg)
    | CollateralEnds(k: nat, ok: bool)

  predicate Enabled(s: State, step: Step) {
    match step
    case MemosFound(count) => s.phase == WaitOffer && count > 0
    case AcceptTimer => s.timersDue > 0
    case CollateralEnds(k, _) => k < |s.pending|
    case _ => true
  }

  function OnConfirmation(s: State, m: Msg): State {
    if s.phase == WaitFinalConfirm && m.final then s.(phase := WaitEscrow) else s
  }

  /** The states in which an address begins the transfer. */
  predicate Open(p: SellerState) {
    p !in {Init, WaitOffer, OfferReceived, Completed}
  }

  predicate DepositTriggered(s: State, m: Msg) {
    !s.collateralSent && Open(s.phase) && m.address.Some?
  }

  /** The last part, also reached after a transfer: a sign of completion overrides one of delivery. */
  function OnDelivery(s: State, m: Msg): State {
    if s.phase != WaitDelivery then s
    else if m.completed then s.(phase := Completed)
    else if m.delivery then s.(phase := FundsReleased)
    else s
  }

  function Next(s: State, step: Step): State
    requires Enabled(s, step)
  {
    match step
    case Authenticated => if s.ticketKnown then s else s.(phase := WaitOffer)
    case MemosFound(count) => s.(phase := OfferReceived, ticketKnown := true, timersDue := s.timersDue + count)
    case AcceptTimer => s.(phase := WaitFinalConfirm, timersDue := s.timersDue - 1)
    case Message(m) =>
      var s1 := OnConfirmation(s, m);
      if DepositTriggered(s1, m) then s1.(collateralSent := true, pending := s1.pending + [m]) else OnDelivery(s1, m)
    case CollateralEnds(k, ok) =>
      // the handler goes on the same way whether or not the transfer went through
      OnDelivery(s.(phase := WaitDelivery, collateralSent := ok && s.collateralSent,
                    pending := s.pending[..k] + s.pending[k + 1..], done := s.done + One(ok)),
                 s.pending[k])
  }

  class SellerAgentProcess {
    var state: SellerState
    var ticketKnown: bool
    var collateralSent: bool
    var pending: seq<Msg>
    var timersDue: nat
    ghost var done: nat

    ghost function View(): State
      reads this
    {
      State(state, ticketKnown, collateralSent, pending, timersDue, done)
    }

    constructor ()
      ensures View() == START
    {
      state, ticketKnown, collateralSent := Init, false, false;
      pending, timersDue, done := [], 0, 0;
    }

    method OnAuthenticated()
      modifies this
      ensures View() == Next(old(View()), Authenticated)
    {
      if !ticketKnown {
        state := WaitOffer;
      }
    }

    method OnMemoLog(count: nat)
      requires Enabled(View(), MemosFound(count))
      modifies this
      ensures View() == Next(old(View()), MemosFound(count))
    {
      ticketKnown := true;
      state := OfferReceived;
      timersDue := timersDue + count;
    }

    method SendAcceptance()
      requires Enabled(View(), AcceptTimer)
      modifies this
      ensures View() == Next(old(View()), AcceptTimer)
    {
      timersDue := timersDue - 1;
      state := Agreed;
      state := WaitFinalConfirm;
    }

    method AwaitDelivery(m: Msg)
      modifies this`state
      ensures View() == OnDelivery(old(View()), m)
    {
      if state == WaitDelivery {
        if m.delivery {
          state := FundsReleased;
        }
        if m.completed {
          state := Completed;
        }
      }
    }

    /** The handler from its start to its transfer, or to its end. */
    method HandleIncomingMessage(m: Msg)
      modifies this
      ensures View() == Next(old(View()), Message(m))
    {
      if state == WaitFinalConfirm && m.final {
        state := WaitEscrow;
      }
      if !collateralSent && state != Init && state != WaitOffer && state != OfferReceived && state != Completed
         && m.address.Some? {
        collateralSent := true;
        pending := pending + [m];
        return;
      }
      AwaitDelivery(m);
    }

    method ResumeAfterCollateral(k: nat, ok: bool)
      requires Enabled(View(), CollateralEnds(k, ok))
      modifies this
      ensures View() == Next(old(View()), CollateralEnds(k, ok))
    {
      var m := pending[k];
      pending := pending[..k] + pending[k + 1..];
      if ok {
        done := done + 1;
      } else {
        collateralSent := false;
      }
      state := DepositSent;
      state := WaitDelivery;
      AwaitDelivery(m);
    }
  }

  // ---------- runs ----------

  predicate ValidRun(s: State, steps: seq<Step>)
    decreases |steps|
  {
    steps == [] || (Enabled(s, steps[0]) && ValidRun(Next(s, steps[0]), steps[1..]))
  }

  function Run(s: State, steps: seq<Step>): State
    requires ValidRun(s, steps)
    decreases |steps|
  {
    if steps == [] then s else Run(Next(s, steps[0]), steps[1..])
  }

  predicate Inv(s: State) {
    && |s.pending| + s.done == One(s.collateralSent)
    && (s.phase != Init && s.phase != WaitOffer ==> s.ticketKnown)
    && (s.collateralSent || s.timersDue > 0 ==> s.phase != Init && s.phase != WaitOffer)
    && (s.phase == OfferReceived ==> s.timersDue > 0)
  }

  lemma InvStep(s: State, step: Step)
    requires Inv(s) && Enabled(s, step)
    ensures Inv(Next(s, step))
  {
  }

  lemma {:induction false} InvRun(s: State, steps: seq<Step>)
    requires Inv(s) && ValidRun(s, steps)
    ensures Inv(Run(s, steps))
    decreases |steps|
  {
    if steps != [] {
      InvStep(s, steps[0]);
      InvRun(Next(s, steps[0]), steps[1..]);
    }
  }

  /** Under every interleaving of messages, timers, transfers and failures the collateral is in flight
      or done at most once, and its flag is up exactly while it is. */
  lemma SendOnce(start: State, steps: seq<Step>)
    requires start == START && ValidRun(start, steps)
    ensures var s := Run(start, steps); |s.pending| + s.done <= 1 && (s.collateralSent <==> |s.pending| + s.done == 1)
  {
    InvRun(start, steps);
  }

  /** In every run an offer that was received and is not answered yet has its acceptance due. */
  lemma OfferIsAnswered(start: State, steps: seq<Step>)
    requires start == START && ValidRun(start, steps) && Run(start, steps).phase == OfferReceived
    ensures Enabled(Run(start, steps), AcceptTimer)
    ensures Next(Run(start, steps), AcceptTimer).phase == WaitFinalConfirm
  {
    InvRun(start, steps);
  }

  // ---------- after a failed transfer ----------

  /** A message with an address begins the transfer now. */
  predicate Due(s: State, address: string) {
    Next(s, Message(Msg(false, Some(address), false, false))).pending != s.pending
  }

  predicate TimerIn(steps: seq<Step>) {
    exists i | 0 <= i < |steps| :: steps[i] == AcceptTimer
  }

  function Messages(steps: seq<Step>): seq<Msg> {
    if steps == [] then [] else (if steps[0].Message? then [steps[0].msg] else []) + Messages(steps[1..])
  }

  predicate NoAddress(steps: seq<Step>) {
    forall i | 0 <= i < |steps| && steps[i].Message? :: steps[i].msg.address.None?
  }

  /** The first message with a sign of delivery or completion has one of completion. */
  predicate CompletesFirst(ms: seq<Msg>) {
    ms != [] && (ms[0].completed || (!ms[0].delivery && CompletesFirst(ms[1..])))
  }

  /** Whether the transfer can begin after these steps, from the state it failed in. */
  predicate StaysOpen(p: SellerState, steps: seq<Step>) {
    TimerIn(steps) ||
    (p != Completed && !(p == WaitDelivery && CompletesFirst(Messages(steps))))
  }

  predicate Idle(s: State) {
    Inv(s) && !s.collateralSent && s.phase !in {Init, WaitOffer, OfferReceived}
  }

  lemma DueIff(s: State, address: string)
    requires Idle(s)
    ensures Due(s, address) <==> s.phase != Completed
  {
    assert |s.pending + [Msg(false, Some(address), false, false)]| == |s.pending| + 1;
  }

  lemma IdleStep(s: State, step: Step)
    requires Idle(s) && Enabled(s, step) && (step.Message? ==> step.msg.address.None?)
    ensures Idle(Next(s, step))
    ensures step == AcceptTimer ==> Next(s, step).phase == WaitFinalConfirm
    ensures step != AcceptTimer && s.phase != WaitDelivery ==>
              (Next(s, step).phase == Completed <==> s.phase == Completed) && Next(s, step).phase != WaitDelivery
    ensures step != AcceptTimer && s.phase == WaitDelivery ==>
              Next(s, step).phase == if step.Message? then OnDelivery(s, step.msg).phase else s.phase
  {
    InvStep(s, step);
  }

  lemma {:induction false} DueLaterIff(s: State, later: seq<Step>, address: string)
    requires Idle(s) && ValidRun(s, later) && NoAddress(later)
    ensures Due(Run(s, later), address) <==> StaysOpen(s.phase, later)
    decreases |later|
  {
    if later == [] {
      DueIff(s, address);
    } else {
      var first, rest := later[0], later[1..];
      IdleStep(s, first);
      DueLaterIff(Next(s, first), rest, address);
      assert TimerIn(later) <==> first == AcceptTimer || TimerIn(rest) by {
        assert forall i | 0 <= i < |rest| :: rest[i] == later[i + 1];
      }
      assert first.Message? ==> Messages(later)[0] == first.msg && Messages(later)[1..] == Messages(rest);
      assert !first.Message? ==> Messages(later) == Messages(rest);
    }
  }

  /** A failed collateral transfer, in any run, can be tried again later on exactly when the first
      sign among its own message and those since is not one of completion, or another acceptance went
      out in between: completed is the one state in which no address counts. */
  lemma CollateralIsRetriedIff(start: State, steps: seq<Step>, k: nat, failed: State, later: seq<Step>, address: string)
    requires start == START && ValidRun(start, steps) && k < |Run(start, steps).pending|
    requires failed == Next(Run(start, steps), CollateralEnds(k, false)) && ValidRun(failed, later) && NoAddress(later)
    ensures Due(Run(failed, later), address) <==>
              TimerIn(later) || !CompletesFirst([Run(start, steps).pending[k]] + Messages(later))
  {
    var s := Run(start, steps);
    InvRun(start, steps);
    FailureIsIdle(s, k);
    DueLaterIff(failed, later, address);
    var m := s.pending[k];
    assert ([m] + Messages(later))[0] == m && ([m] + Messages(later))[1..] == Messages(later);
  }

  predicate Lost(s: State) {
    Inv(s) && s.phase == Completed && s.timersDue == 0 && !s.collateralSent
  }

  /** A failure whose own message also says that the deal is complete, with no acceptance due, is one
      the agent does not get over. */
  lemma FailureIsIdle(s: State, k: nat)
    requires Inv(s) && k < |s.pending|
    ensures Idle(Next(s, CollateralEnds(k, false)))
    ensures Next(s, CollateralEnds(k, false)).phase ==
              if s.pending[k].completed then Completed else if s.pending[k].delivery then FundsReleased else WaitDelivery
    ensures Lost(Next(s, CollateralEnds(k, false))) <==> s.pending[k].completed && s.timersDue == 0
  {
    InvStep(s, CollateralEnds(k, false));
  }

  /** No later step, with or without an address, begins the transfer again. */
  lemma {:induction false} LostForGood(s: State, steps: seq<Step>)
    requires Lost(s) && ValidRun(s, steps)
    ensures Lost(Run(s, steps)) && Run(s, steps).done == 0 && Run(s, steps).pending == []
    decreases |steps|
  {
    if steps != [] {
      InvStep(s, steps[0]);
      LostForGood(Next(s, steps[0]), steps[1..]);
    }
  }

  // ---------- what begins the transfer, and what ends the deal ----------

  /** The transfer is begun exactly by a message with an address, while none is sent, in a state after
      the acceptance and before completion. */
  lemma CollateralBeginsIff(s: State, step: Step)
    requires Enabled(s, step) && !step.CollateralEnds?
    ensures Next(s, step).pending != s.pending <==>
              step.Message? && step.msg.address.Some? && !s.collateralSent
              && s.phase != Init && s.phase != WaitOffer && s.phase != OfferReceived && s.phase != Completed
    ensures Next(s, step).pending != s.pending ==>
              Next(s, step).pending == s.pending + [step.msg] && Next(s, step).collateralSent
  {
    if step.Message? {
      assert |s.pending + [step.msg]| == |s.pending| + 1;
    }
  }

  /** Before any acceptance was sent: the transfer has not begun and the state is one of the first three. */
  predicate Unaccepted(s: State) {
    s.pending == [] && !s.collateralSent && s.done == 0 && (s.phase == Init || s.phase == WaitOffer || s.phase == OfferReceived)
  }

  lemma {:induction false} NoCollateralBeforeAcceptance(s: State, steps: seq<Step>)
    requires Unaccepted(s) && ValidRun(s, steps) && !TimerIn(steps)
    ensures Unaccepted(Run(s, steps))
    decreases |steps|
  {
    if steps != [] {
      assert steps[0] != AcceptTimer;
      assert !TimerIn(steps[1..]) by { assert forall i | 0 <= i < |steps| - 1 :: steps[1..][i] == steps[i + 1]; }
      NoCollateralBeforeAcceptance(Next(s, steps[0]), steps[1..]);
    }
  }

  /** What a message without an address does to the state: a final confirmation counts only while it is
      waited for, signs of delivery and completion only while delivery is, and completion comes first. */
  lemma MessageHeard(s: State, m: Msg)
    requires m.address.None?
    ensures Next(s, Message(m)) == s.(phase := Next(s, Message(m)).phase)
    ensures Next(s, Message(m)).phase ==
              if s.phase == WaitFinalConfirm && m.final then WaitEscrow
              else if s.phase == WaitDelivery && m.completed then Completed
              else if s.phase == WaitDelivery && m.delivery then FundsReleased
              else s.phase
  {
  }

  /** A seller that has delivered, and to whom no acceptance is left to send, never gets to completed:
      the sign of completion is listened for only while delivery is waited for. */
  lemma {:induction false} DeliveredNeverCompletes(s: State, steps: seq<Step>)
    requires Inv(s) && s.phase == FundsReleased && s.timersDue == 0 && s.collateralSent && s.pending == []
    requires ValidRun(s, steps)
    ensures Run(s, steps).phase == FundsReleased
    decreases |steps|
  {
    if steps != [] {
      InvStep(s, steps[0]);
      DeliveredNeverCompletes(Next(s, steps[0]), steps[1..]);
    }
  }

  const CONFIRMED := START.(phase := WaitEscrow, ticketKnown := true)

  /** The states of an undisturbed deal: the offer is found, accepted and confirmed, ... */
  lemma OfferToConfirmation()
    ensures var waiting := Next(START, Authenticated);
            var found := Next(waiting, MemosFound(1));
            var accepted := Next(found, AcceptTimer);
            && waiting == START.(phase := WaitOffer)
            && found == waiting.(phase := OfferReceived, ticketKnown := true, timersDue := 1)
            && accepted == found.(phase := WaitFinalConfirm, timersDue := 0)
            && Next(accepted, Message(Msg(true, None, false, false))) == CONFIRMED
  {
  }

  /** ... and the collateral goes to the address that comes next, until the delivery. */
  lemma AddressToDelivery(address: string)
    ensures var m := Msg(false, Some(address), false, false);
            var sending := CONFIRMED.(collateralSent := true, pending := [m]);
            var sent := CONFIRMED.(phase := WaitDelivery, collateralSent := true, done := 1);
            && Next(CONFIRMED, Message(m)) == sending
            && Next(sending, CollateralEnds(0, true)) == sent
            && Next(sent, Message(Msg(false, None, true, false))) == sent.(phase := FundsReleased)
  {
  }
}
