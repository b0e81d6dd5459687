/** The deposit queue feeding the deal phase manager: each handler that ends with a confirmed
    deposit applies its command to the deal of its ticket. */
module DepositPipeline {
  import opened Common
  import opened Wrappers
  import opened DealTypes
  import opened DealPhase
  import opened DealRuns
  import opened DealManager
  import opened DepositConfluence
  import opened DepositQueue

  predicate ConfirmsFor(q: Queue, step: QStep, t: Ticket) {
    step.Finish? && step.ending == Confirmed && step.task < |q.tasks| && q.tasks[step.task].ticket == t
  }

  /** The slice of ticket t after a run of the queue. */
  function RunDeposits(q: Queue, s: Slice, t: Ticket, steps: seq<QStep>): Slice
    requires ValidRun(q, steps)
    decreases |steps|
  {
    if steps == [] then s
    else
      var s' := if ConfirmsFor(q, steps[0], t) then Apply(s, CommandOf(q.tasks[steps[0].task].deposit)).0 else s;
      RunDeposits(Next(q, steps[0]), s', t, steps[1..])
  }

  function ConfirmedSeq(q: Queue, t: Ticket, steps: seq<QStep>): seq<Deposit>
    requires ValidRun(q, steps)
    decreases |steps|
  {
    if steps == [] then []
    else
      (if ConfirmsFor(q, steps[0], t) then [q.tasks[steps[0].task].deposit] else [])
      + ConfirmedSeq(Next(q, steps[0]), t, steps[1..])
  }

  /** The kinds of the ticket's events whose handlers have ended with a confirmation. */
  function ConfirmedKinds(q: Queue, t: Ticket): set<Deposit> {
    set i | 0 <= i < |q.tasks| && q.tasks[i].ticket == t
            && q.tasks[i].status in {Ended(Confirmed), DepositQueue.Settled(Confirmed)} :: q.tasks[i].deposit
  }

  lemma {:induction false} RunIsConfirm(q: Queue, s: Slice, t: Ticket, steps: seq<QStep>)
    requires ValidRun(q, steps)
    ensures RunDeposits(q, s, t, steps) == Confirm(s, ConfirmedSeq(q, t, steps))
    decreases |steps|
  {
    if steps != [] {
      var q', rest := Next(q, steps[0]), steps[1..];
      if ConfirmsFor(q, steps[0], t) {
        var k := q.tasks[steps[0].task].deposit;
        RunIsConfirm(q', Apply(s, CommandOf(k)).0, t, rest);
        assert ([k] + ConfirmedSeq(q', t, rest))[1..] == ConfirmedSeq(q', t, rest);
      } else {
        RunIsConfirm(q', s, t, rest);
        assert ConfirmedSeq(q, t, steps) == ConfirmedSeq(q', t, rest);
      }
    }
  }

  lemma KindsStep(q: Queue, t: Ticket, step: QStep)
    requires Enabled(q, step)
    ensures ConfirmedKinds(Next(q, step), t)
            == ConfirmedKinds(q, t) + (if ConfirmsFor(q, step, t) then {q.tasks[step.task].deposit} else {})
  {
    var q' := Next(q, step);
    var more := if ConfirmsFor(q, step, t) then {q.tasks[step.task].deposit} else {};
    forall k
      ensures k in ConfirmedKinds(q', t) <==> k in ConfirmedKinds(q, t) + more
    {
      if k in ConfirmedKinds(q', t) {
        var i :| 0 <= i < |q'.tasks| && q'.tasks[i].ticket == t
                 && q'.tasks[i].status in {Ended(Confirmed), DepositQueue.Settled(Confirmed)} && q'.tasks[i].deposit == k;
        assert i < |q.tasks| && q.tasks[i].deposit == k && q.tasks[i].ticket == t;
      }
      if k in ConfirmedKinds(q, t) {
        var i :| 0 <= i < |q.tasks| && q.tasks[i].ticket == t
                 && q.tasks[i].status in {Ended(Confirmed), DepositQueue.Settled(Confirmed)} && q.tasks[i].deposit == k;
        assert q'.tasks[i].deposit == k && q'.tasks[i].ticket == t;
      }
      if k in more {
        assert q'.tasks[step.task].deposit == k;
      }
    }
  }

  lemma {:induction false} KindsRun(q: Queue, t: Ticket, steps: seq<QStep>)
    requires ValidRun(q, steps)
    ensures ConfirmedKinds(RunQueue(q, steps), t) == ConfirmedKinds(q, t) + Kinds(ConfirmedSeq(q, t, steps))
    decreases |steps|
  {
    if steps != [] {
      KindsStep(q, t, steps[0]);
      KindsRun(Next(q, steps[0]), t, steps[1..]);
      var tail := ConfirmedSeq(Next(q, steps[0]), t, steps[1..]);
      if ConfirmsFor(q, steps[0], t) {
        var k := q.tasks[steps[0].task].deposit;
        assert Kinds([k] + tail) == {k} + Kinds(tail);
      } else {
        assert [] + tail == tail;
      }
    } else {
      assert Kinds([]) == {};
    }
  }

  // ---------- the kinds, from the run itself ----------

  /** The events that arrived in a run, in order. */
  function Arrivals(steps: seq<QStep>): seq<(Ticket, Deposit)> {
    if steps == [] then []
    else (if steps[0].Arrive? then [(steps[0].ticket, steps[0].deposit)] else []) + Arrivals(steps[1..])
  }

  /** Some step of the run ended the handler of event i with a confirmation. */
  predicate ConfirmedInRun(steps: seq<QStep>, i: nat) {
    Finish(i, Confirmed) in steps
  }

  /** The kinds of the ticket's events, as they arrived, whose handlers ended with a confirmation. */
  function KindsOfRun(steps: seq<QStep>, t: Ticket): set<Deposit> {
    set i | 0 <= i < |Arrivals(steps)| && Arrivals(steps)[i].0 == t && ConfirmedInRun(steps, i) :: Arrivals(steps)[i].1
  }

  predicate SamePayload(task: Task, arrival: (Ticket, Deposit)) {
    task.ticket == arrival.0 && task.deposit == arrival.1
  }

  lemma PayloadsKept(q: Queue, step: QStep)
    requires Enabled(q, step)
    ensures var q' := Next(q, step);
            && |q'.tasks| == |q.tasks| + One(step.Arrive?)
            && (forall i | 0 <= i < |q.tasks| :: SamePayload(q'.tasks[i], (q.tasks[i].ticket, q.tasks[i].deposit)))
            && (step.Arrive? ==> SamePayload(q'.tasks[|q.tasks|], (step.ticket, step.deposit)))
  {
  }

  lemma {:induction false} TasksFollowArrivals(q: Queue, steps: seq<QStep>)
    requires ValidRun(q, steps)
    ensures var tasks := RunQueue(q, steps).tasks;
            && |tasks| == |q.tasks| + |Arrivals(steps)|
            && (forall i | 0 <= i < |q.tasks| :: SamePayload(tasks[i], (q.tasks[i].ticket, q.tasks[i].deposit)))
            && (forall i | 0 <= i < |Arrivals(steps)| :: SamePayload(tasks[|q.tasks| + i], Arrivals(steps)[i]))
    decreases |steps|
  {
    if steps != [] {
      var q' := Next(q, steps[0]);
      PayloadsKept(q, steps[0]);
      TasksFollowArrivals(q', steps[1..]);
      var tasks := RunQueue(q, steps).tasks;
      forall i | 0 <= i < |Arrivals(steps)|
        ensures SamePayload(tasks[|q.tasks| + i], Arrivals(steps)[i])
      {
        if !steps[0].Arrive? {
          assert Arrivals(steps)[i] == Arrivals(steps[1..])[i];
        } else if i > 0 {
          assert Arrivals(steps)[i] == Arrivals(steps[1..])[i - 1];
          assert |q.tasks| + i == |q'.tasks| + (i - 1);
        }
      }
    }
  }

  /** In every run from start-up the i-th task holds the ticket and the deposit of the i-th event. */
  lemma TaskHoldsItsArrival(steps: seq<QStep>, i: nat)
    requires ValidRun(NO_TASKS, steps) && i < |Arrivals(steps)|
    ensures |RunQueue(NO_TASKS, steps).tasks| == |Arrivals(steps)|
    ensures RunQueue(NO_TASKS, steps).tasks[i].ticket == Arrivals(steps)[i].0
    ensures RunQueue(NO_TASKS, steps).tasks[i].deposit == Arrivals(steps)[i].1
  {
    TasksFollowArrivals(NO_TASKS, steps);
    assert SamePayload(RunQueue(NO_TASKS, steps).tasks[0 + i], Arrivals(steps)[i]);
  }

  predicate HasConfirmed(q: Queue, i: nat) {
    i < |q.tasks| && (q.tasks[i].status == Ended(Confirmed) || q.tasks[i].status == DepositQueue.Settled(Confirmed))
  }

  lemma {:induction false} ConfirmedByFinish(q: Queue, steps: seq<QStep>, i: nat)
    requires ValidRun(q, steps)
    ensures HasConfirmed(RunQueue(q, steps), i) <==> HasConfirmed(q, i) || ConfirmedInRun(steps, i)
    decreases |steps|
  {
    if steps != [] {
      ConfirmedByFinish(Next(q, steps[0]), steps[1..], i);
      assert HasConfirmed(Next(q, steps[0]), i) <==> HasConfirmed(q, i) || steps[0] == Finish(i, Confirmed);
      assert steps == [steps[0]] + steps[1..];
    }
  }

  /** What the queue's tasks say about confirmations is what the run says. */
  lemma KindsAreOfTheRun(steps: seq<QStep>, t: Ticket)
    requires ValidRun(NO_TASKS, steps)
    ensures ConfirmedKinds(RunQueue(NO_TASKS, steps), t) == KindsOfRun(steps, t)
  {
    var q := RunQueue(NO_TASKS, steps);
    TasksFollowArrivals(NO_TASKS, steps);
    forall i | 0 <= i < |q.tasks|
      ensures SamePayload(q.tasks[i], Arrivals(steps)[i])
      ensures HasConfirmed(q, i) <==> ConfirmedInRun(steps, i)
    {
      assert SamePayload(q.tasks[0 + i], Arrivals(steps)[i]);
      ConfirmedByFinish(NO_TASKS, steps, i);
    }
    forall k
      ensures k in ConfirmedKinds(q, t) <==> k in KindsOfRun(steps, t)
    {
      if k in ConfirmedKinds(q, t) {
        var i :| 0 <= i < |q.tasks| && q.tasks[i].ticket == t
                 && q.tasks[i].status in {Ended(Confirmed), DepositQueue.Settled(Confirmed)} && q.tasks[i].deposit == k;
        assert HasConfirmed(q, i) && Arrivals(steps)[i].1 == k;
      }
      if k in KindsOfRun(steps, t) {
        var i :| 0 <= i < |Arrivals(steps)| && Arrivals(steps)[i].0 == t && ConfirmedInRun(steps, i)
                 && Arrivals(steps)[i].1 == k;
        assert HasConfirmed(q, i) && q.tasks[i].deposit == k;
      }
    }
  }

  // ---------- the deal a run leads to ----------

  /** Under every interleaving of arrivals, handlers, failures and clean-ups, and at every moment of
      it, a ticket that entered the run awaiting deposits holds the closed form of the kinds that
      arrived for it and were confirmed so far, row included. */
  lemma PipelineIsFinal(s: Slice, t: Ticket, steps: seq<QStep>)
    requires ValidRun(NO_TASKS, steps)
    requires InSync(s) && s.mem.Some? && HasEscrow(s.mem.value) && s.mem.value.phase == AwaitingDeposits
    ensures RunDeposits(NO_TASKS, s, t, steps) == Put(s, Final(s.mem.value, KindsOfRun(steps, t)))
  {
    var kinds := ConfirmedSeq(NO_TASKS, t, steps);
    RunIsConfirm(NO_TASKS, s, t, steps);
    KindsRun(NO_TASKS, t, steps);
    KindsAreOfTheRun(steps, t);
    assert ConfirmedKinds(NO_TASKS, t) == {};
    ConfirmIsFinal(s, kinds);
  }

  /** So the ticket has reached delivery, by exactly one transition, as soon as a payment or the
      missing collaterals have arrived and been confirmed, and not before. */
  lemma PipelineReachesDeliveryIff(s: Slice, t: Ticket, steps: seq<QStep>)
    requires ValidRun(NO_TASKS, steps)
    requires InSync(s) && s.mem.Some? && HasEscrow(s.mem.value) && s.mem.value.phase == AwaitingDeposits
    ensures var s', enough := RunDeposits(NO_TASKS, s, t, steps), Enough(s.mem.value, KindsOfRun(steps, t));
            && s'.mem.Some?
            && s'.mem.value.phase == (if enough then Delivery else AwaitingDeposits)
            && |s'.mem.value.history| == |s.mem.value.history| + One(enough)
  {
    PipelineIsFinal(s, t, steps);
  }

  /** The flags say who deposited: each party's exactly when it was up before, or an event of that
      party's collateral arrived and was confirmed. */
  lemma FlagsFollowArrivals(s: Slice, t: Ticket, steps: seq<QStep>)
    requires ValidRun(NO_TASKS, steps)
    requires InSync(s) && s.mem.Some? && HasEscrow(s.mem.value) && s.mem.value.phase == AwaitingDeposits
    ensures var s' := RunDeposits(NO_TASKS, s, t, steps);
            && s'.mem.Some?
            && (s'.mem.value.buyerDeposited <==>
                  s.mem.value.buyerDeposited
                  || exists i :: 0 <= i < |Arrivals(steps)| && Arrivals(steps)[i] == (t, BuyerCollateral)
                                 && Finish(i, Confirmed) in steps)
            && (s'.mem.value.sellerDeposited <==>
                  s.mem.value.sellerDeposited
                  || exists i :: 0 <= i < |Arrivals(steps)| && Arrivals(steps)[i] == (t, SellerCollateral)
                                 && Finish(i, Confirmed) in steps)
  {
    PipelineIsFinal(s, t, steps);
    InKinds(steps, t, BuyerCollateral);
    InKinds(steps, t, SellerCollateral);
  }

  lemma InKinds(steps: seq<QStep>, t: Ticket, k: Deposit)
    ensures k in KindsOfRun(steps, t) <==>
              exists i :: 0 <= i < |Arrivals(steps)| && Arrivals(steps)[i] == (t, k) && Finish(i, Confirmed) in steps
  {
    if i :| 0 <= i < |Arrivals(steps)| && Arrivals(steps)[i] == (t, k) && Finish(i, Confirmed) in steps {
      assert ConfirmedInRun(steps, i) && Arrivals(steps)[i].0 == t && Arrivals(steps)[i].1 == k;
    }
  }

  // ---------- the handler ----------

  /** The handler of a deposit event: a replayed signature or a failed confirmation ends it, and
      otherwise the event's own kind decides what is recorded for its ticket. */
  method HandleDepositReceived(manager: DealPhaseManager, t: Ticket, deposit: Deposit, replayed: bool, confirmed: bool)
    returns (ending: Ending)
    modifies manager
    ensures ending == if !replayed && confirmed then Confirmed else NotConfirmed
    ensures manager.View(t) ==
              if !replayed && confirmed then Apply(old(manager.View(t)), CommandOf(deposit)).0 else old(manager.View(t))
    ensures forall u :: u != t ==> manager.View(u) == old(manager.View(u))
  {
    if replayed || !confirmed {
      return NotConfirmed;
    }
    if deposit == BuyerCollateral || deposit == SellerCollateral {
      var party := if deposit == SellerCollateral then Seller else Buyer;
      var _ := manager.RecordDeposit(t, party);
    }
    if deposit == BuyerPayment {
      var _ := manager.ConfirmBuyerPayment(t);
    }
    return Confirmed;
  }
}
