/** The per-ticket deposit queue: a map holds the tail promise of each ticket, each new event is
    chained behind the tail, and a finishing task clears the entry only if it is still the tail.
    Arrival, start of the handler, its end and the clean-up are separate steps that interleave
    freely across tickets and with new arrivals. */
module DepositQueue {
  import opened Common
  import opened Wrappers
  import opened DealTypes
  import opened DepositConfluence

  /** How a handler ended: the deposit was confirmed on chain, it was not (a replay or a failed
      confirmation), or the handler threw. */
  datatype Ending = Confirmed | NotConfirmed | Threw

  datatype Status = Waiting | Running | Ended(ending: Ending) | Settled(ending: Ending)

  /** A task chained behind the promise of task prev, or behind a resolved promise. Task i is the
      i-th event to arrive. */
  datatype Task = Task(ticket: Ticket, deposit: Deposit, prev: Option<nat>, status: Status)

  /** started lists the tasks in the order in which their handlers began. */
  datatype Queue = Queue(tails: map<Ticket, nat>, tasks: seq<Task>, started: seq<nat>)

  const NO_TASKS := Queue(map[], [], [])

  datatype QStep =
    | Arrive(ticket: Ticket, deposit: Deposit)
    | Start(task: nat)
    | Finish(task: nat, ending: Ending)
    | CleanUp(task: nat)

  predicate SettledTask(t: Task) {
    t.status.Settled?
  }

  /** A promise reaction runs only when the promise it waits for has settled, rejected or not. */
  predicate Enabled(q: Queue, step: QStep) {
    match step
    case Arrive(_, _) => true
    case Start(i) =>
      i < |q.tasks| && q.tasks[i].status == Waiting
      && (q.tasks[i].prev.Some? ==> q.tasks[i].prev.value < |q.tasks| && SettledTask(q.tasks[q.tasks[i].prev.value]))
    case Finish(i, _) => i < |q.tasks| && q.tasks[i].status == Running
    case CleanUp(i) => i < |q.tasks| && q.tasks[i].status.Ended?
  }

  function Next(q: Queue, step: QStep): Queue
    requires Enabled(q, step)
  {
    match step
    case Arrive(t, k) =>
      var prev := if t in q.tails then Some(q.tails[t]) else None;
      q.(tasks := q.tasks + [Task(t, k, prev, Waiting)], tails := q.tails[t := |q.tasks|])
    case Start(i) =>
      q.(tasks := q.tasks[i := q.tasks[i].(status := Running)], started := q.started + [i])
    case Finish(i, ending) =>
      q.(tasks := q.tasks[i := q.tasks[i].(status := Ended(ending))])
    case CleanUp(i) =>
      var t := q.tasks[i].ticket;
      q.(tasks := q.tasks[i := q.tasks[i].(status := Settled(q.tasks[i].status.ending))],
         tails := if t in q.tails && q.tails[t] == i then q.tails - {t} else q.tails)
  }

  /** The queue as the event bus and the promise machinery drive it. */
  class DepositConfirmationQueues {
    var tails: map<Ticket, nat>
    var tasks: seq<Task>
    ghost var started: seq<nat>

    ghost function View(): Queue
      reads this
    {
      Queue(tails, tasks, started)
    }

    constructor ()
      ensures View() == NO_TASKS
    {
      tails, tasks, started := map[], [], [];
    }

    /** The deposit_received subscriber. */
    method OnDepositReceived(ticket: Ticket, deposit: Deposit)
      modifies this
      ensures View() == Next(old(View()), Arrive(ticket, deposit))
    {
      var previous := if ticket in tails then Some(tails[ticket]) else None;
      var next := |tasks|;
      tasks := tasks + [Task(ticket, deposit, previous, Waiting)];
      tails := tails[ticket := next];
    }

    /** The reaction chained with then: the handler begins. */
    method RunThen(i: nat)
      requires Enabled(View(), Start(i))
      modifies this
      ensures View() == Next(old(View()), Start(i))
    {
      tasks := tasks[i := tasks[i].(status := Running)];
      started := started + [i];
    }

    method HandlerEnds(i: nat, ending: Ending)
      requires Enabled(View(), Finish(i, ending))
      modifies this
      ensures View() == Next(old(View()), Finish(i, ending))
    {
      tasks := tasks[i := tasks[i].(status := Ended(ending))];
    }

    /** The reaction chained with finally. */
    method RunFinally(i: nat)
      requires Enabled(View(), CleanUp(i))
      modifies this
      ensures View() == Next(old(View()), CleanUp(i))
    {
      var ticket := tasks[i].ticket;
      if ticket in tails && tails[ticket] == i {
        tails := tails - {ticket};
      }
      tasks := tasks[i := tasks[i].(status := Settled(tasks[i].status.ending))];
    }
  }

  // ---------- the invariant ----------

  /** A task has begun only when every earlier task of its ticket has settled. */
  predicate Ordered(tasks: seq<Task>) {
    forall i, j | 0 <= i < j < |tasks| && tasks[i].ticket == tasks[j].ticket && tasks[j].status != Waiting ::
      SettledTask(tasks[i])
  }

  /** Each task waits for the task of its ticket that arrived just before it, or, if it waits for
      none, all those before it had settled. */
  predicate Chained(tasks: seq<Task>) {
    WaitsForOwn(tasks) && WaitsForLatest(tasks) && FreeAfterSettled(tasks)
  }

  predicate WaitsForOwn(tasks: seq<Task>) {
    forall j | 0 <= j < |tasks| && tasks[j].prev.Some? ::
      tasks[j].prev.value < j && tasks[tasks[j].prev.value].ticket == tasks[j].ticket
  }

  predicate WaitsForLatest(tasks: seq<Task>) {
    forall j, k | 0 <= j < |tasks| && tasks[j].prev.Some? && tasks[j].prev.value < k < j ::
      tasks[k].ticket != tasks[j].ticket
  }

  predicate FreeAfterSettled(tasks: seq<Task>) {
    forall i, j | 0 <= i < j < |tasks| && tasks[i].ticket == tasks[j].ticket && tasks[j].prev.None? ::
      SettledTask(tasks[i])
  }

  /** An entry names the last task of its ticket, which is unfinished, and every ticket with an
      unfinished task has an entry. */
  predicate TailsRight(q: Queue) {
    && (forall t | t in q.tails ::
          q.tails[t] < |q.tasks| && q.tasks[q.tails[t]].ticket == t && !SettledTask(q.tasks[q.tails[t]]))
    && (forall t, k | t in q.tails && q.tails[t] < k < |q.tasks| :: q.tasks[k].ticket != t)
    && (forall i | 0 <= i < |q.tasks| && !SettledTask(q.tasks[i]) :: q.tasks[i].ticket in q.tails)
  }

  /** The tasks of ticket t among the first n that have begun, in order of arrival. */
  function Begun(tasks: seq<Task>, t: Ticket, n: nat): seq<nat>
    requires n <= |tasks|
  {
    if n == 0 then []
    else Begun(tasks, t, n - 1)
         + (if tasks[n - 1].ticket == t && tasks[n - 1].status != Waiting then [n - 1] else [])
  }

  /** The tasks of ticket t among the first n, in order of arrival. */
  function Arrived(tasks: seq<Task>, t: Ticket, n: nat): seq<nat>
    requires n <= |tasks|
  {
    if n == 0 then []
    else Arrived(tasks, t, n - 1) + (if tasks[n - 1].ticket == t then [n - 1] else [])
  }

  /** The tasks of ticket t in the order in which their handlers began. */
  function Handled(q: Queue, t: Ticket, n: nat): seq<nat>
    requires n <= |q.started|
  {
    if n == 0 then []
    else Handled(q, t, n - 1)
         + (var i := q.started[n - 1]; if i < |q.tasks| && q.tasks[i].ticket == t then [i] else [])
  }

  ghost predicate HandledInOrder(q: Queue) {
    && (forall i | i in q.started :: i < |q.tasks|)
    && (forall t: Ticket :: Handled(q, t, |q.started|) == Begun(q.tasks, t, |q.tasks|))
  }

  predicate Linked(q: Queue) {
    Ordered(q.tasks) && Chained(q.tasks) && TailsRight(q)
  }

  ghost predicate Inv(q: Queue) {
    Linked(q) && HandledInOrder(q)
  }

  // ---------- it is kept by every step ----------

  lemma {:induction false} HandledSame(q: Queue, q': Queue, t: Ticket, n: nat)
    requires n <= |q.started| && n <= |q'.started| && q'.started[..n] == q.started[..n]
    requires |q.tasks| <= |q'.tasks| && forall i | i in q.started :: i < |q.tasks|
    requires forall i | 0 <= i < |q.tasks| :: q'.tasks[i].ticket == q.tasks[i].ticket
    ensures Handled(q', t, n) == Handled(q, t, n)
  {
    if n > 0 {
      assert q'.started[..n - 1] == q.started[..n][..n - 1] == q.started[..n - 1];
      HandledSame(q, q', t, n - 1);
      assert q'.started[n - 1] == q'.started[..n][n - 1] == q.started[n - 1];
      assert q.started[n - 1] in q.started;
    }
  }

  lemma {:induction false} BegunSame(tasks: seq<Task>, tasks': seq<Task>, t: Ticket, n: nat)
    requires n <= |tasks| && n <= |tasks'|
    requires forall i | 0 <= i < n ::
               tasks'[i].ticket == tasks[i].ticket && (tasks'[i].status == Waiting <==> tasks[i].status == Waiting)
    ensures Begun(tasks', t, n) == Begun(tasks, t, n)
  {
    if n > 0 {
      BegunSame(tasks, tasks', t, n - 1);
    }
  }

  /** Beginning task j, with nothing of its ticket begun behind it, adds it at the end. */
  lemma {:induction false} BegunStart(tasks: seq<Task>, j: nat, t: Ticket, n: nat)
    requires j < |tasks| && n <= |tasks| && tasks[j].status == Waiting
    requires forall k | j < k < |tasks| && tasks[k].ticket == tasks[j].ticket :: tasks[k].status == Waiting
    ensures Begun(tasks[j := tasks[j].(status := Running)], t, n)
            == Begun(tasks, t, n) + (if j < n && tasks[j].ticket == t then [j] else [])
  {
    if n > 0 {
      BegunStart(tasks, j, t, n - 1);
    }
  }

  lemma ChainedSnoc(tasks: seq<Task>, task: Task)
    requires Chained(tasks)
    requires task.prev.Some? ==>
               && task.prev.value < |tasks| && tasks[task.prev.value].ticket == task.ticket
               && forall k | task.prev.value < k < |tasks| :: tasks[k].ticket != task.ticket
    requires task.prev.None? ==> forall i | 0 <= i < |tasks| && tasks[i].ticket == task.ticket :: SettledTask(tasks[i])
    ensures Chained(tasks + [task])
  {
    var tasks' := tasks + [task];
    assert WaitsForOwn(tasks') && WaitsForLatest(tasks');
    assert FreeAfterSettled(tasks');
  }

  lemma ChainedArrive(q: Queue, t: Ticket, k: Deposit)
    requires Chained(q.tasks) && TailsRight(q)
    ensures Chained(Next(q, Arrive(t, k)).tasks)
  {
    var prev := if t in q.tails then Some(q.tails[t]) else None;
    ChainedSnoc(q.tasks, Task(t, k, prev, Waiting));
  }

  lemma TailsArrive(q: Queue, t: Ticket, k: Deposit)
    requires TailsRight(q)
    ensures TailsRight(Next(q, Arrive(t, k)))
  {
    var q' := Next(q, Arrive(t, k));
    assert forall i | 0 <= i < |q.tasks| :: q'.tasks[i] == q.tasks[i];
  }

  /** A step that changes one task's status, but settles nothing and unsettles nothing. */
  predicate SameShape(tasks: seq<Task>, tasks': seq<Task>) {
    && |tasks'| == |tasks|
    && forall i | 0 <= i < |tasks| ::
         tasks'[i].ticket == tasks[i].ticket && tasks'[i].prev == tasks[i].prev
         && (SettledTask(tasks'[i]) <==> SettledTask(tasks[i]))
  }

  lemma ShapeKeepsChained(tasks: seq<Task>, tasks': seq<Task>)
    requires Chained(tasks) && SameShape(tasks, tasks')
    ensures Chained(tasks')
  {
  }

  lemma ShapeKeepsTails(q: Queue, q': Queue)
    requires TailsRight(q) && SameShape(q.tasks, q'.tasks) && q'.tails == q.tails
    ensures TailsRight(q')
  {
  }

  /** All tasks of its ticket before an enabled one have settled. */
  lemma EarlierSettled(tasks: seq<Task>, j: nat)
    requires Ordered(tasks) && Chained(tasks) && j < |tasks|
    requires tasks[j].prev.Some? ==> SettledTask(tasks[tasks[j].prev.value])
    ensures forall i | 0 <= i < j && tasks[i].ticket == tasks[j].ticket :: SettledTask(tasks[i])
  {
    forall i | 0 <= i < j && tasks[i].ticket == tasks[j].ticket
      ensures SettledTask(tasks[i])
    {
      assert tasks[j].prev.Some? ==> i <= tasks[j].prev.value;
    }
  }

  lemma OrderedStart(tasks: seq<Task>, j: nat)
    requires Ordered(tasks) && j < |tasks| && tasks[j].status == Waiting
    requires forall i | 0 <= i < j && tasks[i].ticket == tasks[j].ticket :: SettledTask(tasks[i])
    ensures Ordered(tasks[j := tasks[j].(status := Running)])
  {
  }

  lemma OrderedFinish(tasks: seq<Task>, i: nat, ending: Ending)
    requires Ordered(tasks) && i < |tasks| && tasks[i].status == Running
    ensures Ordered(tasks[i := tasks[i].(status := Ended(ending))])
  {
  }

  lemma LinkedStart(q: Queue, j: nat)
    requires Linked(q) && Enabled(q, Start(j))
    ensures Linked(Next(q, Start(j)))
  {
    var q' := Next(q, Start(j));
    EarlierSettled(q.tasks, j);
    OrderedStart(q.tasks, j);
    ShapeKeepsChained(q.tasks, q'.tasks);
    ShapeKeepsTails(q, q');
  }

  lemma LinkedFinish(q: Queue, i: nat, ending: Ending)
    requires Linked(q) && Enabled(q, Finish(i, ending))
    ensures Linked(Next(q, Finish(i, ending)))
  {
    var q' := Next(q, Finish(i, ending));
    OrderedFinish(q.tasks, i, ending);
    ShapeKeepsChained(q.tasks, q'.tasks);
    ShapeKeepsTails(q, q');
  }

  lemma ChainedCleanUp(q: Queue, i: nat)
    requires Ordered(q.tasks) && Chained(q.tasks) && Enabled(q, CleanUp(i))
    ensures Ordered(Next(q, CleanUp(i)).tasks) && Chained(Next(q, CleanUp(i)).tasks)
  {
  }

  lemma TailsCleanUp(q: Queue, i: nat)
    requires Ordered(q.tasks) && TailsRight(q) && Enabled(q, CleanUp(i))
    ensures TailsRight(Next(q, CleanUp(i)))
  {
    var q' := Next(q, CleanUp(i));
    forall k | 0 <= k < |q'.tasks| && !SettledTask(q'.tasks[k])
      ensures q'.tasks[k].ticket in q'.tails
    {
      // an unfinished task of the same ticket can only be behind i, so i is not the tail
      assert q.tasks[k].ticket == q.tasks[i].ticket ==> i < k;
    }
  }

  lemma LinkedStep(q: Queue, step: QStep)
    requires Linked(q) && Enabled(q, step)
    ensures Linked(Next(q, step))
  {
    match step
    case Arrive(t, k) =>
      ChainedArrive(q, t, k);
      TailsArrive(q, t, k);
    case Start(i) => LinkedStart(q, i);
    case Finish(i, ending) => LinkedFinish(q, i, ending);
    case CleanUp(i) =>
      ChainedCleanUp(q, i);
      TailsCleanUp(q, i);
  }

  lemma HandledStart(q: Queue, j: nat, u: Ticket)
    requires HandledInOrder(q) && Enabled(q, Start(j))
    requires forall k | j < k < |q.tasks| && q.tasks[k].ticket == q.tasks[j].ticket :: q.tasks[k].status == Waiting
    ensures var q' := Next(q, Start(j)); Handled(q', u, |q'.started|) == Begun(q'.tasks, u, |q'.tasks|)
  {
    HandledSame(q, Next(q, Start(j)), u, |q.started|);
    BegunStart(q.tasks, j, u, |q.tasks|);
  }

  lemma HandledOther(q: Queue, step: QStep, u: Ticket)
    requires HandledInOrder(q) && Enabled(q, step) && !step.Start?
    ensures var q' := Next(q, step); Handled(q', u, |q'.started|) == Begun(q'.tasks, u, |q'.tasks|)
  {
    var q' := Next(q, step);
    HandledSame(q, q', u, |q.started|);
    BegunSame(q.tasks, q'.tasks, u, |q.tasks|);
  }

  lemma NothingBegunBehind(tasks: seq<Task>, j: nat)
    requires Ordered(tasks) && j < |tasks| && tasks[j].status == Waiting
    ensures forall k | j < k < |tasks| && tasks[k].ticket == tasks[j].ticket :: tasks[k].status == Waiting
  {
  }

  lemma HandledStep(q: Queue, step: QStep)
    requires HandledInOrder(q) && Ordered(q.tasks) && Enabled(q, step)
    ensures HandledInOrder(Next(q, step))
  {
    if step.Start? {
      NothingBegunBehind(q.tasks, step.task);
    }
    forall u: Ticket
      ensures var q' := Next(q, step); Handled(q', u, |q'.started|) == Begun(q'.tasks, u, |q'.tasks|)
    {
      if step.Start? {
        HandledStart(q, step.task, u);
      } else {
        HandledOther(q, step, u);
      }
    }
  }

  lemma InvStep(q: Queue, step: QStep)
    requires Inv(q) && Enabled(q, step)
    ensures Inv(Next(q, step))
  {
    LinkedStep(q, step);
    HandledStep(q, step);
  }

  // ---------- runs ----------

  predicate ValidRun(q: Queue, steps: seq<QStep>)
    decreases |steps|
  {
    steps == [] || (Enabled(q, steps[0]) && ValidRun(Next(q, steps[0]), steps[1..]))
  }

  function RunQueue(q: Queue, steps: seq<QStep>): Queue
    requires ValidRun(q, steps)
    decreases |steps|
  {
    if steps == [] then q else RunQueue(Next(q, steps[0]), steps[1..])
  }

  lemma {:induction false} InvRun(q: Queue, steps: seq<QStep>)
    requires Inv(q) && ValidRun(q, steps)
    ensures Inv(RunQueue(q, steps))
    decreases |steps|
  {
    if steps != [] {
      InvStep(q, steps[0]);
      InvRun(Next(q, steps[0]), steps[1..]);
    }
  }

  // ---------- what a run guarantees ----------

  predicate InHandler(t: Task) {
    t.status.Running? || t.status.Ended?
  }

  lemma {:induction false} BegunIsPrefix(tasks: seq<Task>, t: Ticket, n: nat)
    requires n <= |tasks| && Ordered(tasks)
    ensures Begun(tasks, t, n) <= Arrived(tasks, t, n)
    ensures (forall i | 0 <= i < n && tasks[i].ticket == t :: tasks[i].status != Waiting)
            ==> Begun(tasks, t, n) == Arrived(tasks, t, n)
  {
    if n > 0 {
      BegunIsPrefix(tasks, t, n - 1);
      if tasks[n - 1].ticket == t && tasks[n - 1].status != Waiting {
        assert forall i | 0 <= i < n - 1 && tasks[i].ticket == t :: SettledTask(tasks[i]);
      }
    }
  }

  /** Under every interleaving: at most one task of a ticket is between the start of its handler and
      the end of its clean-up, the handlers of a ticket begin in order of arrival and none twice,
      and the ticket has a map entry exactly while one of its tasks is unfinished. */
  lemma QueueSafety(steps: seq<QStep>, t: Ticket)
    requires ValidRun(NO_TASKS, steps)
    ensures var q := RunQueue(NO_TASKS, steps);
            && (forall i, j | 0 <= i < j < |q.tasks| && q.tasks[i].ticket == q.tasks[j].ticket ::
                  !(InHandler(q.tasks[i]) && InHandler(q.tasks[j])))
            && Handled(q, t, |q.started|) <= Arrived(q.tasks, t, |q.tasks|)
            && (t in q.tails <==> exists i :: 0 <= i < |q.tasks| && q.tasks[i].ticket == t && !SettledTask(q.tasks[i]))
  {
    var q := RunQueue(NO_TASKS, steps);
    InvRun(NO_TASKS, steps);
    BegunIsPrefix(q.tasks, t, |q.tasks|);
  }

  predicate Quiescent(q: Queue) {
    forall i | 0 <= i < |q.tasks| :: SettledTask(q.tasks[i])
  }

  /** Once everything has settled, each ticket's events have been handled exactly once, in order of
      arrival, whichever handlers threw, and the map is empty. */
  lemma QuiescentHandledAll(steps: seq<QStep>, t: Ticket)
    requires ValidRun(NO_TASKS, steps) && Quiescent(RunQueue(NO_TASKS, steps))
    ensures var q := RunQueue(NO_TASKS, steps);
            Handled(q, t, |q.started|) == Arrived(q.tasks, t, |q.tasks|) && q.tails == map[]
  {
    var q := RunQueue(NO_TASKS, steps);
    InvRun(NO_TASKS, steps);
    BegunIsPrefix(q.tasks, t, |q.tasks|);
    assert forall u :: u !in q.tails;
  }

  // ---------- nothing gets stuck ----------

  function Remaining(tasks: seq<Task>): nat {
    if tasks == [] then 0
    else
      Remaining(tasks[..|tasks| - 1]) +
      (match tasks[|tasks| - 1].status case Waiting => 3 case Running => 2 case Ended(_) => 1 case Settled(_) => 0)
  }

  lemma {:induction false} RemainingUpdate(tasks: seq<Task>, i: nat, t: Task)
    requires i < |tasks|
    ensures Remaining(tasks[i := t]) - Remaining([t]) == Remaining(tasks) - Remaining([tasks[i]])
  {
    var k := |tasks| - 1;
    assert [t][..0] == [] && [tasks[i]][..0] == [];
    if i == k {
      assert tasks[i := t][..k] == tasks[..k];
    } else {
      assert tasks[i := t][..k] == tasks[..k][i := t];
      RemainingUpdate(tasks[..k], i, t);
    }
  }

  /** The step an unfinished task can take when all before it have settled. */
  function StepOf(q: Queue, i: nat): QStep
    requires i < |q.tasks|
  {
    match q.tasks[i].status
    case Waiting => Start(i)
    case Running => Finish(i, Threw)
    case _ => CleanUp(i)
  }

  lemma StepOfEnabled(q: Queue, i: nat)
    requires Chained(q.tasks) && i < |q.tasks| && !SettledTask(q.tasks[i])
    requires forall k | 0 <= k < i :: SettledTask(q.tasks[k])
    ensures Enabled(q, StepOf(q, i))
  {
  }

  /** While some task is unfinished a step of an existing task is enabled, and each such step brings
      the work left down by one: with no new arrivals, every schedule settles every task. */
  lemma StepsRemain(q: Queue)
    requires Inv(q) && !Quiescent(q)
    ensures exists step :: Enabled(q, step) && !step.Arrive? && Remaining(Next(q, step).tasks) == Remaining(q.tasks) - 1
  {
    var i :| 0 <= i < |q.tasks| && !SettledTask(q.tasks[i]);
    var first := FirstUnsettled(q, i);
    StepOfEnabled(q, first);
    StepWorks(q, StepOf(q, first));
  }

  lemma FirstUnsettled(q: Queue, i: nat) returns (first: nat)
    requires i < |q.tasks| && !SettledTask(q.tasks[i])
    ensures first < |q.tasks| && !SettledTask(q.tasks[first])
    ensures forall k | 0 <= k < first :: SettledTask(q.tasks[k])
  {
    if k :| 0 <= k < i && !SettledTask(q.tasks[k]) {
      first := FirstUnsettled(q, k);
    } else {
      first := i;
    }
  }

  lemma StepWorks(q: Queue, step: QStep)
    requires Enabled(q, step) && !step.Arrive?
    ensures Remaining(Next(q, step).tasks) == Remaining(q.tasks) - 1
  {
    var i := step.task;
    var t := Next(q, step).tasks[i];
    RemainingUpdate(q.tasks, i, t);
    assert [t][..0] == [] && [q.tasks[i]][..0] == [];
  }
}
