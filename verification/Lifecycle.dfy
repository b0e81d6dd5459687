/** The lifecycle orchestrator: six chain calls in order for one ticket, stopping at the first that
    fails. `Begin` and `End` are what happens between two awaits, so calls may interleave. */
module Lifecycle {
  import opened Common

  datatype ChainStep =
    | CreateDeal | LockCollateralBuyer | LockCollateralSeller | LockPayment | ReleaseFunds | CloseDeal

  const STEPS := [CreateDeal, LockCollateralBuyer, LockCollateralSeller, LockPayment, ReleaseFunds, CloseDeal]

  datatype Agreement = Agreement(ticket: Ticket, confidence: int, price: real, collateralBuyer: real, collateralSeller: real)

  predicate Acceptable(a: Agreement) {
    a.confidence >= 80 && a.price != 0.0 && a.collateralBuyer != 0.0 && a.collateralSeller != 0.0
  }

  /** How many of the chain calls succeed before the first that fails. */
  function Successes(ok: seq<bool>): (n: nat)
    ensures n <= |ok| && (forall i | 0 <= i < n :: ok[i]) && (n < |ok| ==> !ok[n])
  {
    if ok == [] || !ok[0] then 0
    else
      var n := Successes(ok[1..]);
      assert forall i | 1 <= i < n + 1 :: ok[i] == ok[1..][i - 1];
      n + 1
  }

  lemma SuccessesIs(ok: seq<bool>, n: nat)
    requires n <= |ok| && (forall i | 0 <= i < n :: ok[i]) && (n < |ok| ==> !ok[n])
    ensures Successes(ok) == n
  {
  }

  class ExecutionService {
    var executedDeals: set<Ticket>
    var dealContexts: set<Ticket>
    /** The chain calls that succeeded, oldest first. */
    ghost var log: map<Ticket, seq<ChainStep>>

    ghost function Log(t: Ticket): seq<ChainStep>
      reads this
    {
      if t in log then log[t] else []
    }

    twostate predicate OthersUnchanged(t: Ticket)
      reads this
    {
      forall u | u != t ::
        && (u in executedDeals <==> u in old(executedDeals))
        && (u in dealContexts <==> u in old(dealContexts))
        && Log(u) == old(Log(u))
    }

    constructor ()
      ensures executedDeals == {} && dealContexts == {} && forall t :: Log(t) == []
    {
      executedDeals, dealContexts, log := {}, {}, map[];
    }

    /** Creation is refused below 80, without a price or a collateral, or when it was done already. */
    method ExecuteCreateDeal(a: Agreement, rpcOk: bool) returns (success: bool)
      modifies this
      ensures OthersUnchanged(a.ticket)
      ensures success <==> Acceptable(a) && a.ticket !in old(executedDeals) && rpcOk
      ensures Log(a.ticket) == old(Log(a.ticket)) + if success then [CreateDeal] else []
      ensures a.ticket in executedDeals <==> success || a.ticket in old(executedDeals)
      ensures a.ticket in dealContexts <==>
              a.ticket in old(dealContexts) || (Acceptable(a) && a.ticket !in old(executedDeals))
    {
      success := false;
      if a.confidence < 80 {
        return;
      }
      if a.price == 0.0 || a.collateralBuyer == 0.0 || a.collateralSeller == 0.0 {
        return;
      }
      if a.ticket in executedDeals {
        return;
      }
      executedDeals := executedDeals + {a.ticket};
      dealContexts := dealContexts + {a.ticket};
      if rpcOk {
        success := true;
        log := log[a.ticket := Log(a.ticket) + [CreateDeal]];
      } else {
        executedDeals := executedDeals - {a.ticket};
      }
    }

    /** The five later calls need a context; closing removes it. */
    method ExecuteOnDeal(t: Ticket, step: ChainStep, rpcOk: bool) returns (success: bool)
      requires step != CreateDeal
      modifies this`dealContexts, this`log
      ensures OthersUnchanged(t)
      ensures success <==> t in old(dealContexts) && rpcOk
      ensures Log(t) == old(Log(t)) + if success then [step] else []
      ensures t in dealContexts <==> t in old(dealContexts) && !(success && step == CloseDeal)
    {
      success := false;
      if t !in dealContexts {
        return;
      }
      if rpcOk {
        success := true;
        log := log[t := Log(t) + [step]];
        if step == CloseDeal {
          dealContexts := dealContexts - {t};
        }
      }
    }

    /** The whole lifecycle with nothing in between: it performs exactly the steps before the first
        failing call, reports that call, and only a failed creation can be tried again. */
    method ExecuteFullDealLifecycle(a: Agreement, rpcOk: seq<bool>) returns (success: bool, halted: nat)
      requires |rpcOk| == |STEPS|
      modifies this
      ensures OthersUnchanged(a.ticket)
      ensures halted == if Acceptable(a) && a.ticket !in old(executedDeals) then Successes(rpcOk) else 0
      ensures success <==> halted == |STEPS|
      ensures Log(a.ticket) == old(Log(a.ticket)) + STEPS[..halted]
      ensures a.ticket in executedDeals <==> halted > 0 || a.ticket in old(executedDeals)
      ensures halted > 0 ==> (a.ticket in dealContexts <==> halted < |STEPS|)
    {
      halted := 0;
      while halted < |STEPS|
        invariant halted <= |STEPS|
        invariant forall u | u != a.ticket ::
            && (u in executedDeals <==> u in old(executedDeals))
            && (u in dealContexts <==> u in old(dealContexts))
            && Log(u) == old(Log(u))
        invariant halted > 0 ==> Acceptable(a) && a.ticket !in old(executedDeals)
        invariant forall i | 0 <= i < halted :: rpcOk[i]
        invariant Log(a.ticket) == old(Log(a.ticket)) + STEPS[..halted]
        invariant a.ticket in executedDeals <==> halted > 0 || a.ticket in old(executedDeals)
        invariant halted > 0 ==> (a.ticket in dealContexts <==> halted < |STEPS|)
      {
        var done: bool;
        if halted == 0 {
          done := ExecuteCreateDeal(a, rpcOk[0]);
        } else {
          done := ExecuteOnDeal(a.ticket, STEPS[halted], rpcOk[halted]);
        }
        if !done {
          success := false;
          assert halted > 0 ==> !rpcOk[halted];
          if Acceptable(a) && a.ticket !in old(executedDeals) {
            SuccessesIs(rpcOk, halted);
          }
          return;
        }
        assert STEPS[..halted + 1] == STEPS[..halted] + [STEPS[halted]];
        halted := halted + 1;
      }
      SuccessesIs(rpcOk, halted);
      success := true;
    }
  }

  // ---------- calls that interleave, for one ticket ----------

  /** A call waiting for the chain call `step`; `full` is false for the deprecated `executeDeal`,
      which only creates. */
  datatype Call = Call(step: nat, full: bool)

  datatype State = State(executed: bool, context: bool, log: seq<ChainStep>, waiting: seq<Call>)

  datatype Event =
    | Begin(agreement: Agreement, full: bool)
    | End(k: nat, ok: bool)

  predicate Enabled(s: State, e: Event) {
    e.End? ==> e.k < |s.waiting| && s.waiting[e.k].step < |STEPS|
  }

  function Next(s: State, e: Event): State
    requires Enabled(s, e)
  {
    match e
    case Begin(a, full) =>
      if !Acceptable(a) || s.executed then s
      else s.(executed := true, context := true, waiting := s.waiting + [Call(0, full)])
    case End(k, ok) =>
      var call := s.waiting[k];
      var rest := s.waiting[..k] + s.waiting[k + 1..];
      var closed := ok && STEPS[call.step] == CloseDeal;
      var s1 := s.(waiting := rest, executed := s.executed && (ok || call.step != 0),
                   context := s.context && !closed,
                   log := if ok then s.log + [STEPS[call.step]] else s.log);
      if ok && call.full && call.step + 1 < |STEPS| && s1.context
      then s1.(waiting := rest + [Call(call.step + 1, true)])
      else s1
  }

  predicate ValidRun(s: State, events: seq<Event>)
    decreases |events|
  {
    events == [] || (Enabled(s, events[0]) && ValidRun(Next(s, events[0]), events[1..]))
  }

  function Run(s: State, events: seq<Event>): State
    requires ValidRun(s, events)
    decreases |events|
  {
    if events == [] then s else Run(Next(s, events[0]), events[1..])
  }

  /** Nothing was ever done for the ticket. */
  predicate Untouched(s: State) {
    !s.executed && !s.context && s.log == [] && s.waiting == []
  }

  ghost predicate Inv(s: State) {
    && s.log <= STEPS
    && |s.waiting| <= 1
    && (s.executed <==> s.log != [] || s.waiting != [])
    && (s.waiting != [] ==> s.context && s.waiting[0].step == |s.log| && |s.log| < |STEPS|)
    && (s.log != [] ==> (s.context <==> s.log != STEPS))
  }

  lemma InvStep(s: State, e: Event)
    requires Inv(s) && Enabled(s, e)
    ensures Inv(Next(s, e))
  {
    if e.End? {
      var n := |s.log|;
      assert s.log == STEPS[..n];
      assert STEPS[..n + 1] == STEPS[..n] + [STEPS[n]];
    }
  }

  lemma {:induction false} InvRun(s: State, events: seq<Event>)
    requires Inv(s) && ValidRun(s, events)
    ensures Inv(Run(s, events))
    decreases |events|
  {
    if events != [] {
      InvStep(s, events[0]);
      InvRun(Next(s, events[0]), events[1..]);
    }
  }

  /** Under every interleaving of calls and failures the chain calls that succeeded for a ticket are
      a prefix of the six steps, at most one call is at work, the mark that refuses a second
      creation is up exactly while the deal exists or is being created, and a created deal has its
      context exactly until it is closed. */
  lemma LifecyclePrefix(s: State, events: seq<Event>)
    requires Untouched(s) && ValidRun(s, events)
    ensures Run(s, events).log
            <= [CreateDeal, LockCollateralBuyer, LockCollateralSeller, LockPayment, ReleaseFunds, CloseDeal]
    ensures |Run(s, events).waiting| <= 1
    ensures Run(s, events).log != [] ==> (Run(s, events).context <==> CloseDeal !in Run(s, events).log)
    ensures Run(s, events).executed <==> Run(s, events).log != [] || Run(s, events).waiting != []
  {
    InvRun(s, events);
    assert CloseDeal in STEPS && STEPS[5] == CloseDeal;
    var log := Run(s, events).log;
    if log != STEPS {
      assert forall i | 0 <= i < |log| :: log[i] == STEPS[i];
    }
  }

  predicate CreationStarts(s: State, a: Agreement) {
    Next(s, Begin(a, true)).waiting != s.waiting
  }

  /** A creation starts exactly when the confidence is at least 80, the price and both collaterals are
      not zero, the deal does not exist and no other creation is under way; so a failed creation can
      be tried again. */
  lemma CreationStartsIff(s: State, events: seq<Event>, a: Agreement)
    requires Untouched(s) && ValidRun(s, events)
    ensures CreationStarts(Run(s, events), a) <==>
            && a.confidence >= 80 && a.price != 0.0 && a.collateralBuyer != 0.0 && a.collateralSeller != 0.0
            && Run(s, events).log == [] && Run(s, events).waiting == []
  {
    InvRun(s, events);
    var s' := Run(s, events);
    assert |s'.waiting + [Call(0, true)]| == |s'.waiting| + 1;
  }

  /** A deal whose lifecycle stopped after its creation stays where it stopped: no later call adds a
      chain call, so the collateral it locked is left to other means. */
  lemma {:induction false} HaltedForGood(s: State, events: seq<Event>)
    requires Inv(s) && s.log != [] && s.waiting == [] && ValidRun(s, events)
    ensures Run(s, events) == s
    decreases |events|
  {
    if events != [] {
      HaltedForGood(Next(s, events[0]), events[1..]);
    }
  }

  /** What a call sees when nothing interleaves: its creation and then its chain calls in turn. */
  function Alone(a: Agreement, ok: seq<bool>, n: nat): seq<Event>
    requires n < |ok|
  {
    [Begin(a, true)] + seq(n + 1, i requires 0 <= i <= n => End(0, ok[i]))
  }

  lemma {:induction false} TailOfLifecycle(s: State, ok: seq<bool>, i: nat, n: nat, ends: seq<Event>)
    requires |ok| == |STEPS| && i <= n < |STEPS| && Successes(ok) == (if ok[n] then n + 1 else n)
    requires ok[n] ==> n + 1 == |STEPS|
    requires s.waiting == [Call(i, true)] && s.context && s.executed && s.log == STEPS[..i]
    requires |ends| == n + 1 - i && forall j | 0 <= j < |ends| :: ends[j] == End(0, ok[i + j])
    ensures ValidRun(s, ends)
    ensures Run(s, ends).log == STEPS[..Successes(ok)] && Run(s, ends).waiting == []
    decreases n - i
  {
    assert ends[0] == End(0, ok[i]);
    assert STEPS[..i + 1] == STEPS[..i] + [STEPS[i]];
    var s' := Next(s, ends[0]);
    if i < n {
      assert ok[i];
      assert s'.waiting == [Call(i + 1, true)];
      forall j | 0 <= j < |ends[1..]|
        ensures ends[1..][j] == End(0, ok[i + 1 + j])
      {
        assert ends[1..][j] == ends[j + 1];
      }
      TailOfLifecycle(s', ok, i + 1, n, ends[1..]);
    } else {
      assert ends[1..] == [];
      assert Run(s', ends[1..]) == s';
    }
  }

  /** The interleaved calls without interleaving are the loop of `ExecuteFullDealLifecycle`. */
  lemma AloneIsTheLoop(s: State, a: Agreement, ok: seq<bool>)
    requires Untouched(s) && Acceptable(a) && |ok| == |STEPS|
    ensures var n := if Successes(ok) == |STEPS| then |STEPS| - 1 else Successes(ok);
            && ValidRun(s, Alone(a, ok, n))
            && Run(s, Alone(a, ok, n)).log == STEPS[..Successes(ok)]
            && Run(s, Alone(a, ok, n)).waiting == []
  {
    var n := if Successes(ok) == |STEPS| then |STEPS| - 1 else Successes(ok);
    var events := Alone(a, ok, n);
    var ends := events[1..];
    assert events[0] == Begin(a, true);
    TailOfLifecycle(Next(s, events[0]), ok, 0, n, ends);
  }

  /** Calls of the kind that only creates. */
  predicate OnlyCreations(events: seq<Event>) {
    forall i | 0 <= i < |events| :: events[i].Begin? ==> !events[i].full
  }

  /** Without a call of the full lifecycle no chain call but the creation is ever made. */
  lemma {:induction false} OnlyCreates(s: State, events: seq<Event>)
    requires Inv(s) && |s.log| + |s.waiting| <= 1 && (forall c | c in s.waiting :: !c.full)
    requires OnlyCreations(events) && ValidRun(s, events)
    ensures Run(s, events).log <= [CreateDeal]
    decreases |events|
  {
    if events == [] {
      assert s.log == STEPS[..|s.log|];
    } else {
      InvStep(s, events[0]);
      assert events[0].Begin? ==> !events[0].full;
      OnlyCreates(Next(s, events[0]), events[1..]);
    }
  }
}
