/** How often a ticket can be created and settled on chain. */
module DealBudget {
  import opened Common
  import opened Wrappers
  import opened DealTypes
  import opened AiJudge
  import opened DealPhase
  import opened DealRuns

  predicate PhasesAgree(s: Slice) {
    s.mem.Some? ==> s.row.Some? && s.row.value.phase == s.mem.value.phase
  }

  predicate Creatable(s: Slice) {
    s.mem.None? || s.mem.value.phase == Negotiation
  }

  /** The two ways a ticket past negotiation gets back to it. */
  predicate Reopens(s: Slice, e: Event) {
    !Creatable(s) &&
    match e
    case Do(c) => c.InitDeal?
    case Restart(_) => s.row.Some? && Terminal(s.row.value.phase)
  }

  /** The three ways a settled ticket gets unsettled. */
  predicate Unsettles(s: Slice, e: Event) {
    Settled(s) &&
    match e
    case Do(c) => c.InitDeal? || (c.SyncTerminal? && SyncTarget(c.status) == Some(Disputed))
    case Restart(_) => true
  }

  function Creations(log: seq<Emission>): nat {
    if log == [] then 0
    else Creations(log[..|log| - 1]) + One(log[|log| - 1].action == CreateOnChain)
  }

  /** Actions handed out with a terminal phase: a refund, a split, or a release by verdict. */
  function Settlements(log: seq<Emission>): nat {
    if log == [] then 0
    else Settlements(log[..|log| - 1]) + One(Terminal(log[|log| - 1].newPhase))
  }

  function Reopenings(s: Slice, events: seq<Event>): nat
    decreases |events|
  {
    if events == [] then 0
    else One(Reopens(s, events[0])) + Reopenings(Step(s, events[0]), events[1..])
  }

  function Unsettlings(s: Slice, events: seq<Event>): nat
    decreases |events|
  {
    if events == [] then 0
    else One(Unsettles(s, events[0])) + Unsettlings(Step(s, events[0]), events[1..])
  }

  /** What an answer says was handed out. */
  function HandedOut(out: Outcome): seq<Emission> {
    if out.Moved? && out.onChain.Some? then [Emission(out.onChain.value, out.newPhase)] else []
  }

  /** What the answer tells, of a creation and of a settlement. */
  predicate Told(s: Slice, s': Slice, out: Outcome) {
    && s'.emitted == s.emitted + HandedOut(out)
    && (out.Moved? && out.onChain == Some(CreateOnChain) ==> Creatable(s) && !Creatable(s'))
    && (out.Moved? && out.onChain.Some? && Terminal(out.newPhase) ==> !Settled(s) && Settled(s'))
  }

  lemma CreateTold(s: Slice, sender: string, proposed: Option<Terms>)
    requires s.mem.Some?
    ensures var (s', out) := DoCreateEscrow(s, s.mem.value, sender, proposed); Told(s, s', out)
  {
  }

  lemma ReleaseTold(s: Slice, sender: string, dir: Directory)
    requires s.mem.Some?
    ensures var (s', out) := DoRelease(s, s.mem.value, sender, dir); Told(s, s', out)
  {
  }

  lemma CancelTold(s: Slice, sender: string)
    requires s.mem.Some?
    ensures var (s', out) := DoCancel(s, s.mem.value, sender); Told(s, s', out)
  {
  }

  lemma DisputeTold(s: Slice, sender: string, reply: ModelReply)
    requires s.mem.Some?
    ensures var (s', out) := DoDispute(s, s.mem.value, sender, reply); Told(s, s', out)
  {
  }

  lemma ActTold(s: Slice, c: Command)
    requires c.Act?
    ensures var (s', out) := DoAct(s, c); Told(s, s', out)
  {
    var s1 := SelfHeal(s, c.healBuyer, c.healSeller);
    match c.action
    case CreateEscrow => CreateTold(s1, c.sender, c.proposed);
    case ReleaseFunds => ReleaseTold(s1, c.sender, c.dir);
    case CancelDeal => CancelTold(s1, c.sender);
    case Dispute => DisputeTold(s1, c.sender, c.reply);
    case _ =>
  }

  /** The answer to a command tells exactly what it handed out. Only a ticket not created yet is
      created, leaving that state, and only an unsettled one is settled, becoming settled. */
  lemma EmissionTold(s: Slice, c: Command)
    ensures var (s', out) := Apply(s, c);
            && s'.emitted == s.emitted + HandedOut(out)
            && (out.Moved? && out.onChain == Some(CreateOnChain) ==> Creatable(s) && !Creatable(s'))
            && (out.Moved? && out.onChain.Some? && Terminal(out.newPhase) ==> !Settled(s) && Settled(s'))
  {
    if c.Act? {
      ActTold(s, c);
    }
  }

  lemma ResultGoesForward(s: Slice, s': Slice)
    requires PhasesAgree(s) && ActResult(s, s')
    ensures PhasesAgree(s') && (Creatable(s') ==> Creatable(s)) && (Settled(s) ==> Settled(s'))
  {
  }

  lemma ActGoesForward(s: Slice, c: Command)
    requires PhasesAgree(s) && c.Act?
    ensures var s' := DoAct(s, c).0;
            PhasesAgree(s') && (Creatable(s') ==> Creatable(s)) && (Settled(s) ==> Settled(s'))
  {
    ActSummary(s, c);
    ResultGoesForward(SelfHeal(s, c.healBuyer, c.healSeller), DoAct(s, c).0);
  }

  lemma UpdateGoesBackIff(s: Slice, c: Command)
    requires PhasesAgree(s) && !c.Act?
    ensures var s' := Apply(s, c).0;
            && PhasesAgree(s')
            && (Creatable(s') && !Creatable(s) <==> Reopens(s, Do(c)))
            && (Settled(s) && !Settled(s') <==> Unsettles(s, Do(c)))
  {
  }

  lemma RecoveryGoesBackIff(s: Slice, chain: Chain)
    requires PhasesAgree(s)
    ensures var s' := Recover(s, chain);
            && PhasesAgree(s')
            && (Creatable(s') && !Creatable(s) <==> Reopens(s, Restart(chain)))
            && (Settled(s) && !Settled(s') <==> Unsettles(s, Restart(chain)))
  {
  }

  /** A ticket gets back before its creation, or out of a settled phase, by these events only. */
  lemma BackwardStepsIff(s: Slice, e: Event)
    requires PhasesAgree(s)
    ensures PhasesAgree(Step(s, e))
    ensures Creatable(Step(s, e)) && !Creatable(s) <==> Reopens(s, e)
    ensures Settled(s) && !Settled(Step(s, e)) <==> Unsettles(s, e)
  {
    match e
    case Restart(chain) => RecoveryGoesBackIff(s, chain);
    case Do(c) =>
      if c.Act? {
        ActGoesForward(s, c);
      } else {
        UpdateGoesBackIff(s, c);
      }
  }

  lemma CountsSplit(log: seq<Emission>, x: Emission)
    ensures Creations(log + [x]) == Creations(log) + One(x.action == CreateOnChain)
    ensures Settlements(log + [x]) == Settlements(log) + One(Terminal(x.newPhase))
  {
    assert (log + [x])[..|log + [x]| - 1] == log;
  }

  lemma BudgetStep(s: Slice, e: Event)
    requires PhasesAgree(s)
    ensures PhasesAgree(Step(s, e))
    ensures Creations(Step(s, e).emitted) + One(Creatable(Step(s, e)))
            <= Creations(s.emitted) + One(Creatable(s)) + One(Reopens(s, e))
    ensures Settlements(Step(s, e).emitted) + One(!Settled(Step(s, e)))
            <= Settlements(s.emitted) + One(!Settled(s)) + One(Unsettles(s, e))
  {
    BackwardStepsIff(s, e);
    if e.Do? {
      EmissionTold(s, e.command);
      var out := Apply(s, e.command).1;
      if HandedOut(out) != [] {
        CountsSplit(s.emitted, HandedOut(out)[0]);
      } else {
        assert s.emitted + [] == s.emitted;
      }
    }
  }

  /** Over every run, whatever the chain serves, create_deal is handed out at most once plus once
      for every time the ticket was initialised again or forgotten after it had finished, and at
      most one settling action plus one for every time the settled ticket was unsettled. */
  lemma {:induction false} ActionBudget(s: Slice, events: seq<Event>)
    requires PhasesAgree(s)
    ensures Creations(Run(s, events).emitted) + One(Creatable(Run(s, events)))
            <= Creations(s.emitted) + One(Creatable(s)) + Reopenings(s, events)
    ensures Settlements(Run(s, events).emitted) + One(!Settled(Run(s, events)))
            <= Settlements(s.emitted) + One(!Settled(s)) + Unsettlings(s, events)
    decreases |events|
  {
    if events != [] {
      BudgetStep(s, events[0]);
      ActionBudget(Step(s, events[0]), events[1..]);
    }
  }

  lemma CreatedAndSettledAtMostOnce(events: seq<Event>)
    ensures Reopenings(EMPTY, events) == 0 ==> Creations(Run(EMPTY, events).emitted) <= 1
    ensures Unsettlings(EMPTY, events) == 0 ==> Settlements(Run(EMPTY, events).emitted) <= 1
  {
    ActionBudget(EMPTY, events);
  }

  function Cancel(sender: string): Event {
    Do(Act(CancelDeal, sender, None, NoReply, map[], "b", "s"))
  }

  lemma CreateStep(s: Slice, sender: string)
    requires s.mem.None?
    ensures var s' := Step(s, Create(sender));
            && s'.mem.Some? && s'.mem.value.phase == EscrowCreated
            && s'.emitted == s.emitted + [Emission(CreateOnChain, EscrowCreated)]
            && Creations(s'.emitted) == Creations(s.emitted) + 1
  {
    CountsSplit(s.emitted, Emission(CreateOnChain, EscrowCreated));
  }

  lemma CancelStep(s: Slice, sender: string)
    requires s.mem.Some? && s.mem.value.phase == EscrowCreated
    ensures var s' := Step(s, Cancel(sender));
            && s'.mem.Some? && s'.mem.value.phase == Cancelled && s'.row == Some(ToRow(s'.mem.value))
            && s'.emitted == s.emitted + [Emission(CancelOnChain, Cancelled)]
            && Creations(s'.emitted) == Creations(s.emitted)
  {
    CountsSplit(s.emitted, Emission(CancelOnChain, Cancelled));
  }

  /** The allowance is used: a ticket cancelled before a crash is created a second time after it. */
  lemma ForgottenTicketIsCreatedTwice()
    ensures var events := [Create("b"), Cancel("b"), Restart(map[]), Create("b")];
            Creations(Run(EMPTY, events).emitted) == 2 && Reopenings(EMPTY, events) == 1
  {
    var s1 := Step(EMPTY, Create("b"));
    var s2 := Step(s1, Cancel("b"));
    var s3 := Step(s2, Restart(map[]));
    CreateStep(EMPTY, "b");
    CancelStep(s1, "b");
    assert s3.mem.None? && s3.emitted == s2.emitted;
    CreateStep(s3, "b");
    UnrollFour(EMPTY, Create("b"), Cancel("b"), Restart(map[]), Create("b"));
  }

  lemma RunFirst(s: Slice, e: Event, rest: seq<Event>)
    ensures Run(s, [e] + rest) == Run(Step(s, e), rest)
    ensures Reopenings(s, [e] + rest) == One(Reopens(s, e)) + Reopenings(Step(s, e), rest)
  {
    assert ([e] + rest)[1..] == rest;
  }

  lemma RunLast(s: Slice, e: Event)
    ensures Run(s, [e]) == Step(s, e) && Reopenings(s, [e]) == One(Reopens(s, e))
  {
    assert [e] == [e] + [];
    RunFirst(s, e, []);
  }

  lemma UnrollFour(s: Slice, e1: Event, e2: Event, e3: Event, e4: Event)
    ensures var s1 := Step(s, e1); var s2 := Step(s1, e2); var s3 := Step(s2, e3);
            && Run(s, [e1, e2, e3, e4]) == Step(s3, e4)
            && Reopenings(s, [e1, e2, e3, e4])
               == One(Reopens(s, e1)) + One(Reopens(s1, e2)) + One(Reopens(s2, e3)) + One(Reopens(s3, e4))
  {
    var s1 := Step(s, e1);
    var s2 := Step(s1, e2);
    var s3 := Step(s2, e3);
    var two, three := [e3, e4], [e2, e3, e4];
    assert two == [e3] + [e4] && three == [e2] + two && [e1, e2, e3, e4] == [e1] + three;
    RunFirst(s, e1, three);
    RunFirst(s1, e2, two);
    RunFirst(s2, e3, [e4]);
    RunLast(s3, e4);
  }
}
