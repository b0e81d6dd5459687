/** What holds of every run of the deal life cycle. */
module DealRuns {
  import opened Common
  import opened Wrappers
  import opened DealTypes
  import opened AiJudge
  import opened DealPhase

  // ---------- conditions a caller can check on an event ----------

  /** The chain serves nothing to this event, so no deal is reconciled. */
  predicate Chainless(e: Event) {
    match e
    case Restart(chain) => chain == map[]
    case Do(c) => (c.UpsertTerms? || c.SyncTerminal?) ==> c.chain == map[]
  }

  predicate ZeroPriced(e: Event) {
    e.Do? && e.command.UpsertTerms? && e.command.terms.price == 0.0
  }

  predicate Quiet(e: Event) {
    Chainless(e) && !ZeroPriced(e)
  }

  predicate AllQuiet(events: seq<Event>) {
    forall i | 0 <= i < |events| :: Quiet(events[i])
  }

  /** A run, cut after its first event. */
  lemma RunPrefix(s: Slice, events: seq<Event>, n: nat)
    requires events != [] && n <= |events[1..]|
    ensures Run(s, events[..n + 1]) == Run(Step(s, events[0]), events[1..][..n])
  {
    assert events[..n + 1][1..] == events[1..][..n] && events[..n + 1][0] == events[0];
  }

  predicate Settled(s: Slice) {
    s.mem.Some? && Terminal(s.mem.value.phase)
  }

  // ---------- what a handled action does to a deal ----------

  predicate SameDeposits(d: Deal, d': Deal) {
    && d'.buyerDeposited == d.buyerDeposited && d'.sellerDeposited == d.sellerDeposited
    && d'.paymentLocked == d.paymentLocked && d'.escrowPda == d.escrowPda
  }

  /** The deal stays; only a repeated release may be handed out. */
  predicate ActKeeps(s: Slice, s': Slice) {
    s'.mem == s.mem && s'.row == s.row
    && (s'.emitted == s.emitted || s'.emitted == s.emitted + [Emission(ReleaseOnChain, AwaitingRelease)])
  }

  /** The deal moves, with its deposits and its row: it is created, comes to its release, or is over. */
  predicate ActMoves(s: Slice, s': Slice) {
    && s.mem.Some? && s'.mem.Some? && s'.row == Some(ToRow(s'.mem.value)) && SameDeposits(s.mem.value, s'.mem.value)
    && var d, d' := s.mem.value, s'.mem.value;
       || (d.phase == Negotiation && d'.phase == EscrowCreated && CompleteTerms(d'.terms)
           && s'.emitted == s.emitted + [Emission(CreateOnChain, EscrowCreated)])
       || (d.phase == Delivery && d'.phase == AwaitingRelease && d'.terms == d.terms && d.terms.Some?
           && Both(d) && d.paymentLocked && s'.emitted == s.emitted + [Emission(ReleaseOnChain, AwaitingRelease)])
       || (!Terminal(d.phase) && (d'.phase == Cancelled || d'.phase == Completed) && d'.terms == d.terms
           && (s'.emitted == s.emitted || EndsWith(s, s', d'.phase)))
  }

  /** One more emission, of that phase, and not a creation. */
  predicate EndsWith(s: Slice, s': Slice, phase: Phase) {
    && |s'.emitted| == |s.emitted| + 1 && s'.emitted[..|s.emitted|] == s.emitted
    && s'.emitted[|s.emitted|].newPhase == phase && s'.emitted[|s.emitted|].action != CreateOnChain
  }

  predicate ActResult(s: Slice, s': Slice) {
    s.mem.Some? && s'.mem.Some? && (ActKeeps(s, s') || ActMoves(s, s'))
  }

  lemma CreateResult(s: Slice, sender: string, proposed: Option<Terms>)
    requires s.mem.Some?
    ensures ActResult(s, DoCreateEscrow(s, s.mem.value, sender, proposed).0)
  {
  }

  lemma ReleaseResult(s: Slice, sender: string, dir: Directory)
    requires s.mem.Some?
    ensures ActResult(s, DoRelease(s, s.mem.value, sender, dir).0)
  {
  }

  lemma CancelResult(s: Slice, sender: string)
    requires s.mem.Some?
    ensures ActResult(s, DoCancel(s, s.mem.value, sender).0)
  {
  }

  lemma DisputeResult(s: Slice, sender: string, reply: ModelReply)
    requires s.mem.Some?
    ensures ActResult(s, DoDispute(s, s.mem.value, sender, reply).0)
  {
  }

  lemma ActSummary(s: Slice, c: Command)
    requires c.Act?
    ensures ActResult(SelfHeal(s, c.healBuyer, c.healSeller), DoAct(s, c).0)
  {
    var s1 := SelfHeal(s, c.healBuyer, c.healSeller);
    match c.action
    case CreateEscrow => CreateResult(s1, c.sender, c.proposed);
    case ReleaseFunds => ReleaseResult(s1, c.sender, c.dir);
    case CancelDeal => CancelResult(s1, c.sender);
    case Dispute => DisputeResult(s1, c.sender, c.reply);
    case _ =>
  }

  // ---------- memory and table ----------

  predicate InSync(s: Slice) {
    s.mem.Some? ==> s.row == Some(ToRow(s.mem.value))
  }

  /** The one write that is not persisted: a deposit that completes the pair on a deal already in
      delivery whose payment lock is not set. */
  predicate StaleLock(s: Slice, c: Command) {
    c.RecordDeposit? && s.mem.Some? && HasEscrow(s.mem.value) && s.mem.value.phase == Delivery
    && !s.mem.value.paymentLocked && Flag(s.mem.value, c.party) != s.mem.value && Both(Flag(s.mem.value, c.party))
  }

  /** Every command leaves the row equal to the deal, whatever the chain serves, except that one write. */
  lemma RowFollowsMemoryIff(s: Slice, c: Command)
    requires InSync(s)
    ensures InSync(Apply(s, c).0) <==> !StaleLock(s, c)
  {
    if c.RecordDeposit? && StaleLock(s, c) {
      var d := Flag(s.mem.value, c.party);
      assert ToRow(d).paymentLocked != ToRow(d.(paymentLocked := true)).paymentLocked;
    }
  }

  /** The state between events when the chain serves nothing: row and deal agree, restoring is
      faithful, delivery implies the payment lock, and only finished deals are out of memory. */
  predicate Synced(s: Slice) {
    && InSync(s)
    && (s.mem.Some? ==> Priced(s.mem.value) && (s.mem.value.phase == Delivery ==> s.mem.value.paymentLocked))
    && (s.mem.None? && s.row.Some? ==> Terminal(s.row.value.phase))
  }

  lemma SyncedResult(s: Slice, s': Slice)
    requires Synced(s) && ActResult(s, s')
    ensures Synced(s')
  {
  }

  lemma SyncedAct(s: Slice, c: Command)
    requires Synced(s) && c.Act?
    ensures Synced(DoAct(s, c).0)
  {
    var s1 := SelfHeal(s, c.healBuyer, c.healSeller);
    ActSummary(s, c);
    SyncedResult(s1, DoAct(s, c).0);
  }

  lemma SyncedUpsertIff(s: Slice, buyer: string, seller: string, terms: Terms)
    requires Synced(s)
    ensures Synced(DoUpsert(s, buyer, seller, terms, map[]).0) <==> terms.price != 0.0
  {
  }

  lemma SyncedForce(s: Slice, status: string)
    requires Synced(s)
    ensures Synced(DoSync(s, status, map[]).0)
  {
  }

  lemma SyncedDeposit(s: Slice, party: Party)
    requires Synced(s)
    ensures Synced(DoDeposit(s, party).0)
  {
  }

  lemma SyncedUpdateIff(s: Slice, c: Command)
    requires Synced(s) && Chainless(Do(c)) && !c.Act?
    ensures Synced(Apply(s, c).0) <==> !ZeroPriced(Do(c))
  {
    match c
    case UpsertTerms(buyer, seller, terms, _) => SyncedUpsertIff(s, buyer, seller, terms);
    case SyncTerminal(status, _) => SyncedForce(s, status);
    case RecordDeposit(party) => SyncedDeposit(s, party);
    case _ =>
  }

  lemma SyncedRecovery(s: Slice)
    requires Synced(s)
    ensures Synced(Recover(s, map[]))
  {
    if s.mem.Some? {
      RestoreInvertsPersistIff(s.mem.value);
    }
  }

  lemma SyncedStepIff(s: Slice, e: Event)
    requires Synced(s) && Chainless(e)
    ensures Synced(Step(s, e)) <==> !ZeroPriced(e)
  {
    match e
    case Restart(_) => SyncedRecovery(s);
    case Do(c) =>
      if c.Act? {
        SyncedAct(s, c);
      } else {
        SyncedUpdateIff(s, c);
      }
  }

  lemma {:induction false} SyncedRun(s: Slice, events: seq<Event>)
    requires Synced(s) && AllQuiet(events)
    ensures Synced(Run(s, events))
    decreases |events|
  {
    if events != [] {
      SyncedStepIff(s, events[0]);
      SyncedRun(Step(s, events[0]), events[1..]);
    }
  }

  // ---------- crashes ----------

  /** A crash followed by recovery gives back the same slice exactly when the deal in memory, if
      any, is unfinished and the chain has nothing different to say about it. */
  lemma RestartInvisibleIff(s: Slice, chain: Chain)
    requires Synced(s)
    ensures Recover(s, chain) == s <==>
              (s.mem.Some? ==> !Terminal(s.mem.value.phase) && SnapshotAgrees(s.mem.value, chain))
  {
    if s.mem.Some? && !Terminal(s.mem.value.phase) {
      var d := s.mem.value;
      RestoreInvertsPersistIff(d);
      assert Recover(s, chain).mem == Some(Reconcile(d, chain));
      if !SnapshotAgrees(d, chain) && PhaseDiffers(d, ReadSnapshot(d, chain).value) {
        assert |Reconcile(d, chain).history| == |d.history| + 1;
      }
    }
  }

  /** Every restart of the run finds the ticket unfinished. */
  predicate RestartsWhileLive(s: Slice, events: seq<Event>)
    decreases |events|
  {
    events == [] ||
    ((events[0].Restart? ==> !Settled(s)) && RestartsWhileLive(Step(s, events[0]), events[1..]))
  }

  function WithoutRestarts(events: seq<Event>): seq<Event> {
    if events == [] then []
    else (if events[0].Restart? then [] else [events[0]]) + WithoutRestarts(events[1..])
  }

  /** Crash transparency: restarts anywhere in a run, as long as the ticket is unfinished there,
      change neither the answer to any command nor the final memory, row and emitted actions. */
  lemma {:induction false} CrashTransparency(s: Slice, events: seq<Event>)
    requires Synced(s) && AllQuiet(events) && RestartsWhileLive(s, events)
    ensures Run(s, events) == Run(s, WithoutRestarts(events))
    ensures Outcomes(s, events) == Outcomes(s, WithoutRestarts(events))
    decreases |events|
  {
    if events != [] {
      var e, rest := events[0], events[1..];
      SyncedStepIff(s, e);
      CrashTransparency(Step(s, e), rest);
      if e.Restart? {
        RestartInvisibleIff(s, map[]);
        if s.mem.Some? {
          assert SnapshotAgrees(s.mem.value, map[]);
        }
        assert Step(s, e) == s;
        assert WithoutRestarts(events) == WithoutRestarts(rest);
        assert Outcomes(s, events) == [] + Outcomes(s, rest);
      } else {
        assert WithoutRestarts(events) == [e] + WithoutRestarts(rest);
        assert (([e] + WithoutRestarts(rest))[1..]) == WithoutRestarts(rest);
      }
    }
  }

  const ANY_TERMS := Terms(1.0, 1.0, 1.0, None)

  function Create(sender: string): Event {
    Do(Act(CreateEscrow, sender, Some(ANY_TERMS), NoReply, map[], "b", "s"))
  }

  /** The condition is exact: no sequence of later commands tells a restart from none exactly when
      the ticket is not finished in memory. A finished ticket is forgotten, and the next command
      starts it afresh. */
  lemma RestartUnobservableIff(s: Slice)
    requires Synced(s)
    ensures (forall events | AllQuiet(events) :: Outcomes(Recover(s, map[]), events) == Outcomes(s, events))
            <==> !Settled(s)
  {
    RestartInvisibleIff(s, map[]);
    if Settled(s) {
      var r := Recover(s, map[]);
      var events := [Create("x")];
      assert AllQuiet(events);
      assert r.mem.None?;
      assert Apply(r, events[0].command).1 == Moved(EscrowCreated, Some(CreateOnChain));
      assert Apply(s, events[0].command).1 == Rejected;
      assert Outcomes(r, events)[0] == Apply(r, events[0].command).1;
      assert Outcomes(s, events)[0] == Apply(s, events[0].command).1;
    } else if s.mem.Some? {
      assert SnapshotAgrees(s.mem.value, map[]);
    }
  }

  // ---------- many tickets ----------

  datatype GlobalEvent = On(ticket: Ticket, command: Command) | RestartAll(chain: Chain)

  function GlobalStep(w: Ticket -> Slice, e: GlobalEvent): Ticket -> Slice {
    match e
    case On(t, c) => (u: Ticket) => if u == t then Apply(w(u), c).0 else w(u)
    case RestartAll(chain) => (u: Ticket) => Recover(w(u), chain)
  }

  function GlobalRun(w: Ticket -> Slice, events: seq<GlobalEvent>): Ticket -> Slice
    decreases |events|
  {
    if events == [] then w else GlobalRun(GlobalStep(w, events[0]), events[1..])
  }

  /** What an event is to one ticket: an event of its own, or nothing. */
  function Own(e: GlobalEvent, t: Ticket): seq<Event> {
    match e
    case On(u, c) => if u == t then [Do(c)] else []
    case RestartAll(chain) => [Restart(chain)]
  }

  /** The events of a run that concern one ticket. */
  function Project(events: seq<GlobalEvent>, t: Ticket): seq<Event> {
    if events == [] then [] else Own(events[0], t) + Project(events[1..], t)
  }

  /** Any interleaving of many tickets' commands is, for each ticket, a run of its own events. */
  lemma {:induction false} TicketsAreIndependent(w: Ticket -> Slice, events: seq<GlobalEvent>, t: Ticket)
    ensures GlobalRun(w, events)(t) == Run(w(t), Project(events, t))
    decreases |events|
  {
    if events != [] {
      TicketsAreIndependent(GlobalStep(w, events[0]), events[1..], t);
      var own := Own(events[0], t);
      if own != [] {
        assert (own + Project(events[1..], t))[1..] == Project(events[1..], t);
      } else {
        assert own + Project(events[1..], t) == Project(events[1..], t);
      }
    }
  }
}
