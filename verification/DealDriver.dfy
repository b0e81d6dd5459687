/** Whole runs of the manager object: any sequence of commands on any tickets, and restarts. */
module DealDriver {
  import opened Common
  import opened Wrappers
  import opened DealTypes
  import opened DealPhase
  import opened DealRuns
  import opened DealManager

  /** One command, on one ticket. */
  method Dispatch(manager: DealPhaseManager, t: Ticket, c: Command) returns (out: Outcome)
    modifies manager
    ensures (manager.View(t), out) == Apply(old(manager.View(t)), c)
    ensures forall u :: u != t ==> manager.View(u) == old(manager.View(u))
  {
    match c
    case InitDeal(buyer, seller) => out := manager.InitDeal(t, buyer, seller);
    case UpsertTerms(buyer, seller, terms, chain) => out := manager.UpsertNegotiationTerms(t, buyer, seller, terms, chain);
    case SetEscrowPda(pda) => out := manager.SetEscrow(t, pda);
    case Advance => out := manager.AdvanceToAwaitingDeposits(t);
    case RecordDeposit(party) => out := manager.RecordDeposit(t, party);
    case ConfirmPayment => out := manager.ConfirmBuyerPayment(t);
    case Act(action, sender, proposed, reply, dir, healBuyer, healSeller) =>
      out := manager.HandleAction(t, action, sender, proposed, reply, dir, healBuyer, healSeller);
    case SyncTerminal(status, chain) => out := manager.SyncTerminalPhase(t, status, chain);
  }

  lemma RunFrom(s: Slice, own: seq<Event>, rest: seq<Event>)
    requires |own| <= 1
    ensures Run(s, own + rest) == Run(if own == [] then s else Step(s, own[0]), rest)
  {
    if own == [] {
      assert own + rest == rest;
    } else {
      assert (own + rest)[1..] == rest;
    }
  }

  /** Every run of the manager is, for each ticket, the run of that ticket's own events. So what is
      proved of those runs holds of each deal, row and action of the object. */
  method RunEvents(manager: DealPhaseManager, events: seq<GlobalEvent>)
    modifies manager
    ensures forall t :: manager.View(t) == Run(old(manager.View(t)), Project(events, t))
  {
    var i := 0;
    while i < |events|
      invariant 0 <= i <= |events|
      invariant forall t :: Run(manager.View(t), Project(events[i..], t)) == Run(old(manager.View(t)), Project(events, t))
    {
      assert events[i..][0] == events[i] && events[i..][1..] == events[i + 1..];
      forall t: Ticket
        ensures Run(manager.View(t), Project(events[i..], t))
                == Run(if Own(events[i], t) == [] then manager.View(t) else Step(manager.View(t), Own(events[i], t)[0]),
                       Project(events[i + 1..], t))
      {
        RunFrom(manager.View(t), Own(events[i], t), Project(events[i + 1..], t));
      }
      match events[i] {
        case On(t, c) => var _ := Dispatch(manager, t, c);
        case RestartAll(chain) => var _ := manager.RecoverAllDeals(chain);
      }
      i := i + 1;
    }
  }
}
