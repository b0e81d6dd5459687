/** The deal phase manager as the program runs it: an in-memory map, a table of rows, and fields
    updated one after another with a write to the table at each point where the program makes one.
    Every command is proved to have the effect that module DealPhase gives it on its own ticket,
    and none on any other ticket. */
module DealManager {
  import opened Common
  import opened Wrappers
  import opened DealTypes
  import opened AiJudge
  import opened DealPhase

  class DealPhaseManager {
    var deals: map<Ticket, Deal>
    var rows: map<Ticket, Row>
    /** The on-chain actions handed out so far, by ticket. */
    ghost var emitted: map<Ticket, seq<Emission>>

    ghost function View(t: Ticket): Slice
      reads this
    {
      Slice(if t in deals then Some(deals[t]) else None,
            if t in rows then Some(rows[t]) else None,
            if t in emitted then emitted[t] else [])
    }

    constructor ()
      ensures forall t :: View(t) == EMPTY
    {
      deals, rows, emitted := map[], map[], map[];
    }

    // ---------- building blocks ----------

    method PersistDeal(t: Ticket)
      requires t in deals
      modifies this`rows
      ensures View(t) == old(View(t)).(row := Some(ToRow(deals[t])))
      ensures forall u :: u != t ==> View(u) == old(View(u))
    {
      rows := rows[t := ToRow(deals[t])];
    }

    method TransitionTo(t: Ticket, newPhase: Phase, triggeredBy: string, trigger: Trigger)
      requires t in deals
      modifies this`deals, this`rows
      ensures View(t) == Put(old(View(t)), Move(old(deals[t]), newPhase, triggeredBy, trigger))
      ensures t in deals && deals[t] == Move(old(deals[t]), newPhase, triggeredBy, trigger)
      ensures forall u :: u != t ==> View(u) == old(View(u))
    {
      var from := deals[t].phase;
      deals := deals[t := deals[t].(phase := newPhase)];
      deals := deals[t := deals[t].(history := deals[t].history + [Transition(from, newPhase, triggeredBy, trigger)])];
      PersistDeal(t);
    }

    /** The in-memory lock alone: no write to the table. */
    method LockPayment(t: Ticket)
      requires t in deals
      modifies this`deals
      ensures t in deals && deals[t] == old(deals[t]).(paymentLocked := true)
      ensures View(t) == old(View(t)).(mem := Some(deals[t]))
      ensures forall u :: u != t ==> View(u) == old(View(u))
    {
      deals := deals[t := deals[t].(paymentLocked := true)];
    }

    ghost method RecordEmission(t: Ticket, action: OnChain, newPhase: Phase)
      modifies this`emitted
      ensures View(t) == Emit(old(View(t)), action, newPhase).0
      ensures forall u :: u != t ==> View(u) == old(View(u))
    {
      emitted := emitted[t := (if t in emitted then emitted[t] else []) + [Emission(action, newPhase)]];
    }

    method TakeFlags(t: Ticket, s: Snapshot)
      requires t in deals
      modifies this`deals
      ensures t in deals && deals[t] == WithFlags(old(deals[t]), s)
      ensures View(t) == old(View(t)).(mem := Some(deals[t]))
      ensures forall u :: u != t ==> View(u) == old(View(u))
    {
      deals := deals[t := deals[t].(buyerDeposited := s.buyerDeposited)];
      deals := deals[t := deals[t].(sellerDeposited := s.sellerDeposited)];
      deals := deals[t := deals[t].(paymentLocked := s.paymentLocked)];
    }

    method ReconcileDealWithChain(t: Ticket, chain: Chain)
      requires t in deals
      modifies this`deals, this`rows
      ensures var d := old(deals[t]);
              View(t) == old(View(t)).(
                mem := Some(Reconcile(d, chain)),
                row := if SnapshotAgrees(d, chain) then old(View(t)).row else Some(ToRow(Reconcile(d, chain))))
      ensures forall u :: u != t ==> View(u) == old(View(u))
    {
      var snapshot := ReadSnapshot(deals[t], chain);
      if snapshot.None? {
        return;
      }
      var s := snapshot.value;
      var phaseChanged := PhaseDiffers(deals[t], s);
      var flagsChanged := FlagsDiffer(deals[t], s);
      TakeFlags(t, s);
      if phaseChanged {
        TransitionTo(t, s.phase.value, "on_chain_reconcile", Auto);
      }
      if phaseChanged || flagsChanged {
        PersistDeal(t);
      }
    }

    method GetDealWithFallback(t: Ticket, chain: Chain) returns (found: bool)
      modifies this`deals, this`rows
      ensures View(t) == WithFallback(old(View(t)), chain)
      ensures found == (t in deals)
      ensures forall u :: u != t ==> View(u) == old(View(u))
    {
      if t in deals {
        return true;
      }
      if t !in rows {
        return false;
      }
      LoadOne(t, chain);
      return true;
    }

    // ---------- commands ----------

    method InitDeal(t: Ticket, buyer: string, seller: string) returns (out: Outcome)
      modifies this`deals, this`rows
      ensures (View(t), out) == Apply(old(View(t)), Command.InitDeal(buyer, seller))
      ensures forall u :: u != t ==> View(u) == old(View(u))
    {
      deals := deals[t := Fresh(buyer, seller)];
      PersistDeal(t);
      out := Returned(deals[t]);
    }

    method UpsertNegotiationTerms(t: Ticket, buyer: string, seller: string, terms: Terms, chain: Chain) returns (out: Outcome)
      modifies this`deals, this`rows
      ensures (View(t), out) == Apply(old(View(t)), UpsertTerms(buyer, seller, terms, chain))
      ensures forall u :: u != t ==> View(u) == old(View(u))
    {
      var found := GetDealWithFallback(t, chain);
      if !found {
        var _ := InitDeal(t, buyer, seller);
      }
      SetTerms(t, buyer, seller, terms);
      PersistDeal(t);
      out := Returned(deals[t]);
    }

    method SetTerms(t: Ticket, buyer: string, seller: string, terms: Terms)
      requires t in deals
      modifies this`deals
      ensures t in deals && deals[t] == FillTerms(old(deals[t]), buyer, seller, terms)
      ensures View(t) == old(View(t)).(mem := Some(deals[t]))
      ensures forall u :: u != t ==> View(u) == old(View(u))
    {
      deals := deals[t := deals[t].(buyer := OrElse(deals[t].buyer, buyer))];
      deals := deals[t := deals[t].(seller := OrElse(deals[t].seller, seller))];
      deals := deals[t := deals[t].(terms := Some(terms))];
    }

    method SetEscrow(t: Ticket, pda: string) returns (out: Outcome)
      modifies this`deals, this`rows
      ensures (View(t), out) == Apply(old(View(t)), SetEscrowPda(pda))
      ensures forall u :: u != t ==> View(u) == old(View(u))
    {
      if t in deals {
        deals := deals[t := deals[t].(escrowPda := Some(pda))];
        PersistDeal(t);
      }
      out := Ignored;
    }

    method AdvanceToAwaitingDeposits(t: Ticket) returns (out: Outcome)
      modifies this`deals, this`rows
      ensures (View(t), out) == Apply(old(View(t)), Advance)
      ensures forall u :: u != t ==> View(u) == old(View(u))
    {
      if t !in deals || deals[t].phase != EscrowCreated {
        return Ignored;
      }
      if deals[t].terms.None? {
        return Ignored;
      }
      if !HasEscrow(deals[t]) {
        return Rejected;
      }
      TransitionTo(t, AwaitingDeposits, "system", Auto);
      out := Moved(AwaitingDeposits, None);
    }

    method SetDeposited(t: Ticket, party: Party)
      requires t in deals
      modifies this`deals
      ensures t in deals && deals[t] == Flag(old(deals[t]), party)
      ensures View(t) == old(View(t)).(mem := Some(deals[t]))
      ensures forall u :: u != t ==> View(u) == old(View(u))
    {
      if party == Buyer {
        deals := deals[t := deals[t].(buyerDeposited := true)];
      } else {
        deals := deals[t := deals[t].(sellerDeposited := true)];
      }
    }

    method RecordDeposit(t: Ticket, party: Party) returns (out: Outcome)
      modifies this`deals, this`rows
      ensures (View(t), out) == Apply(old(View(t)), Command.RecordDeposit(party))
      ensures forall u :: u != t ==> View(u) == old(View(u))
    {
      if t !in deals {
        return Ignored;
      }
      if !HasEscrow(deals[t]) {
        return Rejected;
      }
      if deals[t].phase != AwaitingDeposits && deals[t].phase != Delivery {
        return Rejected;
      }
      if (party == Buyer && deals[t].buyerDeposited) || (party == Seller && deals[t].sellerDeposited) {
        if deals[t].buyerDeposited && deals[t].sellerDeposited && deals[t].phase != Delivery {
          LockPayment(t);
          TransitionTo(t, Delivery, "system", Auto);
          PersistDeal(t);
        }
        return Ignored;
      }
      SetDeposited(t, party);
      PersistDeal(t);
      if deals[t].buyerDeposited && deals[t].sellerDeposited {
        LockPayment(t);
        if deals[t].phase != Delivery {
          TransitionTo(t, Delivery, "system", Auto);
        }
        return Moved(Delivery, None);
      }
      out := Ignored;
    }

    /** The buyer_payment branch of the deposit handler, which edits the deal it got from the manager. */
    method ConfirmBuyerPayment(t: Ticket) returns (out: Outcome)
      modifies this`deals, this`rows
      ensures (View(t), out) == Apply(old(View(t)), ConfirmPayment)
      ensures forall u :: u != t ==> View(u) == old(View(u))
    {
      if t in deals {
        LockPayment(t);
        PersistDeal(t);
        if deals[t].phase == AwaitingDeposits {
          TransitionTo(t, Delivery, "system", Auto);
        }
      }
      out := Ignored;
    }

    method SyncTerminalPhase(t: Ticket, status: string, chain: Chain) returns (out: Outcome)
      modifies this`deals, this`rows
      ensures (View(t), out) == Apply(old(View(t)), SyncTerminal(status, chain))
      ensures forall u :: u != t ==> View(u) == old(View(u))
    {
      out := Ignored;
      var target := SyncTarget(status);
      if target.None? {
        return;
      }
      var found := GetDealWithFallback(t, chain);
      if found {
        ForcePhase(t, target.value);
      }
    }

    method ForcePhase(t: Ticket, target: Phase)
      requires t in deals
      modifies this`deals, this`rows
      ensures View(t) == Put(old(View(t)), Force(old(deals[t]), target))
      ensures forall u :: u != t ==> View(u) == old(View(u))
    {
      if target == Completed || target == Cancelled || target == Refunded {
        deals := deals[t := deals[t].(paymentLocked := false)];
      }
      if deals[t].phase == target {
        PersistDeal(t);
        return;
      }
      TransitionTo(t, target, "system", Auto);
    }

    method HandleCreateEscrow(t: Ticket, sender: string, proposed: Option<Terms>) returns (out: Outcome)
      requires t in deals
      modifies this
      ensures (View(t), out) == DoCreateEscrow(old(View(t)), old(deals[t]), sender, proposed)
      ensures forall u :: u != t ==> View(u) == old(View(u))
    {
      if deals[t].phase != Negotiation {
        return Rejected;
      }
      if !CompleteTerms(proposed) {
        return Rejected;
      }
      deals := deals[t := deals[t].(terms := proposed)];
      TransitionTo(t, EscrowCreated, sender, Brain(CreateEscrow));
      RecordEmission(t, CreateOnChain, EscrowCreated);
      out := Moved(EscrowCreated, Some(CreateOnChain));
    }

    method HandleReleaseFunds(t: Ticket, sender: string, dir: Directory) returns (out: Outcome)
      requires t in deals
      modifies this
      ensures (View(t), out) == DoRelease(old(View(t)), old(deals[t]), sender, dir)
      ensures forall u :: u != t ==> View(u) == old(View(u))
    {
      var deal := deals[t];
      if deal.phase != Delivery && deal.phase != AwaitingRelease {
        return Rejected;
      }
      if !IdentitiesMatch(dir, sender, deal.buyer) {
        return Rejected;
      }
      if deal.terms.None? {
        return Rejected;
      }
      if !deal.buyerDeposited || !deal.sellerDeposited || !deal.paymentLocked {
        return Rejected;
      }
      if deal.phase != AwaitingRelease {
        TransitionTo(t, AwaitingRelease, sender, Brain(ReleaseFunds));
      }
      RecordEmission(t, ReleaseOnChain, AwaitingRelease);
      out := Moved(AwaitingRelease, Some(ReleaseOnChain));
    }

    method HandleDispute(t: Ticket, sender: string, reply: ModelReply) returns (out: Outcome)
      requires t in deals
      modifies this
      ensures (View(t), out) == DoDispute(old(View(t)), old(deals[t]), sender, reply)
      ensures forall u :: u != t ==> View(u) == old(View(u))
    {
      var phase := deals[t].phase;
      if phase == Negotiation || phase == Completed || phase == Cancelled || phase == Refunded {
        return Rejected;
      }
      TransitionTo(t, Disputed, sender, Brain(Dispute));
      var ruling := Adjudicate(deals[t].terms, reply);
      if ruling.verdict == CancelVerdict {
        TransitionTo(t, Cancelled, "ai_judge", Brain(CancelDeal));
        RecordEmission(t, CancelOnChain, Cancelled);
        return Moved(Cancelled, Some(CancelOnChain));
      } else if ruling.verdict == SplitVerdict {
        TransitionTo(t, Completed, "ai_judge", Brain(FractionalSplit));
        RecordEmission(t, SplitOnChain(ruling.split.value), Completed);
        return Moved(Completed, Some(SplitOnChain(ruling.split.value)));
      } else {
        TransitionTo(t, Completed, "ai_judge", Brain(ReleaseFunds));
        RecordEmission(t, ReleaseOnChain, Completed);
        return Moved(Completed, Some(ReleaseOnChain));
      }
    }

    method HandleCancel(t: Ticket, sender: string) returns (out: Outcome)
      requires t in deals
      modifies this
      ensures (View(t), out) == DoCancel(old(View(t)), old(deals[t]), sender)
      ensures forall u :: u != t ==> View(u) == old(View(u))
    {
      var previousPhase := deals[t].phase;
      if Terminal(previousPhase) {
        return Rejected;
      }
      TransitionTo(t, Cancelled, sender, Brain(CancelDeal));
      if previousPhase == Negotiation {
        return Moved(Cancelled, None);
      }
      RecordEmission(t, CancelOnChain, Cancelled);
      out := Moved(Cancelled, Some(CancelOnChain));
    }

    method HandleAction(t: Ticket, action: Action, sender: string, proposed: Option<Terms>, reply: ModelReply,
                        dir: Directory, healBuyer: string, healSeller: string) returns (out: Outcome)
      modifies this
      ensures (View(t), out) == Apply(old(View(t)), Act(action, sender, proposed, reply, dir, healBuyer, healSeller))
      ensures forall u :: u != t ==> View(u) == old(View(u))
    {
      if t !in deals {
        var _ := InitDeal(t, healBuyer, healSeller);
      }
      match action
      case CreateEscrow => out := HandleCreateEscrow(t, sender, proposed);
      case ReleaseFunds => out := HandleReleaseFunds(t, sender, dir);
      case CancelDeal => out := HandleCancel(t, sender);
      case Dispute => out := HandleDispute(t, sender, reply);
      case _ => out := Reported(deals[t].phase, deals[t].terms);
    }

    method LoadOne(t: Ticket, chain: Chain)
      requires t in rows
      modifies this`deals, this`rows
      ensures View(t) == LoadRow(old(View(t)), chain)
      ensures forall u :: u != t ==> View(u) == old(View(u))
    {
      deals := deals[t := FromRow(rows[t])];
      ReconcileDealWithChain(t, chain);
    }

    /** A new process starts with no deals and loads every row in a live phase, one after another. */
    method RecoverAllDeals(chain: Chain) returns (count: nat)
      modifies this`deals, this`rows
      ensures forall t :: View(t) == Recover(old(View(t)), chain)
      ensures count == |set t | t in old(rows) && !Terminal(old(rows)[t].phase)|
    {
      deals := map[];
      var live := set t | t in rows && !Terminal(rows[t].phase);
      count := |live|;
      var todo := live;
      while todo != {}
        invariant todo <= live
        invariant forall t :: View(t) == if t in todo then old(View(t)).(mem := None) else Recover(old(View(t)), chain)
        decreases |todo|
      {
        var t :| t in todo;
        LoadOne(t, chain);
        todo := todo - {t};
      }
    }
  }
}
