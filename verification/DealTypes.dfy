/** The records of the deal phase manager: the in-memory deal, its database row, and what a
    handled action reports back. Timestamps and message texts are dropped. */
module DealTypes {
  import opened Common
  import opened Wrappers

  datatype Phase =
    | Negotiation | EscrowCreated | AwaitingDeposits | Delivery | AwaitingRelease
    | Completed | Disputed | Cancelled | Refunded

  datatype Action =
    | CreateEscrow | ReleaseFunds | CancelDeal | Dispute
    | ReportStatus | RespondGeneral | Observe | FractionalSplit

  /** What a recorded transition names as its cause: a brain action, or the program itself. */
  datatype Trigger = Brain(action: Action) | Auto

  datatype Party = Buyer | Seller

  datatype Terms = Terms(price: real, collateralBuyer: real, collateralSeller: real, assetType: Option<string>)

  datatype Transition = Transition(from: Phase, to: Phase, triggeredBy: string, trigger: Trigger)

  datatype Deal = Deal(
    phase: Phase, buyer: string, seller: string, terms: Option<Terms>, escrowPda: Option<string>,
    buyerDeposited: bool, sellerDeposited: bool, paymentLocked: bool, history: seq<Transition>)

  datatype Row = Row(
    phase: Phase, buyer: string, seller: string,
    termsPrice: Option<real>, termsColBuyer: Option<real>, termsColSeller: Option<real>, termsAssetType: Option<string>,
    escrowPda: Option<string>,
    buyerDeposited: bool, sellerDeposited: bool, paymentLocked: bool, history: seq<Transition>)

  /** The ratios of a split, as the buyer's refund and the seller's release. */
  datatype Split = Split(buyerRefundPercent: real, sellerReleasePercent: real)

  datatype OnChain = CreateOnChain | ReleaseOnChain | CancelOnChain | SplitOnChain(split: Split)

  /** An on-chain action handed to the executor, with the phase reported beside it. */
  datatype Emission = Emission(action: OnChain, newPhase: Phase)

  /** What a caller gets back from a command. */
  datatype Outcome =
    | Ignored                                  // null or void
    | Rejected                                 // success: false
    | Moved(newPhase: Phase, onChain: Option<OnChain>)
    | Reported(phase: Phase, terms: Option<Terms>)
    | Returned(deal: Deal)

  predicate Terminal(p: Phase) {
    p == Completed || p == Cancelled || p == Refunded
  }

  /** The address test of the program: null and the empty string both count as missing. */
  predicate HasEscrow(d: Deal) {
    d.escrowPda.Some? && d.escrowPda.value != ""
  }

  function Fresh(buyer: string, seller: string): Deal {
    Deal(Negotiation, buyer, seller, None, None, false, false, false, [])
  }

  function Move(d: Deal, to: Phase, triggeredBy: string, trigger: Trigger): Deal {
    d.(phase := to, history := d.history + [Transition(d.phase, to, triggeredBy, trigger)])
  }

  // ---------- persistence ----------

  function ToRow(d: Deal): Row {
    Row(d.phase, d.buyer, d.seller,
        if d.terms.Some? then Some(d.terms.value.price) else None,
        if d.terms.Some? then Some(d.terms.value.collateralBuyer) else None,
        if d.terms.Some? then Some(d.terms.value.collateralSeller) else None,
        if d.terms.Some? then d.terms.value.assetType else None,
        d.escrowPda, d.buyerDeposited, d.sellerDeposited, d.paymentLocked, d.history)
  }

  /** A null column reads as the number zero. */
  function NumberOf(column: Option<real>): real {
    if column.Some? then column.value else 0.0
  }

  /** Terms come back only when the price column is truthy: a stored price of zero restores as no terms. */
  function FromRow(r: Row): Deal {
    Deal(r.phase, r.buyer, r.seller,
         if r.termsPrice.Some? && r.termsPrice.value != 0.0
         then Some(Terms(r.termsPrice.value, NumberOf(r.termsColBuyer), NumberOf(r.termsColSeller), r.termsAssetType))
         else None,
         r.escrowPda, r.buyerDeposited, r.sellerDeposited, r.paymentLocked, r.history)
  }

  predicate Priced(d: Deal) {
    d.terms.Some? ==> d.terms.value.price != 0.0
  }

  /** Restoring inverts persisting exactly for deals whose terms, if any, have a nonzero price. */
  lemma RestoreInvertsPersistIff(d: Deal)
    ensures FromRow(ToRow(d)) == d <==> Priced(d)
  {
    if d.terms.Some? && d.terms.value.price != 0.0 {
      assert FromRow(ToRow(d)).terms.value == d.terms.value;
    }
  }
}
