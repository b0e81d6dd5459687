/** Confirmed deposit events may be duplicated and may arrive in any order. This module gives the
    deal they lead to in closed form, from the set of kinds that occur and nothing else. */
module DepositConfluence {
  import opened Common
  import opened Wrappers
  import opened DealTypes
  import opened DealPhase
  import opened DealRuns

  datatype Deposit = BuyerCollateral | SellerCollateral | BuyerPayment

  /** The command a confirmed deposit leads to. */
  function CommandOf(k: Deposit): Command {
    match k
    case BuyerCollateral => RecordDeposit(Buyer)
    case SellerCollateral => RecordDeposit(Seller)
    case BuyerPayment => ConfirmPayment
  }

  function Confirm(s: Slice, kinds: seq<Deposit>): Slice
    decreases |kinds|
  {
    if kinds == [] then s else Confirm(Apply(s, CommandOf(kinds[0])).0, kinds[1..])
  }

  function Kinds(kinds: seq<Deposit>): set<Deposit> {
    set k | k in kinds
  }

  // ---------- the closed form ----------

  predicate BuyerIn(d: Deal, kinds: set<Deposit>) {
    d.buyerDeposited || BuyerCollateral in kinds
  }

  predicate SellerIn(d: Deal, kinds: set<Deposit>) {
    d.sellerDeposited || SellerCollateral in kinds
  }

  /** The deposits are enough to leave awaiting_deposits: a payment, or both collaterals on record
      with at least one collateral event to notice it. */
  predicate Enough(d: Deal, kinds: set<Deposit>) {
    BuyerPayment in kinds ||
    (BuyerIn(d, kinds) && SellerIn(d, kinds) && (BuyerCollateral in kinds || SellerCollateral in kinds))
  }

  function Final(d: Deal, kinds: set<Deposit>): Deal {
    var flagged := d.(buyerDeposited := BuyerIn(d, kinds), sellerDeposited := SellerIn(d, kinds));
    if !Enough(d, kinds) then flagged
    else
      var locked := flagged.(paymentLocked := true);
      if d.phase == AwaitingDeposits then Move(locked, Delivery, "system", Auto) else locked
  }

  predicate Depositable(d: Deal) {
    HasEscrow(d) && (d.phase == AwaitingDeposits || (d.phase == Delivery && d.paymentLocked))
  }

  lemma FinalAfter(d: Deal, k: Deposit, rest: set<Deposit>)
    requires Depositable(d)
    ensures Depositable(Final(d, {k}))
    ensures Final(Final(d, {k}), rest) == Final(d, {k} + rest)
  {
  }

  lemma ConfirmOne(s: Slice, k: Deposit)
    requires InSync(s) && s.mem.Some? && Depositable(s.mem.value)
    ensures Apply(s, CommandOf(k)).0 == Put(s, Final(s.mem.value, {k}))
  {
    var d := s.mem.value;
    if k == BuyerCollateral && d.buyerDeposited && !d.sellerDeposited {
      assert Final(d, {k}) == d;
    }
  }

  /** Every sequence of confirmed deposits, from awaiting_deposits or from delivery, leads to the
      closed form of its set of kinds, and the row follows. */
  lemma {:induction false} ConfirmIsFinal(s: Slice, kinds: seq<Deposit>)
    requires InSync(s) && s.mem.Some? && Depositable(s.mem.value)
    ensures Confirm(s, kinds) == Put(s, Final(s.mem.value, Kinds(kinds)))
    decreases |kinds|
  {
    var d := s.mem.value;
    if kinds == [] {
      assert Kinds(kinds) == {};
    } else {
      var k, rest := kinds[0], kinds[1..];
      ConfirmOne(s, k);
      FinalAfter(d, k, Kinds(rest));
      ConfirmIsFinal(Put(s, Final(d, {k})), rest);
      assert Kinds(kinds) == {k} + Kinds(rest) by {
        assert kinds == [k] + rest;
      }
    }
  }

  /** Confluence: order and duplicates do not matter. */
  lemma DepositsConfluent(s: Slice, first: seq<Deposit>, second: seq<Deposit>)
    requires InSync(s) && s.mem.Some? && Depositable(s.mem.value)
    requires Kinds(first) == Kinds(second)
    ensures Confirm(s, first) == Confirm(s, second)
  {
    ConfirmIsFinal(s, first);
    ConfirmIsFinal(s, second);
  }

  /** With each kind at least once a deal awaiting deposits ends in delivery, with all three flags
      set and exactly one transition recorded; and it leaves awaiting_deposits exactly when the
      events are enough. */
  lemma DepositsReachDeliveryIff(s: Slice, kinds: seq<Deposit>)
    requires InSync(s) && s.mem.Some? && HasEscrow(s.mem.value) && s.mem.value.phase == AwaitingDeposits
    ensures Confirm(s, kinds).mem.Some?
    ensures var d, d' := s.mem.value, Confirm(s, kinds).mem.value;
            && (d'.phase == Delivery <==> Enough(d, Kinds(kinds)))
            && d'.history == d.history + (if Enough(d, Kinds(kinds)) then [Transition(AwaitingDeposits, Delivery, "system", Auto)] else [])
    ensures Kinds(kinds) == {BuyerCollateral, SellerCollateral, BuyerPayment} ==>
              var d' := Confirm(s, kinds).mem.value;
              d'.phase == Delivery && d'.buyerDeposited && d'.sellerDeposited && d'.paymentLocked
              && |d'.history| == |s.mem.value.history| + 1
  {
    ConfirmIsFinal(s, kinds);
  }
}
