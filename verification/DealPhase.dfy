/** The deal life cycle seen by one ticket: what is in memory, what is in the database row, and
    which on-chain actions were handed out. Commands on other tickets do not touch a ticket's slice. */
module DealPhase {
  import opened Common
  import opened Wrappers
  import opened DealTypes
  import opened AiJudge

  datatype Slice = Slice(mem: Option<Deal>, row: Option<Row>, emitted: seq<Emission>)

  const EMPTY := Slice(None, None, [])

  // ---------- the chain, as read during recovery ----------

  datatype ChainStatus =
    | ChainCreated | ChainCollateralLocked | ChainPaymentLocked
    | ChainCompleted | ChainRefunded | ChainCancelled | ChainOther

  datatype ChainAccount = ChainAccount(status: ChainStatus, buyerLocked: bool, sellerLocked: bool, paymentLocked: bool)

  /** The accounts the chain can serve at one moment, by address. An absent address is a failed read. */
  type Chain = map<string, ChainAccount>

  datatype Snapshot = Snapshot(phase: Option<Phase>, buyerDeposited: bool, sellerDeposited: bool, paymentLocked: bool)

  function ChainPhase(status: ChainStatus): Option<Phase> {
    match status
    case ChainCreated => Some(EscrowCreated)
    case ChainCollateralLocked => Some(Delivery)
    case ChainPaymentLocked => Some(Delivery)
    case ChainCompleted => Some(Completed)
    case ChainRefunded => Some(Refunded)
    case ChainCancelled => Some(Cancelled)
    case ChainOther => None
  }

  /** The chain has an account for the deal's address. */
  predicate Served(d: Deal, chain: Chain) {
    HasEscrow(d) && d.escrowPda.value in chain
  }

  function Account(d: Deal, chain: Chain): ChainAccount
    requires Served(d, chain)
  {
    chain[d.escrowPda.value]
  }

  /** The phase the account names, if it names one. */
  function PhaseAfter(d: Deal, chain: Chain): Phase {
    if Served(d, chain) && ChainPhase(Account(d, chain).status).Some?
    then ChainPhase(Account(d, chain).status).value
    else d.phase
  }

  function ReadSnapshot(d: Deal, chain: Chain): Option<Snapshot> {
    if !Served(d, chain) then
      None
    else
      var account := Account(d, chain);
      var over := account.status in {ChainCompleted, ChainRefunded, ChainCancelled};
      Some(Snapshot(ChainPhase(account.status), account.buyerLocked, account.sellerLocked,
                    !over && account.paymentLocked))
  }

  predicate PhaseDiffers(d: Deal, s: Snapshot) {
    s.phase.Some? && s.phase.value != d.phase
  }

  predicate FlagsDiffer(d: Deal, s: Snapshot) {
    d.buyerDeposited != s.buyerDeposited || d.sellerDeposited != s.sellerDeposited || d.paymentLocked != s.paymentLocked
  }

  predicate SnapshotAgrees(d: Deal, chain: Chain) {
    var s := ReadSnapshot(d, chain);
    s.Some? ==> !PhaseDiffers(d, s.value) && !FlagsDiffer(d, s.value)
  }

  function WithFlags(d: Deal, s: Snapshot): Deal {
    d.(buyerDeposited := s.buyerDeposited, sellerDeposited := s.sellerDeposited, paymentLocked := s.paymentLocked)
  }

  /** The chain is authoritative: flags and phase follow the snapshot. */
  function Reconcile(d: Deal, chain: Chain): Deal {
    match ReadSnapshot(d, chain)
    case None => d
    case Some(s) =>
      if PhaseDiffers(d, s) then Move(WithFlags(d, s), s.phase.value, "on_chain_reconcile", Auto) else WithFlags(d, s)
  }

  /** Rebuild the deal from its row. The row is rewritten only when the chain disagreed. */
  function LoadRow(s: Slice, chain: Chain): Slice
    requires s.row.Some?
  {
    var restored := FromRow(s.row.value);
    var d := Reconcile(restored, chain);
    s.(mem := Some(d), row := if SnapshotAgrees(restored, chain) then s.row else Some(ToRow(d)))
  }

  function WithFallback(s: Slice, chain: Chain): Slice {
    if s.mem.None? && s.row.Some? then LoadRow(s, chain) else s
  }

  // ---------- wallet identities ----------

  /** Wallets of registered agents, by agent id. */
  type Directory = map<string, string>

  function ResolveWallet(dir: Directory, identity: string): string {
    if identity in dir && dir[identity] != "" then dir[identity] else identity
  }

  predicate IdentitiesMatch(dir: Directory, left: string, right: string) {
    left == right || ResolveWallet(dir, left) == ResolveWallet(dir, right)
  }

  // ---------- commands ----------

  datatype Command =
    | InitDeal(buyer: string, seller: string)
    | UpsertTerms(buyer: string, seller: string, terms: Terms, chain: Chain)
    | SetEscrowPda(pda: string)
    | Advance
    | RecordDeposit(party: Party)
    | ConfirmPayment
    | Act(action: Action, sender: string, proposed: Option<Terms>, reply: ModelReply, dir: Directory,
          healBuyer: string, healSeller: string)
    | SyncTerminal(status: string, chain: Chain)

  function Put(s: Slice, d: Deal): Slice {
    s.(mem := Some(d), row := Some(ToRow(d)))
  }

  function Emit(s: Slice, action: OnChain, newPhase: Phase): (Slice, Outcome) {
    (s.(emitted := s.emitted + [Emission(action, newPhase)]), Moved(newPhase, Some(action)))
  }

  function OrElse(name: string, default: string): string {
    if name != "" then name else default
  }

  function SyncTarget(status: string): Option<Phase> {
    if status in {"settled", "completed", "confidential_completed"} then Some(Completed)
    else if status == "cancelled" then Some(Cancelled)
    else if status == "refunded" then Some(Refunded)
    else if status in {"disputed", "failed"} then Some(Disputed)
    else None
  }

  predicate CompleteTerms(t: Option<Terms>) {
    t.Some? && t.value.price != 0.0 && t.value.collateralBuyer != 0.0 && t.value.collateralSeller != 0.0
  }

  function FillTerms(d: Deal, buyer: string, seller: string, terms: Terms): Deal {
    d.(buyer := OrElse(d.buyer, buyer), seller := OrElse(d.seller, seller), terms := Some(terms))
  }

  function DoUpsert(s: Slice, buyer: string, seller: string, terms: Terms, chain: Chain): (Slice, Outcome) {
    var s1 := WithFallback(s, chain);
    var d := FillTerms(if s1.mem.Some? then s1.mem.value else Fresh(buyer, seller), buyer, seller, terms);
    (Put(s1, d), Returned(d))
  }

  function DoAdvance(s: Slice): (Slice, Outcome) {
    if s.mem.None? || s.mem.value.phase != EscrowCreated || s.mem.value.terms.None? then
      (s, Ignored)
    else if !HasEscrow(s.mem.value) then
      (s, Rejected)
    else
      (Put(s, Move(s.mem.value, AwaitingDeposits, "system", Auto)), Moved(AwaitingDeposits, None))
  }

  function Flag(d: Deal, party: Party): Deal {
    if party == Buyer then d.(buyerDeposited := true) else d.(sellerDeposited := true)
  }

  predicate Both(d: Deal) {
    d.buyerDeposited && d.sellerDeposited
  }

  function DoDeposit(s: Slice, party: Party): (Slice, Outcome) {
    if s.mem.None? then
      (s, Ignored)
    else
      var d := s.mem.value;
      if !HasEscrow(d) || (d.phase != AwaitingDeposits && d.phase != Delivery) then
        (s, Rejected)
      else if Flag(d, party) == d then
        if Both(d) && d.phase != Delivery
        then (Put(s, Move(d.(paymentLocked := true), Delivery, "system", Auto)), Ignored)
        else (s, Ignored)
      else
        var flagged := Flag(d, party);
        if !Both(flagged) then
          (Put(s, flagged), Ignored)
        else if flagged.phase != Delivery then
          (Put(s, Move(flagged.(paymentLocked := true), Delivery, "system", Auto)), Moved(Delivery, None))
        else
          // the lock set here is not persisted: the row keeps the value from before
          (s.(mem := Some(flagged.(paymentLocked := true)), row := Some(ToRow(flagged))), Moved(Delivery, None))
  }

  function DoConfirmPayment(s: Slice): (Slice, Outcome) {
    if s.mem.None? then
      (s, Ignored)
    else
      var d := s.mem.value.(paymentLocked := true);
      (Put(s, if d.phase == AwaitingDeposits then Move(d, Delivery, "system", Auto) else d), Ignored)
  }

  /** Terminal phases unlock the payment. */
  function Force(d: Deal, target: Phase): Deal {
    var unlocked := if Terminal(target) then d.(paymentLocked := false) else d;
    if d.phase == target then unlocked else Move(unlocked, target, "system", Auto)
  }

  function DoSync(s: Slice, status: string, chain: Chain): (Slice, Outcome) {
    var target := SyncTarget(status);
    var s1 := if target.Some? then WithFallback(s, chain) else s;
    (if target.Some? && s1.mem.Some? then Put(s1, Force(s1.mem.value, target.value)) else s1, Ignored)
  }

  function DoCreateEscrow(s: Slice, d: Deal, sender: string, proposed: Option<Terms>): (Slice, Outcome) {
    if d.phase != Negotiation || !CompleteTerms(proposed) then
      (s, Rejected)
    else
      Emit(Put(s, Move(d.(terms := proposed), EscrowCreated, sender, Brain(CreateEscrow))), CreateOnChain, EscrowCreated)
  }

  function DoRelease(s: Slice, d: Deal, sender: string, dir: Directory): (Slice, Outcome) {
    if (d.phase != Delivery && d.phase != AwaitingRelease) || !IdentitiesMatch(dir, sender, d.buyer)
       || d.terms.None? || !Both(d) || !d.paymentLocked then
      (s, Rejected)
    else
      Emit(if d.phase == AwaitingRelease then s else Put(s, Move(d, AwaitingRelease, sender, Brain(ReleaseFunds))),
           ReleaseOnChain, AwaitingRelease)
  }

  predicate Disputable(p: Phase) {
    p != Negotiation && !Terminal(p)
  }

  function DoDispute(s: Slice, d: Deal, sender: string, reply: ModelReply): (Slice, Outcome) {
    if !Disputable(d.phase) then
      (s, Rejected)
    else
      var disputed := Move(d, Disputed, sender, Brain(Dispute));
      var ruling := Adjudicate(d.terms, reply);
      match ruling.verdict
      case CancelVerdict =>
        Emit(Put(s, Move(disputed, Cancelled, "ai_judge", Brain(CancelDeal))), CancelOnChain, Cancelled)
      case SplitVerdict =>
        Emit(Put(s, Move(disputed, Completed, "ai_judge", Brain(FractionalSplit))), SplitOnChain(ruling.split.value), Completed)
      case _ =>
        Emit(Put(s, Move(disputed, Completed, "ai_judge", Brain(ReleaseFunds))), ReleaseOnChain, Completed)
  }

  function DoCancel(s: Slice, d: Deal, sender: string): (Slice, Outcome) {
    if Terminal(d.phase) then
      (s, Rejected)
    else
      var s1 := Put(s, Move(d, Cancelled, sender, Brain(CancelDeal)));
      if d.phase == Negotiation then (s1, Moved(Cancelled, None)) else Emit(s1, CancelOnChain, Cancelled)
  }

  /** A deal that is not in memory is initialised afresh, without looking at the database. */
  function SelfHeal(s: Slice, healBuyer: string, healSeller: string): Slice {
    if s.mem.None? then Put(s, Fresh(healBuyer, healSeller)) else s
  }

  function DoAct(s: Slice, c: Command): (Slice, Outcome)
    requires c.Act?
  {
    var s1 := SelfHeal(s, c.healBuyer, c.healSeller);
    var d := s1.mem.value;
    match c.action
    case CreateEscrow => DoCreateEscrow(s1, d, c.sender, c.proposed)
    case ReleaseFunds => DoRelease(s1, d, c.sender, c.dir)
    case CancelDeal => DoCancel(s1, d, c.sender)
    case Dispute => DoDispute(s1, d, c.sender, c.reply)
    case _ => (s1, Reported(d.phase, d.terms))
  }

  function Apply(s: Slice, c: Command): (Slice, Outcome) {
    match c
    case InitDeal(buyer, seller) => (Put(s, Fresh(buyer, seller)), Returned(Fresh(buyer, seller)))
    case UpsertTerms(buyer, seller, terms, chain) => DoUpsert(s, buyer, seller, terms, chain)
    case SetEscrowPda(pda) => (if s.mem.Some? then Put(s, s.mem.value.(escrowPda := Some(pda))) else s, Ignored)
    case Advance => DoAdvance(s)
    case RecordDeposit(party) => DoDeposit(s, party)
    case ConfirmPayment => DoConfirmPayment(s)
    case Act(_, _, _, _, _, _, _) => DoAct(s, c)
    case SyncTerminal(status, chain) => DoSync(s, status, chain)
  }

  /** A crash and the start-up recovery after it: memory is lost, and rows in a live phase are loaded. */
  function Recover(s: Slice, chain: Chain): Slice {
    if s.row.Some? && !Terminal(s.row.value.phase) then LoadRow(s, chain) else s.(mem := None)
  }

  // ---------- runs ----------

  datatype Event = Do(command: Command) | Restart(chain: Chain)

  function Step(s: Slice, e: Event): Slice {
    match e
    case Do(c) => Apply(s, c).0
    case Restart(chain) => Recover(s, chain)
  }

  function Run(s: Slice, events: seq<Event>): Slice
    decreases |events|
  {
    if events == [] then s else Run(Step(s, events[0]), events[1..])
  }

  /** The answers to the commands of a run, in order. Restarts answer nothing. */
  function Outcomes(s: Slice, events: seq<Event>): seq<Outcome>
    decreases |events|
  {
    if events == [] then []
    else (if events[0].Do? then [Apply(s, events[0].command).1] else []) + Outcomes(Step(s, events[0]), events[1..])
  }
}
