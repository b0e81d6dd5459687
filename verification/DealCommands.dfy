/** What each command answers and does, told in a deal's own fields: when it is accepted, by whom,
    and what is on record afterwards. */
module DealCommands {
  import opened Common
  import opened Wrappers
  import opened DealTypes
  import opened AiJudge
  import opened DealPhase

  /** Nothing happened. */
  predicate Refused(s: Slice, c: Command) {
    Apply(s, c) == (s, Rejected)
  }

  predicate AddressKnown(d: Deal) {
    d.escrowPda.Some? && |d.escrowPda.value| > 0
  }

  // ---------- who may release ----------

  /** The wallet a name stands for in the directory of registered agents: its registered wallet, unless
      that is missing or empty, and then the name itself. */
  predicate StandsFor(dir: Directory, name: string, wallet: string) {
    || (name in dir && |dir[name]| > 0 && wallet == dir[name])
    || ((name !in dir || |dir[name]| == 0) && wallet == name)
  }

  /** Everything a release asks for but the sender. */
  predicate Releasable(d: Deal) {
    && (d.phase == Delivery || d.phase == AwaitingRelease)
    && d.terms.Some? && d.buyerDeposited && d.sellerDeposited && d.paymentLocked
  }

  predicate IsRelease(c: Command) {
    c.Act? && c.action == ReleaseFunds
  }

  /** With all else on record a release is handed out exactly to the buyer's own name or to a name that
      stands for the same wallet; anybody else's is refused and changes nothing. */
  lemma WhoReleasesIff(s: Slice, c: Command)
    requires IsRelease(c) && s.mem.Some? && Releasable(s.mem.value)
    ensures var d := s.mem.value;
            var own := c.sender == d.buyer || exists w :: StandsFor(c.dir, c.sender, w) && StandsFor(c.dir, d.buyer, w);
            && (own <==> Apply(s, c).1 == Moved(AwaitingRelease, Some(ReleaseOnChain)))
            && (own <==> Apply(s, c).0.emitted == s.emitted + [Emission(ReleaseOnChain, AwaitingRelease)])
            && (!own <==> Refused(s, c))
            && (own ==> Apply(s, c).0.mem.Some? && Apply(s, c).0.mem.value.phase == AwaitingRelease)
  {
    var d := s.mem.value;
    assert StandsFor(c.dir, c.sender, ResolveWallet(c.dir, c.sender));
    assert StandsFor(c.dir, d.buyer, ResolveWallet(c.dir, d.buyer));
    forall w | StandsFor(c.dir, c.sender, w) && StandsFor(c.dir, d.buyer, w)
      ensures ResolveWallet(c.dir, c.sender) == ResolveWallet(c.dir, d.buyer)
    {
    }
  }

  /** Two names with different wallets: nothing is handed out. */
  lemma StrangersCannotRelease(s: Slice, c: Command, theirs: string, buyers: string)
    requires IsRelease(c) && s.mem.Some? && c.sender != s.mem.value.buyer
    requires StandsFor(c.dir, c.sender, theirs) && StandsFor(c.dir, s.mem.value.buyer, buyers) && theirs != buyers
    ensures Refused(s, c)
  {
    if Releasable(s.mem.value) {
      WhoReleasesIff(s, c);
    }
  }

  /** When no agent is registered only the buyer's own name releases. */
  lemma EmptyDirectoryIff(s: Slice, c: Command)
    requires IsRelease(c) && s.mem.Some? && Releasable(s.mem.value) && c.dir == map[]
    ensures Refused(s, c) <==> c.sender != s.mem.value.buyer
  {
    WhoReleasesIff(s, c);
  }

  /** Whoever asks, a deal that is not ready is not released. */
  lemma UnreadyIsNotReleased(s: Slice, c: Command)
    requires IsRelease(c) && s.mem.Some? && !Releasable(s.mem.value)
    ensures Refused(s, c)
  {
  }

  // ---------- the other commands ----------

  /** A new deal: the two names given, in negotiation, and nothing else. */
  lemma InitialDeal(s: Slice, buyer: string, seller: string)
    ensures var (s', out) := Apply(s, InitDeal(buyer, seller));
            && s'.mem.Some? && out == Returned(s'.mem.value) && s'.row == Some(ToRow(s'.mem.value))
            && s'.emitted == s.emitted
            && var d := s'.mem.value;
               d.buyer == buyer && d.seller == seller && d.phase == Negotiation && d.terms.None? && d.escrowPda.None?
               && !d.buyerDeposited && !d.sellerDeposited && !d.paymentLocked && d.history == []
  {
  }

  /** The row has the deal's fields by name. */
  lemma RowHoldsTheDeal(d: Deal)
    ensures var r := ToRow(d);
            && r.phase == d.phase && r.buyer == d.buyer && r.seller == d.seller && r.escrowPda == d.escrowPda
            && r.buyerDeposited == d.buyerDeposited && r.sellerDeposited == d.sellerDeposited
            && r.paymentLocked == d.paymentLocked && r.history == d.history
            && (d.terms.None? <==> r.termsPrice.None?)
            && (d.terms.Some? ==>
                  && r.termsPrice == Some(d.terms.value.price)
                  && r.termsColBuyer == Some(d.terms.value.collateralBuyer)
                  && r.termsColSeller == Some(d.terms.value.collateralSeller)
                  && r.termsAssetType == d.terms.value.assetType)
  {
  }

  /** A row restores by name too: there are terms exactly with a price that is not zero, and a missing
      collateral counts as zero. */
  lemma RowRestores(r: Row)
    ensures var d := FromRow(r);
            && d.phase == r.phase && d.buyer == r.buyer && d.seller == r.seller && d.escrowPda == r.escrowPda
            && d.buyerDeposited == r.buyerDeposited && d.sellerDeposited == r.sellerDeposited
            && d.paymentLocked == r.paymentLocked && d.history == r.history
            && (d.terms.Some? <==> r.termsPrice.Some? && r.termsPrice.value != 0.0)
            && (d.terms.Some? ==>
                  && Some(d.terms.value.price) == r.termsPrice && d.terms.value.assetType == r.termsAssetType
                  && d.terms.value.collateralBuyer == (if r.termsColBuyer.Some? then r.termsColBuyer.value else 0.0)
                  && d.terms.value.collateralSeller == (if r.termsColSeller.Some? then r.termsColSeller.value else 0.0))
  {
  }

  /** New terms replace the old ones; names already there stay, and missing ones are filled in. */
  lemma TermsNegotiated(s: Slice, buyer: string, seller: string, terms: Terms, chain: Chain)
    requires s.mem.Some?
    ensures var (s', out) := Apply(s, UpsertTerms(buyer, seller, terms, chain));
            && s'.mem.Some? && out == Returned(s'.mem.value) && s'.emitted == s.emitted
            && var d, d' := s.mem.value, s'.mem.value;
               && d'.terms == Some(terms)
               && d'.buyer == (if |d.buyer| > 0 then d.buyer else buyer)
               && d'.seller == (if |d.seller| > 0 then d.seller else seller)
               && d' == d.(terms := d'.terms, buyer := d'.buyer, seller := d'.seller)
  {
  }

  /** A ticket never heard of gets a new deal with the terms. */
  lemma TermsOfNewTicket(s: Slice, buyer: string, seller: string, terms: Terms, chain: Chain)
    requires s.mem.None? && s.row.None?
    ensures Apply(s, UpsertTerms(buyer, seller, terms, chain)).0.mem
            == Some(Deal(Negotiation, buyer, seller, Some(terms), None, false, false, false, []))
  {
  }

  lemma AddressSet(s: Slice, pda: string)
    ensures var s' := Apply(s, SetEscrowPda(pda)).0;
            && (s.mem.None? ==> s' == s)
            && (s.mem.Some? ==> s'.mem == Some(s.mem.value.(escrowPda := Some(pda))) && s'.emitted == s.emitted)
  {
  }

  /** Deposits are awaited exactly once the deal was created, has terms and an address; without the
      address it is refused, otherwise nothing happens. */
  lemma AdvancesIff(s: Slice)
    ensures var (s', out) := Apply(s, Advance);
            var created := s.mem.Some? && s.mem.value.phase == EscrowCreated && s.mem.value.terms.Some?;
            && (out == Moved(AwaitingDeposits, None) <==> created && AddressKnown(s.mem.value))
            && (out == Rejected <==> created && !AddressKnown(s.mem.value))
            && (out == Ignored <==> !created)
            && (!out.Moved? ==> s' == s)
            && (out.Moved? ==>
                  && s'.mem.Some? && s'.mem.value.phase == AwaitingDeposits && s'.emitted == s.emitted
                  && s'.mem.value.history == s.mem.value.history + [Transition(EscrowCreated, AwaitingDeposits, "system", Auto)]
                  && s'.mem.value == s.mem.value.(phase := AwaitingDeposits, history := s'.mem.value.history))
  {
  }

  /** A deal is created from negotiation with three nonzero amounts, and takes the proposed terms. */
  lemma CreatesIff(s: Slice, c: Command)
    requires c.Act? && c.action == CreateEscrow && s.mem.Some?
    ensures var (s', out) := Apply(s, c);
            var d := s.mem.value;
            var proper := d.phase == Negotiation && c.proposed.Some? && c.proposed.value.price != 0.0
                          && c.proposed.value.collateralBuyer != 0.0 && c.proposed.value.collateralSeller != 0.0;
            && (proper <==> out == Moved(EscrowCreated, Some(CreateOnChain)))
            && (!proper <==> Refused(s, c))
            && (proper ==>
                  && s'.emitted == s.emitted + [Emission(CreateOnChain, EscrowCreated)]
                  && s'.mem == Some(d.(phase := EscrowCreated, terms := c.proposed,
                                       history := d.history + [Transition(Negotiation, EscrowCreated, c.sender, Brain(CreateEscrow))])))
  {
  }

  /** A first release moves the deal and says who asked for it. */
  lemma ReleaseRecorded(s: Slice, c: Command)
    requires IsRelease(c) && s.mem.Some? && Releasable(s.mem.value) && c.sender == s.mem.value.buyer
    ensures var d := s.mem.value;
            Apply(s, c).0.mem ==
              if d.phase == AwaitingRelease then Some(d)
              else Some(d.(phase := AwaitingRelease,
                           history := d.history + [Transition(Delivery, AwaitingRelease, c.sender, Brain(ReleaseFunds))]))
  {
  }

  /** A deal can be cancelled until it is completed, cancelled or refunded, on chain unless it was still
      in negotiation. */
  lemma CancelsIff(s: Slice, c: Command)
    requires c.Act? && c.action == CancelDeal && s.mem.Some?
    ensures var (s', out) := Apply(s, c);
            var d := s.mem.value;
            var over := d.phase == Completed || d.phase == Cancelled || d.phase == Refunded;
            && (over <==> Refused(s, c))
            && (!over ==>
                  && out == Moved(Cancelled, if d.phase == Negotiation then None else Some(CancelOnChain))
                  && s'.emitted == s.emitted + (if d.phase == Negotiation then [] else [Emission(CancelOnChain, Cancelled)])
                  && s'.mem == Some(d.(phase := Cancelled,
                                       history := d.history + [Transition(d.phase, Cancelled, c.sender, Brain(CancelDeal))])))
  {
  }

  /** A dispute is refused before the deal is created and once it is over. */
  lemma DisputeRefusedIff(s: Slice, c: Command)
    requires c.Act? && c.action == Dispute && s.mem.Some?
    ensures Refused(s, c) <==>
              var p := s.mem.value.phase; p == Negotiation || p == Completed || p == Cancelled || p == Refunded
  {
    var d := s.mem.value;
    if Disputable(d.phase) {
      var (s', out) := Apply(s, c);
      assert out.Moved?;
    }
  }

  /** What the judge's answer leads to: each kind's action, phase and entry in the history, which also
      names who raised the dispute. */
  lemma DisputeRecorded(s: Slice, c: Command)
    requires c.Act? && c.action == Dispute && s.mem.Some? && s.mem.value.terms.Some? && Confident(c.reply)
    requires s.mem.value.phase !in {Negotiation, Completed, Cancelled, Refunded}
    requires c.reply.verdict == SplitVerdict ==> RatiosBalance(c.reply)
    ensures var (s', out) := Apply(s, c);
            var d := s.mem.value;
            var shares := Split(Or(c.reply.buyerPct, 50.0), Or(c.reply.sellerPct, 50.0));
            var (to, trigger, action) :=
              if c.reply.verdict == CancelVerdict then (Cancelled, CancelDeal, CancelOnChain)
              else if c.reply.verdict == SplitVerdict then (Completed, FractionalSplit, SplitOnChain(shares))
              else (Completed, ReleaseFunds, ReleaseOnChain);
            && out == Moved(to, Some(action)) && s'.emitted == s.emitted + [Emission(action, to)]
            && s'.mem == Some(d.(phase := to,
                                 history := d.history + [Transition(d.phase, Disputed, c.sender, Brain(Dispute))]
                                            + [Transition(Disputed, to, "ai_judge", Brain(trigger))]))
  {
    var d := s.mem.value;
    var ruling := Adjudicate(d.terms, c.reply);
    if c.reply.verdict == CancelVerdict {
      assert ruling.verdict == CancelVerdict;
    } else {
      assert ruling.verdict == c.reply.verdict;
      assert Apply(s, c) == DoDispute(s, d, c.sender, c.reply);
    }
  }

  /** Any other action only reports. */
  lemma OthersReport(s: Slice, c: Command)
    requires c.Act? && c.action in {ReportStatus, RespondGeneral, Observe, FractionalSplit} && s.mem.Some?
    ensures Apply(s, c) == (s, Reported(s.mem.value.phase, s.mem.value.terms))
  {
  }

  /** An action on a ticket that is not in memory meets a new deal with the names it brings. */
  lemma ActionOnUnknownTicket(s: Slice, c: Command)
    requires c.Act? && s.mem.None?
    ensures var newDeal := Deal(Negotiation, c.healBuyer, c.healSeller, None, None, false, false, false, []);
            Apply(s, c) == Apply(s.(mem := Some(newDeal), row := Some(ToRow(newDeal))), c)
  {
  }

  // ---------- deposits ----------

  /** A deposit is refused without an address or outside the two phases that expect one. */
  lemma DepositRefusedIff(s: Slice, party: Party)
    requires s.mem.Some?
    ensures Apply(s, RecordDeposit(party)).1 == Rejected <==>
              !AddressKnown(s.mem.value) || s.mem.value.phase !in {AwaitingDeposits, Delivery}
    ensures Apply(s, RecordDeposit(party)).1 == Rejected ==> Refused(s, RecordDeposit(party))
  {
  }

  /** An accepted deposit raises its party's flag and no other, and delivery is announced by exactly
      the deposit that completes the pair. */
  lemma DepositCompletesIff(s: Slice, party: Party)
    requires s.mem.Some? && AddressKnown(s.mem.value) && s.mem.value.phase in {AwaitingDeposits, Delivery}
    ensures var (s', out) := Apply(s, RecordDeposit(party));
            var d := s.mem.value;
            && s'.mem.Some? && s'.emitted == s.emitted
            && (s'.mem.value.buyerDeposited <==> d.buyerDeposited || party == Buyer)
            && (s'.mem.value.sellerDeposited <==> d.sellerDeposited || party == Seller)
            && (out == Moved(Delivery, None) <==> if party == Buyer then !d.buyerDeposited && d.sellerDeposited
                                                                    else !d.sellerDeposited && d.buyerDeposited)
            && (out != Moved(Delivery, None) ==> out == Ignored)
            && (s'.mem.value.phase == Delivery <==>
                  d.phase == Delivery || (s'.mem.value.buyerDeposited && s'.mem.value.sellerDeposited))
  {
  }

  /** A payment locks the deal in any phase, moves it from awaiting deposits only, and answers nothing. */
  lemma PaymentLocks(s: Slice)
    ensures var (s', out) := Apply(s, ConfirmPayment);
            && out == Ignored && s'.emitted == s.emitted && (s.mem.None? ==> s' == s)
            && (s.mem.Some? ==>
                  && s'.mem.Some? && s'.mem.value.paymentLocked && s'.row == Some(ToRow(s'.mem.value))
                  && (s'.mem.value.phase == if s.mem.value.phase == AwaitingDeposits then Delivery else s.mem.value.phase)
                  && s'.mem.value.buyerDeposited == s.mem.value.buyerDeposited
                  && s'.mem.value.sellerDeposited == s.mem.value.sellerDeposited)
  {
  }

  lemma UnknownTicketIgnored(s: Slice, c: Command)
    requires s.mem.None? && (c.SetEscrowPda? || c.Advance? || c.RecordDeposit? || c.ConfirmPayment?)
    ensures Apply(s, c) == (s, Ignored)
  {
  }

  // ---------- forced phases and the chain ----------

  /** Which execution statuses end a deal, and how. */
  lemma StatusDecides(s: Slice, status: string, chain: Chain)
    requires s.mem.Some?
    ensures var (s', out) := Apply(s, SyncTerminal(status, chain));
            var d := s.mem.value;
            && out == Ignored && s'.emitted == s.emitted && s'.mem.Some?
            && (status == "settled" || status == "completed" || status == "confidential_completed" ==>
                  s'.mem.value.phase == Completed && !s'.mem.value.paymentLocked)
            && (status == "cancelled" ==> s'.mem.value.phase == Cancelled && !s'.mem.value.paymentLocked)
            && (status == "refunded" ==> s'.mem.value.phase == Refunded && !s'.mem.value.paymentLocked)
            && (status == "disputed" || status == "failed" ==>
                  s'.mem.value.phase == Disputed && s'.mem.value.paymentLocked == d.paymentLocked)
            && (status !in {"settled", "completed", "confidential_completed", "cancelled", "refunded", "disputed", "failed"}
                ==> s' == s)
            && s'.mem.value.history == d.history +
                 (if s'.mem.value.phase == d.phase then [] else [Transition(d.phase, s'.mem.value.phase, "system", Auto)])
  {
  }

  /** What a served account writes into the deal: its three flags, the payment's only while the deal is
      open on chain, and the phase its status names. */
  lemma ChainIsAuthoritative(d: Deal, chain: Chain)
    requires AddressKnown(d) && d.escrowPda.value in chain
    ensures var a := chain[d.escrowPda.value];
            var d' := Reconcile(d, chain);
            && d'.buyerDeposited == a.buyerLocked && d'.sellerDeposited == a.sellerLocked
            && (d'.paymentLocked <==> a.paymentLocked && a.status !in {ChainCompleted, ChainRefunded, ChainCancelled})
            && (d'.phase == match a.status
                            case ChainCreated => EscrowCreated
                            case ChainCollateralLocked => Delivery
                            case ChainPaymentLocked => Delivery
                            case ChainCompleted => Completed
                            case ChainRefunded => Refunded
                            case ChainCancelled => Cancelled
                            case ChainOther => d.phase)
            && d'.history == d.history +
                 (if d'.phase == d.phase then [] else [Transition(d.phase, d'.phase, "on_chain_reconcile", Auto)])
            && d'.terms == d.terms && d'.escrowPda == d.escrowPda && d'.buyer == d.buyer && d'.seller == d.seller
  {
  }

  /** Without an account nothing changes. */
  lemma UnservedIsKept(d: Deal, chain: Chain)
    requires !AddressKnown(d) || d.escrowPda.value !in chain
    ensures Reconcile(d, chain) == d
  {
  }

  /** Start-up loads a ticket's row exactly when its phase is none of the three final ones. */
  lemma LoadedIff(s: Slice, chain: Chain)
    ensures Recover(s, chain).mem.Some? <==>
              s.row.Some? && s.row.value.phase !in {Completed, Cancelled, Refunded}
    ensures Recover(s, chain).emitted == s.emitted
    ensures Recover(s, chain).mem.Some? ==> Recover(s, chain).mem.value == Reconcile(FromRow(s.row.value), chain)
  {
  }

  /** Loading leaves a row as it is, a zero price included, exactly when the chain has nothing to
      correct, and otherwise writes the corrected deal. */
  lemma RowRewrittenIff(s: Slice, chain: Chain)
    requires s.row.Some? && s.row.value.phase !in {Completed, Cancelled, Refunded}
    ensures var loaded := FromRow(s.row.value);
            var d := Reconcile(loaded, chain);
            Recover(s, chain).row == if d == loaded then s.row else Some(ToRow(d))
  {
    var loaded := FromRow(s.row.value);
    if ReadSnapshot(loaded, chain).Some? {
      assert PhaseDiffers(loaded, ReadSnapshot(loaded, chain).value) ==>
          |Reconcile(loaded, chain).history| == |loaded.history| + 1;
    }
  }

  // ---------- a whole deal ----------

  /** The deal from its first message to its release, with nothing out of the ordinary: each answer,
      both on-chain actions and the history, for any names, terms and address. */
  lemma WholeDeal(buyer: string, seller: string, terms: Terms, pda: string, dir: Directory)
    requires terms.price != 0.0 && terms.collateralBuyer != 0.0 && terms.collateralSeller != 0.0 && |pda| > 0
    ensures var s1 := Apply(EMPTY, InitDeal(buyer, seller)).0;
            var (s2, a2) := Apply(s1, Act(CreateEscrow, seller, Some(terms), NoReply, dir, "", ""));
            var s3 := Apply(s2, SetEscrowPda(pda)).0;
            var (s4, a4) := Apply(s3, Advance);
            var (s5, a5) := Apply(s4, RecordDeposit(Buyer));
            var (s6, a6) := Apply(s5, RecordDeposit(Seller));
            var (s7, a7) := Apply(s6, Act(ReleaseFunds, buyer, None, NoReply, dir, "", ""));
            && a2 == Moved(EscrowCreated, Some(CreateOnChain)) && a4 == Moved(AwaitingDeposits, None)
            && a5 == Ignored && a6 == Moved(Delivery, None) && a7 == Moved(AwaitingRelease, Some(ReleaseOnChain))
            && s7.emitted == [Emission(CreateOnChain, EscrowCreated), Emission(ReleaseOnChain, AwaitingRelease)]
            && s7.mem.Some?
            && s7.mem.value.history ==
                 [Transition(Negotiation, EscrowCreated, seller, Brain(CreateEscrow)),
                  Transition(EscrowCreated, AwaitingDeposits, "system", Auto),
                  Transition(AwaitingDeposits, Delivery, "system", Auto),
                  Transition(Delivery, AwaitingRelease, buyer, Brain(ReleaseFunds))]
            && s7.row == Some(ToRow(s7.mem.value))
  {
    var s1 := Apply(EMPTY, InitDeal(buyer, seller)).0;
    InitialDeal(EMPTY, buyer, seller);
    var create := Act(CreateEscrow, seller, Some(terms), NoReply, dir, "", "");
    CreatesIff(s1, create);
    var s2 := Apply(s1, create).0;
    AddressSet(s2, pda);
    var s3 := Apply(s2, SetEscrowPda(pda)).0;
    AdvancesIff(s3);
    var s4 := Apply(s3, Advance).0;
    DepositCompletesIff(s4, Buyer);
    var s5 := Apply(s4, RecordDeposit(Buyer)).0;
    FirstDeposit(s4);
    SecondDeposit(s5);
    DepositCompletesIff(s5, Seller);
    var s6 := Apply(s5, RecordDeposit(Seller)).0;
    var release := Act(ReleaseFunds, buyer, None, NoReply, dir, "", "");
    WhoReleasesIff(s6, release);
    ReleaseRecorded(s6, release);
  }

  lemma FirstDeposit(s: Slice)
    requires s.mem.Some? && AddressKnown(s.mem.value) && s.mem.value.phase == AwaitingDeposits
    requires !s.mem.value.buyerDeposited && !s.mem.value.sellerDeposited
    ensures Apply(s, RecordDeposit(Buyer)).0.mem == Some(s.mem.value.(buyerDeposited := true))
  {
  }

  lemma SecondDeposit(s: Slice)
    requires s.mem.Some? && AddressKnown(s.mem.value) && s.mem.value.phase == AwaitingDeposits
    requires s.mem.value.buyerDeposited && !s.mem.value.sellerDeposited
    ensures Apply(s, RecordDeposit(Seller)).0.mem ==
              Some(s.mem.value.(sellerDeposited := true, paymentLocked := true, phase := Delivery,
                                history := s.mem.value.history + [Transition(AwaitingDeposits, Delivery, "system", Auto)]))
  {
  }
}
