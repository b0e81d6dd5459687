/** Agreement detection over the last ten steps of a negotiation. */
module Agreement {
  import opened Common
  import opened Wrappers
  import Bags
  import Score

  datatype NegotiationStep = NegotiationStep(
    proposedBy: string, price: Option<real>, collateralBuyer: Option<real>, collateralSeller: Option<real>,
    agreementScore: real, rawText: string)

  datatype Field = Price | BuyerCollateral | SellerCollateral

  function Get(step: NegotiationStep, f: Field): Option<real> {
    match f
    case Price => step.price
    case BuyerCollateral => step.collateralBuyer
    case SellerCollateral => step.collateralSeller
  }

  type Window = seq<NegotiationStep>

  datatype Agreed = Agreed(price: real, collateralBuyer: real, collateralSeller: real, confidence: int, messageCount: nat)

  function LastTen(all: Window): Window {
    if |all| > 10 then all[|all| - 10..] else all
  }

  // ---------- the specification ----------

  /** The value of the last step by this party that names the field. */
  function Latest(h: Window, who: string, f: Field): Option<real> {
    if h == [] then None
    else
      var last := h[|h| - 1];
      if last.proposedBy == who && Get(last, f).Some? then Get(last, f) else Latest(h[..|h| - 1], who, f)
  }

  predicate Names(step: NegotiationStep, who: string, f: Field) {
    step.proposedBy == who && Get(step, f).Some?
  }

  /** Latest picks out exactly the last step that names the field. */
  lemma {:induction false} LatestIff(h: Window, who: string, f: Field, v: real)
    ensures Latest(h, who, f) == Some(v) <==>
              exists i :: 0 <= i < |h| && Names(h[i], who, f) && Get(h[i], f) == Some(v)
                          && forall j | i < j < |h| :: !Names(h[j], who, f)
    ensures Latest(h, who, f) == None <==> forall j | 0 <= j < |h| :: !Names(h[j], who, f)
  {
    if h != [] {
      var k := |h| - 1;
      var p := h[..k];
      LatestIff(p, who, f, v);
      assert forall j | 0 <= j < k :: p[j] == h[j];
      if !Names(h[k], who, f) && Latest(h, who, f) == Some(v) {
        var i :| 0 <= i < |p| && Names(p[i], who, f) && Get(p[i], f) == Some(v)
                 && forall j | i < j < |p| :: !Names(p[j], who, f);
        assert Names(h[i], who, f) && forall j | i < j < |h| :: !Names(h[j], who, f);
      }
      if i :| 0 <= i < |h| && Names(h[i], who, f) && Get(h[i], f) == Some(v)
              && forall j | i < j < |h| :: !Names(h[j], who, f) {
        if i < k {
          assert Names(p[i], who, f) && forall j | i < j < |p| :: !Names(p[j], who, f);
        }
      }
    }
  }

  /** Steps by this party with a score of at least 40. */
  function StrongSignals(h: Window, who: string): nat {
    if h == [] then 0
    else
      var last := h[|h| - 1];
      StrongSignals(h[..|h| - 1], who) + One(last.proposedBy == who && last.agreementScore >= 40.0)
  }

  lemma LatestSnoc(h: Window, s: NegotiationStep, who: string, f: Field)
    ensures Latest(h + [s], who, f) == if Names(s, who, f) then Get(s, f) else Latest(h, who, f)
    ensures StrongSignals(h + [s], who)
            == StrongSignals(h, who) + One(s.proposedBy == who && s.agreementScore >= 40.0)
  {
    assert (h + [s])[..|h + [s]| - 1] == h;
  }

  /** The parties of the ticket. A step by an id that stands for both counts as the buyer's. */
  datatype Parties = Parties(buyer: string, seller: string)

  function ByBuyer(h: Window, p: Parties, f: Field): Option<real> {
    Latest(h, p.buyer, f)
  }

  function BySeller(h: Window, p: Parties, f: Field): Option<real> {
    if p.seller == p.buyer then None else Latest(h, p.seller, f)
  }

  function SellerSignals(h: Window, p: Parties): nat {
    if p.seller == p.buyer then 0 else StrongSignals(h, p.seller)
  }

  predicate TwoProposers(h: Window) {
    exists i, j :: 0 <= i < j < |h| && h[i].proposedBy != h[j].proposedBy
  }

  predicate Conflict(h: Window, p: Parties, f: Field) {
    ByBuyer(h, p, f).Some? && BySeller(h, p, f).Some? && ByBuyer(h, p, f) != BySeller(h, p, f)
  }

  function Settled(h: Window, p: Parties, f: Field): Option<real> {
    if BySeller(h, p, f).Some? then BySeller(h, p, f) else ByBuyer(h, p, f)
  }

  function Texts(h: Window): seq<string> {
    seq(|h|, i requires 0 <= i < |h| => h[i].rawText)
  }

  function Confidence(h: Window, p: Parties): int {
    Score.Min(100,
              Score.AgreementScore(Score.Messages(Texts(h)))
              + (if StrongSignals(h, p.buyer) == 0 || SellerSignals(h, p) == 0 then -30 else 10)
              + Score.Min(15, 3 * |h|))
  }

  predicate Agrees(h: Window, p: Parties, f: Field) {
    !Conflict(h, p, f) && Settled(h, p, f).Some?
  }

  predicate Converged(h: Window, p: Parties) {
    Agrees(h, p, Price) && Agrees(h, p, BuyerCollateral) && Agrees(h, p, SellerCollateral)
  }

  // ---------- the program's loop ----------

  lemma {:induction false} TwoProposersCount(h: Window)
    ensures |set s | s in h :: s.proposedBy| >= 2 <==> TwoProposers(h)
  {
    var names := set s | s in h :: s.proposedBy;
    if i, j :| 0 <= i < j < |h| && h[i].proposedBy != h[j].proposedBy {
      assert h[i] in h && h[j] in h;
      assert {h[i].proposedBy, h[j].proposedBy} <= names;
      SubsetSize({h[i].proposedBy, h[j].proposedBy}, names);
    } else if h != [] {
      assert forall s | s in h :: s.proposedBy == h[0].proposedBy;
      assert names <= {h[0].proposedBy};
      SubsetSize(names, {h[0].proposedBy});
    } else {
      assert names == {};
    }
  }

  lemma {:induction false} SubsetSize<T>(a: set<T>, b: set<T>)
    requires a <= b
    ensures |a| <= |b|
    decreases |a|
  {
    if a != {} {
      var x :| x in a;
      SubsetSize(a - {x}, b - {x});
    }
  }

  function Update(earlier: Option<real>, later: Option<real>): Option<real> {
    if later.Some? then later else earlier
  }

  /** What one party said last, and how often it signalled strongly. */
  datatype Position = Position(price: Option<real>, buyerCol: Option<real>, sellerCol: Option<real>, strong: nat)

  function PositionOf(h: Window, who: string): Position {
    Position(Latest(h, who, Price), Latest(h, who, BuyerCollateral), Latest(h, who, SellerCollateral), StrongSignals(h, who))
  }

  const NO_POSITION := Position(None, None, None, 0)

  lemma PositionSnoc(h: Window, s: NegotiationStep, who: string)
    ensures var q := PositionOf(h, who);
            PositionOf(h + [s], who) ==
              if s.proposedBy != who then q
              else Position(Update(q.price, s.price), Update(q.buyerCol, s.collateralBuyer),
                            Update(q.sellerCol, s.collateralSeller), q.strong + One(s.agreementScore >= 40.0))
  {
    LatestSnoc(h, s, who, Price);
    LatestSnoc(h, s, who, BuyerCollateral);
    LatestSnoc(h, s, who, SellerCollateral);
  }

  /** The convergence loop. */
  method ReadHistory(history: Window, p: Parties) returns (buyer: Position, seller: Position)
    ensures buyer == PositionOf(history, p.buyer)
    ensures seller == if p.seller == p.buyer then NO_POSITION else PositionOf(history, p.seller)
  {
    buyer, seller := NO_POSITION, NO_POSITION;
    var i := 0;
    while i < |history|
      invariant 0 <= i <= |history|
      invariant buyer == PositionOf(history[..i], p.buyer)
      invariant seller == if p.seller == p.buyer then NO_POSITION else PositionOf(history[..i], p.seller)
    {
      var step := history[i];
      assert history[..i + 1] == history[..i] + [step];
      PositionSnoc(history[..i], step, p.buyer);
      PositionSnoc(history[..i], step, p.seller);
      if step.proposedBy == p.buyer {
        buyer := buyer.(price := Update(buyer.price, step.price));
        buyer := buyer.(buyerCol := Update(buyer.buyerCol, step.collateralBuyer));
        buyer := buyer.(sellerCol := Update(buyer.sellerCol, step.collateralSeller));
        if step.agreementScore >= 40.0 {
          buyer := buyer.(strong := buyer.strong + 1);
        }
      } else if step.proposedBy == p.seller {
        seller := seller.(price := Update(seller.price, step.price));
        seller := seller.(buyerCol := Update(seller.buyerCol, step.collateralBuyer));
        seller := seller.(sellerCol := Update(seller.sellerCol, step.collateralSeller));
        if step.agreementScore >= 40.0 {
          seller := seller.(strong := seller.strong + 1);
        }
      }
      i := i + 1;
    }
    assert history[..i] == history;
  }

  method RawTexts(history: Window) returns (texts: seq<string>)
    ensures texts == Texts(history)
  {
    texts := [];
    var i := 0;
    while i < |history|
      invariant 0 <= i <= |history| && texts == Texts(history[..i])
    {
      assert history[..i + 1] == history[..i] + [history[i]];
      TextsSnoc(history[..i], history[i]);
      texts := texts + [history[i].rawText];
      i := i + 1;
    }
    assert history[..i] == history;
  }

  /** The values the parties settled on, or None when they disagree or leave one open. */
  method Converge(history: Window, p: Parties, buyer: Position, seller: Position) returns (r: Option<(real, real, real)>)
    requires buyer == PositionOf(history, p.buyer)
    requires seller == if p.seller == p.buyer then NO_POSITION else PositionOf(history, p.seller)
    ensures r.Some? <==> Converged(history, p)
    ensures r.Some? ==>
              && Settled(history, p, Price) == Some(r.value.0)
              && Settled(history, p, BuyerCollateral) == Some(r.value.1)
              && Settled(history, p, SellerCollateral) == Some(r.value.2)
  {
    if buyer.price.Some? && seller.price.Some? && buyer.price != seller.price {
      assert Conflict(history, p, Price);
      return None;
    }
    var finalPrice := Update(buyer.price, seller.price);
    assert Settled(history, p, Price) == finalPrice;
    if finalPrice.None? {
      return None;
    }
    if buyer.buyerCol.Some? && seller.buyerCol.Some? && buyer.buyerCol != seller.buyerCol {
      assert Conflict(history, p, BuyerCollateral);
      return None;
    }
    if buyer.sellerCol.Some? && seller.sellerCol.Some? && buyer.sellerCol != seller.sellerCol {
      assert Conflict(history, p, SellerCollateral);
      return None;
    }
    var finalBuyerCol := Update(buyer.buyerCol, seller.buyerCol);
    var finalSellerCol := Update(buyer.sellerCol, seller.sellerCol);
    assert Settled(history, p, BuyerCollateral) == finalBuyerCol;
    assert Settled(history, p, SellerCollateral) == finalSellerCol;
    if finalBuyerCol.None? || finalSellerCol.None? {
      return None;
    }
    r := Some((finalPrice.value, finalBuyerCol.value, finalSellerCol.value));
  }

  /** Terms come back exactly when the last ten steps have two proposers, the parties' latest values
      do not conflict and are complete, and the confidence is at least 50. They are those latest values. */
  method DetectAgreement(all: Window, p: Parties) returns (r: Option<Agreed>)
    ensures var h := LastTen(all);
            r.Some? <==> TwoProposers(h) && Converged(h, p) && Confidence(h, p) >= 50
    ensures r.Some? ==>
              var h := LastTen(all);
              && Settled(h, p, Price) == Some(r.value.price)
              && Settled(h, p, BuyerCollateral) == Some(r.value.collateralBuyer)
              && Settled(h, p, SellerCollateral) == Some(r.value.collateralSeller)
              && r.value.confidence == Confidence(h, p) && 50 <= r.value.confidence <= 100
              && r.value.messageCount == |h|
  {
    var history := LastTen(all);
    var participants := set s | s in history :: s.proposedBy;
    TwoProposersCount(history);
    if |participants| < 2 {
      return None;
    }
    var buyer, seller := ReadHistory(history, p);
    var terms := Converge(history, p, buyer, seller);
    if terms.None? {
      return None;
    }
    var texts := RawTexts(history);
    var confidence := Score.CalculateAgreementScore(Score.Messages(texts));
    if buyer.strong == 0 || seller.strong == 0 {
      confidence := confidence - 30;
    } else {
      confidence := confidence + 10;
    }
    confidence := confidence + Score.Min(15, |history| * 3);
    confidence := Score.Min(100, confidence);
    if confidence >= 50 {
      return Some(Agreed(terms.value.0, terms.value.1, terms.value.2, confidence, |history|));
    }
    return None;
  }

  // ---------- only each party's own order matters ----------

  function By(h: Window, who: string): Window {
    if h == [] then []
    else By(h[..|h| - 1], who) + (if h[|h| - 1].proposedBy == who then [h[|h| - 1]] else [])
  }

  lemma {:induction false} OwnStepsDecide(h: Window, who: string, f: Field)
    ensures Latest(h, who, f) == Latest(By(h, who), who, f)
    ensures StrongSignals(h, who) == StrongSignals(By(h, who), who)
  {
    if h != [] {
      var k := |h| - 1;
      OwnStepsDecide(h[..k], who, f);
      if h[k].proposedBy == who {
        LatestSnoc(By(h[..k], who), h[k], who, f);
      } else {
        assert By(h, who) == By(h[..k], who);
      }
    }
  }

  lemma TextsSnoc(h: Window, s: NegotiationStep)
    ensures Texts(h + [s]) == Texts(h) + [s.rawText]
  {
    assert Texts(h + [s]) == Texts(h) + [s.rawText];
  }

  lemma TextsSplit(a: Window, s: NegotiationStep, b: Window)
    ensures multiset(Texts(a + [s] + b)) == multiset(Texts(a + b)) + multiset{s.rawText}
  {
    assert Texts(a + [s] + b) == Texts(a) + [s.rawText] + Texts(b);
    assert Texts(a + b) == Texts(a) + Texts(b);
  }

  lemma {:induction false} TextsOfPermutation(a: Window, b: Window)
    requires multiset(a) == multiset(b)
    ensures multiset(Texts(a)) == multiset(Texts(b))
    decreases |a|
  {
    Bags.SameSize(a, b);
    if a != [] {
      assert a[0] in multiset(b);
      var k := Bags.Remove(b, a[0]);
      var rest := b[..k] + b[k + 1..];
      Bags.Tail(a);
      TextsOfPermutation(a[1..], rest);
      TextsOfFirst(a);
      TextsSplit(b[..k], a[0], b[k + 1..]);
    }
  }

  lemma TextsOfFirst(a: Window)
    requires a != []
    ensures multiset(Texts(a)) == multiset(Texts(a[1..])) + multiset{a[0].rawText}
  {
    assert Texts(a) == [a[0].rawText] + Texts(a[1..]);
  }

  /** The same steps, in which each party says its own in the same order. */
  predicate SameSides(a: Window, b: Window, p: Parties) {
    multiset(a) == multiset(b) && By(a, p.buyer) == By(b, p.buyer) && By(a, p.seller) == By(b, p.seller)
  }

  lemma SameSettled(a: Window, b: Window, p: Parties, f: Field)
    requires SameSides(a, b, p)
    ensures Settled(a, p, f) == Settled(b, p, f) && (Conflict(a, p, f) <==> Conflict(b, p, f))
    ensures StrongSignals(a, p.buyer) == StrongSignals(b, p.buyer) && SellerSignals(a, p) == SellerSignals(b, p)
  {
    OwnStepsDecide(a, p.buyer, f);
    OwnStepsDecide(b, p.buyer, f);
    OwnStepsDecide(a, p.seller, f);
    OwnStepsDecide(b, p.seller, f);
  }

  lemma SameScore(a: Window, b: Window)
    requires multiset(a) == multiset(b)
    ensures Score.AgreementScore(Score.Messages(Texts(a))) == Score.AgreementScore(Score.Messages(Texts(b)))
    ensures |a| == |b|
  {
    Bags.SameSize(a, b);
    TextsOfPermutation(a, b);
    Score.ScoreOfPermutation(Texts(a), Texts(b));
  }

  /** However the two sides of a conversation are interleaved, the settled values, the convergence
      and the confidence are the same. */
  lemma InterleavingIrrelevant(a: Window, b: Window, p: Parties)
    requires SameSides(a, b, p)
    ensures forall f: Field :: Settled(a, p, f) == Settled(b, p, f)
    ensures Converged(a, p) <==> Converged(b, p)
    ensures Confidence(a, p) == Confidence(b, p)
  {
    forall f: Field
      ensures Settled(a, p, f) == Settled(b, p, f) && (Conflict(a, p, f) <==> Conflict(b, p, f))
    {
      SameSettled(a, b, p, f);
    }
    SameSettled(a, b, p, Price);
    SameScore(a, b);
  }

  // ---------- the agreed values and the threshold ----------

  /** The party's last step that gives this value gives it as `v`. */
  predicate LastSays(h: Window, who: string, value: NegotiationStep -> Option<real>, v: real) {
    exists i :: 0 <= i < |h| && h[i].proposedBy == who && value(h[i]) == Some(v)
                && forall j | i < j < |h| :: h[j].proposedBy == who ==> value(h[j]) == None
  }

  predicate NeverSays(h: Window, who: string, value: NegotiationStep -> Option<real>) {
    forall j | 0 <= j < |h| :: h[j].proposedBy == who ==> value(h[j]) == None
  }

  /** One of the parties says `v` last, and so does the other unless it never names a value. */
  predicate BothMean(h: Window, p: Parties, value: NegotiationStep -> Option<real>, v: real) {
    && (LastSays(h, p.buyer, value, v) || LastSays(h, p.seller, value, v))
    && (LastSays(h, p.buyer, value, v) || NeverSays(h, p.buyer, value))
    && (LastSays(h, p.seller, value, v) || NeverSays(h, p.seller, value))
  }

  ghost predicate Gives(f: Field, value: NegotiationStep -> Option<real>) {
    forall s ::
      value(s) == if f == Price then s.price else if f == BuyerCollateral then s.collateralBuyer else s.collateralSeller
  }

  lemma LastSaysIff(h: Window, who: string, f: Field, value: NegotiationStep -> Option<real>, v: real)
    requires Gives(f, value)
    ensures LastSays(h, who, value, v) <==> Latest(h, who, f) == Some(v)
    ensures NeverSays(h, who, value) <==> Latest(h, who, f) == None
  {
    LatestIff(h, who, f, v);
    assert forall i | 0 <= i < |h| :: Names(h[i], who, f) <==> h[i].proposedBy == who && value(h[i]) != None;
    if i :| 0 <= i < |h| && Names(h[i], who, f) && Get(h[i], f) == Some(v)
            && forall j | i < j < |h| :: !Names(h[j], who, f) {
      assert h[i].proposedBy == who && value(h[i]) == Some(v);
    }
    if LastSays(h, who, value, v) {
      var i :| 0 <= i < |h| && h[i].proposedBy == who && value(h[i]) == Some(v)
               && forall j | i < j < |h| :: h[j].proposedBy == who ==> value(h[j]) == None;
      assert Names(h[i], who, f) && Get(h[i], f) == Some(v);
    }
  }

  /** A field is agreed on a value exactly when the parties' last steps about it mean that value;
      also when one id stands for both parties. */
  lemma AgreedValueIff(h: Window, p: Parties, f: Field, value: NegotiationStep -> Option<real>, v: real)
    requires Gives(f, value)
    ensures Agrees(h, p, f) && Settled(h, p, f) == Some(v) <==> BothMean(h, p, value, v)
  {
    LastSaysIff(h, p.buyer, f, value, v);
    LastSaysIff(h, p.seller, f, value, v);
  }

  /** A field is agreed on exactly when there is such a value. */
  lemma AgreesIff(h: Window, p: Parties, f: Field, value: NegotiationStep -> Option<real>)
    requires Gives(f, value)
    ensures Agrees(h, p, f) <==> exists v :: BothMean(h, p, value, v)
  {
    if Agrees(h, p, f) {
      AgreedValueIff(h, p, f, value, Settled(h, p, f).value);
    }
    if v :| BothMean(h, p, value, v) {
      AgreedValueIff(h, p, f, value, v);
    }
  }

  /** The window is the end of the conversation, ten steps long or all of it. */
  lemma WindowIs(all: Window)
    ensures exists before :: all == before + LastTen(all)
    ensures |LastTen(all)| == if |all| <= 10 then |all| else 10
  {
    if |all| > 10 {
      assert all == all[..|all| - 10] + all[|all| - 10..];
    } else {
      assert all == [] + LastTen(all);
    }
  }

  lemma {:induction false} SignalsIff(h: Window, who: string)
    ensures StrongSignals(h, who) > 0 <==> exists i :: 0 <= i < |h| && h[i].proposedBy == who && h[i].agreementScore >= 40.0
  {
    if h != [] {
      var k := |h| - 1;
      SignalsIff(h[..k], who);
      if i :| 0 <= i < |h[..k]| && h[..k][i].proposedBy == who && h[..k][i].agreementScore >= 40.0 {
        assert h[i].proposedBy == who;
      }
      if i :| 0 <= i < |h| && h[i].proposedBy == who && h[i].agreementScore >= 40.0 {
        if i < k {
          assert h[..k][i].proposedBy == who;
        }
      }
    }
  }

  predicate Signalled(h: Window, who: string) {
    exists i :: 0 <= i < |h| && h[i].proposedBy == who && h[i].agreementScore >= 40.0
  }

  /** The confidence: the score of the texts, ten more if both parties have a step scored at 40 or
      more and thirty less if not, and three points for each of at most five steps; 100 at most. One id
      that stands for both parties never signals for the seller. */
  lemma ConfidenceIs(h: Window, p: Parties)
    ensures var mutual := p.buyer != p.seller && Signalled(h, p.buyer) && Signalled(h, p.seller);
            var sum := Score.AgreementScore(Score.Messages(Texts(h))) + (if mutual then 10 else -30)
                       + (if |h| < 5 then 3 * |h| else 15);
            Confidence(h, p) == if sum > 100 then 100 else sum
  {
    SignalsIff(h, p.buyer);
    SignalsIff(h, p.seller);
  }

  /** The confidence suffices exactly when the texts' score, with three points for each of at most
      five steps, reaches 40 if both parties have a step scored at 40 or more, and 80 if not. */
  lemma ConfidentIff(h: Window, p: Parties)
    ensures Confidence(h, p) >= 50 <==>
              Score.AgreementScore(Score.Messages(Texts(h))) + (if |h| < 5 then 3 * |h| else 15)
              >= if p.buyer != p.seller && Signalled(h, p.buyer) && Signalled(h, p.seller) then 40 else 80
  {
    ConfidenceIs(h, p);
  }
}
