/** The guardrails around the dispute judge. The model's answer is an input. */
module AiJudge {
  import opened Wrappers
  import opened DealTypes

  const MIN_CONFIDENCE_FOR_ACTION := 60.0

  datatype Verdict = ReleaseVerdict | CancelVerdict | SplitVerdict | UnknownVerdict

  /** No usable answer (an exception, an empty text, invalid JSON), or the parsed fields.
      A field is None when it is missing or not a number. */
  datatype ModelReply =
    | NoReply
    | Reply(verdict: Verdict, confidence: Option<real>, buyerPct: Option<real>, sellerPct: Option<real>)

  datatype Ruling = Ruling(verdict: Verdict, confidence: real, split: Option<Split>)

  function Or(x: Option<real>, default: real): real {
    if x.Some? then x.value else default
  }

  predicate Confident(reply: ModelReply) {
    reply.Reply? && reply.confidence.Some? && reply.confidence.value >= MIN_CONFIDENCE_FOR_ACTION
  }

  predicate RatiosBalance(reply: ModelReply)
    requires reply.Reply?
  {
    Or(reply.buyerPct, 50.0) + Or(reply.sellerPct, 50.0) == 100.0
  }

  /** Anything but a cancellation needs terms and a confident answer, and a split needs ratios
      that sum to 100. Every other case is a cancellation. */
  function Adjudicate(terms: Option<Terms>, reply: ModelReply): (r: Ruling)
    ensures r.verdict != CancelVerdict <==>
              terms.Some? && Confident(reply) && reply.verdict != CancelVerdict
              && (reply.verdict == SplitVerdict ==> RatiosBalance(reply))
    ensures r.verdict != CancelVerdict ==> r.verdict == reply.verdict && r.confidence >= MIN_CONFIDENCE_FOR_ACTION
    ensures r.split.Some? <==> r.verdict == SplitVerdict
    ensures r.split.Some? ==> r.split.value.buyerRefundPercent + r.split.value.sellerReleasePercent == 100.0
  {
    if terms.None? then
      Ruling(CancelVerdict, 100.0, None)
    else if reply.NoReply? then
      Ruling(CancelVerdict, 0.0, None)
    else
      var confidence := Or(reply.confidence, 50.0);
      if confidence < MIN_CONFIDENCE_FOR_ACTION then
        Ruling(CancelVerdict, confidence, None)
      else
        var buyerPct, sellerPct := Or(reply.buyerPct, 50.0), Or(reply.sellerPct, 50.0);
        if reply.verdict == SplitVerdict && buyerPct + sellerPct != 100.0 then
          Ruling(CancelVerdict, 0.0, None)
        else
          Ruling(reply.verdict, confidence,
                 if reply.verdict == SplitVerdict then Some(Split(buyerPct, sellerPct)) else None)
  }

  /** The share a split gives a party: the one the model names, or half. */
  predicate ShareIs(named: Option<real>, share: real) {
    if named.Some? then named.value == share else share == 50.0
  }

  /** The judge acts on a deal with terms exactly on an answer with a confidence of at least 60 that is
      no cancellation and, for a split, whose shares make up the whole. */
  lemma ActsIff(terms: Option<Terms>, reply: ModelReply)
    ensures Adjudicate(terms, reply).verdict != CancelVerdict <==>
              && terms.Some? && reply.Reply? && reply.confidence.Some? && reply.confidence.value >= 60.0
              && reply.verdict != CancelVerdict
              && (reply.verdict == SplitVerdict ==>
                    exists b, s :: ShareIs(reply.buyerPct, b) && ShareIs(reply.sellerPct, s) && b + s == 100.0)
    ensures Adjudicate(terms, reply).split.Some? ==>
              var shares := Adjudicate(terms, reply).split.value;
              ShareIs(reply.buyerPct, shares.buyerRefundPercent) && ShareIs(reply.sellerPct, shares.sellerReleasePercent)
  {
    if reply.Reply? {
      assert ShareIs(reply.buyerPct, Or(reply.buyerPct, 50.0)) && ShareIs(reply.sellerPct, Or(reply.sellerPct, 50.0));
    }
  }

  /** How sure the ruling says it is: fully without terms, not at all without a usable answer or with
      unbalanced shares, and otherwise as sure as the answer, which counts as 50 if it does not say. */
  lemma ConfidenceReported(terms: Option<Terms>, reply: ModelReply)
    ensures var r := Adjudicate(terms, reply);
            && (terms.None? ==> r.confidence == 100.0)
            && (terms.Some? && reply.NoReply? ==> r.confidence == 0.0)
            && (terms.Some? && reply.Reply? ==>
                  var said := if reply.confidence.Some? then reply.confidence.value else 50.0;
                  r.confidence == if said >= 60.0 && reply.verdict == SplitVerdict && r.verdict == CancelVerdict
                                  then 0.0 else said)
  {
  }

  predicate Percentage(x: real) {
    0.0 <= x <= 100.0
  }

  /** The guardrail checks only the sum. The split it lets through has both shares between 0 and
      100 exactly when the model's buyer share, 50 when missing, already is. */
  lemma SplitSharesAreRatiosIff(terms: Option<Terms>, reply: ModelReply)
    requires Adjudicate(terms, reply).split.Some?
    ensures var s := Adjudicate(terms, reply).split.value;
            Percentage(s.buyerRefundPercent) && Percentage(s.sellerReleasePercent)
            <==> Percentage(Or(reply.buyerPct, 50.0))
  {
    assert Adjudicate(terms, reply).split.value == Split(Or(reply.buyerPct, 50.0), Or(reply.sellerPct, 50.0));
  }

  /** A concrete answer the guardrail accepts although it refunds the buyer 150 percent. */
  lemma SplitMayExceedTheDeal(terms: Terms)
    ensures Adjudicate(Some(terms), Reply(SplitVerdict, Some(90.0), Some(150.0), Some(-50.0))).split
            == Some(Split(150.0, -50.0))
  {
  }
}
