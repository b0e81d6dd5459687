/** The agreement score of a conversation. The signals are ASCII words, so of lower-casing only what
    it does to ASCII, to blanks and to line ends can be seen in a score, and that is what is modelled. */
module Score {
  import opened Common
  import opened TextLines
  import opened Whitespace
  import Bags

  const STRONG := ["confirm", "confirmed", "agree", "accept", "accepted", "final", "done", "let's do", "lets do"]
  const MEDIUM := ["ok", "deal", "yes", "sounds good"]
  const WEAK := ["fine", "sure", "alright"]

  // ---------- text ----------

  const CAPITAL_I_WITH_DOT := '\U{0130}'
  const KELVIN_SIGN := '\U{212A}'

  /** The lower-case form of one character: the ASCII letters and the two characters outside ASCII
      whose lower-case form has an ASCII letter in it. Any other keeps out of ASCII and of the blanks,
      and stands for itself. */
  function LowerChar(c: char): string {
    if 'A' <= c <= 'Z' then [(c as int + 32) as char]
    else if c == CAPITAL_I_WITH_DOT then "i\U{0307}"
    else if c == KELVIN_SIGN then "k"
    else [c]
  }

  lemma LowerCharFacts(c: char)
    ensures LowerChar(c) != "" && (IsBlank(LowerChar(c)[0]) ==> IsBlank(c)) && ('\n' in LowerChar(c) ==> c == '\n')
  {
  }

  function Lower(s: string): string {
    if s == "" then "" else LowerChar(s[0]) + Lower(s[1..])
  }

  function LowerAll(ms: seq<string>): seq<string> {
    if ms == [] then [] else [Lower(ms[0])] + LowerAll(ms[1..])
  }

  predicate Blank(s: string) {
    forall c | c in s :: IsBlank(c)
  }

  function NonBlank(lines: seq<string>): seq<string> {
    if lines == [] then [] else (if Blank(lines[0]) then [] else [lines[0]]) + NonBlank(lines[1..])
  }

  predicate OccursAt(text: string, signal: string, i: nat) {
    i + |signal| <= |text| && text[i..i + |signal|] == signal
  }

  predicate Includes(text: string, signal: string) {
    exists i | 0 <= i <= |text| :: OccursAt(text, signal, i)
  }

  // ---------- the score ----------

  /** How many of the signals the text includes. */
  function Hits(text: string, signals: seq<string>): nat {
    if signals == [] then 0 else One(Includes(text, signals[0])) + Hits(text, signals[1..])
  }

  function PointsOf(text: string): nat {
    40 * Hits(text, STRONG) + 25 * Hits(text, MEDIUM) + 10 * Hits(text, WEAK)
  }

  function SignalsOf(text: string): nat {
    Hits(text, STRONG) + Hits(text, MEDIUM) + Hits(text, WEAK)
  }

  function Points(texts: seq<string>): nat {
    if texts == [] then 0 else PointsOf(texts[0]) + Points(texts[1..])
  }

  function Signals(texts: seq<string>): nat {
    if texts == [] then 0 else SignalsOf(texts[0]) + Signals(texts[1..])
  }

  function Min(a: int, b: int): int {
    if a < b then a else b
  }

  function ScoreOf(texts: seq<string>): int {
    Min(Points(texts) + (if |texts| > 1 && Signals(texts) >= 2 then 20 else 0), 100)
  }

  /** The score takes a list of messages, or one text whose non-blank lines are the messages. */
  datatype Input = Messages(messages: seq<string>) | OneText(text: string)

  function TextsOf(input: Input): seq<string> {
    match input
    case Messages(ms) => LowerAll(ms)
    case OneText(text) => NonBlank(SplitLines(Lower(text)))
  }

  function AgreementScore(input: Input): (score: int)
    ensures 0 <= score <= 100
  {
    ScoreOf(TextsOf(input))
  }

  lemma {:induction false} HitsAppend(text: string, a: seq<string>, signal: string)
    ensures Hits(text, a + [signal]) == Hits(text, a) + One(Includes(text, signal))
  {
    if a == [] {
      assert a + [signal] == [signal] && [signal][1..] == [];
    } else {
      HitsAppend(text, a[1..], signal);
      assert (a + [signal])[1..] == a[1..] + [signal];
    }
  }

  /** One of the three inner loops. */
  method AddSignals(text: string, signals: seq<string>, weight: nat, score: nat, count: nat)
    returns (score': nat, count': nat)
    ensures score' == score + weight * Hits(text, signals) && count' == count + Hits(text, signals)
  {
    score', count' := score, count;
    var i := 0;
    while i < |signals|
      invariant 0 <= i <= |signals|
      invariant score' == score + weight * Hits(text, signals[..i]) && count' == count + Hits(text, signals[..i])
    {
      assert signals[..i + 1] == signals[..i] + [signals[i]];
      HitsAppend(text, signals[..i], signals[i]);
      if Includes(text, signals[i]) {
        score', count' := score' + weight, count' + 1;
      }
      i := i + 1;
    }
    assert signals[..i] == signals;
  }

  method AddText(text: string, score: nat, count: nat) returns (score': nat, count': nat)
    ensures score' == score + PointsOf(text) && count' == count + SignalsOf(text)
  {
    score', count' := AddSignals(text, STRONG, 40, score, count);
    score', count' := AddSignals(text, MEDIUM, 25, score', count');
    score', count' := AddSignals(text, WEAK, 10, score', count');
  }

  lemma SumSnoc(texts: seq<string>, i: nat)
    requires i < |texts|
    ensures Points(texts[..i + 1]) == Points(texts[..i]) + PointsOf(texts[i])
    ensures Signals(texts[..i + 1]) == Signals(texts[..i]) + SignalsOf(texts[i])
  {
    assert texts[..i + 1] == texts[..i] + [texts[i]] + [] && texts[..i] + [] == texts[..i];
    SumInsert(texts[..i], texts[i], []);
  }

  method CalculateAgreementScore(input: Input) returns (score: int)
    ensures score == AgreementScore(input)
  {
    var texts := TextsOf(input);
    var total, signalCount := 0, 0;
    var i := 0;
    while i < |texts|
      invariant 0 <= i <= |texts|
      invariant total == Points(texts[..i]) && signalCount == Signals(texts[..i])
    {
      total, signalCount := AddText(texts[i], total, signalCount);
      SumSnoc(texts, i);
      i := i + 1;
    }
    assert texts[..i] == texts;
    score := total;
    if |texts| > 1 && signalCount >= 2 {
      score := score + 20;
    }
    score := Min(score, 100);
  }

  // ---------- laws ----------

  /** A message counts the same wherever it stands. */
  lemma {:induction false} SumInsert(a: seq<string>, m: string, b: seq<string>)
    ensures Points(a + [m] + b) == Points(a + b) + PointsOf(m)
    ensures Signals(a + [m] + b) == Signals(a + b) + SignalsOf(m)
  {
    if a == [] {
      assert ([m] + b)[1..] == b && a + [m] + b == [m] + b && a + b == b;
    } else {
      SumInsert(a[1..], m, b);
      assert (a + [m] + b)[1..] == a[1..] + [m] + b && (a + b)[1..] == a[1..] + b;
    }
  }

  lemma {:induction false} LowerAllAppend(a: seq<string>, b: seq<string>)
    ensures LowerAll(a + b) == LowerAll(a) + LowerAll(b)
  {
    if a == [] {
      assert a + b == b;
    } else {
      LowerAllAppend(a[1..], b);
      assert (a + b)[1..] == a[1..] + b;
    }
  }

  lemma LowerAllInsert(a: seq<string>, m: string, b: seq<string>)
    ensures LowerAll(a + [m] + b) == LowerAll(a) + [Lower(m)] + LowerAll(b)
    ensures LowerAll(a + b) == LowerAll(a) + LowerAll(b)
  {
    LowerAllAppend(a + [m], b);
    LowerAllAppend(a, [m]);
    LowerAllAppend(a, b);
    assert [m][1..] == [];
  }

  /** Adding a message anywhere never lowers the score. */
  lemma ScoreMonotone(a: seq<string>, m: string, b: seq<string>)
    ensures AgreementScore(Messages(a + b)) <= AgreementScore(Messages(a + [m] + b))
  {
    LowerAllInsert(a, m, b);
    SumInsert(LowerAll(a), Lower(m), LowerAll(b));
  }

  lemma {:induction false} SumsOfPermutation(a: seq<string>, b: seq<string>)
    requires multiset(a) == multiset(b)
    ensures |a| == |b|
    ensures Points(LowerAll(a)) == Points(LowerAll(b)) && Signals(LowerAll(a)) == Signals(LowerAll(b))
    ensures |LowerAll(a)| == |LowerAll(b)|
    decreases |a|
  {
    Bags.SameSize(a, b);
    if a != [] {
      assert a[0] in multiset(b);
      var k := Bags.Remove(b, a[0]);
      var b' := b[..k] + b[k + 1..];
      Bags.Tail(a);
      SumsOfPermutation(a[1..], b');
      LowerAllInsert(b[..k], a[0], b[k + 1..]);
      SumInsert(LowerAll(b[..k]), Lower(a[0]), LowerAll(b[k + 1..]));
    }
  }

  /** Reordering the messages does not change the score. */
  lemma ScoreOfPermutation(a: seq<string>, b: seq<string>)
    requires multiset(a) == multiset(b)
    ensures AgreementScore(Messages(a)) == AgreementScore(Messages(b))
  {
    SumsOfPermutation(a, b);
  }

  lemma LowerFirst(c: char, t: string)
    ensures Lower([c] + t) == LowerChar(c) + Lower(t)
  {
    assert ([c] + t)[1..] == t;
  }

  /** Lower-casing goes through a line end, so joined lines can be lower-cased one by one. */
  lemma {:induction false} LowerLine(l: string, t: string)
    ensures Lower(l + "\n" + t) == Lower(l) + "\n" + Lower(t)
  {
    if l == "" {
      assert "" + "\n" + t == ['\n'] + t;
      LowerFirst('\n', t);
    } else {
      LowerLine(l[1..], t);
      assert l + "\n" + t == [l[0]] + (l[1..] + "\n" + t);
      LowerFirst(l[0], l[1..] + "\n" + t);
      Assoc(LowerChar(l[0]), Lower(l[1..]) + "\n", Lower(t));
      Assoc(LowerChar(l[0]), Lower(l[1..]), "\n");
    }
  }

  lemma {:induction false} LowerKeeps(s: string)
    ensures '\n' in Lower(s) ==> '\n' in s
    ensures Blank(Lower(s)) ==> Blank(s)
  {
    if s != "" {
      LowerKeeps(s[1..]);
      LowerCharFacts(s[0]);
      assert s == [s[0]] + s[1..];
      var first, rest := LowerChar(s[0]), Lower(s[1..]);
      if Blank(Lower(s)) {
        assert first[0] in first + rest;
        assert forall c | c in rest :: c in first + rest;
      }
    }
  }

  lemma {:induction false} LowerJoined(ms: seq<string>)
    ensures Lower(JoinLines(ms)) == JoinLines(LowerAll(ms))
  {
    if |ms| == 1 {
      assert ms[1..] == [];
    } else if |ms| > 1 {
      LowerJoined(ms[1..]);
      LowerLine(ms[0], JoinLines(ms[1..]));
      assert |LowerAll(ms)| > 1 && LowerAll(ms)[1..] == LowerAll(ms[1..]);
    }
  }

  lemma {:induction false} AllNonBlank(ms: seq<string>)
    requires forall m | m in ms :: !Blank(m) && '\n' !in m
    ensures NonBlank(LowerAll(ms)) == LowerAll(ms)
    ensures forall l | l in LowerAll(ms) :: '\n' !in l
  {
    if ms != [] {
      assert ms[0] in ms;
      LowerKeeps(ms[0]);
      AllNonBlank(ms[1..]);
    }
  }

  /** A list of messages scores as their newline-joined text, when no message is blank or holds a newline. */
  lemma ScoreOfJoined(ms: seq<string>)
    requires forall m | m in ms :: !Blank(m) && '\n' !in m
    ensures AgreementScore(OneText(JoinLines(ms))) == AgreementScore(Messages(ms))
  {
    LowerJoined(ms);
    AllNonBlank(ms);
    if ms == [] {
      assert SplitLines("") == [""] && Blank("") && [""][1..] == [];
      assert NonBlank([""]) == [];
    } else {
      JoinThenSplit(LowerAll(ms));
    }
  }

  // ---------- the numbers ----------

  /** A text includes a signal exactly when it can be cut around it. */
  lemma IncludesIff(text: string, signal: string)
    ensures Includes(text, signal) <==> exists a, b :: text == a + signal + b
  {
    if Includes(text, signal) {
      var i :| 0 <= i <= |text| && OccursAt(text, signal, i);
      assert text == text[..i] + signal + text[i + |signal|..];
    }
    if a, b :| text == a + signal + b {
      assert OccursAt(text, signal, |a|);
    }
  }

  lemma HitsFirst(text: string, signal: string, rest: seq<string>)
    ensures Hits(text, [signal] + rest) == One(Includes(text, signal)) + Hits(text, rest)
  {
    assert ([signal] + rest)[1..] == rest;
  }

  lemma HitsOfTwo(text: string, a: string, b: string, rest: seq<string>)
    ensures Hits(text, [a] + ([b] + rest)) == One(Includes(text, a)) + One(Includes(text, b)) + Hits(text, rest)
  {
    HitsFirst(text, a, [b] + rest);
    HitsFirst(text, b, rest);
  }

  lemma HitsOfThree(text: string, a: string, b: string, c: string, rest: seq<string>)
    ensures Hits(text, [a, b, c] + rest)
            == One(Includes(text, a)) + One(Includes(text, b)) + One(Includes(text, c)) + Hits(text, rest)
  {
    HitsFirst(text, a, [b, c] + rest);
    HitsOfTwo(text, b, c, rest);
    assert [a, b, c] + rest == [a] + ([b, c] + rest) && [b, c] + rest == [b] + ([c] + rest);
  }

  /** How many of the nine strong, four medium and three weak words a text includes. */
  function Strong(text: string): nat {
    One(Includes(text, "confirm")) + One(Includes(text, "confirmed")) + One(Includes(text, "agree"))
    + One(Includes(text, "accept")) + One(Includes(text, "accepted")) + One(Includes(text, "final"))
    + One(Includes(text, "done")) + One(Includes(text, "let's do")) + One(Includes(text, "lets do"))
  }

  function Medium(text: string): nat {
    One(Includes(text, "ok")) + One(Includes(text, "deal")) + One(Includes(text, "yes")) + One(Includes(text, "sounds good"))
  }

  function Weak(text: string): nat {
    One(Includes(text, "fine")) + One(Includes(text, "sure")) + One(Includes(text, "alright"))
  }

  lemma StrongIs(text: string)
    ensures Hits(text, STRONG) == Strong(text)
  {
    HitsOfThree(text, "confirm", "confirmed", "agree", ["accept", "accepted", "final"] + ["done", "let's do", "lets do"]);
    HitsOfThree(text, "accept", "accepted", "final", ["done", "let's do", "lets do"]);
    HitsOfThree(text, "done", "let's do", "lets do", []);
    assert STRONG == ["confirm", "confirmed", "agree"] + (["accept", "accepted", "final"] + ["done", "let's do", "lets do"]);
    assert ["done", "let's do", "lets do"] + [] == ["done", "let's do", "lets do"];
  }

  lemma MediumIs(text: string)
    ensures Hits(text, MEDIUM) == Medium(text)
  {
    HitsOfThree(text, "ok", "deal", "yes", ["sounds good"]);
    HitsFirst(text, "sounds good", []);
    assert MEDIUM == ["ok", "deal", "yes"] + ["sounds good"] && ["sounds good"] + [] == ["sounds good"];
  }

  lemma WeakIs(text: string)
    ensures Hits(text, WEAK) == Weak(text)
  {
    HitsOfThree(text, "fine", "sure", "alright", []);
    assert WEAK == ["fine", "sure", "alright"] + [];
  }

  function WordPoints(text: string): nat {
    40 * Strong(text) + 25 * Medium(text) + 10 * Weak(text)
  }

  function Words(text: string): nat {
    Strong(text) + Medium(text) + Weak(text)
  }

  lemma PointsAre(text: string)
    ensures PointsOf(text) == WordPoints(text) && SignalsOf(text) == Words(text)
  {
    StrongIs(text);
    MediumIs(text);
    WeakIs(text);
  }

  /** The points and the words of a list of messages. */
  function Total(ms: seq<string>): (nat, nat) {
    if ms == [] then (0, 0)
    else
      var (points, words) := Total(ms[1..]);
      (WordPoints(Lower(ms[0])) + points, Words(Lower(ms[0])) + words)
  }

  lemma SumsOfFirst(t: string, texts: seq<string>)
    ensures Points([t] + texts) == PointsOf(t) + Points(texts) && Signals([t] + texts) == SignalsOf(t) + Signals(texts)
  {
    assert ([t] + texts)[1..] == texts;
  }

  lemma {:induction false} TotalIs(ms: seq<string>)
    ensures Total(ms) == (Points(LowerAll(ms)), Signals(LowerAll(ms)))
    ensures |LowerAll(ms)| == |ms|
  {
    if ms != [] {
      var t := Lower(ms[0]);
      TotalIs(ms[1..]);
      PointsAre(t);
      SumsOfFirst(t, LowerAll(ms[1..]));
    }
  }

  /** What `points` and `words` in `n` messages score. */
  function Capped(points: nat, words: nat, n: nat): nat {
    var p := points + (if n >= 2 && words >= 2 then 20 else 0);
    if p > 100 then 100 else p
  }

  lemma ScoreFrom(ms: seq<string>, texts: seq<string>)
    requires texts == LowerAll(ms) && |texts| == |ms|
    ensures AgreementScore(Messages(ms)) == Capped(Points(texts), Signals(texts), |ms|)
  {
  }

  /** A conversation scores 40 for each strong word in a message, 25 for each medium and 10 for each
      weak one, 20 more when it has several messages and at least two words in all, and never more
      than 100. */
  lemma ScoreOfMessages(ms: seq<string>, points: nat, words: nat)
    requires Total(ms) == (points, words)
    ensures AgreementScore(Messages(ms)) == Capped(points, words, |ms|)
  {
    TotalIs(ms);
    ScoreFrom(ms, LowerAll(ms));
  }

  /** Lower-casing changes the 26 capitals and the two characters with an ASCII letter in their
      lower-case form, each where it stands. */
  lemma {:induction false} LowerIs(a: string, c: char, b: string)
    ensures Lower(a + [c] + b)
            == Lower(a) + (if 'A' <= c <= 'Z' then [('a' as int + (c as int - 'A' as int)) as char]
                           else if c as int == 0x130 then "i\U{0307}" else if c as int == 0x212A then "k" else [c])
               + Lower(b)
  {
    if a == "" {
      assert "" + [c] + b == [c] + b;
      LowerFirst(c, b);
    } else {
      LowerIs(a[1..], c, b);
      assert a + [c] + b == [a[0]] + (a[1..] + [c] + b);
      LowerFirst(a[0], a[1..] + [c] + b);
      Assoc(LowerChar(a[0]), Lower(a[1..]) + LowerChar(c), Lower(b));
      Assoc(LowerChar(a[0]), Lower(a[1..]), LowerChar(c));
    }
  }

  lemma NonBlankFirst(l: string, rest: seq<string>)
    ensures NonBlank([l] + rest) == (if Blank(l) then [] else [l]) + NonBlank(rest)
  {
    assert ([l] + rest)[1..] == rest;
  }

  lemma {:induction false} NonBlankAppend(a: seq<string>, b: seq<string>)
    ensures NonBlank(a + b) == NonBlank(a) + NonBlank(b)
  {
    if a == [] {
      assert a + b == b;
    } else {
      NonBlankAppend(a[1..], b);
      NonBlankFirst(a[0], a[1..] + b);
      NonBlankFirst(a[0], a[1..]);
      assert a + b == [a[0]] + (a[1..] + b) && a == [a[0]] + a[1..];
      Assoc(if Blank(a[0]) then [] else [a[0]], NonBlank(a[1..]), NonBlank(b));
    }
  }

  lemma BlankDropped(a: seq<string>, blank: string, b: seq<string>)
    requires Blank(blank)
    ensures NonBlank(a + [blank] + b) == NonBlank(a + b)
  {
    NonBlankAppend(a + [blank], b);
    NonBlankAppend(a, [blank]);
    NonBlankAppend(a, b);
    assert [blank][1..] == [] && NonBlank([blank]) == [];
  }

  lemma {:induction false} BlankStays(s: string)
    requires Blank(s)
    ensures Blank(Lower(s))
  {
    if s != "" {
      assert s[0] in s && forall c | c in s[1..] :: c in s;
      BlankStays(s[1..]);
      assert LowerChar(s[0]) == [s[0]];
    }
  }

  lemma {:induction false} LowerAllUnbroken(ms: seq<string>)
    requires forall m | m in ms :: '\n' !in m
    ensures forall l | l in LowerAll(ms) :: '\n' !in l
  {
    if ms != [] {
      assert ms[0] in ms;
      LowerKeeps(ms[0]);
      LowerAllUnbroken(ms[1..]);
    }
  }

  /** A blank line anywhere in a text is no message: it changes nothing, the bonus included. */
  lemma BlankLineIsNoMessage(a: seq<string>, blank: string, b: seq<string>)
    requires (forall m | m in a + b :: '\n' !in m) && a + b != [] && Blank(blank) && '\n' !in blank
    ensures AgreementScore(OneText(JoinLines(a + [blank] + b))) == AgreementScore(OneText(JoinLines(a + b)))
  {
    var with' := a + [blank] + b;
    LowerJoined(with');
    LowerJoined(a + b);
    LowerAllUnbroken(with');
    LowerAllUnbroken(a + b);
    LowerAllInsert(a, blank, b);
    JoinThenSplit(LowerAll(with'));
    JoinThenSplit(LowerAll(a + b));
    BlankStays(blank);
    BlankDropped(LowerAll(a), Lower(blank), LowerAll(b));
  }
}
