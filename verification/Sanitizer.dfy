/** The message sanitizer. The patterns it removes first are arbitrary functions on strings here; what
    is modelled is the loop that applies them, the three stages after it, and the middleware. */
module Sanitizer {
  import opened Whitespace
  import opened Wrappers

  // ---------- the stages ----------

  /** Where the first '>' is. */
  function FindClose(s: string): (n: nat)
    ensures n <= |s| && '>' !in s[..n] && (n < |s| ==> s[n] == '>')
  {
    if s == [] || s[0] == '>' then 0
    else
      var n := FindClose(s[1..]);
      assert s[..n + 1] == [s[0]] + s[1..][..n];
      n + 1
  }

  /** Tags are removed from the left: a '<' goes with all up to the first '>' after it, and stays when
      there is none. */
  function StripHtml(s: string): (r: string)
    decreases |s|
  {
    if s == [] then []
    else if s[0] == '<' && FindClose(s) < |s| then StripHtml(s[FindClose(s) + 1..])
    else [s[0]] + StripHtml(s[1..])
  }

  predicate Control(c: char) {
    || c as int <= 0x08 || c as int == 0x0B || c as int == 0x0C
    || 0x0E <= c as int <= 0x1F || c as int == 0x7F
  }

  function StripControlChars(s: string): (r: string) {
    if s == [] then []
    else if Control(s[0]) then StripControlChars(s[1..])
    else [s[0]] + StripControlChars(s[1..])
  }

  function TrimStart(s: string): (r: string) {
    if s != [] && IsBlank(s[0]) then TrimStart(s[1..]) else s
  }

  function TrimEnd(s: string): (r: string) {
    if s != [] && IsBlank(s[|s| - 1]) then TrimEnd(s[..|s| - 1]) else s
  }

  function Trim(s: string): (r: string) {
    TrimEnd(TrimStart(s))
  }

  function Tail(s: string): (r: string) {
    Trim(StripControlChars(StripHtml(s)))
  }

  function ApplyAll(patterns: seq<string -> string>, s: string): string {
    if patterns == [] then s else ApplyAll(patterns[1..], patterns[0](s))
  }

  function Sanitized(patterns: seq<string -> string>, raw: string): string {
    Tail(ApplyAll(patterns, raw))
  }

  // ---------- the methods ----------

  method SanitizeContent(patterns: seq<string -> string>, raw: string) returns (clean: string)
    ensures clean == Sanitized(patterns, raw)
  {
    clean := raw;
    var i := 0;
    while i < |patterns|
      invariant 0 <= i <= |patterns|
      invariant ApplyAll(patterns[i..], clean) == ApplyAll(patterns, raw)
    {
      assert patterns[i..][0] == patterns[i] && patterns[i..][1..] == patterns[i + 1..];
      clean := patterns[i](clean);
      i := i + 1;
    }
    clean := StripHtml(clean);
    clean := StripControlChars(clean);
    clean := Trim(clean);
  }

  /** A request's two sanitized fields; a field that is absent or no string is left alone. */
  class RequestBody {
    var content: Option<string>
    var asset: Option<string>

    constructor (c: Option<string>, a: Option<string>)
      ensures content == c && asset == a
    {
      content, asset := c, a;
    }
  }

  const MAX_CONTENT := 2000
  const MAX_ASSET := 200

  function Cut(s: string, limit: nat): string {
    if |s| > limit then s[..limit] else s
  }

  function AtMost(n: nat, limit: nat): nat {
    if n <= limit then n else limit
  }

  /** The middleware passes the request on exactly when content that was not empty stays so; what it
      passes on is safe and is the first 2000, or for the asset 200, characters of the sanitized text,
      and a rejected request keeps its asset as it was. */
  method SanitizeMessage(patterns: seq<string -> string>, body: RequestBody) returns (accepted: bool)
    modifies body
    ensures accepted <==>
            !(old(body.content).Some? && old(body.content).value != [] && Sanitized(patterns, old(body.content).value) == [])
    ensures body.content.Some? <==> old(body.content).Some?
    ensures body.content.Some? ==>
              && body.content.value <= Sanitized(patterns, old(body.content).value)
              && |body.content.value| == AtMost(|Sanitized(patterns, old(body.content).value)|, 2000)
              && Safe(body.content.value)
    ensures accepted && old(body.asset).Some? ==>
              && body.asset.Some? && body.asset.value <= Sanitized(patterns, old(body.asset).value)
              && |body.asset.value| == AtMost(|Sanitized(patterns, old(body.asset).value)|, 200)
              && Safe(body.asset.value)
    ensures !accepted || old(body.asset).None? ==> body.asset == old(body.asset)
  {
    if body.content.Some? {
      var original := body.content.value;
      var clean := SanitizeContent(patterns, original);
      body.content := Some(clean);
      TailIsSafe(ApplyAll(patterns, original));
      if |clean| == 0 && |original| > 0 {
        return false;
      }
      if |clean| > MAX_CONTENT {
        PrefixIsSafe(clean, MAX_CONTENT);
        body.content := Some(clean[..MAX_CONTENT]);
      }
    }
    if body.asset.Some? {
      var clean := SanitizeContent(patterns, body.asset.value);
      TailIsSafe(ApplyAll(patterns, body.asset.value));
      if |clean| > MAX_ASSET {
        PrefixIsSafe(clean, MAX_ASSET);
      }
      body.asset := Some(Cut(clean, MAX_ASSET));
    }
    accepted := true;
  }

  // ---------- what the stages guarantee ----------

  /** No tag: no '<' with a '>' anywhere after it. */
  predicate NoTag(s: string) {
    forall i, j | 0 <= i < j < |s| :: !(s[i] == '<' && s[j] == '>')
  }

  predicate NoControl(s: string) {
    forall i | 0 <= i < |s| :: !Control(s[i])
  }

  predicate Safe(s: string) {
    NoTag(s) && NoControl(s)
  }

  /** `f` picks, in order, the places in `s` that make up `r`. */
  predicate Picks(f: seq<int>, r: string, s: string) {
    && |f| == |r|
    && (forall i | 0 <= i < |f| :: 0 <= f[i] < |s| && r[i] == s[f[i]])
    && (forall i, j | 0 <= i < j < |f| :: f[i] < f[j])
  }

  ghost predicate Subsequence(r: string, s: string) {
    exists f :: Picks(f, r, s)
  }

  lemma SubsequenceTransitive(a: string, b: string, c: string)
    requires Subsequence(a, b) && Subsequence(b, c)
    ensures Subsequence(a, c)
  {
    var f :| Picks(f, a, b);
    var g :| Picks(g, b, c);
    var h := seq(|f|, i requires 0 <= i < |f| => g[f[i]]);
    assert Picks(h, a, c);
  }

  lemma SliceIsSubsequence(s: string, lo: nat, hi: nat)
    requires lo <= hi <= |s|
    ensures Subsequence(s[lo..hi], s)
  {
    var f := seq(hi - lo, i requires 0 <= i < hi - lo => lo + i);
    assert Picks(f, s[lo..hi], s);
  }

  lemma KeepHead(c: char, r: string, s: string)
    requires Subsequence(r, s)
    ensures Subsequence([c] + r, [c] + s)
  {
    var f :| Picks(f, r, s);
    var g := seq(|f| + 1, i requires 0 <= i <= |f| => if i == 0 then 0 else f[i - 1] + 1);
    assert Picks(g, [c] + r, [c] + s);
  }

  /** Taking characters out brings neither a tag nor a control character in. */
  lemma SubsequenceKeepsSafe(r: string, s: string)
    requires Subsequence(r, s)
    ensures NoTag(s) ==> NoTag(r)
    ensures NoControl(s) ==> NoControl(r)
  {
    var f :| Picks(f, r, s);
    if NoTag(s) {
      forall i, j | 0 <= i < j < |r|
        ensures !(r[i] == '<' && r[j] == '>')
      {
        assert f[i] < f[j];
        assert !(s[f[i]] == '<' && s[f[j]] == '>');
      }
    }
    if NoControl(s) {
      forall i | 0 <= i < |r|
        ensures !Control(r[i])
      {
        assert !Control(s[f[i]]);
      }
    }
  }

  lemma PrefixIsSafe(s: string, n: nat)
    requires Safe(s) && n <= |s|
    ensures Safe(s[..n])
  {
  }

  lemma {:induction false} StripHtmlIsSubsequence(s: string)
    ensures Subsequence(StripHtml(s), s)
    decreases |s|
  {
    if s == [] {
      assert Picks([], [], s);
    } else if s[0] == '<' && FindClose(s) < |s| {
      var n := FindClose(s) + 1;
      StripHtmlIsSubsequence(s[n..]);
      SliceIsSubsequence(s, n, |s|);
      assert s[n..|s|] == s[n..];
      SubsequenceTransitive(StripHtml(s[n..]), s[n..], s);
    } else {
      StripHtmlIsSubsequence(s[1..]);
      KeepHead(s[0], StripHtml(s[1..]), s[1..]);
      assert s == [s[0]] + s[1..];
    }
  }

  lemma {:induction false} StripControlIsSubsequence(s: string)
    ensures Subsequence(StripControlChars(s), s)
    ensures NoControl(StripControlChars(s))
  {
    if s == [] {
      assert Picks([], [], s);
    } else {
      StripControlIsSubsequence(s[1..]);
      if Control(s[0]) {
        SliceIsSubsequence(s, 1, |s|);
        assert s[1..|s|] == s[1..];
        SubsequenceTransitive(StripControlChars(s[1..]), s[1..], s);
      } else {
        KeepHead(s[0], StripControlChars(s[1..]), s[1..]);
        assert s == [s[0]] + s[1..];
      }
    }
  }

  /** What follows an unmatched '<' holds no '>', and stripping adds none. */
  lemma {:induction false} StripHtmlAddsNoClose(s: string)
    requires '>' !in s
    ensures '>' !in StripHtml(s)
  {
    StripHtmlIsSubsequence(s);
    var f :| Picks(f, StripHtml(s), s);
  }

  lemma NoCloseAhead(s: string)
    requires FindClose(s) == |s|
    ensures '>' !in s
  {
    assert s[..|s|] == s;
  }

  lemma {:induction false} StripHtmlLeavesNoTag(s: string)
    ensures NoTag(StripHtml(s))
    decreases |s|
  {
    if s == [] {
    } else if s[0] == '<' && FindClose(s) < |s| {
      StripHtmlLeavesNoTag(s[FindClose(s) + 1..]);
    } else {
      StripHtmlLeavesNoTag(s[1..]);
      if s[0] == '<' {
        NoCloseAhead(s);
        StripHtmlAddsNoClose(s[1..]);
      }
    }
  }

  /** On text without tags stripping changes nothing, and only there. */
  lemma {:induction false} StripHtmlFixedIff(s: string)
    ensures StripHtml(s) == s <==> NoTag(s)
    decreases |s|
  {
    StripHtmlLeavesNoTag(s);
    if NoTag(s) && s != [] {
      if s[0] != '<' || FindClose(s) == |s| {
        assert NoTag(s[1..]) by {
          forall i, j | 0 <= i < j < |s[1..]|
            ensures !(s[1..][i] == '<' && s[1..][j] == '>')
          {
            assert !(s[i + 1] == '<' && s[j + 1] == '>');
          }
        }
        StripHtmlFixedIff(s[1..]);
      }
    }
  }

  lemma {:induction false} StripControlFixed(s: string)
    requires NoControl(s)
    ensures StripControlChars(s) == s
  {
    if s != [] {
      assert !Control(s[0]);
      StripControlFixed(s[1..]);
    }
  }

  predicate Trimmed(s: string) {
    s == [] || (!IsBlank(s[0]) && !IsBlank(s[|s| - 1]))
  }

  lemma {:induction false} TrimStartSlice(s: string)
    ensures exists lo :: 0 <= lo <= |s| && TrimStart(s) == s[lo..]
    ensures TrimStart(s) != [] ==> !IsBlank(TrimStart(s)[0])
  {
    if s != [] && IsBlank(s[0]) {
      TrimStartSlice(s[1..]);
      var lo :| 0 <= lo <= |s[1..]| && TrimStart(s[1..]) == s[1..][lo..];
      assert s[1..][lo..] == s[lo + 1..];
    } else {
      assert s[0..] == s;
    }
  }

  lemma {:induction false} TrimEndSlice(s: string)
    ensures TrimEnd(s) <= s
    ensures TrimEnd(s) != [] ==> !IsBlank(TrimEnd(s)[|TrimEnd(s)| - 1])
  {
    if s != [] && IsBlank(s[|s| - 1]) {
      TrimEndSlice(s[..|s| - 1]);
    }
  }

  lemma PrefixOfSuffix(s: string, lo: nat, r: string)
    requires lo <= |s| && r <= s[lo..]
    ensures Subsequence(r, s)
  {
    assert r == s[lo..lo + |r|];
    SliceIsSubsequence(s, lo, lo + |r|);
  }

  lemma TrimIsSlice(s: string)
    ensures Subsequence(Trim(s), s) && Trimmed(Trim(s))
  {
    TrimStartSlice(s);
    var lo :| 0 <= lo <= |s| && TrimStart(s) == s[lo..];
    TrimEndSlice(TrimStart(s));
    PrefixOfSuffix(s, lo, Trim(s));
  }

  lemma TrimFixed(s: string)
    requires Trimmed(s)
    ensures Trim(s) == s
  {
  }

  /** For every input: no tag, no control character, no blank at either end, and nothing that was not
      in the input, in the input's order. */
  lemma TailIsSafe(s: string)
    ensures Safe(Tail(s)) && Trimmed(Tail(s)) && Subsequence(Tail(s), s)
  {
    var a := StripHtml(s);
    var b := StripControlChars(a);
    StripHtmlIsSubsequence(s);
    StripHtmlLeavesNoTag(s);
    StripControlIsSubsequence(a);
    SubsequenceKeepsSafe(b, a);
    TrimIsSlice(b);
    SubsequenceKeepsSafe(Trim(b), b);
    SubsequenceTransitive(b, a, s);
    SubsequenceTransitive(Trim(b), b, s);
  }

  /** The fixed points of the three stages are exactly the safe, trimmed texts. */
  lemma TailFixedIff(s: string)
    ensures Tail(s) == s <==> Safe(s) && Trimmed(s)
  {
    TailIsSafe(s);
    if Safe(s) && Trimmed(s) {
      StripHtmlFixedIff(s);
      StripControlFixed(s);
      TrimFixed(s);
    }
  }

  lemma TailIdempotent(s: string)
    ensures Tail(Tail(s)) == Tail(s)
  {
    TailIsSafe(s);
    TailFixedIff(Tail(s));
  }

  /** Cutting keeps tags and control characters out, but the cut text is a fixed point of the stages
      exactly when the cut did not fall behind a blank. */
  lemma CutFixedIff(s: string, limit: nat)
    requires limit > 0
    ensures Safe(Cut(Tail(s), limit))
    ensures Tail(Cut(Tail(s), limit)) == Cut(Tail(s), limit) <==>
            |Tail(s)| <= limit || !IsBlank(Tail(s)[limit - 1])
  {
    var t := Tail(s);
    TailIsSafe(s);
    if |t| > limit {
      PrefixIsSafe(t, limit);
    }
    TailFixedIff(Cut(t, limit));
  }

  // ---------- what each stage takes out ----------

  lemma {:induction false} FindCloseIs(b: string, c: string)
    requires '>' !in b
    ensures FindClose(b + ">" + c) == |b|
  {
    if b == "" {
      assert "" + ">" + c == ">" + c;
    } else {
      FindCloseIs(b[1..], c);
      assert (b + ">" + c)[1..] == b[1..] + ">" + c;
    }
  }

  /** The first '<' with a '>' after it is taken out with all up to that '>', and the rest goes on. */
  lemma {:induction false} StripsTag(a: string, b: string, c: string)
    requires '<' !in a && '>' !in b
    ensures StripHtml(a + "<" + b + ">" + c) == a + StripHtml(c)
  {
    var s := a + "<" + b + ">" + c;
    if a == "" {
      assert s == "<" + b + ">" + c;
      FindCloseIs("<" + b, c);
      assert s[|b| + 2..] == c;
    } else {
      StripsTag(a[1..], b, c);
      assert s[1..] == a[1..] + "<" + b + ">" + c && s[0] == a[0];
      assert a == [a[0]] + a[1..];
    }
  }

  /** Of the control characters only tab, line feed and carriage return stay. */
  lemma {:induction false} StripsControl(a: string, c: char, b: string)
    ensures StripControlChars(a + [c] + b)
            == StripControlChars(a)
               + (if (c as int < 32 && c !in {'\t', '\n', '\r'}) || c as int == 127 then "" else [c])
               + StripControlChars(b)
  {
    var s := a + [c] + b;
    if a == "" {
      assert s == [c] + b && s[1..] == b;
    } else {
      StripsControl(a[1..], c, b);
      assert s[1..] == a[1..] + [c] + b && s[0] == a[0];
    }
  }

  predicate AllBlank(s: string) {
    forall c | c in s :: IsBlank(c)
  }

  lemma {:induction false} TrimStartIs(a: string, m: string)
    requires AllBlank(a) && (m == "" || !IsBlank(m[0]))
    ensures TrimStart(a + m) == m
  {
    if a == "" {
      assert a + m == m;
    } else {
      assert a[0] in a && forall c | c in a[1..] :: c in a;
      TrimStartIs(a[1..], m);
      assert (a + m)[1..] == a[1..] + m;
    }
  }

  lemma {:induction false} TrimEndIs(m: string, b: string)
    requires AllBlank(b) && (m == "" || !IsBlank(m[|m| - 1]))
    ensures TrimEnd(m + b) == m
    decreases |b|
  {
    if b == "" {
      assert m + b == m;
    } else {
      var k := |b| - 1;
      assert b[k] in b && forall c | c in b[..k] :: c in b;
      TrimEndIs(m, b[..k]);
      assert (m + b)[..|m + b| - 1] == m + b[..k];
    }
  }

  /** Trimming takes the blanks at both ends and nothing else. */
  lemma TrimIs(a: string, m: string, b: string)
    requires AllBlank(a) && AllBlank(b) && Trimmed(m)
    ensures Trim(a + m + b) == m
  {
    if m == "" {
      assert a + m + b == a + b;
      assert AllBlank(a + b);
      TrimStartIs(a + b, "");
      assert a + b + "" == a + b;
    } else {
      TrimStartIs(a, m + b);
      assert a + m + b == a + (m + b);
      TrimEndIs(m, b);
    }
  }

  /** The sanitized text is what is left between the blanks of the stripped one. */
  lemma SanitizedIs(patterns: seq<string -> string>, raw: string, a: string, m: string, b: string)
    requires StripControlChars(StripHtml(ApplyAll(patterns, raw))) == a + m + b
    requires AllBlank(a) && AllBlank(b) && Trimmed(m)
    ensures Sanitized(patterns, raw) == m
  {
    TrimIs(a, m, b);
  }

  /** The patterns are applied in their order, each to what the one before it left. */
  lemma {:induction false} PatternsInOrder(patterns: seq<string -> string>, last: string -> string, raw: string)
    ensures ApplyAll(patterns + [last], raw) == last(ApplyAll(patterns, raw))
    ensures ApplyAll([], raw) == raw
  {
    if patterns == [] {
      assert [last][1..] == [] && patterns + [last] == [last];
    } else {
      PatternsInOrder(patterns[1..], last, patterns[0](raw));
      assert (patterns + [last])[1..] == patterns[1..] + [last];
    }
  }
}
