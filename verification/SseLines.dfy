/** The reader's text operations line by line: folding takes one CR off the end of every finished line,
    and blocks are cut at the blank ones. */
module SseLines {
  import opened TextLines
  import opened SseText

  predicate LfFree(l: string) {
    '\n' !in l
  }

  predicate AllLfFree(ls: seq<string>) {
    forall i | 0 <= i < |ls| :: LfFree(ls[i])
  }

  /** One CR less at the end, if there is one. */
  function Chop(l: string): string {
    if l != "" && l[|l| - 1] == '\r' then l[..|l| - 1] else l
  }

  /** No CR at the end. */
  function Bare(l: string): string {
    if l != "" && l[|l| - 1] == '\r' then Bare(l[..|l| - 1]) else l
  }

  /** The last line of a list is the unfinished one and stays as it is. */
  function ChopLines(ls: seq<string>): seq<string> {
    seq(|ls|, i requires 0 <= i < |ls| => if i + 1 < |ls| then Chop(ls[i]) else ls[i])
  }

  function BareLines(ls: seq<string>): seq<string> {
    seq(|ls|, i requires 0 <= i < |ls| => if i + 1 < |ls| then Bare(ls[i]) else ls[i])
  }

  lemma {:induction false} BareFacts(l: string)
    ensures Bare(l) <= l && Bare(Bare(l)) == Bare(l) && Chop(Bare(l)) == Bare(l) && Bare(Chop(l)) == Bare(l)
    ensures forall i | |Bare(l)| <= i < |l| :: l[i] == '\r'
    decreases |l|
  {
    if l != "" && l[|l| - 1] == '\r' {
      BareFacts(l[..|l| - 1]);
      assert forall i | 0 <= i < |l| - 1 :: l[..|l| - 1][i] == l[i];
    }
  }

  /** Lines that differ only in the number of CRs at the end are the same once the number is. */
  lemma SameBare(a: string, b: string)
    requires Bare(a) == Bare(b) && |a| == |b|
    ensures a == b
  {
    BareFacts(a);
    BareFacts(b);
    assert forall i | 0 <= i < |a| :: a[i] == b[i];
  }

  // ---------- lines and texts ----------

  lemma LinesOfText(s: string)
    ensures AllLfFree(SplitLines(s)) && JoinLines(SplitLines(s)) == s
  {
    SplitThenJoin(s);
    forall i | 0 <= i < |SplitLines(s)|
      ensures LfFree(SplitLines(s)[i])
    {
      assert SplitLines(s)[i] in SplitLines(s);
    }
  }

  lemma TextOfLines(ls: seq<string>)
    requires ls != [] && AllLfFree(ls)
    ensures SplitLines(JoinLines(ls)) == ls
  {
    JoinThenSplit(ls);
  }

  lemma JoinFirst(l: string, rest: seq<string>)
    requires rest != []
    ensures JoinLines([l] + rest) == l + "\n" + JoinLines(rest)
  {
    assert ([l] + rest)[1..] == rest;
  }

  /** Appending a text continues the unfinished line. */
  function Continue(a: seq<string>, b: seq<string>): seq<string>
    requires a != [] && b != []
  {
    a[..|a| - 1] + [a[|a| - 1] + b[0]] + b[1..]
  }

  lemma {:induction false} JoinContinue(a: seq<string>, b: seq<string>)
    requires a != [] && b != []
    ensures JoinLines(Continue(a, b)) == JoinLines(a) + JoinLines(b)
  {
    if |a| == 1 {
      assert Continue(a, b) == [a[0] + b[0]] + b[1..];
      if |b| > 1 {
        JoinFirst(a[0] + b[0], b[1..]);
        JoinFirst(b[0], b[1..]);
        assert b == [b[0]] + b[1..];
        Assoc(a[0], b[0] + "\n", JoinLines(b[1..]));
        Assoc(a[0], b[0], "\n");
      }
    } else {
      JoinContinue(a[1..], b);
      assert Continue(a, b) == [a[0]] + Continue(a[1..], b);
      JoinFirst(a[0], Continue(a[1..], b));
      JoinFirst(a[0], a[1..]);
      assert a == [a[0]] + a[1..];
      Assoc(a[0] + "\n", JoinLines(a[1..]), JoinLines(b));
    }
  }

  lemma ContinueLfFree(a: seq<string>, b: seq<string>)
    requires a != [] && b != [] && AllLfFree(a) && AllLfFree(b)
    ensures AllLfFree(Continue(a, b))
  {
    var ls := Continue(a, b);
    var k := |a| - 1;
    forall i | 0 <= i < |ls|
      ensures LfFree(ls[i])
    {
      if i < k {
        assert ls[i] == a[i];
      } else if i == k {
        assert LfFree(a[k]) && LfFree(b[0]);
        assert ls[i] == a[k] + b[0];
      } else {
        assert ls[i] == b[i - k];
      }
    }
  }

  lemma LinesAppend(a: string, b: string)
    ensures SplitLines(a + b) == Continue(SplitLines(a), SplitLines(b))
  {
    var la, lb := SplitLines(a), SplitLines(b);
    LinesOfText(a);
    LinesOfText(b);
    ContinueLfFree(la, lb);
    JoinContinue(la, lb);
    TextOfLines(Continue(la, lb));
  }

  /** Folding one line. */
  lemma FoldOne(l: string, t: string)
    requires LfFree(l)
    ensures Normalize(l + "\n" + t) == Chop(l) + "\n" + Normalize(t)
    ensures Normalize(l) == l
  {
    NormalizeClean(l);
    if l != "" && l[|l| - 1] == '\r' {
      var u := Chop(l);
      NormalizeClean(u);
      assert l + "\n" + t == u + ("\r\n" + t);
      NormalizeAppend(u, "\r\n" + t);
      NormalizePair(t);
      Assoc(u, "\n", Normalize(t));
    } else {
      Assoc(l, "\n", t);
      NormalizeAppend(l, "\n" + t);
      NormalizeChar('\n', t);
      Assoc(l, "\n", Normalize(t));
    }
  }

  lemma {:induction false} FoldLinesOf(ls: seq<string>)
    requires ls != [] && AllLfFree(ls)
    ensures Normalize(JoinLines(ls)) == JoinLines(ChopLines(ls))
  {
    if |ls| == 1 {
      FoldOne(ls[0], "");
      assert ChopLines(ls) == ls;
    } else {
      assert ls == [ls[0]] + ls[1..];
      assert AllLfFree(ls[1..]);
      FoldLinesOf(ls[1..]);
      FoldOne(ls[0], JoinLines(ls[1..]));
      assert ChopLines(ls) == [Chop(ls[0])] + ChopLines(ls[1..]);
      JoinFirst(ls[0], ls[1..]);
      JoinFirst(Chop(ls[0]), ChopLines(ls[1..]));
    }
  }

  lemma ChopKeepsLfFree(ls: seq<string>)
    requires AllLfFree(ls)
    ensures AllLfFree(ChopLines(ls)) && AllLfFree(BareLines(ls))
  {
    forall i | 0 <= i < |ls|
      ensures LfFree(ChopLines(ls)[i]) && LfFree(BareLines(ls)[i])
    {
      assert LfFree(ls[i]);
      BareFacts(ls[i]);
      assert forall c | c in Bare(ls[i]) :: c in ls[i];
    }
  }

  /** Folding, line by line. */
  lemma NormalizeLines(s: string)
    ensures SplitLines(Normalize(s)) == ChopLines(SplitLines(s))
  {
    LinesOfText(s);
    FoldLinesOf(SplitLines(s));
    ChopKeepsLfFree(SplitLines(s));
    TextOfLines(ChopLines(SplitLines(s)));
  }

  // ---------- blocks ----------

  datatype LineCut = LineCut(groups: seq<seq<string>>, rest: seq<string>)

  /** Cut at each blank line that does not stand first; `g` holds the lines of the block begun. */
  function CutFrom(g: seq<string>, ls: seq<string>): LineCut
    requires ls != []
    decreases |ls|
  {
    if |ls| == 1 then LineCut([], g + ls)
    else if ls[0] == "" && g != [] then
      var next := CutFrom([], ls[1..]);
      LineCut([g] + next.groups, next.rest)
    else CutFrom(g + [ls[0]], ls[1..])
  }

  function Texts(groups: seq<seq<string>>): seq<string> {
    seq(|groups|, i requires 0 <= i < |groups| => JoinLines(groups[i]))
  }

  /** Only the first line of a block can be blank. */
  predicate Solid(g: seq<string>) {
    AllLfFree(g) && forall i | 1 <= i < |g| :: g[i] != ""
  }

  predicate NoDouble(s: string) {
    forall i :: 0 <= i < |s| - 1 ==> !(s[i] == '\n' && s[i + 1] == '\n')
  }

  lemma {:induction false} NothingToCut(s: string)
    requires NoDouble(s)
    ensures SplitBlocks(s) == Cut([], s)
  {
    if s != "" {
      assert NoDouble(s[1..]) by { assert forall i | 0 <= i < |s| - 1 :: s[1..][i] == s[i + 1]; }
      NothingToCut(s[1..]);
      assert s == [s[0]] + s[1..];
    }
  }

  lemma LineNoDouble(l: string, t: string)
    requires LfFree(l) && NoDouble(t) && (t == "" || t[0] != '\n')
    ensures NoDouble(l + "\n" + t)
  {
    var s := l + "\n" + t;
    forall i | 0 <= i < |s| - 1
      ensures !(s[i] == '\n' && s[i + 1] == '\n')
    {
      if i < |l| {
        assert s[i] == l[i] && l[i] in l;
      } else if i == |l| {
        assert s[i + 1] == t[0];
      } else {
        assert s[i] == t[i - |l| - 1] && s[i + 1] == t[i - |l|];
      }
    }
  }

  /** Lines of which none but the first and the last is blank hold no blank line. */
  lemma {:induction false} SolidNoDouble(ls: seq<string>)
    requires ls != [] && AllLfFree(ls) && forall i | 1 <= i < |ls| - 1 :: ls[i] != ""
    ensures NoDouble(JoinLines(ls))
    ensures ls[0] != "" ==> JoinLines(ls) != "" && JoinLines(ls)[0] != '\n'
    ensures |ls| > 1 && ls[|ls| - 1] != "" ==> JoinLines(ls) != "" && JoinLines(ls)[|JoinLines(ls)| - 1] != '\n'
  {
    if |ls| == 1 {
      var l := ls[0];
      assert LfFree(l);
      forall i | 0 <= i < |l|
        ensures l[i] != '\n'
      {
        assert l[i] in l;
      }
    } else {
      var rest := ls[1..];
      assert AllLfFree(rest);
      SolidNoDouble(rest);
      assert ls == [ls[0]] + rest;
      JoinFirst(ls[0], rest);
      var t := JoinLines(rest);
      assert LfFree(ls[0]) && LfFree(rest[|rest| - 1]);
      if |rest| == 1 {
        assert t == rest[0];
        assert t != "" ==> t[0] in t && t[|t| - 1] in t;
      } else {
        assert rest[0] == ls[1] && rest[|rest| - 1] == ls[|ls| - 1];
      }
      LineNoDouble(ls[0], t);
      assert ls[0] != "" ==> ls[0][0] in ls[0] && JoinLines(ls)[0] == ls[0][0];
      assert t != "" ==> JoinLines(ls)[|JoinLines(ls)| - 1] == t[|t| - 1];
    }
  }

  lemma SolidIsClean(g: seq<string>)
    requires g != [] && Solid(g)
    ensures Clean(JoinLines(g))
  {
    SolidNoDouble(g);
    if |g| == 1 {
      var l := g[0];
      assert LfFree(l);
      assert l != "" ==> l[|l| - 1] in l;
    }
  }

  lemma {:induction false} JoinBlankBetween(g: seq<string>, ls: seq<string>)
    requires g != [] && ls != []
    ensures JoinLines(g + ([""] + ls)) == JoinLines(g) + "\n\n" + JoinLines(ls)
  {
    if |g| == 1 {
      assert g + ([""] + ls) == [g[0]] + ([""] + ls);
      JoinFirst(g[0], [""] + ls);
      JoinFirst("", ls);
      assert g[0] + "\n" + ("" + "\n" + JoinLines(ls)) == g[0] + "\n\n" + JoinLines(ls);
    } else {
      JoinBlankBetween(g[1..], ls);
      assert g + ([""] + ls) == [g[0]] + (g[1..] + ([""] + ls)) && g == [g[0]] + g[1..];
      JoinFirst(g[0], g[1..] + ([""] + ls));
      JoinFirst(g[0], g[1..]);
      Assoc(g[0] + "\n", JoinLines(g[1..]) + "\n\n", JoinLines(ls));
      Assoc(g[0] + "\n", JoinLines(g[1..]), "\n\n");
    }
  }

  predicate ProperGroups(c: LineCut) {
    && (forall i | 0 <= i < |c.groups| :: c.groups[i] != [] && Solid(c.groups[i]))
    && c.rest != [] && AllLfFree(c.rest)
  }

  /** `c` is the cut of this text. */
  predicate CutsAs(text: string, c: LineCut) {
    SplitBlocks(text) == Cut(Texts(c.groups), JoinLines(c.rest)) && ProperGroups(c)
  }

  lemma CutLast(g: seq<string>, last: string)
    requires Solid(g) && LfFree(last)
    ensures CutsAs(JoinLines(g + [last]), LineCut([], g + [last]))
  {
    SolidNoDouble(g + [last]);
    NothingToCut(JoinLines(g + [last]));
  }

  lemma TextsFirst(g: seq<string>, groups: seq<seq<string>>)
    ensures Texts([g] + groups) == [JoinLines(g)] + Texts(groups)
  {
  }

  lemma CutBlock(g: seq<string>, rest: seq<string>, next: LineCut)
    requires g != [] && Solid(g) && rest != [] && CutsAs(JoinLines(rest), next)
    ensures CutsAs(JoinLines(g + ([""] + rest)), LineCut([g] + next.groups, next.rest))
  {
    JoinBlankBetween(g, rest);
    SolidIsClean(g);
    SplitOfBlock(JoinLines(g), JoinLines(rest));
    TextsFirst(g, next.groups);
  }

  /** Cutting a text and cutting its lines is the same. */
  lemma {:induction false} CutIsSplit(g: seq<string>, ls: seq<string>)
    requires ls != [] && Solid(g) && AllLfFree(ls)
    ensures CutsAs(JoinLines(g + ls), CutFrom(g, ls))
    decreases |ls|
  {
    if |ls| == 1 {
      CutLast(g, ls[0]);
      assert g + ls == g + [ls[0]];
    } else {
      var rest := ls[1..];
      assert AllLfFree(rest);
      if ls[0] == "" && g != [] {
        CutIsSplit([], rest);
        assert [] + rest == rest && g + ls == g + ([""] + rest);
        CutBlock(g, rest, CutFrom([], rest));
      } else {
        assert g + [ls[0]] + rest == g + ls;
        CutIsSplit(g + [ls[0]], rest);
      }
    }
  }

  function LinesCut(s: string): LineCut {
    CutFrom([], SplitLines(s))
  }

  lemma SplitByLines(s: string)
    ensures CutsAs(s, LinesCut(s))
  {
    LinesOfText(s);
    CutIsSplit([], SplitLines(s));
    assert [] + SplitLines(s) == SplitLines(s);
  }
}
