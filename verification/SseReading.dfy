/** What the reader returns, its messages and its remainder, and when the cuts of the stream show in it. */
module SseReading {
  import opened Wrappers
  import opened TextLines
  import opened SseText
  import opened SseChunks
  import opened SseParser
  import opened SseLines
  import opened SseThinning

  datatype Reading = Reading(messages: seq<Message>, remainder: string)

  function Read(cut: Cut): Reading {
    Reading(Messages(cut.blocks), cut.remainder)
  }

  function ReadWhole(w: string): Reading {
    Read(Parse(w))
  }

  function ReadChunks(chunks: seq<string>): Reading {
    Read(Feed(NOTHING_READ, chunks))
  }

  /** However the stream is cut, it reads as it does in one piece. */
  ghost predicate CutsDoNotShow(w: string) {
    forall chunks | Concat(chunks) == w :: ReadChunks(chunks) == ReadWhole(w)
  }

  // ---------- at every moment ----------

  /** Right behind a CR CR LF the remainder depends on whether the reader was called once more. */
  lemma ExtraCallShows(a: string, u: string)
    requires a == u + "\r\r\n"
    ensures ReadChunks([a, ""]) != ReadWhole(a) && Concat([a, ""]) == a
  {
    var first := Parse(a);
    FeedTwo(a, "");
    FoldLeavesPair(u);
    RemainderEndsInPair(Normalize(a));
    FoldShrinks(first.remainder, "");
    SplitText(Normalize(first.remainder + ""));
    assert [a, ""][1..] == [""] && [""][1..] == [];
    assert Concat([""]) == "" + Concat([]) == "";
    assert a + "" == a;
  }

  /** At every moment of a stream what was read so far is independent of the cuts, exactly when the
      stream holds no CR CR LF. */
  lemma ReadingThroughoutIff(w: string)
    ensures (forall n | 0 <= n <= |w| :: CutsDoNotShow(w[..n])) <==> NoCrCrLf(w)
  {
    if NoCrCrLf(w) {
      forall n, chunks | 0 <= n <= |w| && Concat(chunks) == w[..n]
        ensures ReadChunks(chunks) == ReadWhole(w[..n])
      {
        assert NoCrCrLf(w[..n]) by { assert forall i | 0 <= i < n :: w[..n][i] == w[i]; }
        ChunkIndependence(chunks);
      }
    } else {
      var i :| 0 <= i < |w| - 2 && w[i] == '\r' && w[i + 1] == '\r' && w[i + 2] == '\n';
      assert w[..i + 3] == w[..i] + "\r\r\n";
      ExtraCallShows(w[..i + 3], w[..i]);
      assert !CutsDoNotShow(w[..i + 3]);
    }
  }

  // ---------- lines under arbitrary cuts ----------

  /** `ls` are the lines of the stream `raw` after any reading of it: each finished line has been folded
      at least once, the unfinished one is as it came. */
  predicate FoldedLines(raw: seq<string>, ls: seq<string>) {
    && |raw| == |ls| && raw != []
    && raw[|raw| - 1] == ls[|ls| - 1]
    && forall i | 0 <= i < |raw| - 1 :: Thin(Chop(raw[i]), ls[i])
  }

  lemma ChopThin(a: string, b: string)
    requires Thin(a, b)
    ensures Thin(a, Chop(b)) && Thin(b, Chop(b))
  {
    BareFacts(b);
  }

  /** The text read so far is cut where the reader cut it. */
  predicate Consistent(sofar: Cut) {
    SplitBlocks(Text(sofar)) == sofar
  }

  /** The finished lines of the blocks already cut off. */
  function DoneLines(sofar: Cut): seq<string> {
    var d := SplitLines(JoinBlocks(sofar.blocks));
    d[..|d| - 1]
  }

  lemma LinesBehindEnd(u: string, x: string)
    ensures SplitLines(u + "\n" + x) == SplitLines(u) + SplitLines(x)
  {
    Assoc(u, "\n", x);
    LinesAppend(u, "\n" + x);
    assert "" + "\n" + x == "\n" + x;
    LineThenSplit("", x);
    var ul := SplitLines(u);
    assert ul[|ul| - 1] + "" == ul[|ul| - 1] && ul[..|ul| - 1] + [ul[|ul| - 1]] == ul;
    assert ([""] + SplitLines(x))[1..] == SplitLines(x);
  }

  lemma DoneAndRest(sofar: Cut, x: string)
    ensures SplitLines(JoinBlocks(sofar.blocks) + x) == DoneLines(sofar) + SplitLines(x)
    ensures DoneLines(sofar) != [] ==> DoneLines(sofar)[|DoneLines(sofar)| - 1] == ""
  {
    var done := JoinBlocks(sofar.blocks);
    JoinEnds(sofar.blocks);
    if sofar.blocks == [] {
      assert SplitLines("") == [""] && "" + x == x;
    } else {
      var u, v := done[..|done| - 2], done[..|done| - 1];
      assert v == u + "\n" + "" && done == v + "\n" + "" && done + x == v + "\n" + x;
      LinesBehindEnd(v, x);
      LinesBehindEnd(v, "");
      LinesBehindEnd(u, "");
      assert DoneLines(sofar) == SplitLines(v);
    }
  }

  /** One more chunk, line by line: the lines cut off before stay, the others are folded once. */
  lemma AbsorbLines(sofar: Cut, chunk: string)
    requires Consistent(sofar)
    ensures Consistent(Absorb(sofar, chunk))
    ensures SplitLines(Text(Absorb(sofar, chunk)))
            == DoneLines(sofar) + ChopLines(SplitLines(sofar.remainder + chunk))
  {
    var x := Normalize(sofar.remainder + chunk);
    BlocksClean(Text(sofar));
    SplitOfBlocks(sofar.blocks, x);
    SplitText(x);
    JoinAppend(sofar.blocks, SplitBlocks(x).blocks);
    Assoc(JoinBlocks(sofar.blocks), JoinBlocks(SplitBlocks(x).blocks), SplitBlocks(x).remainder);
    assert Text(Absorb(sofar, chunk)) == JoinBlocks(sofar.blocks) + x;
    DoneAndRest(sofar, x);
    NormalizeLines(sofar.remainder + chunk);
  }

  lemma TextAndChunk(sofar: Cut, chunk: string)
    ensures DoneLines(sofar) + SplitLines(sofar.remainder + chunk) == Continue(SplitLines(Text(sofar)), SplitLines(chunk))
    ensures |DoneLines(sofar)| < |SplitLines(Text(sofar))|
  {
    DoneAndRest(sofar, sofar.remainder);
    DoneAndRest(sofar, sofar.remainder + chunk);
    Assoc(JoinBlocks(sofar.blocks), sofar.remainder, chunk);
    LinesAppend(Text(sofar), chunk);
  }

  /** New lines behind `before`, of which those from d on are folded once more. */
  lemma FoldFrom(raw: seq<string>, before: seq<string>, more: seq<string>, d: nat)
    requires FoldedLines(raw, before) && more != [] && d < |before|
    ensures FoldedLines(Continue(raw, more), Continue(before, more)[..d] + ChopLines(Continue(before, more)[d..]))
  {
    var mid, raw' := Continue(before, more), Continue(raw, more);
    var after := mid[..d] + ChopLines(mid[d..]);
    forall i | 0 <= i < |raw'| - 1
      ensures Thin(Chop(raw'[i]), after[i])
    {
      assert after[i] == if i < d then mid[i] else Chop(mid[i]);
      if i < |raw| - 1 {
        assert raw'[i] == raw[i] && mid[i] == before[i];
        ChopThin(Chop(raw[i]), before[i]);
      } else {
        assert raw'[i] == mid[i];
      }
    }
  }

  lemma FoldedStep(u: string, sofar: Cut, chunk: string)
    requires Consistent(sofar) && FoldedLines(SplitLines(u), SplitLines(Text(sofar)))
    ensures FoldedLines(SplitLines(u + chunk), SplitLines(Text(Absorb(sofar, chunk))))
  {
    AbsorbLines(sofar, chunk);
    TextAndChunk(sofar, chunk);
    LinesAppend(u, chunk);
    var mid := Continue(SplitLines(Text(sofar)), SplitLines(chunk));
    var d := |DoneLines(sofar)|;
    assert mid[..d] == DoneLines(sofar) && mid[d..] == SplitLines(sofar.remainder + chunk);
    FoldFrom(SplitLines(u), SplitLines(Text(sofar)), SplitLines(chunk), d);
  }

  lemma {:induction false} FoldedFeed(u: string, sofar: Cut, chunks: seq<string>)
    requires Consistent(sofar) && FoldedLines(SplitLines(u), SplitLines(Text(sofar)))
    ensures Consistent(Feed(sofar, chunks))
    ensures FoldedLines(SplitLines(u + Concat(chunks)), SplitLines(Text(Feed(sofar, chunks))))
    decreases |chunks|
  {
    if chunks == [] {
      assert u + "" == u;
    } else {
      AbsorbLines(sofar, chunks[0]);
      FoldedStep(u, sofar, chunks[0]);
      FoldedFeed(u + chunks[0], Absorb(sofar, chunks[0]), chunks[1..]);
      Assoc(u, chunks[0], Concat(chunks[1..]));
    }
  }

  lemma FoldedByReader(chunks: seq<string>)
    ensures var cut := Feed(NOTHING_READ, chunks);
            Consistent(cut) && FoldedLines(SplitLines(Concat(chunks)), SplitLines(Text(cut)))
  {
    assert Text(NOTHING_READ) == "" + "";
    FoldedFeed("", NOTHING_READ, chunks);
    assert "" + Concat(chunks) == Concat(chunks);
  }

  // ---------- the same blocks ----------

  /** No finished line of the stream is made of CRs alone, two or more of them. */
  predicate NoCrLine(w: string) {
    forall i | 0 <= i < |SplitLines(w)| - 1 :: Bare(SplitLines(w)[i]) == "" ==> |SplitLines(w)[i]| <= 1
  }

  /** Thinner lines, blank in the same places; the last ones are unfinished and equal. */
  predicate Matching(a: seq<string>, b: seq<string>) {
    && |a| == |b| && a != []
    && a[|a| - 1] == b[|b| - 1]
    && forall i | 0 <= i < |a| - 1 :: Thin(a[i], b[i]) && (a[i] == "" <==> b[i] == "")
  }

  predicate MatchingCuts(a: LineCut, b: LineCut) {
    && |a.groups| == |b.groups|
    && (forall i | 0 <= i < |a.groups| :: ThinLines(a.groups[i], b.groups[i]))
    && ThinLines(a.rest, b.rest)
    && a.rest != [] && a.rest[|a.rest| - 1] == b.rest[|b.rest| - 1]
  }

  lemma {:induction false} MatchingAreCutAlike(g: seq<string>, h: seq<string>, a: seq<string>, b: seq<string>)
    requires ThinLines(g, h) && Matching(a, b)
    ensures MatchingCuts(CutFrom(g, a), CutFrom(h, b))
    decreases |a|
  {
    if |a| > 1 {
      assert Matching(a[1..], b[1..]);
      if a[0] == "" && g != [] {
        MatchingAreCutAlike([], [], a[1..], b[1..]);
      } else {
        MatchingAreCutAlike(g + [a[0]], h + [b[0]], a[1..], b[1..]);
      }
    }
  }

  lemma FoldedMatch(w: string, ls: seq<string>)
    requires NoCrLine(w) && FoldedLines(SplitLines(w), ls)
    ensures Matching(ChopLines(SplitLines(w)), ls)
  {
    var raw := SplitLines(w);
    forall i | 0 <= i < |raw| - 1
      ensures Thin(Chop(raw[i]), ls[i]) && (Chop(raw[i]) == "" <==> ls[i] == "")
    {
      BareFacts(raw[i]);
      BareFacts(ls[i]);
    }
  }

  lemma WholeByLines(w: string)
    ensures Parse(w) == Cut(Texts(CutFrom([], ChopLines(SplitLines(w))).groups),
                            JoinLines(CutFrom([], ChopLines(SplitLines(w))).rest))
    ensures ProperGroups(CutFrom([], ChopLines(SplitLines(w))))
  {
    NormalizeLines(w);
    SplitByLines(Normalize(w));
  }

  function MessagesOf(groups: seq<seq<string>>): seq<Message> {
    if groups == [] then [] else ParseLines(groups[0]) + MessagesOf(groups[1..])
  }

  lemma {:induction false} MessagesByLines(groups: seq<seq<string>>)
    requires forall i | 0 <= i < |groups| :: groups[i] != [] && AllLfFree(groups[i])
    ensures Messages(Texts(groups)) == MessagesOf(groups)
  {
    if groups != [] {
      BlockByLines(groups[0]);
      MessagesByLines(groups[1..]);
      assert Texts(groups)[0] == JoinLines(groups[0]) && Texts(groups)[1..] == Texts(groups[1..]);
    }
  }

  // ---------- the stream without its extra CRs ----------

  /** The stream with the CRs at the ends of its lines taken off. */
  function WithoutCrs(w: string): string {
    JoinLines(BareLines(SplitLines(w)))
  }

  lemma BareByLines(w: string)
    ensures SplitLines(WithoutCrs(w)) == BareLines(SplitLines(w))
    ensures Parse(WithoutCrs(w)) == SplitBlocks(WithoutCrs(w))
    ensures FoldedLines(SplitLines(w), BareLines(SplitLines(w)))
  {
    var raw := SplitLines(w);
    LinesOfText(w);
    ChopKeepsLfFree(raw);
    TextOfLines(BareLines(raw));
    forall i | 0 <= i < |raw|
      ensures Chop(Bare(raw[i])) == Bare(raw[i]) && Thin(Chop(raw[i]), Bare(raw[i]))
    {
      BareFacts(raw[i]);
    }
    assert ChopLines(BareLines(raw)) == BareLines(raw);
    NormalizeLines(WithoutCrs(w));
    LinesOfText(WithoutCrs(w));
    LinesOfText(Normalize(WithoutCrs(w)));
  }

  /** Equal totals of parts that can only grow are equal part by part. */
  lemma {:induction false} PartsAgree(a: seq<seq<string>>, b: seq<seq<string>>)
    requires |a| == |b| && (forall i | 0 <= i < |a| :: ThinLines(a[i], b[i]))
    ensures |MessagesOf(a)| <= |MessagesOf(b)|
    ensures MessagesOf(a) == MessagesOf(b) ==> forall i | 0 <= i < |a| :: ParseLines(a[i]) == ParseLines(b[i])
  {
    if a != [] {
      MessageGrows(a[0], b[0]);
      PartsAgree(a[1..], b[1..]);
      var p, q := ParseLines(a[0]), ParseLines(b[0]);
      if MessagesOf(a) == MessagesOf(b) {
        assert |p| == |q|;
        assert p == MessagesOf(a)[..|p|] && q == MessagesOf(b)[..|q|];
        assert MessagesOf(a[1..]) == MessagesOf(a)[|p|..] && MessagesOf(b[1..]) == MessagesOf(b)[|q|..];
        forall i | 0 <= i < |a|
          ensures ParseLines(a[i]) == ParseLines(b[i])
        {
          if i > 0 {
            assert a[i] == a[1..][i - 1] && b[i] == b[1..][i - 1];
          }
        }
      }
    }
  }

  lemma {:induction false} SamePartsSameMessages(a: seq<seq<string>>, b: seq<seq<string>>)
    requires |a| == |b| && forall i | 0 <= i < |a| :: ParseLines(a[i]) == ParseLines(b[i])
    ensures MessagesOf(a) == MessagesOf(b)
  {
    if a != [] {
      SamePartsSameMessages(a[1..], b[1..]);
    }
  }

  // ---------- an unhurried network ----------

  lemma {:induction false} FeedJoin(sofar: Cut, a: seq<string>, b: seq<string>)
    ensures Feed(sofar, a + b) == Feed(Feed(sofar, a), b)
    decreases |a|
  {
    if a == [] {
      assert a + b == b;
    } else {
      assert (a + b)[1..] == a[1..] + b;
      FeedJoin(Absorb(sofar, a[0]), a[1..], b);
    }
  }

  lemma {:induction false} ConcatJoin(a: seq<string>, b: seq<string>)
    ensures Concat(a + b) == Concat(a) + Concat(b)
  {
    if a == [] {
      assert a + b == b && "" + Concat(b) == Concat(b);
    } else {
      assert (a + b)[1..] == a[1..] + b;
      ConcatJoin(a[1..], b);
      Assoc(a[0], Concat(a[1..]), Concat(b));
    }
  }

  function Empties(n: nat): seq<string> {
    if n == 0 then [] else [""] + Empties(n - 1)
  }

  lemma {:induction false} EmptiesConcat(n: nat)
    ensures Concat(Empties(n)) == ""
  {
    if n > 0 {
      EmptiesConcat(n - 1);
      assert Empties(n)[1..] == Empties(n - 1);
    }
  }

  /** A finished line, and as many empty chunks as it has characters. */
  function LineChunks(l: string): seq<string> {
    [l + "\n"] + Empties(|l|)
  }

  /** A line at a time, with a pause after each. */
  function Unhurried(ls: seq<string>): seq<string>
    requires ls != []
  {
    if |ls| == 1 then [ls[0]] else LineChunks(ls[0]) + Unhurried(ls[1..])
  }

  lemma {:induction false} UnhurriedConcat(ls: seq<string>)
    requires ls != []
    ensures Concat(Unhurried(ls)) == JoinLines(ls)
  {
    if |ls| == 1 {
      assert [ls[0]][1..] == [] && ls[0] + "" == ls[0];
      assert Concat([ls[0]]) == ls[0] + Concat([]);
    } else {
      var end := ls[0] + "\n";
      UnhurriedConcat(ls[1..]);
      EmptiesConcat(|ls[0]|);
      ConcatJoin(LineChunks(ls[0]), Unhurried(ls[1..]));
      ConcatJoin([end], Empties(|ls[0]|));
      assert [end][1..] == [] && end + "" == end;
      assert Concat([end]) == end + Concat([]);
    }
  }

  predicate BareList(bl: seq<string>) {
    forall i | 0 <= i < |bl| :: Bare(bl[i]) == bl[i]
  }

  /** What the reader holds, as lines. */
  predicate Holds(sofar: Cut, ls: seq<string>) {
    Consistent(sofar) && SplitLines(Text(sofar)) == ls
  }

  lemma ChopBare(bl: seq<string>, ls: seq<string>, d: nat)
    requires BareList(bl) && d <= |bl| && ls != []
    ensures (bl + ls)[..d] + ChopLines((bl + ls)[d..]) == bl + ChopLines(ls)
  {
    var left, right := (bl + ls)[..d] + ChopLines((bl + ls)[d..]), bl + ChopLines(ls);
    forall i | 0 <= i < |bl + ls|
      ensures left[i] == right[i]
    {
      if d <= i < |bl| {
        BareFacts(bl[i]);
        assert Bare(bl[i]) == bl[i];
      }
    }
  }

  lemma ContinueFresh(bl: seq<string>, cl: seq<string>)
    requires cl != []
    ensures Continue(bl + [""], cl) == bl + cl
  {
    assert "" + cl[0] == cl[0];
    assert (bl + [""])[..|bl|] == bl && [cl[0]] + cl[1..] == cl;
    assert bl + [cl[0]] + cl[1..] == bl + ([cl[0]] + cl[1..]);
  }

  lemma ContinueNothing(a: seq<string>)
    requires a != []
    ensures Continue(a, [""]) == a
  {
    var k := |a| - 1;
    assert a[k] + "" == a[k] && [""][1..] == [];
    assert a[..k] + [a[k]] + [] == a;
  }

  /** One more chunk, when the lines with it are `all`: those behind the first d are folded. */
  lemma AbsorbAt(sofar: Cut, chunk: string, all: seq<string>) returns (d: nat)
    requires Consistent(sofar) && all == Continue(SplitLines(Text(sofar)), SplitLines(chunk))
    ensures d < |SplitLines(Text(sofar))| && d < |all| && (d > 0 ==> all[d - 1] == "")
    ensures Holds(Absorb(sofar, chunk), all[..d] + ChopLines(all[d..]))
  {
    AbsorbLines(sofar, chunk);
    TextAndChunk(sofar, chunk);
    DoneAndRest(sofar, sofar.remainder + chunk);
    d := |DoneLines(sofar)|;
    assert DoneLines(sofar) == all[..d] && SplitLines(sofar.remainder + chunk) == all[d..];
    assert d > 0 ==> all[d - 1] == DoneLines(sofar)[d - 1];
  }

  /** Behind bare finished lines, new ones are folded once. */
  lemma NewLines(sofar: Cut, bl: seq<string>, chunk: string)
    requires Holds(sofar, bl + [""]) && BareList(bl)
    ensures Holds(Absorb(sofar, chunk), bl + ChopLines(SplitLines(chunk)))
  {
    ContinueFresh(bl, SplitLines(chunk));
    var d := AbsorbAt(sofar, chunk, bl + SplitLines(chunk));
    ChopBare(bl, SplitLines(chunk), d);
  }

  /** An empty chunk folds the last finished line once more. */
  lemma OneMoreFold(sofar: Cut, bl: seq<string>, l: string)
    requires Holds(sofar, bl + [l, ""]) && BareList(bl)
    ensures Holds(Absorb(sofar, ""), bl + [Chop(l), ""])
  {
    var all := bl + [l, ""];
    ContinueNothing(all);
    assert SplitLines("") == [""];
    var d := AbsorbAt(sofar, "", all);
    if d <= |bl| {
      ChopBare(bl, [l, ""], d);
      assert ChopLines([l, ""]) == [Chop(l), ""];
    } else {
      assert all[d - 1] == l;
      assert all[d..] == [""] && ChopLines([""]) == [""];
      assert all[..d] + [""] == all;
    }
  }

  lemma ChopShortens(l: string)
    ensures l == Bare(l) || |Chop(l)| == |l| - 1
    ensures Bare(Chop(l)) == Bare(l)
  {
    BareFacts(l);
  }

  lemma {:induction false} FoldedBare(sofar: Cut, bl: seq<string>, l: string, n: nat)
    requires Holds(sofar, bl + [l, ""]) && BareList(bl) && |l| - |Bare(l)| <= n
    ensures Holds(Feed(sofar, Empties(n)), bl + [Bare(l), ""])
    decreases n
  {
    BareFacts(l);
    if n == 0 {
      assert l == Bare(l);
    } else {
      OneMoreFold(sofar, bl, l);
      ChopShortens(l);
      FoldedBare(Absorb(sofar, ""), bl, Chop(l), n - 1);
      FirstEmpty(sofar, n);
    }
  }

  lemma FirstEmpty(sofar: Cut, n: nat)
    requires n > 0
    ensures Feed(sofar, Empties(n)) == Feed(Absorb(sofar, ""), Empties(n - 1))
  {
    assert Empties(n)[1..] == Empties(n - 1);
  }

  lemma FirstChunk(sofar: Cut, first: string, rest: seq<string>)
    ensures Feed(sofar, [first] + rest) == Feed(Absorb(sofar, first), rest)
  {
    assert ([first] + rest)[1..] == rest;
  }

  lemma LinesOfLine(l: string)
    requires LfFree(l)
    ensures SplitLines(l + "\n") == [l, ""] && SplitLines(l) == [l]
    ensures ChopLines([l, ""]) == [Chop(l), ""] && ChopLines([l]) == [l]
  {
    LineThenSplit(l, "");
    assert l + "\n" + "" == l + "\n" && [l] + [""] == [l, ""];
  }

  lemma LineChunk(sofar: Cut, bl: seq<string>, l: string)
    requires Holds(sofar, bl + [""]) && BareList(bl) && LfFree(l)
    ensures Holds(Feed(sofar, LineChunks(l)), bl + [Bare(l)] + [""]) && BareList(bl + [Bare(l)])
  {
    LinesOfLine(l);
    NewLines(sofar, bl, l + "\n");
    BareFacts(l);
    FoldedBare(Absorb(sofar, l + "\n"), bl, Chop(l), |l|);
    FirstChunk(sofar, l + "\n", Empties(|l|));
    assert bl + [Bare(l), ""] == bl + [Bare(l)] + [""];
  }

  lemma LastChunk(sofar: Cut, bl: seq<string>, l: string)
    requires Holds(sofar, bl + [""]) && BareList(bl) && LfFree(l)
    ensures Holds(Feed(sofar, [l]), bl + [l])
  {
    NewLines(sofar, bl, l);
    LinesOfLine(l);
    FirstChunk(sofar, l, []);
    assert [l] + [] == [l];
  }

  lemma BareFirst(bl: seq<string>, ls: seq<string>)
    requires |ls| > 1
    ensures bl + [Bare(ls[0])] + BareLines(ls[1..]) == bl + BareLines(ls)
  {
    assert BareLines(ls) == [Bare(ls[0])] + BareLines(ls[1..]);
  }

  lemma {:induction false} UnhurriedReads(sofar: Cut, bl: seq<string>, ls: seq<string>)
    requires Holds(sofar, bl + [""]) && BareList(bl) && ls != [] && AllLfFree(ls)
    ensures Holds(Feed(sofar, Unhurried(ls)), bl + BareLines(ls))
    decreases |ls|
  {
    var l, rest := ls[0], ls[1..];
    assert LfFree(l) && AllLfFree(rest);
    if |ls| == 1 {
      LastChunk(sofar, bl, l);
      assert BareLines(ls) == [l];
    } else {
      LineChunk(sofar, bl, l);
      var next := Feed(sofar, LineChunks(l));
      UnhurriedReads(next, bl + [Bare(l)], rest);
      FeedJoin(sofar, LineChunks(l), Unhurried(rest));
      BareFirst(bl, ls);
    }
  }

  /** Every stream can be cut so that it reads as if its lines had no CRs at their ends. */
  lemma ReadsWithoutCrs(w: string)
    ensures Concat(Unhurried(SplitLines(w))) == w
    ensures ReadChunks(Unhurried(SplitLines(w))) == ReadWhole(WithoutCrs(w))
  {
    var raw := SplitLines(w);
    LinesOfText(w);
    UnhurriedConcat(raw);
    assert Text(NOTHING_READ) == "" + "" && SplitLines("") == [""] && [] + [""] == [""];
    UnhurriedReads(NOTHING_READ, [], raw);
    assert [] + BareLines(raw) == BareLines(raw);
    LinesOfText(Text(Feed(NOTHING_READ, Unhurried(raw))));
    BareByLines(w);
  }

  // ---------- when the cuts do not show ----------

  lemma Sandwiched(a: seq<string>, b: seq<string>, c: seq<string>)
    requires ThinLines(a, b) && ThinLines(b, c) && a == c
    ensures b == a
  {
    forall i | 0 <= i < |a|
      ensures b[i] == a[i]
    {
      SameBare(a[i], b[i]);
    }
  }

  lemma MatchingBehind(a: seq<string>, b: seq<string>, w: string)
    requires NoCrLine(w) && a == ChopLines(SplitLines(w)) && FoldedLines(SplitLines(w), b)
    ensures Matching(a, b) && Matching(b, BareLines(SplitLines(w)))
  {
    var c := BareLines(SplitLines(w));
    FoldedMatch(w, b);
    BareByLines(w);
    FoldedMatch(w, c);
    forall i | 0 <= i < |b| - 1
      ensures Thin(b[i], c[i])
    {
      BareFacts(SplitLines(w)[i]);
      BareFacts(b[i]);
    }
  }

  /** Two cuts, by their lines, with one that is barer still behind them. */
  lemma CutsAgree(a: LineCut, b: LineCut, c: LineCut)
    requires ProperGroups(a) && ProperGroups(b) && ProperGroups(c)
    requires MatchingCuts(a, b) && MatchingCuts(b, c) && MatchingCuts(a, c)
    requires MessagesOf(a.groups) == MessagesOf(c.groups) && JoinLines(a.rest) == JoinLines(c.rest)
    ensures MessagesOf(b.groups) == MessagesOf(a.groups) && b.rest == a.rest
  {
    SameJoin(a.rest, c.rest);
    Sandwiched(a.rest, b.rest, c.rest);
    PartsAgree(a.groups, b.groups);
    PartsAgree(b.groups, c.groups);
    PartsAgree(a.groups, c.groups);
    forall i | 0 <= i < |a.groups|
      ensures ParseLines(b.groups[i]) == ParseLines(a.groups[i])
    {
      var x, y, z := a.groups[i], b.groups[i], c.groups[i];
      assert AllLfFree(x) && AllLfFree(z);
      MessageBetween(x, y, z);
    }
    SamePartsSameMessages(b.groups, a.groups);
  }

  lemma CutsHidden(w: string, chunks: seq<string>)
    requires NoCrLine(w) && Concat(chunks) == w && ReadWhole(w) == ReadWhole(WithoutCrs(w))
    ensures ReadChunks(chunks) == ReadWhole(w)
  {
    var cut := Feed(NOTHING_READ, chunks);
    var raw := SplitLines(w);
    FoldedByReader(chunks);
    BareByLines(w);
    var la, lb, lc := ChopLines(raw), SplitLines(Text(cut)), BareLines(raw);
    MatchingBehind(la, lb, w);
    FoldedMatch(w, lc);
    var a, b, c := CutFrom([], la), CutFrom([], lb), CutFrom([], lc);
    MatchingAreCutAlike([], [], la, lb);
    MatchingAreCutAlike([], [], lb, lc);
    MatchingAreCutAlike([], [], la, lc);
    WholeByLines(w);
    SplitByLines(Text(cut));
    SplitByLines(WithoutCrs(w));
    ByGroups(a);
    ByGroups(b);
    ByGroups(c);
    CutsAgree(a, b, c);
  }

  lemma ByGroups(c: LineCut)
    requires ProperGroups(c)
    ensures Messages(Texts(c.groups)) == MessagesOf(c.groups)
  {
    MessagesByLines(c.groups);
  }

  /** For a stream without a line of CRs alone: no way of cutting it shows, in the messages or in the
      remainder, exactly when it reads the same with the CRs at the ends of its lines taken off. So a
      CR CR LF is harmless behind a comment or an unknown field of a finished block, and not behind data. */
  lemma ReadingIff(w: string)
    requires NoCrLine(w)
    ensures CutsDoNotShow(w) <==> ReadWhole(w) == ReadWhole(WithoutCrs(w))
  {
    if ReadWhole(w) == ReadWhole(WithoutCrs(w)) {
      forall chunks | Concat(chunks) == w
        ensures ReadChunks(chunks) == ReadWhole(w)
      {
        CutsHidden(w, chunks);
      }
    } else {
      ReadsWithoutCrs(w);
    }
  }

  /** The reading of a text given by its lines. */
  function ReadLinesOf(ls: seq<string>): Reading
    requires ls != []
  {
    Read(SplitBlocks(JoinLines(ls)))
  }

  /** For any stream: the cuts do not show if each form of its lines, every finished one with some of
      its CRs taken off but one at least, reads the same; and if they do not show, the barest does. */
  lemma EveryFormReads(w: string)
    ensures (forall ls | FoldedLines(SplitLines(w), ls) :: ReadLinesOf(ls) == ReadWhole(w)) ==> CutsDoNotShow(w)
    ensures CutsDoNotShow(w) ==> ReadWhole(WithoutCrs(w)) == ReadWhole(w)
  {
    ReadsWithoutCrs(w);
    if forall ls | FoldedLines(SplitLines(w), ls) :: ReadLinesOf(ls) == ReadWhole(w) {
      forall chunks | Concat(chunks) == w
        ensures ReadChunks(chunks) == ReadWhole(w)
      {
        var cut := Feed(NOTHING_READ, chunks);
        FoldedByReader(chunks);
        LinesOfText(Text(cut));
        assert ReadLinesOf(SplitLines(Text(cut))) == Read(cut);
      }
    }
  }

  // ---------- CRs behind comments and unknown fields ----------

  /** A line whose CRs at the end, if any, stand behind something that sets nothing even without them. */
  predicate HarmlessEnd(l: string) {
    Bare(l) == l || SettingOf(Bare(l)) == Nothing
  }

  /** Every finished block's lines end harmlessly, and the unfinished block's without a CR. */
  predicate HarmlessEnds(w: string) {
    var c := CutFrom([], ChopLines(SplitLines(w)));
    && (forall i, j | 0 <= i < |c.groups| && 0 <= j < |c.groups[i]| :: HarmlessEnd(c.groups[i][j]))
    && BareButLast(c.rest)
  }

  predicate BareButLast(ls: seq<string>) {
    forall i | 0 <= i < |ls| - 1 :: Bare(ls[i]) == ls[i]
  }

  predicate BareGroups(c: LineCut) {
    (forall i | 0 <= i < |c.groups| :: BareList(c.groups[i])) && BareButLast(c.rest)
  }

  lemma {:induction false} BareCut(g: seq<string>, ls: seq<string>)
    requires ls != [] && BareList(g) && BareButLast(ls)
    ensures BareGroups(CutFrom(g, ls))
    decreases |ls|
  {
    if |ls| > 1 {
      var rest := ls[1..];
      assert BareButLast(rest) by { assert forall i | 0 <= i < |rest| - 1 :: rest[i] == ls[i + 1]; }
      assert Bare(ls[0]) == ls[0];
      if ls[0] == "" && g != [] {
        BareCut([], rest);
      } else {
        BareCut(g + [ls[0]], rest);
      }
    }
  }

  lemma HarmlessBlock(a: seq<string>, b: seq<string>)
    requires ThinLines(a, b) && BareList(b) && forall j | 0 <= j < |a| :: HarmlessEnd(a[j])
    ensures ParseLines(a) == ParseLines(b)
  {
    forall i | 0 <= i < |a|
      ensures SettingOf(a[i]) == SettingOf(b[i])
    {
      assert HarmlessEnd(a[i]);
      BareFacts(a[i]);
      ThinSetting(a[i], b[i]);
    }
    MessageOf(a);
    MessageOf(b);
    SameSettings(a, b, "event");
    SameSettings(a, b, "id");
  }

  lemma HarmlessCuts(a: LineCut, c: LineCut)
    requires MatchingCuts(a, c) && BareGroups(c) && BareButLast(a.rest)
    requires forall i, j | 0 <= i < |a.groups| && 0 <= j < |a.groups[i]| :: HarmlessEnd(a.groups[i][j])
    ensures MessagesOf(a.groups) == MessagesOf(c.groups) && a.rest == c.rest
  {
    forall i | 0 <= i < |a.groups|
      ensures ParseLines(a.groups[i]) == ParseLines(c.groups[i])
    {
      HarmlessBlock(a.groups[i], c.groups[i]);
    }
    SamePartsSameMessages(a.groups, c.groups);
    forall i | 0 <= i < |a.rest| - 1
      ensures a.rest[i] == c.rest[i]
    {
      assert Thin(a.rest[i], c.rest[i]);
    }
  }

  /** CR CR LF is harmless behind comments and fields without a meaning, in finished blocks. */
  lemma HarmlessCrsDoNotShow(w: string)
    requires NoCrLine(w) && HarmlessEnds(w)
    ensures CutsDoNotShow(w)
  {
    var la, lc := ChopLines(SplitLines(w)), BareLines(SplitLines(w));
    var a, c := CutFrom([], la), CutFrom([], lc);
    BareByLines(w);
    FoldedMatch(w, lc);
    MatchingAreCutAlike([], [], la, lc);
    forall i | 0 <= i < |lc| - 1
      ensures Bare(lc[i]) == lc[i]
    {
      BareFacts(SplitLines(w)[i]);
    }
    BareCut([], lc);
    HarmlessCuts(a, c);
    WholeByLines(w);
    SplitByLines(WithoutCrs(w));
    ByGroups(a);
    ByGroups(c);
    ReadingIff(w);
  }
}
