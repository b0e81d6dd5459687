/** The string operations under the server-sent event reader: folding CR LF into LF, and cutting a
    text at its blank lines. */
module SseText {
  import opened TextLines

  /** Every CR LF pair becomes LF, from left to right. */
  function Normalize(s: string): string {
    if s == "" then ""
    else if |s| >= 2 && s[0] == '\r' && s[1] == '\n' then "\n" + Normalize(s[2..])
    else [s[0]] + Normalize(s[1..])
  }

  /** A text cut at its separators: the finished blocks, and what follows the last separator. */
  datatype Cut = Cut(blocks: seq<string>, remainder: string)

  function PrependChar(c: char, cut: Cut): Cut {
    if cut.blocks == [] then Cut([], [c] + cut.remainder)
    else Cut([[c] + cut.blocks[0]] + cut.blocks[1..], cut.remainder)
  }

  predicate AtBlankLine(s: string) {
    |s| >= 2 && s[0] == '\n' && s[1] == '\n'
  }

  /** Cut at every two consecutive LF, from left to right, without overlap. */
  function SplitBlocks(s: string): Cut {
    if s == "" then Cut([], "")
    else if AtBlankLine(s) then
      var rest := SplitBlocks(s[2..]);
      Cut([""] + rest.blocks, rest.remainder)
    else PrependChar(s[0], SplitBlocks(s[1..]))
  }

  function JoinBlocks(blocks: seq<string>): string {
    if blocks == [] then "" else blocks[0] + "\n\n" + JoinBlocks(blocks[1..])
  }

  function Text(cut: Cut): string {
    JoinBlocks(cut.blocks) + cut.remainder
  }

  // ---------- cutting ----------

  lemma SplitBlank(t: string)
    ensures SplitBlocks("\n\n" + t) == Cut([""] + SplitBlocks(t).blocks, SplitBlocks(t).remainder)
  {
    assert ("\n\n" + t)[2..] == t;
  }

  lemma SplitChar(c: char, t: string)
    requires !AtBlankLine([c] + t)
    ensures SplitBlocks([c] + t) == PrependChar(c, SplitBlocks(t))
  {
    assert ([c] + t)[1..] == t;
  }

  lemma JoinBlank(blocks: seq<string>)
    ensures JoinBlocks([""] + blocks) == "\n\n" + JoinBlocks(blocks)
  {
    assert ([""] + blocks)[1..] == blocks;
  }

  lemma JoinChar(c: char, cut: Cut)
    requires cut.blocks != []
    ensures JoinBlocks(PrependChar(c, cut).blocks) == [c] + JoinBlocks(cut.blocks)
  {
    var first := [c] + cut.blocks[0];
    assert ([first] + cut.blocks[1..])[1..] == cut.blocks[1..];
    assert first + "\n\n" + JoinBlocks(cut.blocks[1..]) == [c] + (cut.blocks[0] + "\n\n" + JoinBlocks(cut.blocks[1..]));
  }

  lemma TextBlank(rest: Cut)
    ensures Text(Cut([""] + rest.blocks, rest.remainder)) == "\n\n" + Text(rest)
  {
    JoinBlank(rest.blocks);
  }

  lemma TextChar(c: char, rest: Cut)
    ensures Text(PrependChar(c, rest)) == [c] + Text(rest)
  {
    if rest.blocks != [] {
      JoinChar(c, rest);
    }
  }

  /** Cutting loses nothing. */
  lemma {:induction false} SplitText(s: string)
    ensures Text(SplitBlocks(s)) == s
  {
    if s == "" {
    } else if AtBlankLine(s) {
      SplitText(s[2..]);
      TextBlank(SplitBlocks(s[2..]));
      assert s == "\n\n" + s[2..];
    } else {
      SplitText(s[1..]);
      TextChar(s[0], SplitBlocks(s[1..]));
      assert s == [s[0]] + s[1..];
    }
  }

  /** What a finished block looks like: no blank line inside, and none begun at its end. */
  predicate Clean(b: string) {
    && (forall i :: 0 <= i < |b| - 1 ==> !(b[i] == '\n' && b[i + 1] == '\n'))
    && (b != "" ==> b[|b| - 1] != '\n')
  }

  lemma CleanChar(c: char, b: string)
    requires Clean(b) && (if b == "" then c != '\n' else !(c == '\n' && b[0] == '\n'))
    ensures Clean([c] + b)
  {
    assert forall i | 0 < i < |b| + 1 :: ([c] + b)[i] == b[i - 1];
  }

  lemma {:induction false} BlocksClean(s: string)
    ensures forall b | b in SplitBlocks(s).blocks :: Clean(b)
  {
    if s == "" {
    } else if AtBlankLine(s) {
      BlocksClean(s[2..]);
    } else {
      BlocksClean(s[1..]);
      var rest := SplitBlocks(s[1..]);
      if rest.blocks != [] {
        SplitText(s[1..]);
        var b := rest.blocks[0];
        assert s[1..] == b + "\n\n" + JoinBlocks(rest.blocks[1..]) + rest.remainder;
        assert if b == "" then s[1..][0] == '\n' else s[1..][0] == b[0];
        CleanChar(s[0], b);
      }
    }
  }

  lemma {:induction false} SplitOfBlock(b: string, y: string)
    requires Clean(b)
    ensures SplitBlocks(b + "\n\n" + y) == Cut([b] + SplitBlocks(y).blocks, SplitBlocks(y).remainder)
  {
    if b == "" {
      assert b + "\n\n" + y == "\n\n" + y;
      SplitBlank(y);
    } else {
      var t := b[1..] + "\n\n" + y;
      assert Clean(b[1..]) by { assert forall i | 0 <= i < |b| - 1 :: b[1..][i] == b[i + 1]; }
      SplitOfBlock(b[1..], y);
      assert b + "\n\n" + y == [b[0]] + t;
      SplitChar(b[0], t);
      assert [b[0]] + b[1..] == b;
    }
  }

  lemma SplitFirst(blocks: seq<string>, y: string)
    requires blocks != [] && forall b | b in blocks :: Clean(b)
    ensures var next := SplitBlocks(JoinBlocks(blocks[1..]) + y);
            SplitBlocks(JoinBlocks(blocks) + y) == Cut([blocks[0]] + next.blocks, next.remainder)
  {
    var tail := JoinBlocks(blocks[1..]) + y;
    assert blocks[0] in blocks;
    SplitOfBlock(blocks[0], tail);
    assert JoinBlocks(blocks) + y == blocks[0] + "\n\n" + tail;
  }

  /** The finished blocks of a text stay finished, and cut off, whatever follows them. */
  lemma {:induction false} SplitOfBlocks(blocks: seq<string>, y: string)
    requires forall b | b in blocks :: Clean(b)
    ensures SplitBlocks(JoinBlocks(blocks) + y) == Cut(blocks + SplitBlocks(y).blocks, SplitBlocks(y).remainder)
  {
    if blocks == [] {
      assert JoinBlocks([]) + y == y;
    } else {
      SplitOfBlocks(blocks[1..], y);
      SplitFirst(blocks, y);
      var more := SplitBlocks(y).blocks;
      assert [blocks[0]] + (blocks[1..] + more) == blocks + more;
    }
  }

  // ---------- folding CR LF ----------

  predicate NoCrCrLf(s: string) {
    forall i :: 0 <= i < |s| - 2 ==> !(s[i] == '\r' && s[i + 1] == '\r' && s[i + 2] == '\n')
  }

  predicate NoCrLf(s: string) {
    forall i :: 0 <= i < |s| - 1 ==> !(s[i] == '\r' && s[i + 1] == '\n')
  }

  lemma NormalizePair(t: string)
    ensures Normalize("\r\n" + t) == "\n" + Normalize(t)
  {
    assert ("\r\n" + t)[2..] == t;
  }

  lemma NormalizeChar(c: char, t: string)
    requires t == "" || c != '\r' || t[0] != '\n'
    ensures Normalize([c] + t) == [c] + Normalize(t)
  {
    assert ([c] + t)[1..] == t;
  }

  /** Folding distributes over a cut that does not fall inside a CR LF. */
  lemma {:induction false} NormalizeAppend(a: string, b: string)
    requires a == "" || b == "" || a[|a| - 1] != '\r' || b[0] != '\n'
    ensures Normalize(a + b) == Normalize(a) + Normalize(b)
  {
    if a == "" {
      assert a + b == b;
    } else if |a| >= 2 && a[0] == '\r' && a[1] == '\n' {
      var t := a[2..];
      NormalizeAppend(t, b);
      assert a == "\r\n" + t;
      Assoc("\r\n", t, b);
      NormalizePair(t + b);
      Assoc("\n", Normalize(t), Normalize(b));
    } else {
      var c, t := a[0], a[1..];
      NormalizeAppend(t, b);
      assert a == [c] + t;
      Assoc([c], t, b);
      assert t == "" ==> t + b == b;
      NormalizeChar(c, t + b);
      NormalizeChar(c, t);
      Assoc([c], Normalize(t), Normalize(b));
    }
  }

  lemma {:induction false} NormalizeClean(s: string)
    requires NoCrLf(s)
    ensures Normalize(s) == s
  {
    if s != "" {
      NormalizeClean(s[1..]);
      assert s == [s[0]] + s[1..];
    }
  }

  lemma {:induction false} NormalizeFirst(s: string)
    requires s != ""
    ensures Normalize(s) != "" && (Normalize(s)[0] == '\n' <==> s[0] == '\n' || (|s| >= 2 && s[0] == '\r' && s[1] == '\n'))
  {
  }

  lemma {:induction false} NormalizeIsClean(s: string)
    requires NoCrCrLf(s)
    ensures NoCrLf(Normalize(s))
  {
    if s == "" {
    } else if |s| >= 2 && s[0] == '\r' && s[1] == '\n' {
      NormalizeIsClean(s[2..]);
      var t := Normalize(s[2..]);
      assert forall i | 0 < i < |"\n" + t| :: ("\n" + t)[i] == t[i - 1];
    } else {
      NormalizeIsClean(s[1..]);
      var t := Normalize(s[1..]);
      assert forall i | 0 < i < |[s[0]] + t| :: ([s[0]] + t)[i] == t[i - 1];
      if |s| >= 2 {
        NormalizeFirst(s[1..]);
        assert |s| >= 3 ==> !(s[0] == '\r' && s[1] == '\r' && s[2] == '\n');
      }
    }
  }

  lemma NoCrCrLfSuffix(s: string, k: nat)
    requires NoCrCrLf(s) && k <= |s|
    ensures NoCrCrLf(s[k..])
  {
    assert forall i | 0 <= i < |s| - k :: s[k..][i] == s[k + i];
  }

  predicate FoldsAgain(a: string, b: string) {
    Normalize(Normalize(a) + b) == Normalize(a + b)
  }

  lemma AgainPair(t: string, b: string)
    requires FoldsAgain(t, b)
    ensures FoldsAgain("\r\n" + t, b)
  {
    NormalizePair(t);
    assert "\r\n" + t + b == "\r\n" + (t + b);
    NormalizePair(t + b);
    assert "\n" + Normalize(t) + b == ['\n'] + (Normalize(t) + b);
    NormalizeChar('\n', Normalize(t) + b);
  }

  lemma AgainChar(c: char, t: string, b: string)
    requires FoldsAgain(t, b) && t != "" && (c != '\r' || (t[0] != '\n' && (Normalize(t) + b)[0] != '\n'))
    ensures FoldsAgain([c] + t, b)
  {
    var folded := Normalize(t);
    assert Normalize([c] + t + b) == [c] + Normalize(t + b) by {
      Assoc([c], t, b);
      NormalizeChar(c, t + b);
    }
    assert Normalize([c] + t) == [c] + folded by { NormalizeChar(c, t); }
    assert Normalize([c] + folded + b) == [c] + Normalize(folded + b) by {
      Assoc([c], folded, b);
      NormalizeChar(c, folded + b);
    }
  }

  lemma AgainOne(c: char, b: string)
    ensures FoldsAgain([c], b)
  {
    assert [c] + "" == [c];
    NormalizeChar(c, "");
  }

  /** Folding what was folded before together with what follows gives the same as folding the whole. */
  lemma {:induction false} NormalizeAgain(a: string, b: string)
    requires NoCrCrLf(a + b)
    ensures FoldsAgain(a, b)
  {
    if a == "" {
      assert Normalize(a) + b == a + b;
    } else if |a| >= 2 && a[0] == '\r' && a[1] == '\n' {
      assert (a + b)[2..] == a[2..] + b;
      NoCrCrLfSuffix(a + b, 2);
      NormalizeAgain(a[2..], b);
      AgainPair(a[2..], b);
      assert "\r\n" + a[2..] == a;
    } else if |a| == 1 {
      AgainOne(a[0], b);
      assert a == [a[0]];
    } else {
      assert (a + b)[1..] == a[1..] + b;
      NoCrCrLfSuffix(a + b, 1);
      NormalizeAgain(a[1..], b);
      FoldedFirst(a, b);
      AgainChar(a[0], a[1..], b);
      assert [a[0]] + a[1..] == a;
    }
  }

  lemma FoldedFirst(a: string, b: string)
    requires |a| >= 2 && !(a[0] == '\r' && a[1] == '\n') && NoCrCrLf(a + b)
    ensures a[0] != '\r' || (Normalize(a[1..]) + b)[0] != '\n'
  {
    NormalizeFirst(a[1..]);
    if |a| >= 3 {
      assert (a + b)[0] == a[0] && (a + b)[1] == a[1] && (a + b)[2] == a[2];
    }
  }

  lemma {:induction false} NormalizeLength(s: string)
    ensures |Normalize(s)| <= |s|
  {
    if s == "" {
    } else if |s| >= 2 && s[0] == '\r' && s[1] == '\n' {
      NormalizeLength(s[2..]);
    } else {
      NormalizeLength(s[1..]);
    }
  }
}
