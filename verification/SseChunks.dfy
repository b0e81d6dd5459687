/** The incremental reader against the whole stream: when cutting the stream into chunks makes no difference. */
module SseChunks {
  import opened SseText

  /** One call on a text: fold, cut at blank lines, keep the rest. */
  function Parse(s: string): Cut {
    SplitBlocks(Normalize(s))
  }

  const NOTHING_READ := Cut([], "")

  /** One chunk of the read loop: the buffer and the chunk are parsed together, the rest is kept. */
  function Absorb(sofar: Cut, chunk: string): Cut {
    var cut := Parse(sofar.remainder + chunk);
    Cut(sofar.blocks + cut.blocks, cut.remainder)
  }

  function Feed(sofar: Cut, chunks: seq<string>): Cut
    decreases |chunks|
  {
    if chunks == [] then sofar else Feed(Absorb(sofar, chunks[0]), chunks[1..])
  }

  function Concat(chunks: seq<string>): string {
    if chunks == [] then "" else chunks[0] + Concat(chunks[1..])
  }

  /** What was cut off a text without CR CR LF holds no CR LF. */
  lemma DoneIsFolded(w: string)
    requires NoCrCrLf(w)
    ensures Normalize(JoinBlocks(Parse(w).blocks)) == JoinBlocks(Parse(w).blocks)
  {
    var done := JoinBlocks(Parse(w).blocks);
    SplitText(Normalize(w));
    NormalizeIsClean(w);
    assert NoCrLf(done) by { assert forall i | 0 <= i < |done| :: Normalize(w)[i] == done[i]; }
    NormalizeClean(done);
  }

  /** The blocks already cut off need not be looked at again. */
  lemma FoldAfterDone(w: string, chunk: string)
    requires NoCrCrLf(w)
    ensures var cut := Parse(w);
            Normalize(Normalize(w) + chunk) == JoinBlocks(cut.blocks) + Normalize(cut.remainder + chunk)
  {
    var cut := Parse(w);
    var done := JoinBlocks(cut.blocks);
    SplitText(Normalize(w));
    DoneIsFolded(w);
    JoinEnds(cut.blocks);
    NormalizeAppend(done, cut.remainder + chunk);
    assert Normalize(w) + chunk == done + (cut.remainder + chunk);
  }

  /** What was read of w, plus one more chunk, is what is read of both together. */
  lemma AbsorbMore(w: string, chunk: string)
    requires NoCrCrLf(w + chunk)
    ensures Absorb(Parse(w), chunk) == Parse(w + chunk)
  {
    var cut := Parse(w);
    NormalizeAgain(w, chunk);
    assert NoCrCrLf(w) by { assert forall i | 0 <= i < |w| :: (w + chunk)[i] == w[i]; }
    FoldAfterDone(w, chunk);
    BlocksClean(Normalize(w));
    SplitOfBlocks(cut.blocks, Normalize(cut.remainder + chunk));
  }

  lemma {:induction false} JoinEnds(blocks: seq<string>)
    ensures blocks != [] ==>
              var j := JoinBlocks(blocks); |j| >= 2 && j[|j| - 1] == '\n' && j[|j| - 2] == '\n'
  {
    if blocks != [] {
      JoinEnds(blocks[1..]);
    }
  }

  lemma {:induction false} FeedFrom(w: string, chunks: seq<string>)
    requires NoCrCrLf(w + Concat(chunks))
    ensures Feed(Parse(w), chunks) == Parse(w + Concat(chunks))
    decreases |chunks|
  {
    if chunks == [] {
      assert w + "" == w;
    } else {
      var whole, sofar := w + Concat(chunks), w + chunks[0];
      assert whole == sofar + Concat(chunks[1..]);
      assert NoCrCrLf(sofar) by { assert forall i | 0 <= i < |sofar| :: whole[i] == sofar[i]; }
      AbsorbMore(w, chunks[0]);
      FeedFrom(sofar, chunks[1..]);
    }
  }

  /** Chunk independence: a stream without CR CR LF gives the same blocks and the same rest however
      it is cut, also inside a CR LF or a blank line. */
  lemma ChunkIndependence(chunks: seq<string>)
    requires NoCrCrLf(Concat(chunks))
    ensures Feed(NOTHING_READ, chunks) == Parse(Concat(chunks))
  {
    assert "" + Concat(chunks) == Concat(chunks);
    FeedFrom("", chunks);
  }

  // ---------- the condition is exact ----------

  lemma TextLength(cut: Cut, more: Cut)
    ensures |Text(Cut(cut.blocks + more.blocks, more.remainder))| == |JoinBlocks(cut.blocks)| + |Text(more)|
  {
    JoinAppend(cut.blocks, more.blocks);
  }

  lemma {:induction false} JoinAppend(a: seq<string>, b: seq<string>)
    ensures JoinBlocks(a + b) == JoinBlocks(a) + JoinBlocks(b)
  {
    if a == [] {
      assert a + b == b;
    } else {
      JoinAppend(a[1..], b);
      assert (a + b)[1..] == a[1..] + b;
    }
  }

  /** Folding a text that ends in CR CR LF leaves one that ends in CR LF. */
  lemma FoldLeavesPair(u: string)
    ensures Normalize(u + "\r\r\n") == Normalize(u) + "\r\n"
  {
    assert u + "\r\r\n" == (u + "\r") + "\r\n";
    NormalizeAppend(u + "\r", "\r\n");
    NormalizeAppend(u, "\r");
    assert "\r\n"[2..] == "" && "\r"[1..] == "";
    assert Normalize("\r\n") == "\n" && Normalize("\r") == "\r";
    assert Normalize(u) + "\r" + "\n" == Normalize(u) + "\r\n";
  }

  /** A text that still ends in CR LF shrinks when it is folded once more with what follows. */
  lemma FoldShrinks(r: string, b: string)
    requires EndsInPair(r)
    ensures |Normalize(r + b)| < |r| + |Normalize(b)|
  {
    var u := r[..|r| - 2];
    assert r == u + "\r\n";
    NormalizeAppend(r, b);
    NormalizeAppend(u, "\r\n");
    assert "\r\n"[2..] == "";
    assert Normalize("\r\n") == "\n";
    NormalizeLength(u);
  }

  predicate EndsInPair(s: string) {
    |s| >= 2 && s[|s| - 2] == '\r' && s[|s| - 1] == '\n'
  }

  lemma RemainderEndsInPair(n: string)
    requires EndsInPair(n)
    ensures EndsInPair(SplitBlocks(n).remainder)
  {
    var cut := SplitBlocks(n);
    SplitText(n);
    JoinEnds(cut.blocks);
    assert n == JoinBlocks(cut.blocks) + cut.remainder;
  }

  lemma FeedTwo(a: string, b: string)
    ensures Feed(NOTHING_READ, [a, b]) == Absorb(Parse(a), b)
  {
    assert "" + a == a && [] + Parse(a).blocks == Parse(a).blocks;
    assert [a, b][1..] == [b] && [b][1..] == [];
    assert Absorb(NOTHING_READ, a) == Parse(a);
    assert Feed(Parse(a), [b]) == Feed(Absorb(Parse(a), b), []);
  }

  /** A cut right behind a CR CR LF always shows: the text read is shorter. */
  lemma CutShows(a: string, u: string, b: string)
    requires a == u + "\r\r\n"
    ensures Feed(NOTHING_READ, [a, b]) != Parse(a + b)
  {
    var first := Parse(a);
    FeedTwo(a, b);
    FoldLeavesPair(u);
    RemainderEndsInPair(Normalize(a));
    FoldShrinks(first.remainder, b);
    SplitText(Normalize(a));
    SplitText(Normalize(first.remainder + b));
    TextLength(first, Parse(first.remainder + b));
    NormalizeAppend(a, b);
    SplitText(Normalize(a + b));
  }

  /** Every way of cutting the stream gives what one call on the whole gives, exactly when the
      stream holds no CR CR LF. */
  lemma ChunkIndependenceIff(w: string)
    ensures (forall chunks | Concat(chunks) == w :: Feed(NOTHING_READ, chunks) == Parse(w)) <==> NoCrCrLf(w)
  {
    if NoCrCrLf(w) {
      forall chunks | Concat(chunks) == w
        ensures Feed(NOTHING_READ, chunks) == Parse(w)
      {
        ChunkIndependence(chunks);
      }
    } else {
      var i :| 0 <= i < |w| - 2 && w[i] == '\r' && w[i + 1] == '\r' && w[i + 2] == '\n';
      var u, b := w[..i], w[i + 3..];
      var a := u + "\r\r\n";
      assert w == a + b;
      var chunks := [a, b];
      assert chunks[1..] == [b] && [b][1..] == [];
      assert Concat([b]) == b + Concat([]) == b;
      assert Concat(chunks) == w;
      CutShows(a, u, b);
    }
  }
}
