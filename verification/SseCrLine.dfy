/** Why a line of CRs alone is a case of its own: it may become blank, and then it ends its block. */
module SseCrLine {
  import opened Wrappers
  import opened TextLines
  import opened SseText
  import opened SseChunks
  import opened SseParser
  import opened SseLines
  import opened SseThinning
  import opened SseReading

  const EVENT := "event"
  const DATA := "data: a"

  lemma EventSettings()
    ensures SettingOf(EVENT) == Sets("event", "")
    ensures SettingOf("\r") == Nothing
  {
    NotKnownCr("\r");
    IndexInRange(EVENT, ':');
    assert ':' !in EVENT;
  }

  lemma LongEventSettings()
    ensures SettingOf(EVENT + "\r\r") == Nothing
  {
    NotKnownEnd(EVENT, "\r\r");
    IndexInRange(EVENT + "\r\r", ':');
    assert ':' !in EVENT + "\r\r";
  }

  lemma DataSettings()
    ensures SettingOf(DATA) == Sets("data", "a")
  {
    ColonAfter("data", " a");
    assert DATA == "data" + ":" + " a";
    assert DATA[..4] == "data" && DATA[5..] == " a" && " a"[1..] == "a";
  }

  /** A block of a line that may name an event, an unknown line, and one that holds the data. */
  lemma MessageOfThree(a: string, b: string)
    requires SettingOf(b) == Nothing
    requires SettingOf(a) == Nothing || SettingOf(a) == Sets("event", "")
    ensures ParseLines([a, b, DATA]) == [Message(if SettingOf(a) == Nothing then None else Some(""), None, "a")]
  {
    DataSettings();
    assert [a, b, DATA] == [] + [a] + [b] + [DATA];
    Snoc([], a, "event");
    Snoc([] + [a], b, "event");
    Snoc([] + [a] + [b], DATA, "event");
    Snoc([], a, "id");
    Snoc([] + [a], b, "id");
    Snoc([] + [a] + [b], DATA, "id");
    MessageOf([a, b, DATA]);
  }

  lemma MessageOfOne(l: string)
    requires SettingOf(l) == Sets("event", "") || SettingOf(l) == Sets("data", "a")
    ensures ParseLines([l]) == if SettingOf(l).field == "data" then [Message(None, None, "a")] else []
  {
    assert [l] == [] + [l];
    Snoc([], l, "event");
    Snoc([], l, "id");
    MessageOf([l]);
  }

  lemma OneBlock(a: string, b: string)
    requires a != "" && b != ""
    ensures CutFrom([], [a, b, DATA, "", ""]) == LineCut([[a, b, DATA]], [""])
  {
    assert [a, b, DATA, "", ""][1..] == [b, DATA, "", ""] && [b, DATA, "", ""][1..] == [DATA, "", ""];
    assert [DATA, "", ""][1..] == ["", ""] && ["", ""][1..] == [""];
    assert [] + [a] == [a] && [a] + [b] == [a, b] && [a, b] + [DATA] == [a, b, DATA];
    assert CutFrom([], [""]) == LineCut([], [""]);
    assert CutFrom([a, b, DATA], ["", ""]) == LineCut([[a, b, DATA]], [""]);
    assert CutFrom([a, b], [DATA, "", ""]) == CutFrom([a, b, DATA], ["", ""]);
    assert CutFrom([a], [b, DATA, "", ""]) == CutFrom([a, b], [DATA, "", ""]);
  }

  lemma TwoBlocks()
    ensures CutFrom([], [EVENT, "", DATA, "", ""]) == LineCut([[EVENT], [DATA]], [""])
  {
    assert [EVENT, "", DATA, "", ""][1..] == ["", DATA, "", ""] && ["", DATA, "", ""][1..] == [DATA, "", ""];
    assert [DATA, "", ""][1..] == ["", ""] && ["", ""][1..] == [""];
    assert [] + [EVENT] == [EVENT] && [] + [DATA] == [DATA];
    assert CutFrom([], [""]) == LineCut([], [""]);
    assert CutFrom([DATA], ["", ""]) == LineCut([[DATA]], [""]);
    assert CutFrom([], [DATA, "", ""]) == CutFrom([DATA], ["", ""]);
    assert CutFrom([EVENT], ["", DATA, "", ""]) == LineCut([[EVENT], [DATA]], [""]);
  }

  /** How these lines read, in one piece. */
  lemma ReadingOfLines(text: string, ls: seq<string>, groups: seq<seq<string>>)
    requires SplitLines(text) == ls && CutFrom([], ls) == LineCut(groups, [""])
    ensures Read(SplitBlocks(text)) == Reading(MessagesOf(groups), "")
  {
    SplitByLines(text);
    MessagesByLines(groups);
    assert JoinLines([""]) == "";
  }

  lemma MessagesOfOne(g: seq<string>)
    ensures MessagesOf([g]) == ParseLines(g)
  {
    assert [g][1..] == [];
    assert ParseLines(g) + [] == ParseLines(g);
  }

  lemma MessagesOfTwo(g: seq<string>, h: seq<string>)
    ensures MessagesOf([g, h]) == ParseLines(g) + ParseLines(h)
  {
    assert [g, h][1..] == [h];
    MessagesOfOne(h);
  }

  /** An event line with two extra CRs, a line of two CRs, a data line, a blank one. */
  function Stream(): string {
    JoinLines([EVENT + "\r\r\r", "\r\r", DATA, "", ""])
  }

  /** One line with k CRs at its end, chopped and bare. */
  lemma CrsAtEnd(l: string)
    ensures Chop(l + "\r") == l && Bare(l + "\r") == Bare(l)
  {
    assert (l + "\r")[..|l + "\r"| - 1] == l;
  }

  lemma EventLines()
    ensures Chop(EVENT + "\r\r\r") == EVENT + "\r\r" && Chop(EVENT + "\r\r") == EVENT + "\r" && Chop(EVENT + "\r") == EVENT
    ensures Bare(EVENT + "\r\r\r") == EVENT && Bare(EVENT) == EVENT
  {
    assert EVENT + "\r\r\r" == EVENT + "\r\r" + "\r" && EVENT + "\r\r" == EVENT + "\r" + "\r";
    CrsAtEnd(EVENT + "\r\r");
    CrsAtEnd(EVENT + "\r");
    CrsAtEnd(EVENT);
  }

  lemma CrsOnly()
    ensures Chop("\r\r") == "\r" && Bare("\r\r") == ""
  {
    CrsAtEnd("\r");
    CrsAtEnd("");
  }

  lemma EndsInLetter(l: string)
    requires l != "" && l[|l| - 1] != '\r'
    ensures Chop(l) == l && Bare(l) == l
  {
  }

  lemma OtherLines()
    ensures Chop("\r\r") == "\r" && Bare("\r\r") == "" && Chop(DATA) == DATA && Bare(DATA) == DATA
  {
    CrsOnly();
    assert DATA[6] == 'a';
    EndsInLetter(DATA);
  }

  /** The lines behind the first. */
  function RestLines(): seq<string> {
    ["\r\r", DATA, "", ""]
  }

  lemma RestFacts()
    ensures SplitLines(JoinLines(RestLines())) == RestLines() && ChopLines(RestLines()) == ["\r", DATA, "", ""]
  {
    OtherLines();
    TextOfLines(RestLines());
    assert Chop("") == "";
  }

  lemma StreamSplits()
    ensures SplitLines(Stream()) == [EVENT + "\r\r\r", "\r\r", DATA, "", ""]
  {
    TextOfLines([EVENT + "\r\r\r", "\r\r", DATA, "", ""]);
  }

  lemma Five(a: string, b: string, c: string)
    ensures ChopLines([a, b, c, "", ""]) == [Chop(a), Chop(b), Chop(c), "", ""]
    ensures BareLines([a, b, c, "", ""]) == [Bare(a), Bare(b), Bare(c), "", ""]
  {
    assert Chop("") == "" && Bare("") == "";
  }

  lemma StreamLines()
    ensures SplitLines(Stream()) == [EVENT + "\r\r\r", "\r\r", DATA, "", ""]
    ensures ChopLines(SplitLines(Stream())) == [EVENT + "\r\r", "\r", DATA, "", ""]
    ensures BareLines(SplitLines(Stream())) == [EVENT, "", DATA, "", ""]
    ensures !NoCrLine(Stream())
  {
    StreamSplits();
    EventLines();
    OtherLines();
    Five(EVENT + "\r\r\r", "\r\r", DATA);
    assert Bare(SplitLines(Stream())[1]) == "";
  }

  /** The first line is read, folded twice more, and then the rest comes. */
  function Cuts(): seq<string> {
    [EVENT + "\r\r\r" + "\n"] + (["", ""] + [JoinLines(RestLines())])
  }

  lemma CutsConcat()
    ensures Concat(Cuts()) == Stream()
  {
    var first, rest := EVENT + "\r\r\r", RestLines();
    JoinFirst(first, rest);
    assert [first] + rest == [EVENT + "\r\r\r", "\r\r", DATA, "", ""];
    var last := [JoinLines(rest)];
    assert last[1..] == [] && Concat(last) == JoinLines(rest) + Concat([]);
    assert (["", ""] + last)[1..] == [""] + last && ([""] + last)[1..] == last;
    assert Concat([""] + last) == "" + Concat(last) && Concat(["", ""] + last) == "" + Concat([""] + last);
    assert Cuts()[1..] == ["", ""] + last;
  }

  lemma FirstLineFolded() returns (sofar: Cut)
    ensures sofar == Feed(NOTHING_READ, [EVENT + "\r\r\r" + "\n"] + ["", ""])
    ensures Holds(sofar, [EVENT] + [""])
  {
    var l := EVENT + "\r\r\r";
    EventLines();
    assert Text(NOTHING_READ) == "" + "" && SplitLines("") == [""] && [] + [""] == [""];
    LinesOfLine(l);
    NewLines(NOTHING_READ, [], l + "\n");
    var s1 := Absorb(NOTHING_READ, l + "\n");
    assert [] + [EVENT + "\r\r", ""] == [EVENT + "\r\r", ""];
    OneMoreFold(s1, [], EVENT + "\r\r");
    var s2 := Absorb(s1, "");
    OneMoreFold(s2, [], EVENT + "\r");
    sofar := Absorb(s2, "");
    assert [] + [EVENT, ""] == [EVENT] + [""];
    FirstChunk(NOTHING_READ, l + "\n", ["", ""]);
    assert ["", ""] == [""] + [""] && [""] == [""] + [];
    FirstChunk(s1, "", [""]);
    FirstChunk(s2, "", []);
  }

  lemma CutsJoin(sofar: Cut)
    requires sofar == Feed(NOTHING_READ, [EVENT + "\r\r\r" + "\n"] + ["", ""])
    ensures Feed(NOTHING_READ, Cuts()) == Absorb(sofar, JoinLines(RestLines()))
  {
    var first, last := [EVENT + "\r\r\r" + "\n"] + ["", ""], JoinLines(RestLines());
    assert Cuts() == first + [last] && [last] == [last] + [];
    FeedJoin(NOTHING_READ, first, [last]);
    FirstChunk(sofar, last, []);
  }

  lemma RestArrives(sofar: Cut)
    requires Holds(sofar, [EVENT] + [""])
    ensures Holds(Absorb(sofar, JoinLines(RestLines())), [EVENT] + ["\r", DATA, "", ""])
  {
    EventLines();
    RestFacts();
    NewLines(sofar, [EVENT], JoinLines(RestLines()));
  }

  lemma CutsHold()
    ensures Holds(Feed(NOTHING_READ, Cuts()), [EVENT, "\r", DATA, "", ""])
  {
    var sofar := FirstLineFolded();
    CutsJoin(sofar);
    RestArrives(sofar);
    assert [EVENT] + ["\r", DATA, "", ""] == [EVENT, "\r", DATA, "", ""];
  }

  /** On such a stream the bare form does not decide: this one reads as its bare form does, with an
      unnamed event, and yet there is a cut behind which the event has a name. */
  lemma CrLineShows()
    ensures !NoCrLine(Stream()) && ReadWhole(Stream()) == ReadWhole(WithoutCrs(Stream())) && !CutsDoNotShow(Stream())
  {
    var w := Stream();
    StreamLines();
    EventSettings();
    WholeReading();
    BareReading();
    CutsConcat();
    CutsHold();
    var cut := Feed(NOTHING_READ, Cuts());
    OneBlock(EVENT, "\r");
    ReadingOfLines(Text(cut), [EVENT, "\r", DATA, "", ""], [[EVENT, "\r", DATA]]);
    MessagesOfOne([EVENT, "\r", DATA]);
    MessageOfThree(EVENT, "\r");
    assert ReadChunks(Cuts()) != ReadWhole(w);
  }

  lemma WholeReading()
    ensures ReadWhole(Stream()) == Reading([Message(None, None, "a")], "")
  {
    StreamLines();
    EventSettings();
    LongEventSettings();
    NormalizeLines(Stream());
    OneBlock(EVENT + "\r\r", "\r");
    ReadingOfLines(Normalize(Stream()), [EVENT + "\r\r", "\r", DATA, "", ""], [[EVENT + "\r\r", "\r", DATA]]);
    MessagesOfOne([EVENT + "\r\r", "\r", DATA]);
    MessageOfThree(EVENT + "\r\r", "\r");
  }

  lemma BareReading()
    ensures ReadWhole(WithoutCrs(Stream())) == Reading([Message(None, None, "a")], "")
  {
    StreamLines();
    BareByLines(Stream());
    TwoBlocks();
    EventSettings();
    DataSettings();
    ReadingOfLines(WithoutCrs(Stream()), [EVENT, "", DATA, "", ""], [[EVENT], [DATA]]);
    MessagesOfTwo([EVENT], [DATA]);
    MessageOfOne(EVENT);
    MessageOfOne(DATA);
  }
}
