/** The stream format, as section 9.2.5 of the WHATWG HTML Standard gives it for whole messages with
    LF or CR LF line ends, and the proof that the reader inverts it, however the network cuts the stream. */
module SseRoundTrip {
  import opened Wrappers
  import opened TextLines
  import opened SseText
  import opened SseChunks
  import opened SseParser

  predicate OneLine(s: string) {
    '\n' !in s && '\r' !in s
  }

  /** Field values are single lines. Data may have several, but no CR. */
  predicate Sendable(m: Message) {
    (m.event.Some? ==> OneLine(m.event.value)) && (m.id.Some? ==> OneLine(m.id.value)) && '\r' !in m.data
  }

  /** A line that gives a field its value: with the optional space behind the colon, without it where
      the value does not begin with one, or the name alone for an empty value. */
  predicate Spells(line: string, name: string, value: string) {
    || line == name + ": " + value
    || (line == name + ":" + value && (value == "" || value[0] != ' '))
    || (line == name && value == "")
  }

  predicate SpellsOptional(lines: seq<string>, name: string, value: Option<string>) {
    if value.Some? then |lines| == 1 && Spells(lines[0], name, value.value) else lines == []
  }

  predicate SpellsEach(lines: seq<string>, name: string, values: seq<string>) {
    |lines| == |values| && forall i | 0 <= i < |lines| :: Spells(lines[i], name, values[i])
  }

  /** A message as its sender spells it, line by line. */
  datatype Sent = Sent(message: Message, event: seq<string>, id: seq<string>, data: seq<string>)

  predicate Proper(m: Sent) {
    && Sendable(m.message)
    && SpellsOptional(m.event, "event", m.message.event)
    && SpellsOptional(m.id, "id", m.message.id)
    && SpellsEach(m.data, "data", SplitLines(m.message.data))
  }

  predicate AllProper(ms: seq<Sent>) {
    forall i | 0 <= i < |ms| :: Proper(ms[i])
  }

  function LinesOf(m: Sent): seq<string> {
    m.event + m.id + m.data
  }

  function MessagesSent(ms: seq<Sent>): seq<Message> {
    seq(|ms|, i requires 0 <= i < |ms| => ms[i].message)
  }

  /** Each line with its line end. */
  function WithEnds(lines: seq<string>, eol: string): string {
    if lines == [] then "" else lines[0] + eol + WithEnds(lines[1..], eol)
  }

  function Encode(m: Sent, eol: string): string {
    WithEnds(LinesOf(m), eol) + eol
  }

  function EncodeAll(ms: seq<Sent>, eol: string): string {
    if ms == [] then "" else Encode(ms[0], eol) + EncodeAll(ms[1..], eol)
  }

  // ---------- lines ----------

  predicate Plain(l: string) {
    l != "" && OneLine(l)
  }

  lemma SpelledPlain(line: string, name: string, value: string)
    requires Spells(line, name, value) && Plain(name) && OneLine(value)
    ensures Plain(line)
  {
  }

  lemma LinesPlain(m: Sent)
    requires Proper(m)
    ensures LinesOf(m) != [] && forall l | l in LinesOf(m) :: Plain(l)
  {
    var values := SplitLines(m.message.data);
    SplitThenJoin(m.message.data);
    forall l | l in LinesOf(m)
      ensures Plain(l)
    {
      if l in m.event {
        SpelledPlain(l, "event", m.message.event.value);
      } else if l in m.id {
        SpelledPlain(l, "id", m.message.id.value);
      } else {
        var i :| 0 <= i < |m.data| && m.data[i] == l;
        assert values[i] in values;
        SpelledPlain(l, "data", values[i]);
      }
    }
    assert m.data != [];
  }

  // ---------- one block ----------

  lemma {:induction false} JoinedIsClean(lines: seq<string>)
    requires lines != [] && forall l | l in lines :: Plain(l)
    ensures Clean(JoinLines(lines)) && JoinLines(lines) != "" && JoinLines(lines)[0] != '\n'
    ensures WithEnds(lines, "\n") == JoinLines(lines) + "\n"
  {
    assert lines[0] in lines;
    var l := lines[0];
    assert l[0] in l && l[|l| - 1] in l;
    if |lines| == 1 {
      assert WithEnds(lines, "\n") == l + "\n" + WithEnds([], "\n");
      forall i | 0 <= i < |l| - 1
        ensures l[i] != '\n'
      {
        assert l[i] in l;
      }
    } else {
      JoinedIsClean(lines[1..]);
      CleanLine(l, JoinLines(lines[1..]));
    }
  }

  lemma CleanLine(l: string, t: string)
    requires Plain(l) && Clean(t) && t != "" && t[0] != '\n'
    ensures Clean(l + "\n" + t) && (l + "\n" + t)[0] != '\n'
  {
    var s := l + "\n" + t;
    forall i | 0 <= i < |s| - 1
      ensures !(s[i] == '\n' && s[i + 1] == '\n')
    {
      if i < |l| {
        assert s[i] == l[i] && l[i] in l;
      } else if i == |l| {
        assert s[i + 1] == t[0];
      } else {
        assert s[i] == t[i - |l| - 1] && s[i + 1] == t[i - |l|];
      }
    }
    assert s[0] == l[0] && l[0] in l && s[|s| - 1] == t[|t| - 1];
  }

  /** With the optional space the rest of the line is the value. */
  lemma ReadSpaced(f: Fields, name: string, value: string)
    requires ':' !in name && name != ""
    ensures ReadLine(f, name + ": " + value) == SetField(f, name, value)
  {
    var line := name + ": " + value;
    ColonAfter(name, " " + value);
    assert line == name + ":" + (" " + value);
    assert line[..|name|] == name && line[|name| + 1..] == " " + value;
    assert (" " + value)[1..] == value;
    assert line[0] == name[0] && name[0] in name;
  }

  /** Without it all behind the colon is, unless that begins with a space. */
  lemma ReadUnspaced(f: Fields, name: string, value: string)
    requires ':' !in name && name != "" && (value == "" || value[0] != ' ')
    ensures ReadLine(f, name + ":" + value) == SetField(f, name, value)
  {
    var line := name + ":" + value;
    ColonAfter(name, value);
    assert line[..|name|] == name && line[|name| + 1..] == value;
    assert line[0] == name[0] && name[0] in name;
  }

  lemma ReadBareName(f: Fields, name: string)
    requires ':' !in name && name != ""
    ensures ReadLine(f, name) == SetField(f, name, "")
  {
    IndexInRange(name, ':');
    assert name[0] in name;
  }

  lemma ReadField(f: Fields, line: string, name: string, value: string)
    requires (name == "event" || name == "id" || name == "data") && Spells(line, name, value)
    ensures ReadLine(f, line) == SetField(f, name, value)
  {
    if line == name + ": " + value {
      ReadSpaced(f, name, value);
    } else if line == name + ":" + value {
      ReadUnspaced(f, name, value);
    } else {
      ReadBareName(f, name);
    }
  }

  /** What each of the three names sets; a comment or any other name sets nothing. */
  lemma FieldsByName(f: Fields, value: string)
    ensures SetField(f, "event", value) == Fields(Some(value), f.id, f.dataLines)
    ensures SetField(f, "id", value) == Fields(f.event, Some(value), f.dataLines)
    ensures SetField(f, "data", value) == Fields(f.event, f.id, f.dataLines + [value])
  {
  }

  lemma OthersIgnored(f: Fields, name: string, rest: string)
    requires ':' !in name && name != "event" && name != "id" && name != "data"
    ensures ReadLine(f, name + ":" + rest) == f && ReadLine(f, name) == f
  {
    if name == "" {
      assert (name + ":" + rest)[0] == ':';
    } else {
      ReadBareName(f, name);
      if rest != "" && rest[0] == ' ' {
        assert name + ":" + rest == name + ": " + rest[1..];
        ReadSpaced(f, name, rest[1..]);
      } else {
        ReadUnspaced(f, name, rest);
      }
    }
  }

  lemma {:induction false} ReadData(f: Fields, lines: seq<string>, values: seq<string>)
    requires SpellsEach(lines, "data", values)
    ensures ReadLines(f, lines) == f.(dataLines := f.dataLines + values)
    decreases |values|
  {
    if values == [] {
      assert f.dataLines + [] == f.dataLines;
    } else {
      var g := f.(dataLines := f.dataLines + [values[0]]);
      FirstDataLine(f, lines, values);
      ReadData(g, lines[1..], values[1..]);
      assert f.dataLines + [values[0]] + values[1..] == f.dataLines + values;
    }
  }

  lemma FirstDataLine(f: Fields, lines: seq<string>, values: seq<string>)
    requires SpellsEach(lines, "data", values) && values != []
    ensures ReadLines(f, lines) == ReadLines(f.(dataLines := f.dataLines + [values[0]]), lines[1..])
    ensures SpellsEach(lines[1..], "data", values[1..])
  {
    ReadField(f, lines[0], "data", values[0]);
    ReadFirst(f, lines[0], lines[1..]);
    assert lines == [lines[0]] + lines[1..];
  }

  lemma ReadFirst(f: Fields, line: string, lines: seq<string>)
    ensures ReadLines(f, [line] + lines) == ReadLines(ReadLine(f, line), lines)
  {
    assert ([line] + lines)[1..] == lines;
  }

  lemma ReadOptional(f: Fields, lines: seq<string>, name: string, value: Option<string>)
    requires (name == "event" || name == "id") && SpellsOptional(lines, name, value)
    ensures ReadLines(f, lines) == if value.Some? then SetField(f, name, value.value) else f
  {
    if value.Some? {
      ReadField(f, lines[0], name, value.value);
      assert lines == [lines[0]] + [];
      ReadFirst(f, lines[0], []);
    }
  }

  lemma BlockGivesMessage(m: Sent)
    requires Proper(m)
    ensures ParseBlock(JoinLines(LinesOf(m))) == [m.message]
  {
    LinesPlain(m);
    JoinThenSplit(LinesOf(m));
    var values := SplitLines(m.message.data);
    ReadLinesAppend(NO_FIELDS, m.event + m.id, m.data);
    ReadLinesAppend(NO_FIELDS, m.event, m.id);
    ReadOptional(NO_FIELDS, m.event, "event", m.message.event);
    ReadOptional(ReadLines(NO_FIELDS, m.event), m.id, "id", m.message.id);
    ReadData(ReadLines(NO_FIELDS, m.event + m.id), m.data, values);
    assert [] + values == values;
    SplitThenJoin(m.message.data);
  }

  // ---------- the whole stream ----------

  lemma FirstOfStream(ms: seq<Sent>)
    requires ms != [] && Proper(ms[0])
    ensures Clean(JoinLines(LinesOf(ms[0])))
    ensures EncodeAll(ms, "\n") == JoinLines(LinesOf(ms[0])) + "\n\n" + EncodeAll(ms[1..], "\n")
  {
    var block, rest := JoinLines(LinesOf(ms[0])), EncodeAll(ms[1..], "\n");
    LinesPlain(ms[0]);
    JoinedIsClean(LinesOf(ms[0]));
    assert block + "\n" + "\n" + rest == block + "\n\n" + rest;
  }

  predicate ReadsAs(text: string, messages: seq<Message>) {
    Messages(SplitBlocks(text).blocks) == messages && SplitBlocks(text).remainder == ""
  }

  lemma BlockThen(block: string, m: Message, rest: string, more: seq<Message>)
    requires Clean(block) && ParseBlock(block) == [m] && ReadsAs(rest, more)
    ensures ReadsAs(block + "\n\n" + rest, [m] + more)
  {
    SplitOfBlock(block, rest);
    MessagesFirst(block, SplitBlocks(rest).blocks);
  }

  lemma AllProperRest(ms: seq<Sent>)
    requires AllProper(ms) && ms != []
    ensures Proper(ms[0]) && AllProper(ms[1..])
  {
  }

  lemma MessagesSentFirst(ms: seq<Sent>)
    requires ms != []
    ensures MessagesSent(ms) == [ms[0].message] + MessagesSent(ms[1..])
  {
    assert MessagesSent(ms) == [ms[0].message] + MessagesSent(ms[1..]);
  }

  lemma {:induction false} BlocksOfStream(ms: seq<Sent>)
    requires AllProper(ms)
    ensures ReadsAs(EncodeAll(ms, "\n"), MessagesSent(ms))
  {
    if ms != [] {
      AllProperRest(ms);
      BlocksOfStream(ms[1..]);
      FirstOfStream(ms);
      BlockGivesMessage(ms[0]);
      BlockThen(JoinLines(LinesOf(ms[0])), ms[0].message, EncodeAll(ms[1..], "\n"), MessagesSent(ms[1..]));
      MessagesSentFirst(ms);
    }
  }

  predicate LineEnd(eol: string) {
    eol == "\n" || eol == "\r\n"
  }

  /** Every CR is followed by an LF. */
  predicate CrsPaired(s: string) {
    forall i :: 0 <= i < |s| && s[i] == '\r' ==> i + 1 < |s| && s[i + 1] == '\n'
  }

  lemma CrsPairedAppend(a: string, b: string)
    requires CrsPaired(a) && CrsPaired(b)
    ensures CrsPaired(a + b)
  {
    forall i | 0 <= i < |a + b| && (a + b)[i] == '\r'
      ensures i + 1 < |a + b| && (a + b)[i + 1] == '\n'
    {
      if i >= |a| {
        assert (a + b)[i] == b[i - |a|];
      }
    }
  }

  /** A line with its end, folded. */
  lemma FoldLine(l: string, eol: string, t: string)
    requires '\r' !in l && LineEnd(eol)
    ensures Normalize(l + eol + t) == l + "\n" + Normalize(t)
    ensures CrsPaired(l + eol)
  {
    NormalizeClean(l);
    NormalizeAppend(l + eol, t);
    NormalizeAppend(l, eol);
    assert "\r\n"[2..] == "" && "\n"[1..] == "";
    assert Normalize(eol) == "\n";
    assert l + eol + t == (l + eol) + t;
  }

  lemma {:induction false} FoldLines(lines: seq<string>, eol: string, t: string)
    requires LineEnd(eol) && forall l | l in lines :: '\r' !in l
    ensures Normalize(WithEnds(lines, eol) + t) == WithEnds(lines, "\n") + Normalize(t)
  {
    if lines == [] {
      assert "" + t == t && "" + Normalize(t) == Normalize(t);
    } else {
      assert lines[0] in lines;
      FoldLines(lines[1..], eol, t);
      FoldLine(lines[0], eol, WithEnds(lines[1..], eol) + t);
      Assoc(lines[0] + eol, WithEnds(lines[1..], eol), t);
      Assoc(lines[0] + "\n", WithEnds(lines[1..], "\n"), Normalize(t));
    }
  }

  lemma {:induction false} LinesPaired(lines: seq<string>, eol: string)
    requires LineEnd(eol) && forall l | l in lines :: '\r' !in l
    ensures CrsPaired(WithEnds(lines, eol))
  {
    if lines != [] {
      assert lines[0] in lines;
      LinesPaired(lines[1..], eol);
      FoldLine(lines[0], eol, "");
      CrsPairedAppend(lines[0] + eol, WithEnds(lines[1..], eol));
    }
  }

  lemma FoldMessage(m: Sent, eol: string, rest: string)
    requires LineEnd(eol) && Proper(m)
    ensures Normalize(Encode(m, eol) + rest) == Encode(m, "\n") + Normalize(rest)
    ensures CrsPaired(Encode(m, eol))
  {
    LinesPlain(m);
    FoldLines(LinesOf(m), eol, eol + rest);
    FoldEnd(eol, rest);
    LinesPaired(LinesOf(m), eol);
    CrsPairedAppend(WithEnds(LinesOf(m), eol), eol);
    Assoc(WithEnds(LinesOf(m), eol), eol, rest);
    Assoc(WithEnds(LinesOf(m), "\n"), "\n", Normalize(rest));
  }

  lemma FoldEnd(eol: string, rest: string)
    requires LineEnd(eol)
    ensures Normalize(eol + rest) == "\n" + Normalize(rest) && CrsPaired(eol)
  {
    FoldLine("", eol, rest);
    assert "" + eol == eol && "" + "\n" + Normalize(rest) == "\n" + Normalize(rest);
  }

  lemma {:induction false} FoldStream(ms: seq<Sent>, eol: string)
    requires LineEnd(eol) && AllProper(ms)
    ensures Normalize(EncodeAll(ms, eol)) == EncodeAll(ms, "\n") && CrsPaired(EncodeAll(ms, eol))
  {
    if ms != [] {
      AllProperRest(ms);
      FoldStream(ms[1..], eol);
      FoldMessage(ms[0], eol, EncodeAll(ms[1..], eol));
      CrsPairedAppend(Encode(ms[0], eol), EncodeAll(ms[1..], eol));
    }
  }

  /** A server that sends well-formed messages, spelling each line as it likes, with either line end,
      over a network that cuts the stream anywhere, is understood exactly: the reader gets those
      messages and nothing is left over. */
  lemma DeliveredExactly(ms: seq<Sent>, eol: string, chunks: seq<string>)
    requires LineEnd(eol) && AllProper(ms)
    requires Concat(chunks) == EncodeAll(ms, eol)
    ensures var cut := Feed(NOTHING_READ, chunks); Messages(cut.blocks) == MessagesSent(ms) && cut.remainder == ""
  {
    FoldStream(ms, eol);
    assert NoCrCrLf(Concat(chunks));
    ChunkIndependence(chunks);
    BlocksOfStream(ms);
  }
}
