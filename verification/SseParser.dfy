/** Server-sent event messages: the block parser, the read loop as the program runs it, and the
    messages a well-formed stream delivers. The data text is kept as text: decoding it as JSON
    happens after this point. */
module SseParser {
  import opened Wrappers
  import opened TextLines
  import opened SseText
  import opened SseChunks

  datatype Message = Message(event: Option<string>, id: Option<string>, data: string)

  /** The fields collected from the lines of one block. */
  datatype Fields = Fields(event: Option<string>, id: Option<string>, dataLines: seq<string>)

  const NO_FIELDS := Fields(None, None, [])

  // ---------- lines and fields ----------

  function IndexOf(s: string, c: char): Option<nat> {
    if s == "" then None
    else if s[0] == c then Some(0)
    else
      match IndexOf(s[1..], c)
      case None => None
      case Some(k) => Some(k + 1)
  }

  function DropOneSpace(s: string): string {
    if s != "" && s[0] == ' ' then s[1..] else s
  }

  function SetField(f: Fields, field: string, value: string): Fields {
    if field == "event" then f.(event := Some(value))
    else if field == "id" then f.(id := Some(value))
    else if field == "data" then f.(dataLines := f.dataLines + [value])
    else f
  }

  function ReadLine(f: Fields, line: string): Fields {
    if line == "" || line[0] == ':' then f
    else
      match IndexOf(line, ':')
      case None => SetField(f, line, "")
      case Some(k) => if k < |line| then SetField(f, line[..k], DropOneSpace(line[k + 1..])) else f
  }

  function ReadLines(f: Fields, lines: seq<string>): Fields
    decreases |lines|
  {
    if lines == [] then f else ReadLines(ReadLine(f, lines[0]), lines[1..])
  }

  /** A block without a data line gives no message. */
  function ParseBlock(block: string): seq<Message> {
    var f := ReadLines(NO_FIELDS, SplitLines(block));
    if f.dataLines == [] then [] else [Message(f.event, f.id, JoinLines(f.dataLines))]
  }

  function Messages(blocks: seq<string>): seq<Message> {
    if blocks == [] then [] else ParseBlock(blocks[0]) + Messages(blocks[1..])
  }

  lemma MessagesFirst(block: string, more: seq<string>)
    ensures Messages([block] + more) == ParseBlock(block) + Messages(more)
  {
    assert ([block] + more)[1..] == more;
  }

  lemma MessagesStep(block: string, rest: seq<string>, b: seq<string>)
    requires Messages(rest + b) == Messages(rest) + Messages(b)
    ensures Messages([block] + rest + b) == Messages([block] + rest) + Messages(b)
  {
    Assoc([block], rest, b);
    MessagesFirst(block, rest + b);
    MessagesFirst(block, rest);
    Assoc(ParseBlock(block), Messages(rest), Messages(b));
  }

  lemma {:induction false} MessagesAppend(a: seq<string>, b: seq<string>)
    ensures Messages(a + b) == Messages(a) + Messages(b)
  {
    if a == [] {
      assert a + b == b;
    } else {
      MessagesAppend(a[1..], b);
      MessagesStep(a[0], a[1..], b);
      assert [a[0]] + a[1..] == a;
    }
  }

  lemma {:induction false} ReadLinesAppend(f: Fields, a: seq<string>, b: seq<string>)
    ensures ReadLines(f, a + b) == ReadLines(ReadLines(f, a), b)
    decreases |a|
  {
    if a == [] {
      assert a + b == b;
    } else {
      assert (a + b)[1..] == a[1..] + b;
      ReadLinesAppend(ReadLine(f, a[0]), a[1..], b);
    }
  }

  // ---------- the program's loops ----------

  /** One line of a block. */
  method TakeLine(line: string, event: Option<string>, id: Option<string>, dataLines: seq<string>)
    returns (event': Option<string>, id': Option<string>, dataLines': seq<string>)
    ensures Fields(event', id', dataLines') == ReadLine(Fields(event, id, dataLines), line)
  {
    event', id', dataLines' := event, id, dataLines;
    if line == "" || line[0] == ':' {
      return;
    }
    var separator := IndexOf(line, ':');
    IndexInRange(line, ':');
    var field := if separator.None? then line else line[..separator.value];
    var value := if separator.None? then "" else DropOneSpace(line[separator.value + 1..]);
    if field == "event" {
      event' := Some(value);
    }
    if field == "id" {
      id' := Some(value);
    }
    if field == "data" {
      dataLines' := dataLines + [value];
    }
  }

  lemma ReadLinesSnoc(f: Fields, lines: seq<string>, j: nat)
    requires j < |lines|
    ensures ReadLines(f, lines[..j + 1]) == ReadLine(ReadLines(f, lines[..j]), lines[j])
  {
    assert lines[..j + 1] == lines[..j] + [lines[j]] && [lines[j]][1..] == [];
    ReadLinesAppend(f, lines[..j], [lines[j]]);
    var g := ReadLines(f, lines[..j]);
    assert ReadLines(g, [lines[j]]) == ReadLines(ReadLine(g, lines[j]), []);
  }

  /** One block: its lines in turn, and a message if one of them held data. */
  method ReadBlock(block: string) returns (messages: seq<Message>)
    ensures messages == ParseBlock(block)
  {
    var event: Option<string>, id: Option<string>, dataLines: seq<string> := None, None, [];
    var lines := SplitLines(block);
    var j := 0;
    while j < |lines|
      invariant 0 <= j <= |lines|
      invariant Fields(event, id, dataLines) == ReadLines(NO_FIELDS, lines[..j])
    {
      ReadLinesSnoc(NO_FIELDS, lines, j);
      event, id, dataLines := TakeLine(lines[j], event, id, dataLines);
      j := j + 1;
    }
    assert lines[..j] == lines;
    messages := if dataLines == [] then [] else [Message(event, id, JoinLines(dataLines))];
  }

  lemma MessagesSnoc(blocks: seq<string>, i: nat)
    requires i < |blocks|
    ensures Messages(blocks[..i + 1]) == Messages(blocks[..i]) + ParseBlock(blocks[i])
  {
    assert blocks[..i + 1] == blocks[..i] + [blocks[i]] && [blocks[i]][1..] == [];
    MessagesAppend(blocks[..i], [blocks[i]]);
    assert Messages([blocks[i]]) == ParseBlock(blocks[i]) + Messages([]);
  }

  method ParseSseMessages(buffer: string) returns (messages: seq<Message>, remainder: string)
    ensures messages == Messages(Parse(buffer).blocks) && remainder == Parse(buffer).remainder
  {
    var cut := SplitBlocks(Normalize(buffer));
    remainder := cut.remainder;
    messages := [];
    var i := 0;
    while i < |cut.blocks|
      invariant 0 <= i <= |cut.blocks|
      invariant messages == Messages(cut.blocks[..i])
    {
      MessagesSnoc(cut.blocks, i);
      var parsed := ReadBlock(cut.blocks[i]);
      messages := messages + parsed;
      i := i + 1;
    }
    assert cut.blocks[..i] == cut.blocks;
  }

  lemma {:induction false} IndexInRange(s: string, c: char)
    ensures IndexOf(s, c).Some? ==> IndexOf(s, c).value < |s| && s[IndexOf(s, c).value] == c
    ensures IndexOf(s, c).None? ==> c !in s
  {
    if s != "" && s[0] != c {
      IndexInRange(s[1..], c);
      assert s == [s[0]] + s[1..];
    }
  }

  lemma {:induction false} ColonAfter(name: string, t: string)
    requires ':' !in name
    ensures IndexOf(name + ":" + t, ':') == Some(|name|)
  {
    if name != "" {
      ColonAfter(name[1..], t);
      assert (name + ":" + t)[1..] == name[1..] + ":" + t;
    } else {
      assert (name + ":" + t)[0] == ':';
    }
  }

  /** The read loop over the chunks of a stream. Without a CR CR LF in the stream the messages and
      the final buffer are those of one call on the whole stream. */
  method ReadStream(chunks: seq<string>) returns (messages: seq<Message>, buffer: string)
    ensures messages == Messages(Feed(NOTHING_READ, chunks).blocks) && buffer == Feed(NOTHING_READ, chunks).remainder
    ensures NoCrCrLf(Concat(chunks)) ==>
              messages == Messages(Parse(Concat(chunks)).blocks) && buffer == Parse(Concat(chunks)).remainder
  {
    messages, buffer := [], "";
    ghost var sofar := NOTHING_READ;
    var i := 0;
    while i < |chunks|
      invariant 0 <= i <= |chunks|
      invariant Feed(sofar, chunks[i..]) == Feed(NOTHING_READ, chunks)
      invariant messages == Messages(sofar.blocks) && buffer == sofar.remainder
    {
      var parsed, rest := ParseSseMessages(buffer + chunks[i]);
      MessagesAppend(sofar.blocks, Parse(buffer + chunks[i]).blocks);
      assert chunks[i..][1..] == chunks[i + 1..];
      sofar := Absorb(sofar, chunks[i]);
      messages, buffer := messages + parsed, rest;
      i := i + 1;
    }
    if NoCrCrLf(Concat(chunks)) {
      ChunkIndependence(chunks);
    }
  }
}
