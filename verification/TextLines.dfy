/** Splitting a text at its LF characters, and joining lines back. */
module TextLines {

  function SplitLines(s: string): (lines: seq<string>)
    ensures lines != []
  {
    if s == "" then [""]
    else
      var rest := SplitLines(s[1..]);
      if s[0] == '\n' then [""] + rest else [[s[0]] + rest[0]] + rest[1..]
  }

  function JoinLines(lines: seq<string>): string {
    if lines == [] then ""
    else if |lines| == 1 then lines[0]
    else lines[0] + "\n" + JoinLines(lines[1..])
  }

  lemma {:induction false} SplitThenJoin(s: string)
    ensures JoinLines(SplitLines(s)) == s
    ensures forall l | l in SplitLines(s) :: '\n' !in l
    ensures forall c, l | l in SplitLines(s) && c in l :: c in s
  {
    if s != "" {
      SplitThenJoin(s[1..]);
      var rest := SplitLines(s[1..]);
      assert s == [s[0]] + s[1..];
      if s[0] == '\n' {
        assert ([""] + rest)[1..] == rest;
      } else {
        assert ([[s[0]] + rest[0]] + rest[1..])[1..] == rest[1..];
      }
    }
  }

  lemma {:induction false} LineThenSplit(l: string, t: string)
    requires '\n' !in l
    ensures SplitLines(l + "\n" + t) == [l] + SplitLines(t)
    ensures SplitLines(l) == [l]
  {
    if l == "" {
      assert l + "\n" + t == "\n" + t && ("\n" + t)[1..] == t;
    } else {
      LineThenSplit(l[1..], t);
      assert (l + "\n" + t)[1..] == l[1..] + "\n" + t;
      assert [l[0]] + l[1..] == l;
    }
  }

  lemma {:induction false} JoinThenSplit(lines: seq<string>)
    requires lines != [] && forall l | l in lines :: '\n' !in l
    ensures SplitLines(JoinLines(lines)) == lines
  {
    assert lines[0] in lines;
    LineThenSplit(lines[0], JoinLines(lines[1..]));
    if |lines| > 1 {
      JoinThenSplit(lines[1..]);
      assert [lines[0]] + lines[1..] == lines;
    }
  }

  /** Concatenation associates. */
  lemma Assoc<T>(a: seq<T>, b: seq<T>, c: seq<T>)
    ensures a + b + c == a + (b + c)
  {
  }
}
