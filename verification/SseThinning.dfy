/** What a block says when CRs are taken off the ends of its lines. */
module SseThinning {
  import opened Wrappers
  import opened TextLines
  import opened SseText
  import opened SseParser
  import opened SseLines

  /** The same line with no more CRs at its end. */
  predicate Thin(a: string, b: string) {
    Bare(a) == Bare(b) && |b| <= |a|
  }

  predicate ThinLines(a: seq<string>, b: seq<string>) {
    |a| == |b| && forall i | 0 <= i < |a| :: Thin(a[i], b[i])
  }

  function ParseLines(g: seq<string>): seq<Message> {
    var f := ReadLines(NO_FIELDS, g);
    if f.dataLines == [] then [] else [Message(f.event, f.id, JoinLines(f.dataLines))]
  }

  // ---------- one line ----------

  /** What a line sets: nothing, or one of the three fields. */
  datatype Setting = Nothing | Sets(field: string, value: string)

  predicate Known(field: string) {
    field == "event" || field == "id" || field == "data"
  }

  function SettingOf(line: string): Setting {
    if line == "" || line[0] == ':' then Nothing
    else
      match IndexOf(line, ':')
      case None => if Known(line) then Sets(line, "") else Nothing
      case Some(k) => if k < |line| && Known(line[..k]) then Sets(line[..k], DropOneSpace(line[k + 1..])) else Nothing
  }

  function Set(f: Fields, s: Setting): Fields {
    if s.Nothing? then f else SetField(f, s.field, s.value)
  }

  lemma ReadLineSets(f: Fields, line: string)
    ensures ReadLine(f, line) == Set(f, SettingOf(line))
    ensures SettingOf(line).Sets? ==> Known(SettingOf(line).field)
  {
  }

  lemma {:induction false} IndexOfPrefix(s: string, t: string, c: char)
    requires forall i | 0 <= i < |t| :: t[i] != c
    ensures IndexOf(s + t, c) == IndexOf(s, c)
  {
    if s == "" {
      assert s + t == t;
      IndexInRange(t, c);
    } else {
      assert (s + t)[1..] == s[1..] + t;
      IndexOfPrefix(s[1..], t, c);
    }
  }

  predicate AllCr(t: string) {
    forall i | 0 <= i < |t| :: t[i] == '\r'
  }

  lemma DropSpaceAppend(v: string, t: string)
    requires AllCr(t)
    ensures DropOneSpace(v + t) == DropOneSpace(v) + t
  {
    if v == "" {
      assert v + t == t;
    } else {
      assert (v + t)[1..] == v[1..] + t;
    }
  }

  lemma SettingAppendColon(s: string, t: string, k: nat)
    requires AllCr(t) && t != "" && s != "" && k < |s| && IndexOf(s, ':') == Some(k) && IndexOf(s + t, ':') == Some(k)
    ensures SettingOf(s).Nothing? ==> SettingOf(s + t) == Nothing
    ensures SettingOf(s).Sets? ==> SettingOf(s + t) == Sets(SettingOf(s).field, SettingOf(s).value + t)
  {
    assert (s + t)[0] == s[0];
    assert (s + t)[..k] == s[..k] && (s + t)[k + 1..] == s[k + 1..] + t;
    DropSpaceAppend(s[k + 1..], t);
  }

  /** Off the end of a line that sets a field nothing can be taken without changing the value. A line
      that sets none can come to set one only by becoming the bare name of a field. */
  lemma SettingAppend(s: string, t: string)
    requires AllCr(t) && t != ""
    ensures SettingOf(s + t).Sets? ==>
              && SettingOf(s).Sets? && SettingOf(s).field == SettingOf(s + t).field
              && SettingOf(s + t).value == SettingOf(s).value + t
    ensures SettingOf(s + t).Nothing? && SettingOf(s).Sets? ==> SettingOf(s).value == ""
  {
    IndexOfPrefix(s, t, ':');
    IndexInRange(s, ':');
    if s == "" {
      assert s + t == t && t[0] == '\r';
      NotKnownCr(t);
    } else {
      assert (s + t)[0] == s[0];
      match IndexOf(s, ':')
      case None => NotKnownEnd(s, t);
      case Some(k) => SettingAppendColon(s, t, k);
    }
  }

  lemma NotKnownCr(t: string)
    requires AllCr(t) && t != ""
    ensures !Known(t) && SettingOf(t) == Nothing
  {
    IndexInRange(t, ':');
    assert t[0] == '\r';
    assert "event"[0] == 'e' && "id"[0] == 'i' && "data"[0] == 'd';
  }

  lemma NotKnownEnd(s: string, t: string)
    requires AllCr(t) && t != ""
    ensures !Known(s + t)
  {
    assert (s + t)[|s + t| - 1] == t[|t| - 1] == '\r';
    assert "event"[4] == 't' && "id"[1] == 'd' && "data"[3] == 'a';
  }

  /** The three ways a line and a thinner one compare. */
  lemma ThinSetting(a: string, b: string)
    requires Thin(a, b)
    ensures SettingOf(a).Sets? ==> SettingOf(b).Sets? && SettingOf(b).field == SettingOf(a).field
    ensures SettingOf(a).Sets? && SettingOf(b).value == SettingOf(a).value ==> a == b
    ensures SettingOf(a).Sets? && SettingOf(a).value == "" ==> a == b
    ensures SettingOf(a).Nothing? && SettingOf(b).Sets? ==> SettingOf(b).value == ""
  {
    BareFacts(a);
    BareFacts(b);
    if |a| == |b| {
      SameBare(a, b);
    } else {
      assert b <= a by { assert forall i | 0 <= i < |b| :: a[i] == b[i]; }
      var t := a[|b|..];
      assert a == b + t && AllCr(t);
      SettingAppend(b, t);
    }
  }

  // ---------- the last value of a field ----------

  /** Event or id, as a block's lines leave it. */
  function Last(g: seq<string>, field: string): Option<string> {
    if g == [] then None
    else
      var s := SettingOf(g[|g| - 1]);
      if s.Sets? && s.field == field then Some(s.value) else Last(g[..|g| - 1], field)
  }

  function Data(g: seq<string>): seq<string> {
    if g == [] then []
    else
      var s := SettingOf(g[|g| - 1]);
      Data(g[..|g| - 1]) + (if s.Sets? && s.field == "data" then [s.value] else [])
  }

  lemma Snoc(p: seq<string>, l: string, field: string)
    ensures Data(p + [l]) ==
              Data(p) + (if SettingOf(l).Sets? && SettingOf(l).field == "data" then [SettingOf(l).value] else [])
    ensures Last(p + [l], field) ==
              if SettingOf(l).Sets? && SettingOf(l).field == field then Some(SettingOf(l).value) else Last(p, field)
  {
    assert (p + [l])[..|p + [l]| - 1] == p;
  }

  lemma {:induction false} SameSettings(a: seq<string>, b: seq<string>, field: string)
    requires |a| == |b| && forall i | 0 <= i < |a| :: SettingOf(a[i]) == SettingOf(b[i])
    ensures Last(a, field) == Last(b, field) && Data(a) == Data(b)
  {
    if a != [] {
      SameSettings(a[..|a| - 1], b[..|b| - 1], field);
    }
  }

  lemma {:induction false} FieldsOf(g: seq<string>)
    ensures ReadLines(NO_FIELDS, g) == Fields(Last(g, "event"), Last(g, "id"), Data(g))
  {
    if g != [] {
      var p, l := g[..|g| - 1], g[|g| - 1];
      FieldsOf(p);
      assert g == p + [l];
      ReadLinesAppend(NO_FIELDS, p, [l]);
      assert [l][1..] == [];
      assert ReadLines(ReadLines(NO_FIELDS, p), [l]) == ReadLines(ReadLine(ReadLines(NO_FIELDS, p), l), []);
      ReadLineSets(ReadLines(NO_FIELDS, p), l);
    }
  }

  lemma ThinInit(a: seq<string>, b: seq<string>)
    requires ThinLines(a, b) && a != []
    ensures ThinLines(a[..|a| - 1], b[..|b| - 1]) && Thin(a[|a| - 1], b[|b| - 1])
  {
  }

  /** An empty value stays, however the lines are thinned. */
  lemma {:induction false} EmptyStays(a: seq<string>, b: seq<string>, field: string)
    requires ThinLines(a, b) && Last(a, field) == Some("")
    ensures Last(b, field) == Some("")
  {
    ThinInit(a, b);
    ThinSetting(a[|a| - 1], b[|b| - 1]);
    var s := SettingOf(a[|a| - 1]);
    if !(s.Sets? && s.field == field) {
      EmptyStays(a[..|a| - 1], b[..|b| - 1], field);
    }
  }

  /** What the whole and the bare block agree on, all between them agree on too. */
  lemma {:induction false} LastBetween(a: seq<string>, b: seq<string>, c: seq<string>, field: string)
    requires ThinLines(a, b) && ThinLines(b, c) && Last(a, field) == Last(c, field)
    ensures Last(b, field) == Last(a, field)
  {
    if a != [] {
      ThinInit(a, b);
      ThinInit(b, c);
      var la, lb, lc := a[|a| - 1], b[|b| - 1], c[|c| - 1];
      ThinSetting(la, lb);
      ThinSetting(lb, lc);
      ThinSetting(la, lc);
      var sa, sc := SettingOf(la), SettingOf(lc);
      if sa.Sets? && sa.field == field {
        assert la == lc;
        SameBare(la, lb);
      } else if sc.Sets? && sc.field == field {
        assert sc.value == "";
        assert Last(a, field) == Last(a[..|a| - 1], field);
        EmptyStays(a[..|a| - 1], b[..|b| - 1], field);
      } else {
        LastBetween(a[..|a| - 1], b[..|b| - 1], c[..|c| - 1], field);
      }
    }
  }

  /** Thinning never takes a data line away. */
  lemma {:induction false} DataGrows(a: seq<string>, b: seq<string>)
    requires ThinLines(a, b)
    ensures |Data(a)| <= |Data(b)|
  {
    if a != [] {
      ThinInit(a, b);
      ThinSetting(a[|a| - 1], b[|b| - 1]);
      DataGrows(a[..|a| - 1], b[..|b| - 1]);
    }
  }

  lemma {:induction false} DataBetween(a: seq<string>, b: seq<string>, c: seq<string>)
    requires ThinLines(a, b) && ThinLines(b, c) && Data(a) == Data(c)
    ensures Data(b) == Data(a)
  {
    if a != [] {
      ThinInit(a, b);
      ThinInit(b, c);
      var la, lb, lc := a[|a| - 1], b[|b| - 1], c[|c| - 1];
      var pa, pb, pc := a[..|a| - 1], b[..|b| - 1], c[..|c| - 1];
      ThinSetting(la, lb);
      ThinSetting(lb, lc);
      ThinSetting(la, lc);
      DataGrows(pa, pc);
      var sa, sc := SettingOf(la), SettingOf(lc);
      if sa.Sets? && sa.field == "data" {
        assert Data(a) == Data(pa) + [sa.value] && Data(c) == Data(pc) + [sc.value];
        assert Data(a)[|Data(a)| - 1] == sa.value && Data(c)[|Data(c)| - 1] == sc.value;
        assert Data(pa) == Data(a)[..|Data(a)| - 1] == Data(pc);
        SameBare(la, lb);
        DataBetween(pa, pb, pc);
      } else if sc.Sets? && sc.field == "data" {
        assert false;
      } else {
        assert Data(pa) + [] == Data(pa) && Data(pc) + [] == Data(pc);
        DataBetween(pa, pb, pc);
      }
    }
  }

  // ---------- a block's message ----------

  lemma {:induction false} DataLfFree(g: seq<string>)
    requires AllLfFree(g)
    ensures AllLfFree(Data(g))
  {
    if g != [] {
      var p, l := g[..|g| - 1], g[|g| - 1];
      assert AllLfFree(p) && LfFree(l);
      DataLfFree(p);
      var s := SettingOf(l);
      IndexInRange(l, ':');
      if s.Sets? {
        assert forall ch | ch in s.value :: ch in l;
      }
    }
  }

  lemma MessageOf(g: seq<string>)
    ensures ParseLines(g) == if Data(g) == [] then [] else [Message(Last(g, "event"), Last(g, "id"), JoinLines(Data(g)))]
  {
    FieldsOf(g);
  }

  lemma SameJoin(a: seq<string>, b: seq<string>)
    requires a != [] && b != [] && AllLfFree(a) && AllLfFree(b) && JoinLines(a) == JoinLines(b)
    ensures a == b
  {
    JoinThenSplit(a);
    JoinThenSplit(b);
  }

  /** A block that gives the same message as a thinner form gives it in every form between them. */
  lemma MessageBetween(a: seq<string>, b: seq<string>, c: seq<string>)
    requires AllLfFree(a) && AllLfFree(c) && ThinLines(a, b) && ThinLines(b, c) && ParseLines(a) == ParseLines(c)
    ensures ParseLines(b) == ParseLines(a)
  {
    MessageOf(a);
    MessageOf(b);
    MessageOf(c);
    DataGrows(a, b);
    DataGrows(b, c);
    if Data(c) != [] {
      DataLfFree(a);
      DataLfFree(c);
      SameJoin(Data(a), Data(c));
      DataBetween(a, b, c);
      LastBetween(a, b, c, "event");
      LastBetween(a, b, c, "id");
    }
  }

  /** Taking CRs off can add a message to a block, but not take it away. */
  lemma MessageGrows(a: seq<string>, b: seq<string>)
    requires ThinLines(a, b)
    ensures |ParseLines(a)| <= |ParseLines(b)| <= 1
  {
    MessageOf(a);
    MessageOf(b);
    DataGrows(a, b);
  }

  lemma BlockByLines(g: seq<string>)
    requires g != [] && AllLfFree(g)
    ensures ParseBlock(JoinLines(g)) == ParseLines(g)
  {
    JoinThenSplit(g);
  }
}
