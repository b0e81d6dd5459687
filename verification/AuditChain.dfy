/** The hash-chained audit log: the writer, the link verifier beside it, and the replay tool that
    recomputes the hashes. The hash function is a parameter. */
module AuditChain {
  import opened Wrappers

  type Hash = string -> string

  datatype Entry = Entry(ticket: string, event: string, data: string, hash: string, prevHash: string)

  const GENESIS := "GENESIS"

  /** The hash an entry at position i has to build on. */
  function LastHash(logs: seq<Entry>, i: nat): string
    requires i <= |logs|
  {
    if i == 0 then GENESIS else logs[i - 1].hash
  }

  // ---------- the replay tool ----------

  function ReplayInput(lastHash: string, e: Entry): string {
    lastHash + "|" + (e.ticket + "|" + (e.event + "|" + e.data))
  }

  predicate HashFits(H: Hash, logs: seq<Entry>, i: nat)
    requires i < |logs|
  {
    logs[i].hash == H(ReplayInput(LastHash(logs, i), logs[i]))
  }

  predicate ReplayAccepts(H: Hash, logs: seq<Entry>) {
    forall i | 0 <= i < |logs| :: HashFits(H, logs, i)
  }

  method ReplayDeal(H: Hash, logs: seq<Entry>) returns (chainValid: bool, lastHash: string)
    ensures chainValid <==> ReplayAccepts(H, logs)
    ensures lastHash == LastHash(logs, |logs|)
  {
    chainValid, lastHash := true, GENESIS;
    var i := 0;
    while i < |logs|
      invariant 0 <= i <= |logs| && lastHash == LastHash(logs, i)
      invariant chainValid <==> forall k | 0 <= k < i :: HashFits(H, logs, k)
    {
      var expected := H(ReplayInput(lastHash, logs[i]));
      assert HashFits(H, logs, i) <==> logs[i].hash == expected;
      if logs[i].hash != expected {
        chainValid := false;
      }
      lastHash := logs[i].hash;
      i := i + 1;
    }
  }

  // ---------- an accepted log is fixed by its last hash ----------

  predicate HexChar(c: char) {
    '0' <= c <= '9' || 'a' <= c <= 'f'
  }

  predicate Hex(s: string) {
    forall c | c in s :: HexChar(c)
  }

  /** Digests are written in hexadecimal. */
  predicate HexHashes(logs: seq<Entry>) {
    forall i | 0 <= i < |logs| :: Hex(logs[i].hash)
  }

  predicate Unbarred(e: Entry) {
    '|' !in e.ticket && '|' !in e.event
  }

  predicate AllUnbarred(logs: seq<Entry>) {
    forall i | 0 <= i < |logs| :: Unbarred(logs[i])
  }

  /** Everything the replay tool looks at. */
  predicate SameEntry(a: Entry, b: Entry) {
    a.ticket == b.ticket && a.event == b.event && a.data == b.data && a.hash == b.hash
  }

  /** The inputs hashed when the log is replayed. */
  function Inputs(logs: seq<Entry>): set<string> {
    set i | 0 <= i < |logs| :: ReplayInput(LastHash(logs, i), logs[i])
  }

  /** Two different inputs, one of each set, with the same hash. */
  predicate Collision(H: Hash, xs: set<string>, ys: set<string>) {
    exists x, y :: x in xs && y in ys && x != y && H(x) == H(y)
  }

  lemma {:induction false} FirstBar(p: string, q: string, p': string, q': string)
    requires '|' !in p && '|' !in p' && p + "|" + q == p' + "|" + q'
    ensures p == p' && q == q'
  {
    var s := p + "|" + q;
    assert s[|p|] == '|' && s[|p'|] == '|';
    assert forall k | 0 <= k < |p| :: s[k] == p[k] && p[k] in p;
    assert forall k | 0 <= k < |p'| :: s[k] == p'[k] && p'[k] in p';
    assert s[..|p|] == p && s[..|p'|] == p' && s[|p| + 1..] == q && s[|p'| + 1..] == q';
  }

  lemma SameInput(h: string, h': string, e: Entry, e': Entry)
    requires '|' !in h && '|' !in h' && Unbarred(e) && Unbarred(e')
    requires ReplayInput(h, e) == ReplayInput(h', e')
    ensures h == h' && e.ticket == e'.ticket && e.event == e'.event && e.data == e'.data
  {
    FirstBar(h, e.ticket + "|" + (e.event + "|" + e.data), h', e'.ticket + "|" + (e'.event + "|" + e'.data));
    FirstBar(e.ticket, e.event + "|" + e.data, e'.ticket, e'.event + "|" + e'.data);
    FirstBar(e.event, e.data, e'.event, e'.data);
  }

  lemma DigestShape(logs: seq<Entry>, i: nat)
    requires HexHashes(logs) && i <= |logs|
    ensures '|' !in LastHash(logs, i)
    ensures i > 0 ==> LastHash(logs, i) != GENESIS
  {
    if i > 0 {
      assert Hex(logs[i - 1].hash);
      assert GENESIS[0] == 'G' && 'G' in GENESIS && !HexChar('G') && !HexChar('|');
    }
  }

  predicate NeverGenesis(logs: seq<Entry>) {
    forall i | 0 <= i < |logs| :: logs[i].hash != GENESIS
  }

  lemma HexNeverGenesis(logs: seq<Entry>)
    requires HexHashes(logs)
    ensures NeverGenesis(logs)
  {
    forall i | 0 <= i < |logs|
      ensures logs[i].hash != GENESIS
    {
      DigestShape(logs, i + 1);
    }
  }

  /** Entries of two accepted logs with the same hash agree, and so do the hashes they build on. */
  lemma EntriesAgree(H: Hash, a: seq<Entry>, b: seq<Entry>, m: nat, n: nat)
    requires HexHashes(a) && HexHashes(b) && ReplayAccepts(H, a) && ReplayAccepts(H, b) && AllUnbarred(a) && AllUnbarred(b)
    requires m < |a| && n < |b| && a[m].hash == b[n].hash && !Collision(H, Inputs(a), Inputs(b))
    ensures SameEntry(a[m], b[n]) && LastHash(a, m) == LastHash(b, n)
  {
    DigestShape(a, m);
    DigestShape(b, n);
    var x, y := ReplayInput(LastHash(a, m), a[m]), ReplayInput(LastHash(b, n), b[n]);
    assert HashFits(H, a, m) && HashFits(H, b, n);
    assert x in Inputs(a) && y in Inputs(b) && H(x) == H(y);
    SameInput(LastHash(a, m), LastHash(b, n), a[m], b[n]);
  }

  /** A hash fixes its entry and the hash the entry builds on. */
  predicate HashesDetermine(a: seq<Entry>, b: seq<Entry>) {
    forall m, n | 0 <= m < |a| && 0 <= n < |b| && a[m].hash == b[n].hash ::
      SameEntry(a[m], b[n]) && LastHash(a, m) == LastHash(b, n)
  }

  lemma {:induction false} PrefixesAgree(a: seq<Entry>, b: seq<Entry>, m: nat, n: nat)
    requires HashesDetermine(a, b) && NeverGenesis(a) && NeverGenesis(b)
    requires m <= |a| && n <= |b| && LastHash(a, m) == LastHash(b, n)
    ensures m == n && forall i | 0 <= i < m :: SameEntry(a[i], b[i])
    decreases m
  {
    if m > 0 && n > 0 {
      PrefixesAgree(a, b, m - 1, n - 1);
    }
  }

  predicate SameLog(a: seq<Entry>, b: seq<Entry>) {
    |a| == |b| && forall i | 0 <= i < |a| :: SameEntry(a[i], b[i])
  }

  /** Two logs the replay tool accepts that end in the same hash are the same, entry by entry and in
      length, or between them they hold a collision of the hash function. So an edit, a drop, an
      addition or a reordering that keeps the last hash is reported. */
  lemma AcceptedLogIsUnique(H: Hash, a: seq<Entry>, b: seq<Entry>)
    requires HexHashes(a) && HexHashes(b) && ReplayAccepts(H, a) && ReplayAccepts(H, b) && AllUnbarred(a) && AllUnbarred(b)
    requires LastHash(a, |a|) == LastHash(b, |b|)
    ensures SameLog(a, b) || Collision(H, Inputs(a), Inputs(b))
  {
    if !Collision(H, Inputs(a), Inputs(b)) {
      forall m, n | 0 <= m < |a| && 0 <= n < |b| && a[m].hash == b[n].hash
        ensures SameEntry(a[m], b[n]) && LastHash(a, m) == LastHash(b, n)
      {
        EntriesAgree(H, a, b, m, n);
      }
      HexNeverGenesis(a);
      HexNeverGenesis(b);
      PrefixesAgree(a, b, |a|, |b|);
    }
  }

  // ---------- the writer and the link verifier ----------

  predicate LinkFits(logs: seq<Entry>, i: nat)
    requires i < |logs|
  {
    logs[i].prevHash == LastHash(logs, i)
  }

  predicate LinksHold(logs: seq<Entry>) {
    forall i | 0 <= i < |logs| :: LinkFits(logs, i)
  }

  lemma LinksOfPrefix(logs: seq<Entry>, n: nat)
    requires n <= |logs| && forall k | 0 <= k < n :: LinkFits(logs, k)
    ensures LinksHold(logs[..n])
  {
    forall k | 0 <= k < n
      ensures LinkFits(logs[..n], k)
    {
      assert LinkFits(logs, k);
    }
  }

  method VerifyAuditChain(logs: seq<Entry>) returns (valid: bool, brokenAt: Option<nat>)
    ensures valid <==> LinksHold(logs)
    ensures valid <==> brokenAt.None?
    ensures brokenAt.Some? ==>
              var k := brokenAt.value; k < |logs| && LinksHold(logs[..k]) && logs[k].prevHash != LastHash(logs, k)
  {
    valid, brokenAt := true, None;
    if |logs| == 0 {
      return;
    }
    if logs[0].prevHash != GENESIS {
      assert !LinkFits(logs, 0);
      return false, Some(0);
    }
    var i := 1;
    while i < |logs|
      invariant 1 <= i <= |logs|
      invariant forall k | 0 <= k < i :: LinkFits(logs, k)
    {
      if logs[i].prevHash != logs[i - 1].hash {
        LinksOfPrefix(logs, i);
        assert !LinkFits(logs, i);
        return false, Some(i);
      }
      i := i + 1;
    }
  }

  /** The writer reads the last hash and then writes, and two appends can overlap. The links still
      hold after a write exactly when they held before and the hash read is still the last one. */
  lemma AppendKeepsLinksIff(logs: seq<Entry>, e: Entry)
    ensures LinksHold(logs + [e]) <==> LinksHold(logs) && e.prevHash == LastHash(logs, |logs|)
  {
    var all := logs + [e];
    assert forall i | 0 <= i < |logs| :: LinkFits(all, i) <==> LinkFits(logs, i);
    assert LinkFits(all, |logs|) <==> e.prevHash == LastHash(logs, |logs|);
  }

  /** Two overlapping appends that read the same last hash break the chain, unless the first one's
      own hash equals the one it built on. */
  lemma OverlappingAppendsBreakLinks(logs: seq<Entry>, first: Entry, second: Entry)
    requires LinksHold(logs)
    requires first.prevHash == second.prevHash == LastHash(logs, |logs|) && first.hash != first.prevHash
    ensures LinksHold(logs + [first]) && !LinksHold(logs + [first] + [second])
  {
    AppendKeepsLinksIff(logs, first);
    AppendKeepsLinksIff(logs + [first], second);
  }

  /** The link verifier never looks at contents: any event or data can be replaced unnoticed. */
  lemma LinksIgnoreContents(logs: seq<Entry>, i: nat, event: string, data: string)
    requires i < |logs|
    ensures LinksHold(logs[i := logs[i].(event := event, data := data)]) <==> LinksHold(logs)
  {
    var edited := logs[i := logs[i].(event := event, data := data)];
    assert forall k | 0 <= k < |logs| :: LinkFits(edited, k) <==> LinkFits(logs, k);
  }

  /** The writer hashes a JSON object, whose text begins with a brace, and the replay tool a line with
      bars, so a written entry passes the replay only if the two texts collide. */
  lemma WrittenEntryFailsReplay(H: Hash, logs: seq<Entry>, i: nat, body: string)
    requires HexHashes(logs) && ReplayAccepts(H, logs) && i < |logs|
    requires logs[i].hash == H("{" + body + "}")
    ensures "{" + body + "}" != ReplayInput(LastHash(logs, i), logs[i])
    ensures H("{" + body + "}") == H(ReplayInput(LastHash(logs, i), logs[i]))
  {
    var h := LastHash(logs, i);
    assert HashFits(H, logs, i);
    assert i > 0 ==> Hex(h);
    assert h != "" ==> h[0] in h;
    assert ReplayInput(h, logs[i])[0] == (if h == "" then '|' else h[0]);
    assert ("{" + body + "}")[0] == '{';
  }

  // ---------- the two verdicts on the entries themselves ----------

  /** The first entry builds on the word GENESIS and every later one on its predecessor's hash; the
      replayed line is that hash, the ticket, the event and the data with bars between them. */
  lemma ReplayAcceptsIff(H: Hash, logs: seq<Entry>)
    ensures ReplayAccepts(H, logs) <==>
              && (logs != [] ==>
                    logs[0].hash == H("GENESIS" + "|" + (logs[0].ticket + "|" + (logs[0].event + "|" + logs[0].data))))
              && forall i | 1 <= i < |logs| ::
                   logs[i].hash == H(logs[i - 1].hash + "|" + (logs[i].ticket + "|" + (logs[i].event + "|" + logs[i].data)))
  {
    if logs != [] {
      assert HashFits(H, logs, 0) <==>
             logs[0].hash == H("GENESIS" + "|" + (logs[0].ticket + "|" + (logs[0].event + "|" + logs[0].data)));
    }
    forall i | 1 <= i < |logs|
      ensures HashFits(H, logs, i) <==>
              logs[i].hash == H(logs[i - 1].hash + "|" + (logs[i].ticket + "|" + (logs[i].event + "|" + logs[i].data)))
    {
    }
  }

  lemma LinksHoldIff(logs: seq<Entry>)
    ensures LinksHold(logs) <==>
              && (logs != [] ==> logs[0].prevHash == "GENESIS")
              && forall i | 1 <= i < |logs| :: logs[i].prevHash == logs[i - 1].hash
  {
    assert logs != [] ==> (LinkFits(logs, 0) <==> logs[0].prevHash == "GENESIS");
    assert forall i | 1 <= i < |logs| :: LinkFits(logs, i) <==> logs[i].prevHash == logs[i - 1].hash;
  }
}
