/** The threshold tuner: a stored configuration row, a cache of it that is trusted for a minute, and
    tuning cycles driven by the outcomes of recent deals. Every database call may fail. */
module Learner {
  import opened Common
  import opened Wrappers

  datatype Thresholds = Thresholds(agreementScore: int, minMessages: int, mentionConfidence: int, collateralRatio: real)

  const DEFAULTS := Thresholds(80, 3, 50, 1.0)
  const CACHE_TTL_MS := 60000

  /** How a deal-initiating decision turned out. Other covers any further outcome text. */
  datatype DealOutcome = Success | Dispute | Timeout | Cancelled | Other

  // ---------- outcome statistics ----------

  function Count(logs: seq<DealOutcome>, o: DealOutcome): nat {
    if logs == [] then 0 else One(logs[0] == o) + Count(logs[1..], o)
  }

  /** The rates are defined for a nonempty list only. */
  function Rate(logs: seq<DealOutcome>, o: DealOutcome): real
    requires logs != []
  {
    Count(logs, o) as real / |logs| as real
  }

  predicate Raises(logs: seq<DealOutcome>) {
    logs != [] && Rate(logs, Dispute) > 0.20
  }

  predicate Slows(logs: seq<DealOutcome>) {
    logs != [] && Rate(logs, Timeout) > 0.30
  }

  predicate Relaxes(logs: seq<DealOutcome>) {
    logs != [] && Rate(logs, Success) > 0.90 && Rate(logs, Dispute) < 0.05
  }

  lemma {:induction false} CountsShareOneTotal(logs: seq<DealOutcome>)
    ensures Count(logs, Success) + Count(logs, Dispute) + Count(logs, Timeout) + Count(logs, Cancelled) <= |logs|
  {
    if logs != [] {
      CountsShareOneTotal(logs[1..]);
    }
  }

  lemma RatesAddUp(logs: seq<DealOutcome>)
    requires logs != []
    ensures Rate(logs, Success) + Rate(logs, Dispute) + Rate(logs, Timeout) <= 1.0
    ensures Rate(logs, Success) >= 0.0 && Rate(logs, Dispute) >= 0.0 && Rate(logs, Timeout) >= 0.0
  {
    CountsShareOneTotal(logs);
    SharesOfWhole(Count(logs, Success) as real, Count(logs, Dispute) as real, Count(logs, Timeout) as real, |logs| as real);
  }

  lemma Share(x: real, n: real) returns (q: real)
    requires n > 0.0 && x >= 0.0
    ensures q == x / n && q * n == x && q >= 0.0
  {
    q := x / n;
  }

  lemma SharesOfWhole(s: real, d: real, t: real, n: real)
    requires n > 0.0 && s >= 0.0 && d >= 0.0 && t >= 0.0 && s + d + t <= n
    ensures s / n + d / n + t / n <= 1.0 && s / n >= 0.0 && d / n >= 0.0 && t / n >= 0.0
  {
    var a := Share(s, n);
    var b := Share(d, n);
    var c := Share(t, n);
    assert (a + b + c) * n == s + d + t;
    assert a + b + c > 1.0 ==> (a + b + c) * n > n;
  }

  /** The rules that tighten and the rule that relaxes never apply together. */
  lemma RulesExclude(logs: seq<DealOutcome>)
    ensures !(Relaxes(logs) && (Raises(logs) || Slows(logs)))
  {
    if logs != [] {
      RatesAddUp(logs);
    }
  }

  // ---------- tuning ----------

  function MinInt(a: int, b: int): int { if a < b then a else b }
  function MaxInt(a: int, b: int): int { if a > b then a else b }
  function MinReal(a: real, b: real): real { if a < b then a else b }

  predicate Changes(logs: seq<DealOutcome>) {
    Raises(logs) || Slows(logs) || Relaxes(logs)
  }

  function Tuned(c: Thresholds, logs: seq<DealOutcome>): Thresholds {
    var t1 := if Raises(logs)
              then c.(agreementScore := MinInt(c.agreementScore + 5, 95), collateralRatio := MinReal(c.collateralRatio + 0.25, 3.0))
              else c;
    var t2 := if Slows(logs) then t1.(minMessages := MinInt(c.minMessages + 1, 8)) else t1;
    if Relaxes(logs)
    then t2.(agreementScore := MaxInt(c.agreementScore - 2, 60), minMessages := MaxInt(c.minMessages - 1, 2))
    else t2
  }

  datatype State = State(cached: Thresholds, lastRefresh: nat, stored: Option<Thresholds>)

  const INITIAL := State(DEFAULTS, 0, None)

  predicate ServedFromCache(s: State, now: nat) {
    now - s.lastRefresh < CACHE_TTL_MS
  }

  /** The state after reading the thresholds. They are then in the cache. */
  function Refresh(s: State, now: nat, readOk: bool): State {
    if ServedFromCache(s, now) || !readOk then s
    else if s.stored.Some? then State(s.stored.value, now, s.stored)
    else State(s.cached, now, Some(DEFAULTS))
  }

  datatype Event =
    | Read(now: nat, readOk: bool)
    | Tune(now: nat, logs: Option<seq<DealOutcome>>, readOk: bool, writeOk: bool)
    | Reboot

  /** The outcomes read are enough to tune on and call for a change. */
  predicate Acts(e: Event) {
    e.Tune? && e.logs.Some? && 10 <= |e.logs.value| && Changes(e.logs.value)
  }

  function Step(s: State, e: Event): State {
    match e
    case Reboot => s.(cached := DEFAULTS, lastRefresh := 0)
    case Read(now, readOk) => Refresh(s, now, readOk)
    case Tune(now, logs, readOk, writeOk) =>
      if logs.None? || |logs.value| < 10 then s
      else
        var s1 := Refresh(s, now, readOk);
        if !Changes(logs.value) || !writeOk then s1
        else s1.(lastRefresh := 0,
                 stored := if s1.stored.Some? then Some(Tuned(s1.cached, logs.value)) else None)
  }

  class StrategyLearner {
    var cached: Thresholds
    var lastRefresh: nat
    var stored: Option<Thresholds>

    function View(): State
      reads this
    {
      State(cached, lastRefresh, stored)
    }

    constructor ()
      ensures View() == INITIAL
    {
      cached, lastRefresh, stored := DEFAULTS, 0, None;
    }

    method GetCurrentThresholds(now: nat, readOk: bool) returns (t: Thresholds)
      modifies this
      ensures View() == Step(old(View()), Read(now, readOk))
      ensures t == cached
    {
      if now - lastRefresh < CACHE_TTL_MS {
        return cached;
      }
      if readOk {
        if stored.Some? {
          cached := stored.value;
        } else {
          stored := Some(DEFAULTS);
        }
        lastRefresh := now;
      }
      return cached;
    }

    method RunThresholdTuning(now: nat, logs: Option<seq<DealOutcome>>, readOk: bool, writeOk: bool)
      modifies this
      ensures View() == Step(old(View()), Tune(now, logs, readOk, writeOk))
    {
      if logs.None? || |logs.value| < 10 {
        return;
      }
      var current := GetCurrentThresholds(now, readOk);
      var changed := false;
      var newThresholds := current;
      if Rate(logs.value, Dispute) > 0.20 {
        newThresholds := newThresholds.(agreementScore := MinInt(current.agreementScore + 5, 95));
        newThresholds := newThresholds.(collateralRatio := MinReal(current.collateralRatio + 0.25, 3.0));
        changed := true;
      }
      if Rate(logs.value, Timeout) > 0.30 {
        newThresholds := newThresholds.(minMessages := MinInt(current.minMessages + 1, 8));
        changed := true;
      }
      if Rate(logs.value, Success) > 0.90 && Rate(logs.value, Dispute) < 0.05 {
        newThresholds := newThresholds.(agreementScore := MaxInt(current.agreementScore - 2, 60));
        newThresholds := newThresholds.(minMessages := MaxInt(current.minMessages - 1, 2));
        changed := true;
      }
      if !changed || !writeOk {
        return;
      }
      if stored.Some? {
        stored := Some(newThresholds);
      }
      lastRefresh := 0;
    }

    method StartProcess()
      modifies this
      ensures View() == Step(old(View()), Reboot)
    {
      cached, lastRefresh := DEFAULTS, 0;
    }
  }

  // ---------- runs ----------

  function Run(s: State, events: seq<Event>): State
    decreases |events|
  {
    if events == [] then s else Run(Step(s, events[0]), events[1..])
  }

  predicate InBounds(t: Thresholds) {
    60 <= t.agreementScore <= 95 && 2 <= t.minMessages <= 8 && 1.0 <= t.collateralRatio <= 3.0
  }

  /** Both copies are in bounds, and a cache with a refresh time is a copy of the row. */
  predicate Inv(s: State) {
    && InBounds(s.cached) && (s.stored.Some? ==> InBounds(s.stored.value))
    && (s.lastRefresh != 0 ==> s.stored == Some(s.cached))
    && (s.stored.None? ==> s.cached == DEFAULTS)
  }

  lemma InvStep(s: State, e: Event)
    requires Inv(s)
    ensures Inv(Step(s, e))
  {
  }

  lemma {:induction false} InvRun(s: State, events: seq<Event>)
    requires Inv(s)
    ensures Inv(Run(s, events))
    decreases |events|
  {
    if events != [] {
      InvStep(s, events[0]);
      InvRun(Step(s, events[0]), events[1..]);
    }
  }

  /** Over every run of reads, tuning cycles and process restarts, with any database calls failing,
      the thresholds in use and the stored ones stay in their safe ranges. */
  lemma BoundsHold(events: seq<Event>)
    ensures var s := Run(INITIAL, events);
            InBounds(s.cached) && (s.stored.Some? ==> InBounds(s.stored.value))
  {
    InvRun(INITIAL, events);
  }

  /** After every run a successful read returns the stored thresholds, given a clock past its first minute. */
  lemma ReadsReturnStored(events: seq<Event>, now: nat)
    requires now >= CACHE_TTL_MS
    ensures var s := Step(Run(INITIAL, events), Read(now, true)); s.stored == Some(s.cached)
  {
    InvRun(INITIAL, events);
  }

  function StoredRatio(s: State): real {
    if s.stored.Some? then s.stored.value.collateralRatio else 1.0
  }

  /** A tuning cycle that has to refresh, cannot, and then writes from a cache behind the row. */
  predicate StaleWrite(s: State, e: Event) {
    && Acts(e) && e.writeOk && s.stored.Some?
    && !ServedFromCache(s, e.now) && !e.readOk
    && (if Raises(e.logs.value)
        then s.cached.collateralRatio + 0.25 < s.stored.value.collateralRatio
        else s.cached.collateralRatio < s.stored.value.collateralRatio)
  }

  /** The stored collateral ratio falls in exactly these steps. */
  lemma RatioFallsIff(s: State, e: Event)
    requires Inv(s) && (e.Tune? ==> e.now >= CACHE_TTL_MS)
    ensures StoredRatio(Step(s, e)) < StoredRatio(s) <==> StaleWrite(s, e)
  {
  }

  predicate Reliable(e: Event) {
    (e.Tune? ==> e.now >= CACHE_TTL_MS && e.readOk)
  }

  /** When the reads of the tuning cycles succeed the stored ratio never falls. */
  lemma {:induction false} RatioNeverFallsWithReads(s: State, events: seq<Event>)
    requires Inv(s) && forall i | 0 <= i < |events| :: Reliable(events[i])
    ensures StoredRatio(s) <= StoredRatio(Run(s, events))
    decreases |events|
  {
    if events != [] {
      InvStep(s, events[0]);
      RatioFallsIff(s, events[0]);
      RatioNeverFallsWithReads(Step(s, events[0]), events[1..]);
    }
  }

  /** A concrete run in which one failed read undoes a raise: disputes raise the ratio, then a cycle
      of good outcomes cannot refresh its cache and writes the old ratio back. */
  lemma FailedReadLowersRatio(disputes: seq<DealOutcome>, successes: seq<DealOutcome>)
    requires |disputes| >= 10 && Raises(disputes) && |successes| >= 10 && Relaxes(successes)
    ensures var s1 := Step(INITIAL, Tune(60000, Some(disputes), true, true));
            var s2 := Step(s1, Tune(120000, Some(successes), false, true));
            StoredRatio(s1) == 1.25 && StoredRatio(s2) == 1.0
  {
    RulesExclude(disputes);
    RulesExclude(successes);
  }

  // ---------- what a tuning cycle stores ----------

  lemma {:induction false} CountIs(logs: seq<DealOutcome>, o: DealOutcome)
    ensures Count(logs, o) == multiset(logs)[o]
  {
    if logs != [] {
      CountIs(logs[1..], o);
      assert logs == [logs[0]] + logs[1..];
    }
  }

  lemma RateAbove(x: nat, n: nat, bound: real)
    requires n > 0
    ensures x as real / n as real > bound <==> x as real > bound * n as real
    ensures x as real / n as real < bound <==> x as real < bound * n as real
  {
    var q := Share(x as real, n as real);
    assert q > bound ==> (q - bound) * n as real > 0.0;
    assert q < bound ==> (bound - q) * n as real > 0.0;
  }

  /** The rules in whole numbers: more than a fifth disputed, more than three tenths timed out, more
      than nine tenths successful with less than a twentieth disputed. */
  lemma RulesIff(logs: seq<DealOutcome>)
    requires logs != []
    ensures Raises(logs) <==> 5 * multiset(logs)[Dispute] > |logs|
    ensures Slows(logs) <==> 10 * multiset(logs)[Timeout] > 3 * |logs|
    ensures Relaxes(logs) <==> 10 * multiset(logs)[Success] > 9 * |logs| && 20 * multiset(logs)[Dispute] < |logs|
  {
    CountIs(logs, Dispute);
    CountIs(logs, Timeout);
    CountIs(logs, Success);
    RateAbove(Count(logs, Dispute), |logs|, 0.20);
    RateAbove(Count(logs, Timeout), |logs|, 0.30);
    RateAbove(Count(logs, Success), |logs|, 0.90);
    RateAbove(Count(logs, Dispute), |logs|, 0.05);
  }

  /** The row a cycle starts from: the stored one, or the defaults it is created with. */
  function Row(s: State): Thresholds {
    if s.stored.Some? then s.stored.value else Thresholds(80, 3, 50, 1.0)
  }

  /** With its reads and its write through, a cycle over at least ten outcomes moves the stored row
      as the counts say: disputes raise the score and the ratio and timeouts raise the message count,
      good outcomes lower score and messages, each up to its limit. The confidence stays. */
  lemma TuningMoves(s: State, now: nat, logs: seq<DealOutcome>)
    requires Inv(s) && now >= 60000 && |logs| >= 10
    ensures var d, t, ok, n := multiset(logs)[Dispute], multiset(logs)[Timeout], multiset(logs)[Success], |logs|;
            var raise, slow, relax := 5 * d > n, 10 * t > 3 * n, 10 * ok > 9 * n && 20 * d < n;
            var old', new' := Row(s), Step(s, Tune(now, Some(logs), true, true)).stored;
            && new'.Some?
            && new'.value.agreementScore ==
                 (if raise then (if old'.agreementScore <= 90 then old'.agreementScore + 5 else 95)
                  else if relax then (if old'.agreementScore >= 62 then old'.agreementScore - 2 else 60)
                  else old'.agreementScore)
            && new'.value.minMessages ==
                 (if slow then (if old'.minMessages <= 7 then old'.minMessages + 1 else 8)
                  else if relax then (if old'.minMessages >= 3 then old'.minMessages - 1 else 2)
                  else old'.minMessages)
            && new'.value.collateralRatio ==
                 (if raise then (if old'.collateralRatio <= 2.75 then old'.collateralRatio + 0.25 else 3.0)
                  else old'.collateralRatio)
            && new'.value.mentionConfidence == old'.mentionConfidence
  {
    RulesIff(logs);
    RulesExclude(logs);
  }

  /** A cycle stores nothing new with fewer than ten outcomes, when no rule applies, or when the
      write fails; only a first read creates the row. */
  lemma NothingTuned(s: State, now: nat, logs: Option<seq<DealOutcome>>, readOk: bool, writeOk: bool)
    requires Inv(s)
    requires logs.None? || |logs.value| < 10 || !writeOk
             || (multiset(logs.value)[Dispute] * 5 <= |logs.value| && 10 * multiset(logs.value)[Timeout] <= 3 * |logs.value|
                 && 10 * multiset(logs.value)[Success] <= 9 * |logs.value|)
    ensures var s' := Step(s, Tune(now, logs, readOk, writeOk));
            Row(s') == Row(s) && (logs.None? || |logs.value| < 10 ==> s' == s)
  {
    if logs.Some? && logs.value != [] {
      RulesIff(logs.value);
    }
  }

  /** A read is answered from the cache for less than a minute after the last refresh and when the
      database fails, and otherwise with the row, which is created with the defaults if need be. */
  lemma ReadServes(s: State, now: nat, readOk: bool)
    requires Inv(s)
    ensures var s' := Step(s, Read(now, readOk));
            && s'.cached == (if now - s.lastRefresh < 60000 || !readOk then s.cached else Row(s))
            && s'.stored == (if s.stored.None? && now - s.lastRefresh >= 60000 && readOk
                             then Some(Thresholds(80, 3, 50, 1.0)) else s.stored)
            && s'.lastRefresh == (if now - s.lastRefresh < 60000 || !readOk then s.lastRefresh else now)
  {
  }

  /** A process restart forgets the cache and not the row. */
  lemma RestartKeepsRow(s: State)
    ensures Step(s, Reboot) == State(Thresholds(80, 3, 50, 1.0), 0, s.stored)
  {
  }
}
