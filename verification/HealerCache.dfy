/** The auto healer: a memory cache in front of a table of diagnosed error patterns in front of a
    language model. An error is known by its hash. Database calls succeed and calls do not overlap. */
module HealerCache {
  import opened Wrappers

  type ErrorHash = string

  const CACHE_HIT_THRESHOLD := 3

  const WHITELIST := {"RETRY_IMMEDIATE", "RETRY_WITH_HIGHER_FEE", "RESUME_FROM_STEP", "RE_DERIVE_PDA",
                      "ABORT_USER_ACTION", "FATAL"}

  datatype Strategy = Strategy(kind: string, userMessage: string)

  datatype Pattern = Pattern(strategy: Strategy, hitCount: nat)

  /** The model fails (or its answer cannot be read), or answers. Missing fields are None. */
  datatype ModelReply = Failed | Reply(kind: Option<string>, userMessage: Option<string>)

  /** The whitelist guardrail. */
  function Guard(reply: ModelReply): Strategy
    requires reply.Reply?
  {
    Strategy(if reply.kind.Some? && reply.kind.value in WHITELIST then reply.kind.value else "FATAL",
             if reply.userMessage.Some? && reply.userMessage.value != "" then reply.userMessage.value
             else "Unknown fatal error occurred.")
  }

  /** diagnosed counts the successful model diagnoses of a hash since its row was last absent. */
  datatype State = State(memory: map<ErrorHash, Strategy>, table: map<ErrorHash, Pattern>, diagnosed: map<ErrorHash, nat>)

  const INITIAL := State(map[], map[], map[])

  function Diagnosed(s: State, h: ErrorHash): nat {
    if h in s.diagnosed then s.diagnosed[h] else 0
  }

  datatype Event =
    | Interpret(hash: ErrorHash, reply: ModelReply, failureMessage: string)
    | Prune(stale: set<ErrorHash>)

  predicate Cached(s: State, h: ErrorHash) {
    h in s.memory || (h in s.table && s.table[h].hitCount >= CACHE_HIT_THRESHOLD)
  }

  function Answer(s: State, h: ErrorHash, reply: ModelReply, failureMessage: string): Strategy {
    if h in s.memory then s.memory[h]
    else if Cached(s, h) then s.table[h].strategy
    else if reply.Reply? then Guard(reply)
    else Strategy("FATAL", failureMessage)
  }

  function Step(s: State, e: Event): State {
    match e
    case Prune(stale) => State(map[], s.table - stale, s.diagnosed - stale)
    case Interpret(h, reply, _) =>
      if h in s.memory then s
      else if Cached(s, h) then
        s.(memory := s.memory[h := s.table[h].strategy],
           table := s.table[h := s.table[h].(hitCount := s.table[h].hitCount + 1)])
      else if reply.Failed? then s
      else
        s.(table := s.table[h := Pattern(Guard(reply), if h in s.table then s.table[h].hitCount + 1 else 1)],
           diagnosed := s.diagnosed[h := Diagnosed(s, h) + 1])
  }

  class AutoHealer {
    var memory: map<ErrorHash, Strategy>
    var table: map<ErrorHash, Pattern>
    ghost var diagnosed: map<ErrorHash, nat>

    ghost function View(): State
      reads this
    {
      State(memory, table, diagnosed)
    }

    constructor ()
      ensures View() == INITIAL
    {
      memory, table, diagnosed := map[], map[], map[];
    }

    method GetCachedStrategy(hash: ErrorHash) returns (r: Option<Strategy>)
      modifies this
      ensures r.Some? <==> Cached(old(View()), hash)
      ensures r.Some? ==> forall reply, m ::
                r.value == Answer(old(View()), hash, reply, m) && View() == Step(old(View()), Interpret(hash, reply, m))
      ensures r.None? ==> View() == old(View())
    {
      if hash in memory {
        return Some(memory[hash]);
      }
      if hash in table && table[hash].hitCount >= CACHE_HIT_THRESHOLD {
        var strategy := table[hash].strategy;
        memory := memory[hash := strategy];
        table := table[hash := table[hash].(hitCount := table[hash].hitCount + 1)];
        return Some(strategy);
      }
      return None;
    }

    method CacheStrategy(hash: ErrorHash, strategy: Strategy)
      modifies this`table
      ensures table == old(table)[hash := Pattern(strategy, if hash in old(table) then old(table)[hash].hitCount + 1 else 1)]
    {
      if hash in table {
        table := table[hash := Pattern(strategy, table[hash].hitCount + 1)];
      } else {
        table := table[hash := Pattern(strategy, 1)];
      }
    }

    method PruneStaleEntries(stale: set<ErrorHash>)
      modifies this
      ensures View() == Step(old(View()), Prune(stale))
    {
      table := table - stale;
      diagnosed := diagnosed - stale;
      memory := map[];
    }

    method InterpretExecutionError(hash: ErrorHash, reply: ModelReply, failureMessage: string) returns (r: Strategy)
      modifies this
      ensures View() == Step(old(View()), Interpret(hash, reply, failureMessage))
      ensures r == Answer(old(View()), hash, reply, failureMessage)
    {
      var cached := GetCachedStrategy(hash);
      if cached.Some? {
        return cached.value;
      }
      if reply.Failed? {
        return Strategy("FATAL", failureMessage);
      }
      var finalStrategy := if reply.kind.Some? && reply.kind.value != "" then reply.kind.value else "FATAL";
      if finalStrategy !in WHITELIST {
        finalStrategy := "FATAL";
      }
      var message := if reply.userMessage.Some? then reply.userMessage.value else "";
      r := Strategy(finalStrategy, if message != "" then message else "Unknown fatal error occurred.");
      diagnosed := diagnosed[hash := (if hash in diagnosed then diagnosed[hash] else 0) + 1];
      CacheStrategy(hash, r);
    }
  }

  // ---------- runs ----------

  function Run(s: State, events: seq<Event>): State
    decreases |events|
  {
    if events == [] then s else Run(Step(s, events[0]), events[1..])
  }

  /** What holds of one hash. */
  predicate HashInv(s: State, h: ErrorHash) {
    && (h in s.memory ==>
          h in s.table && s.memory[h] == s.table[h].strategy && s.table[h].hitCount >= CACHE_HIT_THRESHOLD)
    && (h in s.diagnosed ==> h in s.table)
    && (h in s.table ==>
          && s.table[h].strategy.kind in WHITELIST && s.table[h].hitCount >= 1
          && Diagnosed(s, h) == if s.table[h].hitCount < 3 then s.table[h].hitCount else 3)
  }

  ghost predicate Inv(s: State) {
    forall h :: HashInv(s, h)
  }

  lemma GuardedKind(reply: ModelReply)
    requires reply.Reply?
    ensures Guard(reply).kind in WHITELIST
  {
  }

  lemma HashStep(s: State, e: Event, h: ErrorHash)
    requires HashInv(s, h)
    ensures HashInv(Step(s, e), h)
  {
    if e.Interpret? && e.reply.Reply? {
      GuardedKind(e.reply);
    }
  }

  lemma InvStep(s: State, e: Event)
    requires Inv(s)
    ensures Inv(Step(s, e))
  {
    forall h
      ensures HashInv(Step(s, e), h)
    {
      HashStep(s, e, h);
    }
  }

  lemma {:induction false} InvRun(s: State, events: seq<Event>)
    requires Inv(s)
    ensures Inv(Run(s, events))
    decreases |events|
  {
    if events != [] {
      InvStep(s, events[0]);
      InvRun(Step(s, events[0]), events[1..]);
    }
  }

  /** After every run: a memory entry equals a stored row with at least three hits, each hash has had
      at most three successful diagnoses since its row was last absent, and whatever is answered next,
      from either cache or from the model, is on the whitelist. */
  lemma CacheSafety(events: seq<Event>, h: ErrorHash, reply: ModelReply, failureMessage: string)
    ensures var s := Run(INITIAL, events);
            && (h in s.memory ==>
                  h in s.table && s.memory[h] == s.table[h].strategy && s.table[h].hitCount >= CACHE_HIT_THRESHOLD)
            && Diagnosed(s, h) <= 3
            && Answer(s, h, reply, failureMessage).kind in WHITELIST
  {
    InvRun(INITIAL, events);
    assert HashInv(Run(INITIAL, events), h);
    if reply.Reply? {
      GuardedKind(reply);
    }
  }

  /** The model is asked exactly while fewer than three of its diagnoses are on record: only then can
      two replies lead to different states or answers. */
  lemma ModelAskedIff(events: seq<Event>, h: ErrorHash, m: string)
    ensures var s := Run(INITIAL, events);
            (forall a, b :: Step(s, Interpret(h, a, m)) == Step(s, Interpret(h, b, m)) && Answer(s, h, a, m) == Answer(s, h, b, m))
            <==> Diagnosed(s, h) == 3
  {
    InvRun(INITIAL, events);
    var s := Run(INITIAL, events);
    assert HashInv(s, h);
    if Diagnosed(s, h) == 3 {
      forall a, b
        ensures Step(s, Interpret(h, a, m)) == Step(s, Interpret(h, b, m)) && Answer(s, h, a, m) == Answer(s, h, b, m)
      {
        ReplyUnused(s, h, a, b, m);
      }
    } else {
      RepliesDiffer(s, h, m);
    }
  }

  lemma ReplyUnused(s: State, h: ErrorHash, a: ModelReply, b: ModelReply, m: string)
    requires HashInv(s, h) && Diagnosed(s, h) == 3
    ensures Step(s, Interpret(h, a, m)) == Step(s, Interpret(h, b, m)) && Answer(s, h, a, m) == Answer(s, h, b, m)
  {
  }

  lemma RepliesDiffer(s: State, h: ErrorHash, m: string)
    requires HashInv(s, h) && Diagnosed(s, h) != 3
    ensures Answer(s, h, Reply(Some("FATAL"), None), m) != Answer(s, h, Reply(Some("RETRY_IMMEDIATE"), None), m)
  {
    assert !Cached(s, h);
    assert "FATAL"[0] == 'F' && "RETRY_IMMEDIATE"[0] == 'R';
  }

  /** The diagnoses need not agree: after three different ones the last is answered from then on. */
  lemma DisagreeingDiagnosesAreCached(s: State, h: ErrorHash, first: ModelReply, second: ModelReply, third: ModelReply,
                                      later: ModelReply, m: string)
    requires Inv(s) && h !in s.table && first.Reply? && second.Reply? && third.Reply?
    ensures var s1 := Step(s, Interpret(h, first, m));
            var s2 := Step(s1, Interpret(h, second, m));
            var s3 := Step(s2, Interpret(h, third, m));
            Answer(s3, h, later, m) == Guard(third) && Diagnosed(s3, h) == 3
  {
    assert HashInv(s, h) && Diagnosed(s, h) == 0;
    var s1 := Step(s, Interpret(h, first, m));
    var s2 := Step(s1, Interpret(h, second, m));
    var s3 := Step(s2, Interpret(h, third, m));
    assert s1.table[h].hitCount == 1 && s2.table[h].hitCount == 2 && s3.table[h].hitCount == 3;
  }

  // ---------- each answer, and what is kept of it ----------

  /** The six strategies the program can act on. */
  predicate Known(kind: string) {
    || kind == "RETRY_IMMEDIATE" || kind == "RETRY_WITH_HIGHER_FEE" || kind == "RESUME_FROM_STEP"
    || kind == "RE_DERIVE_PDA" || kind == "ABORT_USER_ACTION" || kind == "FATAL"
  }

  /** Before the third diagnosis the model decides: a known strategy stands and any other counts as
      fatal, an empty message gets the default text, and the diagnosis is stored one hit higher. A
      model that fails is answered with a fatal error and leaves nothing behind. */
  lemma ModelDecides(s: State, h: ErrorHash, reply: ModelReply, m: string)
    requires Inv(s) && Diagnosed(s, h) < 3
    ensures reply.Failed? ==> Answer(s, h, reply, m) == Strategy("FATAL", m) && Step(s, Interpret(h, reply, m)) == s
    ensures reply.Reply? ==>
              var answer := Answer(s, h, reply, m);
              && (if reply.kind.Some? && Known(reply.kind.value) then reply.kind == Some(answer.kind) else answer.kind == "FATAL")
              && (if reply.userMessage.Some? && reply.userMessage.value != ""
                  then reply.userMessage == Some(answer.userMessage)
                  else answer.userMessage == "Unknown fatal error occurred.")
              && Step(s, Interpret(h, reply, m)) ==
                   State(s.memory, s.table[h := Pattern(answer, Diagnosed(s, h) + 1)], s.diagnosed[h := Diagnosed(s, h) + 1])
  {
    assert HashInv(s, h);
  }

  /** From then on the row answers; the first such answer copies it to the memory and counts a hit,
      and the later ones touch nothing. */
  lemma RowDecides(s: State, h: ErrorHash, reply: ModelReply, m: string)
    requires Inv(s) && Diagnosed(s, h) == 3
    ensures h in s.table && Answer(s, h, reply, m) == s.table[h].strategy
    ensures h in s.memory ==> Step(s, Interpret(h, reply, m)) == s
    ensures h !in s.memory ==>
              Step(s, Interpret(h, reply, m)) ==
                State(s.memory[h := s.table[h].strategy],
                      s.table[h := Pattern(s.table[h].strategy, s.table[h].hitCount + 1)], s.diagnosed)
  {
    assert HashInv(s, h);
  }

  /** Pruning forgets exactly the stale errors: they are diagnosed anew, and the others are answered
      as before, from the table. */
  lemma PruneForgets(s: State, stale: set<ErrorHash>, h: ErrorHash, reply: ModelReply, m: string)
    requires Inv(s)
    ensures var s' := Step(s, Prune(stale));
            && Diagnosed(s', h) == (if h in stale then 0 else Diagnosed(s, h))
            && (h in s'.table <==> h in s.table && h !in stale)
            && s'.memory == map[]
            && (h !in stale ==> Answer(s', h, reply, m) == Answer(s, h, reply, m))
  {
    assert HashInv(s, h);
  }
}
