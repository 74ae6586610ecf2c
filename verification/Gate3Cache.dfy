/** The compiled decision cache: put, lookup with eviction, authenticated save and load. */
module Gate3Cache {
  import opened Wrappers
  import opened Text
  import opened Contracts
  import opened Gate3Policy
  import opened JsonText

  type Entries = map<string, CompiledDecision>

  datatype CacheLookup = CacheLookup(effect: Effect, decisionId: Option<string>, reasonCode: string)

  function Miss(reason: string): CacheLookup { CacheLookup(ABSTAIN, None, reason) }

  predicate Accepts(d: CompiledDecision, activeRevision: string) {
    d.policyRevision == activeRevision && ValidCompiled(d)
  }

  function LookupResult(entries: Entries, key: string, revision: string, minimum: nat, now: nat): CacheLookup {
    if key !in entries then Miss("CACHE_MISS")
    else
      var e := entries[key];
      if e.expiresEpoch <= now then Miss("CACHE_EXPIRED")
      else if e.policyRevision != revision then Miss("POLICY_REVISION_MISMATCH")
      else if e.stateRevision < minimum then Miss("STATE_REVISION_STALE")
      else CacheLookup(e.effect, Some(e.decisionId), "VERSIONED_CACHE_HIT")
  }

  function AfterLookup(entries: Entries, key: string, now: nat): Entries {
    if key in entries && entries[key].expiresEpoch <= now then entries - {key} else entries
  }

  // ---------------------------------------------------------------- snapshots

  const FORMAT_VERSION: nat := 1

  datatype Snapshot = Snapshot(formatVersion: nat, policyRevision: string, entries: seq<CompiledDecision>, mac: string)

  /** HMAC-SHA-256 of a payload under a secret. */
  type Hmac = (string, string) -> string

  function EffectName(e: Effect): string {
    match e
    case ALLOW => "ALLOW"
    case DENY => "DENY"
    case AUDIT => "AUDIT"
    case LIMIT => "LIMIT"
    case CHALLENGE => "CHALLENGE"
    case FREEZE => "FREEZE"
    case QUARANTINE => "QUARANTINE"
    case KILL => "KILL"
    case ABSTAIN => "ABSTAIN"
    case OtherEffect(text) => text
  }

  function Fields(e: CompiledDecision): seq<Field> {
    [TextField("{\"cache_key\":", e.cacheKey), TextField(",\"decision_id\":", e.decisionId),
     TextField(",\"namespace_id\":", e.namespaceId), TextField(",\"operation\":", OperationName(e.operation)),
     TextField(",\"resource_sha256\":", e.resourceDigest), TextField(",\"effect\":", EffectName(e.effect)),
     TextField(",\"policy_revision\":", e.policyRevision), NumberField(",\"state_revision\":", e.stateRevision),
     TextField(",\"evidence_sha256\":", e.evidenceDigest), NumberField(",\"expires_epoch\":", e.expiresEpoch)]
  }

  function EntryDoc(e: CompiledDecision): seq<Token> { FieldsTokens(Fields(e)) + [Literal("}")] }

  function EntryDocs(entries: seq<CompiledDecision>): seq<Token> {
    if entries == [] then []
    else EntryDoc(entries[0]) + (if |entries| > 1 then [Literal(",")] else []) + EntryDocs(entries[1..])
  }

  /** The authenticated document: version, revision and entries. */
  function Payload(revision: string, entries: seq<CompiledDecision>): seq<Token> {
    [Literal("[1,"), Str(revision), Literal(",[")] + EntryDocs(entries) + [Literal("]]")]
  }

  function Values(entries: Entries, keys: seq<string>): seq<CompiledDecision>
    requires forall k :: k in keys ==> k in entries
  {
    seq(|keys|, i requires 0 <= i < |keys| => entries[keys[i]])
  }

  /** The entries in key order, as a BTreeMap yields them. */
  ghost function Ordered(entries: Entries): seq<CompiledDecision> {
    var keys := Sorted(entries.Keys);
    assert forall k :: k in keys ==> k in Elements(keys);
    Values(entries, keys)
  }

  function Sign(hmac: Hmac, revision: string, entries: seq<CompiledDecision>, secret: string): Snapshot {
    Snapshot(FORMAT_VERSION, revision, entries, hmac(secret, Write(Serde, Payload(revision, entries))))
  }

  function LoadEntries(entries: seq<CompiledDecision>, revision: string, now: nat, into: Entries): Result<Entries>
    decreases |entries|
  {
    if entries == [] then Ok(into)
    else if entries[0].expiresEpoch <= now then LoadEntries(entries[1..], revision, now, into)
    else if !Accepts(entries[0], revision) then Err("invalid compiled Gate 3 decision")
    else LoadEntries(entries[1..], revision, now, into[entries[0].cacheKey := entries[0]])
  }

  function LoadSnapshot(hmac: Hmac, s: Snapshot, revision: string, secret: string, now: nat): Result<Entries> {
    if secret == "" then Err("cache authentication key is required")
    else if s.formatVersion != FORMAT_VERSION then Err("unsupported Gate 3 cache snapshot version")
    else if s.policyRevision != revision then Err("Gate 3 cache policy revision mismatch")
    else if s.mac != hmac(secret, Write(Serde, Payload(s.policyRevision, s.entries))) then
      Err("Gate 3 cache authentication failed")
    else LoadEntries(s.entries, revision, now, map[])
  }

  method ValuesInOrder(entries: Entries) returns (ordered: seq<CompiledDecision>)
    ensures ordered == Ordered(entries)
  {
    var keys := SortKeys(entries.Keys);
    assert forall i :: 0 <= i < |keys| ==> keys[i] in Elements(keys);
    ordered := [];
    for i := 0 to |keys|
      invariant |ordered| == i && forall j :: 0 <= j < i ==> ordered[j] == entries[keys[j]]
    {
      ordered := ordered + [entries[keys[i]]];
    }
    assert ordered == Values(entries, keys);
  }

  class CompiledDecisionCache {
    var entries: Entries

    constructor ()
      ensures entries == map[]
    {
      entries := map[];
    }

    method Put(d: CompiledDecision, activeRevision: string) returns (accepted: bool)
      modifies this
      ensures accepted <==> Accepts(d, activeRevision)
      ensures entries == if accepted then old(entries)[d.cacheKey := d] else old(entries)
    {
      accepted := false;
      if d.policyRevision != activeRevision {
        return;
      }
      if !ValidCompiled(d) {
        return;
      }
      entries := entries[d.cacheKey := d];
      accepted := true;
    }

    method Lookup(key: string, revision: string, minimum: nat, now: nat) returns (r: CacheLookup)
      modifies this
      ensures r == LookupResult(old(entries), key, revision, minimum, now)
      ensures entries == AfterLookup(old(entries), key, now)
    {
      if key !in entries {
        return Miss("CACHE_MISS");
      }
      var entry := entries[key];
      if entry.expiresEpoch <= now {
        entries := entries - {key};
        return Miss("CACHE_EXPIRED");
      }
      if entry.policyRevision != revision {
        return Miss("POLICY_REVISION_MISMATCH");
      }
      if entry.stateRevision < minimum {
        return Miss("STATE_REVISION_STALE");
      }
      r := CacheLookup(entry.effect, Some(entry.decisionId), "VERSIONED_CACHE_HIT");
    }

    method Clear()
      modifies this
      ensures entries == map[]
    {
      entries := map[];
    }

    /** The operations of a history, done on this cache: whatever comes next, it answers as `CacheAnswers`
        says, so the theorems about histories are about these methods. */
    method Perform(op: Op) returns (answers: seq<Answer>)
      modifies this
      ensures forall more: seq<Op> :: CacheAnswers(old(entries), [op] + more) == answers + CacheAnswers(entries, more)
    {
      answers := [];
      match op
      case PutOp(d, revision) =>
        var _ := Put(d, revision);
      case LookupOp(key, revision, minimum, now) =>
        var r := Lookup(key, revision, minimum, now);
        answers := [AnswerOf(r)];
      case ClearOp => Clear();
      forall more: seq<Op> ensures CacheAnswers(old(entries), [op] + more) == answers + CacheAnswers(entries, more) {
        assert ([op] + more)[0] == op && ([op] + more)[1..] == more;
        assert [] + CacheAnswers(entries, more) == CacheAnswers(entries, more);
      }
    }

    method SaveAuthenticated(hmac: Hmac, revision: string, secret: string) returns (r: Result<Snapshot>)
      ensures r.Err? <==> secret == ""
      ensures r.Ok? ==> r.value == Sign(hmac, revision, Ordered(entries), secret)
    {
      if secret == "" {
        return Err("cache authentication key is required");
      }
      var ordered := ValuesInOrder(entries);
      r := Ok(Sign(hmac, revision, ordered, secret));
    }

    /** Load into this fresh cache; a failed load leaves no cache to use. */
    method LoadAuthenticated(hmac: Hmac, s: Snapshot, revision: string, secret: string, now: nat)
      returns (r: Result<nat>)
      requires entries == map[]
      modifies this
      ensures var spec := LoadSnapshot(hmac, s, revision, secret, now);
              if spec.Ok? then r.Ok? && entries == spec.value else r == Err(spec.error)
    {
      if secret == "" {
        return Err("cache authentication key is required");
      }
      if s.formatVersion != FORMAT_VERSION {
        return Err("unsupported Gate 3 cache snapshot version");
      }
      if s.policyRevision != revision {
        return Err("Gate 3 cache policy revision mismatch");
      }
      if s.mac != hmac(secret, Write(Serde, Payload(s.policyRevision, s.entries))) {
        return Err("Gate 3 cache authentication failed");
      }
      for i := 0 to |s.entries|
        invariant LoadEntries(s.entries, revision, now, map[]) == LoadEntries(s.entries[i..], revision, now, entries)
      {
        assert s.entries[i..][1..] == s.entries[i + 1..];
        if s.entries[i].expiresEpoch > now {
          var accepted := Put(s.entries[i], revision);
          if !accepted {
            return Err("invalid compiled Gate 3 decision");
          }
        }
      }
      r := Ok(|s.entries|);
    }
  }

  // ---------------------------------------------------------------- refinement to a put history

  datatype Op =
    | PutOp(decision: CompiledDecision, activeRevision: string)
    | LookupOp(key: string, revision: string, minimum: nat, now: nat)
    | ClearOp

  datatype Answer = Answer(effect: Effect, decisionId: Option<string>)

  function AnswerOf(r: CacheLookup): Answer { Answer(r.effect, r.decisionId) }

  /** What the cache answers to each lookup of a sequence of operations. */
  function CacheAnswers(entries: Entries, ops: seq<Op>): seq<Answer>
    decreases |ops|
  {
    if ops == [] then []
    else
      match ops[0]
      case PutOp(d, revision) =>
        CacheAnswers(if Accepts(d, revision) then entries[d.cacheKey := d] else entries, ops[1..])
      case LookupOp(key, revision, minimum, now) =>
        [AnswerOf(LookupResult(entries, key, revision, minimum, now))]
        + CacheAnswers(AfterLookup(entries, key, now), ops[1..])
      case ClearOp => CacheAnswers(map[], ops[1..])
  }

  /** The last put for a key, in a history that nothing is ever evicted from. */
  function LastPut(history: seq<CompiledDecision>, key: string): Option<CompiledDecision> {
    if history == [] then None
    else
      var last := history[|history| - 1];
      if last.cacheKey == key then Some(last) else LastPut(history[..|history| - 1], key)
  }

  function HistoryAnswer(history: seq<CompiledDecision>, key: string, revision: string, minimum: nat, now: nat): Answer {
    var last := LastPut(history, key);
    if last.Some? && now < last.value.expiresEpoch && last.value.policyRevision == revision
       && minimum <= last.value.stateRevision
    then Answer(last.value.effect, Some(last.value.decisionId))
    else Answer(ABSTAIN, None)
  }

  function HistoryAnswers(history: seq<CompiledDecision>, ops: seq<Op>): seq<Answer>
    decreases |ops|
  {
    if ops == [] then []
    else
      match ops[0]
      case PutOp(d, revision) => HistoryAnswers(if Accepts(d, revision) then history + [d] else history, ops[1..])
      case LookupOp(key, revision, minimum, now) =>
        [HistoryAnswer(history, key, revision, minimum, now)] + HistoryAnswers(history, ops[1..])
      case ClearOp => HistoryAnswers([], ops[1..])
  }

  /** Lookup times never go back. */
  predicate Forward(ops: seq<Op>, clock: nat)
    decreases |ops|
  {
    ops == [] ||
    if ops[0].LookupOp? then clock <= ops[0].now && Forward(ops[1..], ops[0].now) else Forward(ops[1..], clock)
  }

  /** The cache is the history minus entries that had expired by `clock`. */
  ghost predicate Refines(entries: Entries, history: seq<CompiledDecision>, clock: nat) {
    forall key :: if key in entries then LastPut(history, key) == Some(entries[key])
                  else LastPut(history, key).Some? ==> LastPut(history, key).value.expiresEpoch <= clock
  }

  lemma RefinesPut(entries: Entries, history: seq<CompiledDecision>, clock: nat, d: CompiledDecision)
    requires Refines(entries, history, clock)
    ensures Refines(entries[d.cacheKey := d], history + [d], clock)
  {
    assert (history + [d])[..|history|] == history;
  }

  lemma {:induction false} CacheRefinesHistory(entries: Entries, history: seq<CompiledDecision>, ops: seq<Op>, clock: nat)
    requires Refines(entries, history, clock) && Forward(ops, clock)
    ensures CacheAnswers(entries, ops) == HistoryAnswers(history, ops)
    decreases |ops|
  {
    if ops != [] {
      match ops[0]
      case PutOp(d, revision) =>
        if Accepts(d, revision) {
          RefinesPut(entries, history, clock, d);
          CacheRefinesHistory(entries[d.cacheKey := d], history + [d], ops[1..], clock);
        } else {
          CacheRefinesHistory(entries, history, ops[1..], clock);
        }
      case LookupOp(key, revision, minimum, now) =>
        CacheRefinesHistory(AfterLookup(entries, key, now), history, ops[1..], now);
      case ClearOp =>
        CacheRefinesHistory(map[], [], ops[1..], clock);
    }
  }

  /** From an empty cache, eviction on lookup is invisible in effect and decision id. */
  lemma EvictionIsInvisible(ops: seq<Op>)
    requires Forward(ops, 0)
    ensures CacheAnswers(map[], ops) == HistoryAnswers([], ops)
  {
    CacheRefinesHistory(map[], [], ops, 0);
  }

  /** Some lookup would hit the last put of its key, but an earlier lookup since that put came after its
      expiry. `lost` are the keys whose last put such a lookup has found. */
  predicate HitsLost(history: seq<CompiledDecision>, ops: seq<Op>, lost: set<string>)
    decreases |ops|
  {
    ops != [] &&
    match ops[0]
    case PutOp(d, revision) =>
      if Accepts(d, revision) then HitsLost(history + [d], ops[1..], lost - {d.cacheKey}) else HitsLost(history, ops[1..], lost)
    case LookupOp(key, revision, minimum, now) =>
      var last := LastPut(history, key);
      || (key in lost && HistoryAnswer(history, key, revision, minimum, now) != Answer(ABSTAIN, None))
      || HitsLost(history, ops[1..], if last.Some? && last.value.expiresEpoch <= now then lost + {key} else lost)
    case ClearOp => HitsLost([], ops[1..], {})
  }

  /** The cache is the history's last puts without the lost ones. */
  ghost predicate LastPutsBut(entries: Entries, history: seq<CompiledDecision>, lost: set<string>) {
    && (forall key :: key in entries <==> LastPut(history, key).Some? && key !in lost)
    && (forall key :: key in entries ==> LastPut(history, key) == Some(entries[key]))
  }

  lemma LastPutsAfterPut(entries: Entries, history: seq<CompiledDecision>, lost: set<string>, d: CompiledDecision)
    requires LastPutsBut(entries, history, lost)
    ensures LastPutsBut(entries[d.cacheKey := d], history + [d], lost - {d.cacheKey})
  {
    assert (history + [d])[..|history|] == history;
  }

  lemma FirstAnswers(a: Answer, x: seq<Answer>, b: Answer, y: seq<Answer>)
    ensures [a] + x == [b] + y <==> a == b && x == y
  {
    assert ([a] + x)[0] == a && ([b] + y)[0] == b && ([a] + x)[1..] == x && ([b] + y)[1..] == y;
  }

  lemma {:induction false} EvictionShowsFrom(entries: Entries, history: seq<CompiledDecision>, lost: set<string>, ops: seq<Op>)
    requires LastPutsBut(entries, history, lost)
    ensures CacheAnswers(entries, ops) == HistoryAnswers(history, ops) <==> !HitsLost(history, ops, lost)
    decreases |ops|
  {
    if ops != [] {
      match ops[0]
      case PutOp(d, revision) =>
        if Accepts(d, revision) {
          LastPutsAfterPut(entries, history, lost, d);
          EvictionShowsFrom(entries[d.cacheKey := d], history + [d], lost - {d.cacheKey}, ops[1..]);
        } else {
          EvictionShowsFrom(entries, history, lost, ops[1..]);
        }
      case LookupOp(key, revision, minimum, now) =>
        var last := LastPut(history, key);
        var next := if last.Some? && last.value.expiresEpoch <= now then lost + {key} else lost;
        EvictionShowsFrom(AfterLookup(entries, key, now), history, next, ops[1..]);
        FirstAnswers(AnswerOf(LookupResult(entries, key, revision, minimum, now)),
                     CacheAnswers(AfterLookup(entries, key, now), ops[1..]),
                     HistoryAnswer(history, key, revision, minimum, now), HistoryAnswers(history, ops[1..]));
      case ClearOp =>
        EvictionShowsFrom(map[], [], {}, ops[1..]);
    }
  }

  /** Exactly when eviction shows, on any clock: a lookup comes before the expiry of a put that an
      earlier lookup has found expired. */
  lemma EvictionShowsIff(ops: seq<Op>)
    ensures CacheAnswers(map[], ops) == HistoryAnswers([], ops) <==> !HitsLost([], ops, {})
  {
    EvictionShowsFrom(map[], [], {}, ops);
  }

  /** A clock that goes back makes eviction visible, for every acceptable decision. */
  lemma BackwardClockForgets(d: CompiledDecision)
    requires ValidCompiled(d)
    ensures var look := (now: nat) => LookupOp(d.cacheKey, d.policyRevision, 0, now);
            var ops := [PutOp(d, d.policyRevision), look(d.expiresEpoch), look(d.expiresEpoch - 1)];
            CacheAnswers(map[], ops) != HistoryAnswers([], ops)
  {
    var at, before := LookupOp(d.cacheKey, d.policyRevision, 0, d.expiresEpoch),
                      LookupOp(d.cacheKey, d.policyRevision, 0, d.expiresEpoch - 1);
    var ops := [PutOp(d, d.policyRevision), at, before];
    assert ops[1..] == [at, before] && [at, before][1..] == [before];
    var full: Entries := map[d.cacheKey := d];
    assert map[][d.cacheKey := d] == full;
    assert CacheAnswers(full, [at, before]) == [Answer(ABSTAIN, None)] + CacheAnswers(map[], [before]) by {
      assert AfterLookup(full, d.cacheKey, d.expiresEpoch) == map[];
    }
    assert CacheAnswers(map[], [before])[0] == Answer(ABSTAIN, None);
    assert [] + [d] == [d];
    assert LastPut([d], d.cacheKey) == Some(d);
    assert HistoryAnswers([d], [at, before]) ==
           [HistoryAnswer([d], d.cacheKey, d.policyRevision, 0, d.expiresEpoch)] + HistoryAnswers([d], [before]);
    assert HistoryAnswers([d], [before])[0] == Answer(DENY, Some(d.decisionId));
    assert CacheAnswers(map[], ops)[1] != HistoryAnswers([], ops)[1];
  }

  // ---------------------------------------------------------------- save and load

  predicate Live(e: CompiledDecision, now: nat) { now < e.expiresEpoch }

  predicate SelfKeyed(entries: Entries) {
    forall k :: k in entries ==> entries[k].cacheKey == k
  }

  predicate DistinctKeys(entries: seq<CompiledDecision>) {
    forall i, j :: 0 <= i < j < |entries| ==> entries[i].cacheKey != entries[j].cacheKey
  }

  lemma {:induction false} LoadEntriesKeepsLive(entries: seq<CompiledDecision>, revision: string, now: nat, into: Entries)
    requires DistinctKeys(entries) && forall i :: 0 <= i < |entries| ==> entries[i].cacheKey !in into
    ensures LoadEntries(entries, revision, now, into).Ok? <==>
            forall i :: 0 <= i < |entries| && Live(entries[i], now) ==> Accepts(entries[i], revision)
    ensures LoadEntries(entries, revision, now, into).Ok? ==>
              var m := LoadEntries(entries, revision, now, into).value;
              && (forall i :: 0 <= i < |entries| && Live(entries[i], now) ==>
                    entries[i].cacheKey in m && m[entries[i].cacheKey] == entries[i])
              && (forall k :: k in into ==> k in m && m[k] == into[k])
              && (forall k :: k in m && k !in into ==>
                    exists i :: 0 <= i < |entries| && Live(entries[i], now) && entries[i].cacheKey == k)
    decreases |entries|
  {
    if entries != [] {
      var rest := entries[1..];
      assert forall i :: 0 <= i < |rest| ==> rest[i] == entries[i + 1];
      if !Live(entries[0], now) {
        LoadEntriesKeepsLive(rest, revision, now, into);
        assert forall i :: 1 <= i < |entries| ==> entries[i] == rest[i - 1];
      } else if Accepts(entries[0], revision) {
        LoadEntriesKeepsLive(rest, revision, now, into[entries[0].cacheKey := entries[0]]);
        assert forall i :: 1 <= i < |entries| ==> entries[i] == rest[i - 1];
      }
    }
  }

  lemma OrderedEnumerates(entries: Entries)
    requires SelfKeyed(entries)
    ensures DistinctKeys(Ordered(entries))
    ensures forall i :: 0 <= i < |Ordered(entries)| ==>
              Ordered(entries)[i].cacheKey in entries && entries[Ordered(entries)[i].cacheKey] == Ordered(entries)[i]
    ensures forall k :: k in entries ==> entries[k] in Ordered(entries)
  {
    var keys := Sorted(entries.Keys);
    var values := Ordered(entries);
    forall i | 0 <= i < |keys| ensures keys[i] in entries && values[i] == entries[keys[i]] {
      assert keys[i] in Elements(keys);
    }
    forall i, j | 0 <= i < j < |values| ensures values[i].cacheKey != values[j].cacheKey {
      AscendingDistinct(keys, i, j);
    }
    forall k | k in entries ensures entries[k] in values {
      assert k in Elements(keys);
      var i :| 0 <= i < |keys| && keys[i] == k;
      assert values[i] == entries[k];
    }
  }

  /** The entries that are still live. */
  function Unexpired(entries: Entries, now: nat): Entries {
    map k | k in entries && Live(entries[k], now) :: entries[k]
  }

  /** `list` holds each entry of the map once. */
  ghost predicate Enumerates(list: seq<CompiledDecision>, entries: Entries) {
    && DistinctKeys(list)
    && (forall i :: 0 <= i < |list| ==> list[i].cacheKey in entries && entries[list[i].cacheKey] == list[i])
    && (forall k :: k in entries ==> exists i :: 0 <= i < |list| && list[i] == entries[k])
  }

  lemma LoadedMap(list: seq<CompiledDecision>, entries: Entries, revision: string, now: nat)
    requires Enumerates(list, entries) && SelfKeyed(entries)
    requires LoadEntries(list, revision, now, map[]).Ok?
    ensures LoadEntries(list, revision, now, map[]).value == Unexpired(entries, now)
  {
    LoadEntriesKeepsLive(list, revision, now, map[]);
    var m := LoadEntries(list, revision, now, map[]).value;
    forall k | k in Unexpired(entries, now) ensures k in m && m[k] == entries[k] {
      var i :| 0 <= i < |list| && list[i] == entries[k];
    }
    forall k | k in m ensures k in Unexpired(entries, now) {
      var i :| 0 <= i < |list| && Live(list[i], now) && list[i].cacheKey == k;
    }
  }

  lemma LoadOrdered(entries: Entries, revision: string, now: nat)
    requires SelfKeyed(entries)
    ensures var r := LoadEntries(Ordered(entries), revision, now, map[]);
            && (r.Ok? <==> forall k :: k in entries && Live(entries[k], now) ==> Accepts(entries[k], revision))
            && (r.Ok? ==> r.value == Unexpired(entries, now))
  {
    var list := Ordered(entries);
    OrderedEnumerates(entries);
    assert Enumerates(list, entries);
    LoadEntriesKeepsLive(list, revision, now, map[]);
    if LoadEntries(list, revision, now, map[]).Ok? {
      LoadedMap(list, entries, revision, now);
      forall k | k in entries && Live(entries[k], now) ensures Accepts(entries[k], revision) {
        var i :| 0 <= i < |list| && list[i] == entries[k];
      }
    }
  }

  /** A snapshot loads exactly when it is one for this revision, signed as it stands with this secret, whose live
      entries are all acceptable. Whether its keys repeat or expired entries are sound does not matter. */
  lemma LoadsIff(hmac: Hmac, s: Snapshot, revision: string, secret: string, now: nat)
    ensures LoadSnapshot(hmac, s, revision, secret, now).Ok? <==>
            && secret != "" && s == Sign(hmac, revision, s.entries, secret)
            && forall e :: e in s.entries && Live(e, now) ==> Accepts(e, revision)
  {
    LoadEntriesIff(s.entries, revision, now, map[]);
  }

  lemma {:induction false} LoadEntriesIff(entries: seq<CompiledDecision>, revision: string, now: nat, into: Entries)
    ensures LoadEntries(entries, revision, now, into).Ok? <==>
            forall e :: e in entries && Live(e, now) ==> Accepts(e, revision)
    decreases |entries|
  {
    if entries != [] {
      assert entries == [entries[0]] + entries[1..];
      LoadEntriesIff(entries[1..], revision, now, if Live(entries[0], now) then into[entries[0].cacheKey := entries[0]] else into);
    }
  }

  /** A lookup hits iff there is a live entry of this revision that is not stale, and else its reason is the first of
      these that fails. */
  lemma LookupReasons(entries: Entries, key: string, revision: string, minimum: nat, now: nat)
    ensures var r := LookupResult(entries, key, revision, minimum, now);
            && (r.decisionId.Some? <==> key in entries && Live(entries[key], now) && entries[key].policyRevision == revision
                                        && minimum <= entries[key].stateRevision)
            && (if r.decisionId.Some?
                then r.effect == entries[key].effect && r.decisionId.value == entries[key].decisionId
                     && r.reasonCode == "VERSIONED_CACHE_HIT"
                else r.effect == ABSTAIN)
            && (r.reasonCode == "CACHE_MISS" <==> key !in entries)
            && (r.reasonCode == "CACHE_EXPIRED" <==> key in entries && entries[key].expiresEpoch <= now)
            && (r.reasonCode == "POLICY_REVISION_MISMATCH" <==>
                  key in entries && Live(entries[key], now) && entries[key].policyRevision != revision)
            && (r.reasonCode == "STATE_REVISION_STALE" <==>
                  key in entries && Live(entries[key], now) && entries[key].policyRevision == revision
                  && entries[key].stateRevision < minimum)
  {
    assert |"CACHE_MISS"| == 10 && |"CACHE_EXPIRED"| == 13 && |"POLICY_REVISION_MISMATCH"| == 24
           && |"STATE_REVISION_STALE"| == 20 && |"VERSIONED_CACHE_HIT"| == 19;
  }

  /** Saving and loading under one secret and revision succeeds exactly when the live entries are
      acceptable under that revision. It then gives back exactly the live entries, and every lookup
      from the load time on is answered as by the cache that was saved. */
  lemma SaveThenLoad(hmac: Hmac, entries: Entries, revision: string, secret: string, now: nat)
    requires secret != "" && SelfKeyed(entries)
    ensures var r := LoadSnapshot(hmac, Sign(hmac, revision, Ordered(entries), secret), revision, secret, now);
            && (r.Ok? <==> forall k :: k in entries && Live(entries[k], now) ==> Accepts(entries[k], revision))
            && (r.Ok? ==> r.value == Unexpired(entries, now)
                          && forall key, rev, minimum, later :: now <= later ==>
                               AnswerOf(LookupResult(r.value, key, rev, minimum, later)) ==
                               AnswerOf(LookupResult(entries, key, rev, minimum, later)))
  {
    LoadOrdered(entries, revision, now);
  }
}
