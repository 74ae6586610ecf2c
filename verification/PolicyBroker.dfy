/** The policy broker: a versioned decision cache in memory over an authenticated append-only log. */
module PolicyBroker {
  import opened Wrappers

  /** Times are in nanoseconds of one clock that both wall-clock and monotonic reads follow. */
  const SECOND := 1_000_000_000

  /** In seconds. */
  const TTL := 2

  function Epoch(t: int): int { t / SECOND }

  datatype Effect = ALLOW | DENY

  datatype Asked = Asked(effect: Effect) | Unsupported

  datatype Kind = Ordinary | Admin | Health

  datatype Operation = List | Rotate | OtherOperation

  datatype Request = Request(kind: Kind, namespaceId: string, resource: string, revision: string, asked: Asked,
                             token: Option<string>, operation: Operation)

  datatype Basis = Requested(revision: string) | AdminPolicy | HealthProbe | FailClosed

  datatype Reason = InvalidRequest | InvalidToken | AdminList | RotateOk | RotateFailed | UnsupportedOperation | HealthOk
                  | VersionedCacheHit | UnsupportedEffect | PersistenceUnavailable | GatewayDecision | AuditUnavailable

  datatype Response = Response(effect: Effect, applied: bool, cacheHit: bool, isFallback: bool, basis: Basis, reason: Reason)

  datatype Cached = Cached(effect: Effect, revision: string, expires: int)

  /** A line of the cache file. A foreign line does not parse, or fails its version or checksum; an
      unreadable one ends the reading. */
  datatype Line = Entry(key: string, effect: Effect, revision: string, deadline: int) | Foreign | Unreadable

  /** The process's cache, and the cache file if there is one. */
  datatype Memory = Memory(cache: map<string, Cached>, file: Option<seq<Line>>)

  /** Whether a cache key is configured, and the admin token if any. */
  datatype Config = Config(keyed: bool, adminToken: string)

  /** What the environment lets succeed. */
  datatype Io = Io(audit: bool, persist: bool, rename: bool)

  /** The clock when the cache is looked up, when the deadline is computed, when the entry is stored. */
  datatype Clock = Clock(check: int, stamp: int, stored: int)

  function Key(namespaceId: string, resource: string): string { namespaceId + "|" + resource }

  function Lines(file: Option<seq<Line>>): seq<Line> { if file.Some? then file.value else [] }

  function FallbackFor(reason: Reason): Response { Response(DENY, true, false, true, FailClosed, reason) }

  /** An answer that cannot be audited becomes a fail-closed denial. */
  function Recorded(r: Response, audit: bool): Response { if audit then r else FallbackFor(AuditUnavailable) }

  function Live(m: Memory, key: string, revision: string, at: int): bool {
    key in m.cache && m.cache[key].expires > at && m.cache[key].revision == revision
  }

  function Stored(m: Memory, key: string, effect: Effect, revision: string, keyed: bool, clock: Clock): Memory {
    Memory(m.cache[key := Cached(effect, revision, clock.stored + TTL * SECOND)],
           if keyed then Some(Lines(m.file) + [Entry(key, effect, revision, Epoch(clock.stamp) + TTL)]) else m.file)
  }

  function AdminAnswer(c: Config, m: Memory, r: Request, io: Io): (Memory, Response) {
    if c.adminToken == "" || r.token != Some(c.adminToken) then (m, FallbackFor(InvalidToken))
    else
      match r.operation
      case List => (m, Response(ALLOW, false, false, false, AdminPolicy, AdminList))
      case Rotate =>
        var ok := m.file.None? || io.rename;
        (Memory(map[], if ok then None else m.file),
         Response(if ok then ALLOW else DENY, ok, false, !ok, AdminPolicy, if ok then RotateOk else RotateFailed))
      case OtherOperation => (m, FallbackFor(UnsupportedOperation))
  }

  function DecisionAnswer(c: Config, m: Memory, r: Request, io: Io, clock: Clock): (Memory, Response) {
    var key := Key(r.namespaceId, r.resource);
    if Live(m, key, r.revision, clock.check) then
      (m, Response(m.cache[key].effect, true, true, false, Requested(r.revision), VersionedCacheHit))
    else if r.asked.Unsupported? then (m, FallbackFor(UnsupportedEffect))
    else if c.keyed && !io.persist then (m, FallbackFor(PersistenceUnavailable))
    else (Stored(m, key, r.asked.effect, r.revision, c.keyed, clock),
          Response(r.asked.effect, true, false, false, Requested(r.revision), GatewayDecision))
  }

  function Answer(c: Config, m: Memory, request: Option<Request>, io: Io, clock: Clock): (Memory, Response) {
    if request.None? then (m, FallbackFor(InvalidRequest))
    else
      var r := request.value;
      if r.kind.Admin? then AdminAnswer(c, m, r, io)
      else if r.namespaceId == "" || r.resource == "" then (m, FallbackFor(InvalidRequest))
      else if r.kind.Health? then (m, Response(ALLOW, false, false, false, HealthProbe, HealthOk))
      else DecisionAnswer(c, m, r, io, clock)
  }

  class Broker {
    const config: Config
    var cache: map<string, Cached>
    var file: Option<seq<Line>>

    constructor (config: Config, memory: Memory)
      ensures this.config == config && View() == memory
    {
      this.config := config;
      cache, file := memory.cache, memory.file;
    }

    function View(): Memory
      reads this
    {
      Memory(cache, file)
    }

    method AppendLine(line: Line)
      modifies this`file
      ensures file == Some(Lines(old(file)) + [line])
    {
      file := Some(Lines(file) + [line]);
    }

    method AdminRequest(r: Request, io: Io) returns (response: Response)
      modifies this
      ensures (View(), response) == AdminAnswer(config, old(View()), r, io)
    {
      if config.adminToken == "" || r.token != Some(config.adminToken) {
        return FallbackFor(InvalidToken);
      }
      match r.operation {
        case List => response := Response(ALLOW, false, false, false, AdminPolicy, AdminList);
        case Rotate =>
          var result := true;
          if file.Some? {
            result := io.rename;
            if result {
              file := None;
            }
          }
          cache := map[];
          response := Response(if result then ALLOW else DENY, result, false, !result, AdminPolicy,
                               if result then RotateOk else RotateFailed);
        case OtherOperation => response := FallbackFor(UnsupportedOperation);
      }
    }

    method Decide(request: Option<Request>, io: Io, clock: Clock) returns (response: Response)
      modifies this
      ensures var answer := Answer(config, old(View()), request, io, clock);
              View() == answer.0 && response == Recorded(answer.1, io.audit)
    {
      if request.None? {
        return Recorded(FallbackFor(InvalidRequest), io.audit);
      }
      var r := request.value;
      if r.kind.Admin? {
        var answer := AdminRequest(r, io);
        return Recorded(answer, io.audit);
      }
      if r.namespaceId == "" || r.resource == "" {
        return Recorded(FallbackFor(InvalidRequest), io.audit);
      }
      if r.kind.Health? {
        return Recorded(Response(ALLOW, false, false, false, HealthProbe, HealthOk), io.audit);
      }
      var key := Key(r.namespaceId, r.resource);
      if key in cache {
        var cached := cache[key];
        if cached.expires > clock.check && cached.revision == r.revision {
          return Recorded(Response(cached.effect, true, true, false, Requested(r.revision), VersionedCacheHit), io.audit);
        }
      }
      if r.asked.Unsupported? {
        return Recorded(FallbackFor(UnsupportedEffect), io.audit);
      }
      if config.keyed {
        if !io.persist {
          return Recorded(FallbackFor(PersistenceUnavailable), io.audit);
        }
        AppendLine(Entry(key, r.asked.effect, r.revision, Epoch(clock.stamp) + TTL));
      }
      cache := cache[key := Cached(r.asked.effect, r.revision, clock.stored + TTL * SECOND)];
      response := Recorded(Response(r.asked.effect, true, false, false, Requested(r.revision), GatewayDecision), io.audit);
    }
  }

  // ---------------------------------------------------------------- startup

  /** The clock when replay starts, at each line, when compaction starts, and at each entry written. */
  datatype Reads = Reads(load: int, line: nat -> int, dump: int, entry: string -> int)

  function Readable(lines: seq<Line>): seq<Line> {
    if lines == [] || lines[0].Unreadable? then [] else [lines[0]] + Readable(lines[1..])
  }

  predicate Accepted(line: Line, keyed: bool, epoch: int) {
    line.Entry? && keyed && line.deadline > epoch
  }

  function LoadedAt(line: Line, epoch: int, at: int): Cached
    requires line.Entry?
  {
    Cached(line.effect, line.revision, at + (line.deadline - epoch) * SECOND)
  }

  function Replayed(lines: seq<Line>, keyed: bool, clocks: Reads): map<string, Cached> {
    if lines == [] then map[]
    else
      var i := |lines| - 1;
      var before, line := Replayed(lines[..i], keyed, clocks), lines[i];
      if Accepted(line, keyed, Epoch(clocks.load)) then before[line.key := LoadedAt(line, Epoch(clocks.load), clocks.line(i))]
      else before
  }

  function Remaining(expires: int, at: int): int { if expires > at then Epoch(expires - at) else 0 }

  function CompactLine(key: string, cached: Cached, clocks: Reads): Line {
    Entry(key, cached.effect, cached.revision, Epoch(clocks.dump) + Remaining(cached.expires, clocks.entry(key)))
  }

  /** One line per cached key, in whatever order the keys are enumerated. */
  function Compacted(cache: map<string, Cached>, order: seq<string>, clocks: Reads): seq<Line>
    requires forall i :: 0 <= i < |order| ==> order[i] in cache
  {
    seq(|order|, i requires 0 <= i < |order| => CompactLine(order[i], cache[order[i]], clocks))
  }

  ghost predicate Enumerates(order: seq<string>, keys: set<string>) {
    && (forall i :: 0 <= i < |order| ==> order[i] in keys)
    && (forall k :: k in keys ==> exists i :: 0 <= i < |order| && order[i] == k)
    && forall i, j :: 0 <= i < j < |order| ==> order[i] != order[j]
  }

  method ReplayLog(lines: seq<Line>, keyed: bool, clocks: Reads) returns (cache: map<string, Cached>)
    ensures cache == Replayed(Readable(lines), keyed, clocks)
  {
    cache := map[];
    var now := Epoch(clocks.load);
    var i := 0;
    while i < |lines| && !lines[i].Unreadable?
      invariant 0 <= i <= |lines|
      invariant Readable(lines) == lines[..i] + Readable(lines[i..])
      invariant cache == Replayed(lines[..i], keyed, clocks)
    {
      var line := lines[i];
      assert lines[i..][0] == line && lines[i..][1..] == lines[i + 1..];
      assert lines[..i + 1] == lines[..i] + [line] && lines[..i + 1][..i] == lines[..i];
      if line.Entry? && keyed && line.deadline > now {
        cache := cache[line.key := Cached(line.effect, line.revision, clocks.line(i) + (line.deadline - now) * SECOND)];
      }
      i := i + 1;
    }
    assert lines[..i] + [] == lines[..i];
  }

  method Compact(cache: map<string, Cached>, order: seq<string>, clocks: Reads) returns (lines: seq<Line>)
    requires forall i :: 0 <= i < |order| ==> order[i] in cache
    ensures lines == Compacted(cache, order, clocks)
  {
    lines := [];
    var now := Epoch(clocks.dump);
    for i := 0 to |order|
      invariant lines == Compacted(cache, order[..i], clocks)
    {
      var key := order[i];
      var entry := cache[key];
      var left := if entry.expires > clocks.entry(key) then (entry.expires - clocks.entry(key)) / SECOND else 0;
      lines := lines + [Entry(key, entry.effect, entry.revision, now + left)];
    }
    assert order[..|order|] == order;
  }

  /** How far a startup gets. */
  datatype Fate = Serving | FailedBeforeRename | FailedAfterRename

  /** Replay, then replace the file by its compaction unless nothing was loaded. */
  method StartBroker(config: Config, file: Option<seq<Line>>, openable: bool, order: seq<string>, clocks: Reads, fate: Fate)
    returns (memory: Memory, serving: bool)
    requires Enumerates(order, Loaded(config, file, openable, clocks).Keys)
    ensures memory == Started(config, file, openable, order, clocks, fate) && serving == fate.Serving?
  {
    var cache: map<string, Cached> := map[];
    if file.Some? && openable {
      cache := ReplayLog(file.value, config.keyed, clocks);
    }
    memory := Memory(cache, file);
    if cache != map[] && !fate.FailedBeforeRename? {
      var lines := Compact(cache, order, clocks);
      memory := Memory(cache, Some(lines));
    }
    serving := fate.Serving?;
  }

  function Loaded(config: Config, file: Option<seq<Line>>, openable: bool, clocks: Reads): map<string, Cached> {
    if file.Some? && openable then Replayed(Readable(file.value), config.keyed, clocks) else map[]
  }

  ghost function Started(config: Config, file: Option<seq<Line>>, openable: bool, order: seq<string>, clocks: Reads, fate: Fate): Memory
    requires Enumerates(order, Loaded(config, file, openable, clocks).Keys)
  {
    var cache := Loaded(config, file, openable, clocks);
    Memory(cache, if cache == map[] || fate.FailedBeforeRename? then file else Some(Compacted(cache, order, clocks)))
  }

  // ---------------------------------------------------------------- runs

  /** A decision that was stored, when, and how many second boundaries startups had crossed by then. */
  datatype Put = Put(key: string, effect: Effect, revision: string, at: int, crossed: int)

  /** `history` holds what was stored since the last successful rotation; `crossed` counts the second
      boundaries between the two wall-clock reads of each startup, `lag` is how long the last one took. */
  datatype State = State(memory: Memory, serving: bool, now: int, history: seq<Put>, crossed: int, lag: int)

  datatype Action =
    | Serve(request: Option<Request>, io: Io, clock: Clock)
    | Start(openable: bool, order: seq<string>, clocks: Reads, fate: Fate, done: int)
    | RotateFile
    | Stop
    | Noise
    | Pass(to: int)

  function Latest(history: seq<Put>, key: string): Option<Put> {
    if history == [] then None
    else
      var last := history[|history| - 1];
      if last.key == key then Some(last) else Latest(history[..|history| - 1], key)
  }

  predicate Stores(c: Config, m: Memory, request: Option<Request>, io: Io, clock: Clock) {
    Answer(c, m, request, io, clock).1.reason.GatewayDecision?
  }

  predicate Rotates(c: Config, m: Memory, request: Option<Request>, io: Io, clock: Clock) {
    Answer(c, m, request, io, clock).1.reason.RotateOk?
  }

  function HistoryAfter(s: State, c: Config, request: Option<Request>, io: Io, clock: Clock): seq<Put> {
    if Stores(c, s.memory, request, io, clock) then
      var r := request.value;
      s.history + [Put(Key(r.namespaceId, r.resource), r.asked.effect, r.revision, clock.stored, s.crossed)]
    else if Rotates(c, s.memory, request, io, clock) then []
    else s.history
  }

  ghost predicate InOrder(s: State, clocks: Reads, done: int) {
    && s.now <= clocks.load <= clocks.dump <= done
    && (forall i :: clocks.load <= clocks.line(i) <= clocks.dump)
    && forall k :: clocks.dump <= clocks.entry(k) <= done
  }

  ghost predicate Enabled(c: Config, s: State, a: Action) {
    match a
    case Serve(_, _, clock) => s.serving && s.now <= clock.check <= clock.stamp <= clock.stored
    case Start(openable, order, clocks, _, done) =>
      !s.serving && InOrder(s, clocks, done) && Enumerates(order, Loaded(c, s.memory.file, openable, clocks).Keys)
    case RotateFile => !s.serving
    case Stop => s.serving
    case Noise => true
    case Pass(to) => s.now <= to
  }

  ghost function Next(c: Config, s: State, a: Action): State
    requires Enabled(c, s, a)
  {
    match a
    case Serve(request, io, clock) =>
      s.(memory := Answer(c, s.memory, request, io, clock).0, now := clock.stored, history := HistoryAfter(s, c, request, io, clock))
    case Start(openable, order, clocks, fate, done) =>
      State(Started(c, s.memory.file, openable, order, clocks, fate), fate.Serving?, done, s.history,
            s.crossed + Epoch(clocks.dump) - Epoch(clocks.load), clocks.dump - clocks.load)
    case RotateFile => s.(memory := s.memory.(file := None), history := [])
    case Stop => s.(serving := false)
    case Noise => s.(memory := s.memory.(file := Some(Lines(s.memory.file) + [Foreign])))
    case Pass(to) => s.(now := to)
  }

  function Initial(now: int): State { State(Memory(map[], None), false, now, [], 0, 0) }

  ghost predicate Run(c: Config, states: seq<State>, actions: seq<Action>) {
    && |states| == |actions| + 1 && 0 <= states[0].now && states[0] == Initial(states[0].now)
    && forall i :: 0 <= i < |actions| ==> Enabled(c, states[i], actions[i]) && states[i + 1] == Next(c, states[i], actions[i])
  }

  // ---------------------------------------------------------------- the invariant

  /** The line is the newest stored decision for its key, at a deadline that only startups pushed out. */
  predicate Current(line: Line, history: seq<Put>, crossed: int)
    requires line.Entry?
  {
    var p := Latest(history, line.key);
    && p.Some? && p.value.effect == line.effect && p.value.revision == line.revision
    && line.deadline <= Epoch(p.value.at) + TTL + crossed - p.value.crossed
  }

  predicate LastOfKey(lines: seq<Line>, i: int)
    requires 0 <= i < |lines| && lines[i].Entry?
  {
    forall j :: i < j < |lines| && lines[j].Entry? ==> lines[j].key != lines[i].key
  }

  predicate Ordered(lines: seq<Line>) {
    forall i, j :: 0 <= i < j < |lines| && lines[i].Entry? && lines[j].Entry? && lines[i].key == lines[j].key ==>
                     lines[i].deadline <= lines[j].deadline
  }

  predicate SoundLog(lines: seq<Line>, history: seq<Put>, crossed: int, now: int) {
    && (forall i :: 0 <= i < |lines| ==> !lines[i].Unreadable?)
    && (forall i :: 0 <= i < |lines| && lines[i].Entry? ==> lines[i].deadline <= Epoch(now) + TTL)
    && Ordered(lines)
    && forall i :: 0 <= i < |lines| && lines[i].Entry? && LastOfKey(lines, i) ==> Current(lines[i], history, crossed)
  }

  predicate SoundEntry(key: string, cached: Cached, history: seq<Put>, crossed: int, lag: int) {
    var p := Latest(history, key);
    && p.Some? && p.value.effect == cached.effect && p.value.revision == cached.revision
    && cached.expires < p.value.at + (TTL + 1 + crossed - p.value.crossed) * SECOND + lag
  }

  predicate SoundHistory(history: seq<Put>, crossed: int) {
    forall i :: 0 <= i < |history| ==> history[i].crossed <= crossed
  }

  /** Without a cache key no decision reaches the file. */
  predicate Keyless(lines: seq<Line>) {
    forall i :: 0 <= i < |lines| ==> !lines[i].Entry?
  }

  predicate Invariant(c: Config, s: State) {
    && (c.keyed || Keyless(Lines(s.memory.file)))
    && 0 <= s.now && 0 <= s.lag && SoundHistory(s.history, s.crossed)
    && SoundLog(Lines(s.memory.file), s.history, s.crossed, s.now)
    && (s.serving ==> SoundCache(s.memory.cache, s.history, s.crossed, s.lag))
  }

  lemma {:induction false} LatestIsIn(history: seq<Put>, key: string)
    ensures var p := Latest(history, key); p.Some? ==> p.value in history && p.value.key == key
  {
    if history != [] {
      LatestIsIn(history[..|history| - 1], key);
    }
  }

  lemma LatestAfter(history: seq<Put>, p: Put, key: string)
    ensures Latest(history + [p], key) == if p.key == key then Some(p) else Latest(history, key)
  {
    assert (history + [p])[..|history|] == history;
  }

  lemma StoreKeepsLog(lines: seq<Line>, history: seq<Put>, crossed: int, now: int, line: Line, p: Put, clock: Clock)
    requires SoundLog(lines, history, crossed, now) && now <= clock.stamp <= clock.stored
    requires line.Entry? && line == Entry(p.key, p.effect, p.revision, Epoch(clock.stamp) + TTL)
    requires p.at == clock.stored && p.crossed == crossed
    ensures SoundLog(lines + [line], history + [p], crossed, clock.stored)
  {
    var all := lines + [line];
    assert forall i :: 0 <= i < |lines| ==> all[i] == lines[i];
    forall i | 0 <= i < |all| && all[i].Entry? && LastOfKey(all, i) ensures Current(all[i], history + [p], crossed) {
      LatestAfter(history, p, all[i].key);
      if i < |lines| {
        assert all[|lines|] == line;
        assert LastOfKey(lines, i) by {
          assert forall j :: i < j < |lines| ==> all[j] == lines[j];
        }
      }
    }
  }

  lemma NoiseKeepsLog(lines: seq<Line>, history: seq<Put>, crossed: int, now: int)
    requires SoundLog(lines, history, crossed, now)
    ensures SoundLog(lines + [Foreign], history, crossed, now)
  {
    var all := lines + [Foreign];
    assert forall i :: 0 <= i < |lines| ==> all[i] == lines[i];
    forall i | 0 <= i < |all| && all[i].Entry? && LastOfKey(all, i) ensures Current(all[i], history, crossed) {
      assert LastOfKey(lines, i) by {
        assert forall j :: i < j < |lines| ==> all[j] == lines[j];
      }
    }
  }

  lemma KeylessIsSound(lines: seq<Line>, history: seq<Put>, crossed: int, now: int)
    requires Keyless(lines) && forall i :: 0 <= i < |lines| ==> !lines[i].Unreadable?
    ensures SoundLog(lines, history, crossed, now)
  {
  }

  lemma {:induction false} ReadableIsAll(lines: seq<Line>)
    requires forall i :: 0 <= i < |lines| ==> !lines[i].Unreadable?
    ensures Readable(lines) == lines
  {
    if lines != [] {
      ReadableIsAll(lines[1..]);
      assert lines == [lines[0]] + lines[1..];
    }
  }

  /** The entry that replay leaves for a key comes from the last accepted line about it. */
  ghost predicate ComesFrom(lines: seq<Line>, keyed: bool, clocks: Reads, key: string, cached: Cached, i: int) {
    && 0 <= i < |lines| && Accepted(lines[i], keyed, Epoch(clocks.load)) && lines[i].key == key
    && cached == LoadedAt(lines[i], Epoch(clocks.load), clocks.line(i))
    && forall j :: i < j < |lines| && lines[j].Entry? && lines[j].key == key ==> !Accepted(lines[j], keyed, Epoch(clocks.load))
  }

  lemma {:induction false} ReplayedFrom(lines: seq<Line>, keyed: bool, clocks: Reads, key: string)
    ensures var cache := Replayed(lines, keyed, clocks);
            && (key in cache ==> exists i :: ComesFrom(lines, keyed, clocks, key, cache[key], i))
            && (forall i :: 0 <= i < |lines| && Accepted(lines[i], keyed, Epoch(clocks.load)) && lines[i].key == key ==> key in cache)
  {
    if lines != [] {
      var n := |lines| - 1;
      var init := lines[..n];
      ReplayedFrom(init, keyed, clocks, key);
      var cache := Replayed(lines, keyed, clocks);
      if key in cache {
        if Accepted(lines[n], keyed, Epoch(clocks.load)) && lines[n].key == key {
          assert ComesFrom(lines, keyed, clocks, key, cache[key], n);
        } else {
          var i :| ComesFrom(init, keyed, clocks, key, cache[key], i);
          assert ComesFrom(lines, keyed, clocks, key, cache[key], i);
        }
      }
    }
  }

  /** Line `i` of the whole file is about the key and may be used: authentic, not expired, before any unreadable line. */
  predicate Usable(lines: seq<Line>, keyed: bool, epoch: int, key: string, i: int) {
    && 0 <= i < |lines| && keyed && lines[i].Entry? && lines[i].key == key && epoch < lines[i].deadline
    && forall j :: 0 <= j < i ==> !lines[j].Unreadable?
  }

  lemma {:induction false} ReadableIsFront(lines: seq<Line>)
    ensures var n := |Readable(lines)|;
            && n <= |lines| && Readable(lines) == lines[..n] && (n < |lines| ==> lines[n].Unreadable?)
            && forall j :: 0 <= j < n ==> !lines[j].Unreadable?
  {
    if lines != [] && !lines[0].Unreadable? {
      ReadableIsFront(lines[1..]);
      assert lines == [lines[0]] + lines[1..];
    }
  }

  /** What a startup holds for a key is what the last usable line about it says, for the rest of its time; and it
      holds something iff there is one. */
  lemma HeldIsLastUsable(lines: seq<Line>, keyed: bool, clocks: Reads, key: string)
    ensures var cache, epoch := Replayed(Readable(lines), keyed, clocks), clocks.load / SECOND;
            && (key in cache <==> exists i :: Usable(lines, keyed, epoch, key, i))
            && (key in cache ==>
                  exists i :: Usable(lines, keyed, epoch, key, i) && (forall j :: i < j ==> !Usable(lines, keyed, epoch, key, j))
                    && cache[key] == Cached(lines[i].effect, lines[i].revision,
                                            clocks.line(i) + (lines[i].deadline - epoch) * SECOND))
  {
    var front, epoch := Readable(lines), clocks.load / SECOND;
    ReadableIsFront(lines);
    ReplayedFrom(front, keyed, clocks, key);
    assert forall i :: Usable(lines, keyed, epoch, key, i) ==> 0 <= i < |front| && front[i] == lines[i];
    if key in Replayed(front, keyed, clocks) {
      var i :| ComesFrom(front, keyed, clocks, key, Replayed(front, keyed, clocks)[key], i);
      assert Usable(lines, keyed, epoch, key, i);
    }
  }

  /** As deadlines of a key only grow along the file, that line is its last one altogether. */
  lemma LiveIsLast(lines: seq<Line>, keyed: bool, clocks: Reads, key: string, cached: Cached, i: int)
    requires Ordered(lines) && ComesFrom(lines, keyed, clocks, key, cached, i)
    ensures LastOfKey(lines, i)
  {
  }

  /** A loaded entry outlives its written deadline by less than the second that was truncated, plus the
      time the replay took to get to it. */
  lemma LoadedLifetime(line: Line, clocks: Reads, i: nat, history: seq<Put>, crossed: int)
    requires line.Entry? && Current(line, history, crossed)
    requires clocks.load <= clocks.line(i) <= clocks.dump
    ensures SoundEntry(line.key, LoadedAt(line, Epoch(clocks.load), clocks.line(i)), history, crossed, clocks.dump - clocks.load)
  {
  }

  /** Compaction moves a deadline by at most the second boundaries between its two wall-clock reads. */
  lemma DeadlineDrift(line: Line, clocks: Reads, i: nat)
    requires line.Entry? && line.deadline > Epoch(clocks.load)
    requires clocks.line(i) <= clocks.entry(line.key)
    ensures var out := CompactLine(line.key, LoadedAt(line, Epoch(clocks.load), clocks.line(i)), clocks);
            && out.deadline <= line.deadline + Epoch(clocks.dump) - Epoch(clocks.load)
            && (clocks.line(i) == clocks.entry(line.key) ==>
                  out.deadline == line.deadline + Epoch(clocks.dump) - Epoch(clocks.load))
  {
  }

  ghost predicate Steady(clocks: Reads) {
    && clocks.load <= clocks.dump
    && (forall i :: clocks.load <= clocks.line(i) <= clocks.dump)
    && forall k :: clocks.dump <= clocks.entry(k)
  }

  lemma ReplayIsSound(lines: seq<Line>, keyed: bool, clocks: Reads, history: seq<Put>, crossed: int, now: int, key: string)
    requires SoundLog(lines, history, crossed, now) && Steady(clocks) && now <= clocks.load
    requires key in Replayed(lines, keyed, clocks)
    ensures var cached := Replayed(lines, keyed, clocks)[key];
            && SoundEntry(key, cached, history, crossed, clocks.dump - clocks.load)
            && CompactLine(key, cached, clocks).deadline <= Epoch(clocks.dump) + TTL
            && Current(CompactLine(key, cached, clocks), history, crossed + Epoch(clocks.dump) - Epoch(clocks.load))
  {
    ReplayedFrom(lines, keyed, clocks, key);
    var cached := Replayed(lines, keyed, clocks)[key];
    var i :| ComesFrom(lines, keyed, clocks, key, cached, i);
    LiveIsLast(lines, keyed, clocks, key, cached, i);
    assert Current(lines[i], history, crossed);
    LoadedLifetime(lines[i], clocks, i, history, crossed);
    assert clocks.line(i) <= clocks.dump <= clocks.entry(key);
    DeadlineDrift(lines[i], clocks, i);
  }

  lemma CompactedIsSound(cache: map<string, Cached>, order: seq<string>, clocks: Reads, history: seq<Put>, crossed: int, done: int)
    requires Enumerates(order, cache.Keys) && clocks.dump <= done
    requires forall k :: k in cache ==> CompactLine(k, cache[k], clocks).deadline <= Epoch(clocks.dump) + TTL
    requires forall k :: k in cache ==> Current(CompactLine(k, cache[k], clocks), history, crossed)
    ensures SoundLog(Compacted(cache, order, clocks), history, crossed, done)
  {
    var lines := Compacted(cache, order, clocks);
    assert forall i :: 0 <= i < |lines| ==> lines[i] == CompactLine(order[i], cache[order[i]], clocks) && order[i] in cache;
  }

  lemma CrossedMore(lines: seq<Line>, history: seq<Put>, crossed: int, now: int, more: int, later: int)
    requires SoundLog(lines, history, crossed, now) && crossed <= more && now <= later
    ensures SoundLog(lines, history, more, later)
  {
  }

  lemma {:induction false} KeylessLoadsNothing(lines: seq<Line>, clocks: Reads)
    ensures Replayed(lines, false, clocks) == map[]
  {
    if lines != [] {
      KeylessLoadsNothing(lines[..|lines| - 1], clocks);
    }
  }

  lemma LoadedIsSound(c: Config, s: State, a: Action, key: string)
    requires Invariant(c, s) && a.Start? && Enabled(c, s, a)
    requires key in Loaded(c, s.memory.file, a.openable, a.clocks)
    ensures var cached := Loaded(c, s.memory.file, a.openable, a.clocks)[key];
            var crossed := s.crossed + Epoch(a.clocks.dump) - Epoch(a.clocks.load);
            && SoundEntry(key, cached, s.history, s.crossed, a.clocks.dump - a.clocks.load)
            && CompactLine(key, cached, a.clocks).deadline <= Epoch(a.clocks.dump) + TTL
            && Current(CompactLine(key, cached, a.clocks), s.history, crossed)
  {
    ReadableIsAll(Lines(s.memory.file));
    ReplayIsSound(Lines(s.memory.file), c.keyed, a.clocks, s.history, s.crossed, s.now, key);
  }

  lemma LoadedCompactsSoundly(c: Config, s: State, a: Action)
    requires Invariant(c, s) && a.Start? && Enabled(c, s, a)
    ensures SoundLog(Compacted(Loaded(c, s.memory.file, a.openable, a.clocks), a.order, a.clocks), s.history,
                     s.crossed + Epoch(a.clocks.dump) - Epoch(a.clocks.load), a.done)
  {
    var cache := Loaded(c, s.memory.file, a.openable, a.clocks);
    var crossed := s.crossed + Epoch(a.clocks.dump) - Epoch(a.clocks.load);
    forall k | k in cache
      ensures CompactLine(k, cache[k], a.clocks).deadline <= Epoch(a.clocks.dump) + TTL
      ensures Current(CompactLine(k, cache[k], a.clocks), s.history, crossed)
    {
      LoadedIsSound(c, s, a, k);
    }
    CompactedIsSound(cache, a.order, a.clocks, s.history, crossed, a.done);
  }

  lemma StartKeepsLog(c: Config, s: State, a: Action)
    requires Invariant(c, s) && a.Start? && Enabled(c, s, a)
    ensures var s' := Next(c, s, a); SoundLog(Lines(s'.memory.file), s'.history, s'.crossed, s'.now)
  {
    LoadedCompactsSoundly(c, s, a);
    CrossedMore(Lines(s.memory.file), s.history, s.crossed, s.now, s.crossed + Epoch(a.clocks.dump) - Epoch(a.clocks.load), a.done);
  }

  lemma StartKeepsInvariant(c: Config, s: State, a: Action)
    requires Invariant(c, s) && a.Start? && Enabled(c, s, a)
    ensures Invariant(c, Next(c, s, a))
  {
    var s' := Next(c, s, a);
    StartKeepsLog(c, s, a);
    forall k | k in s'.memory.cache ensures SoundEntry(k, s'.memory.cache[k], s'.history, s'.crossed, s'.lag) {
      LoadedIsSound(c, s, a, k);
    }
    if !c.keyed {
      KeylessLoadsNothing(Readable(Lines(s.memory.file)), a.clocks);
    }
  }

  /** The state after a decision is stored. */
  function AfterStore(c: Config, s: State, p: Put, clock: Clock): State {
    s.(memory := Memory(s.memory.cache[p.key := Cached(p.effect, p.revision, p.at + TTL * SECOND)],
                        if c.keyed then Some(Lines(s.memory.file) + [Entry(p.key, p.effect, p.revision, Epoch(clock.stamp) + TTL)])
                        else s.memory.file),
       now := clock.stored, history := s.history + [p])
  }

  lemma StoreShape(c: Config, s: State, a: Action)
    requires a.Serve? && Enabled(c, s, a) && Stores(c, s.memory, a.request, a.io, a.clock)
    ensures var r := a.request.value;
            Next(c, s, a) ==
            AfterStore(c, s, Put(Key(r.namespaceId, r.resource), r.asked.effect, r.revision, a.clock.stored, s.crossed), a.clock)
  {
  }

  lemma AfterStoreIsSound(c: Config, s: State, p: Put, clock: Clock)
    requires Invariant(c, s) && s.serving && s.now <= clock.stamp <= clock.stored && p.at == clock.stored && p.crossed == s.crossed
    ensures Invariant(c, AfterStore(c, s, p, clock))
  {
    var lines := Lines(s.memory.file);
    if c.keyed {
      StoreKeepsLog(lines, s.history, s.crossed, s.now, Entry(p.key, p.effect, p.revision, Epoch(clock.stamp) + TTL), p, clock);
    } else {
      KeylessIsSound(lines, s.history + [p], s.crossed, clock.stored);
    }
    StoreKeepsCache(s.memory.cache, s.history, s.crossed, s.lag, p);
  }

  lemma StoreKeepsInvariant(c: Config, s: State, a: Action)
    requires Invariant(c, s) && a.Serve? && Enabled(c, s, a) && Stores(c, s.memory, a.request, a.io, a.clock)
    ensures Invariant(c, Next(c, s, a))
  {
    var r := a.request.value;
    StoreShape(c, s, a);
    AfterStoreIsSound(c, s, Put(Key(r.namespaceId, r.resource), r.asked.effect, r.revision, a.clock.stored, s.crossed), a.clock);
  }

  predicate SoundCache(cache: map<string, Cached>, history: seq<Put>, crossed: int, lag: int) {
    forall k :: k in cache ==> SoundEntry(k, cache[k], history, crossed, lag)
  }

  lemma StoreKeepsCache(cache: map<string, Cached>, history: seq<Put>, crossed: int, lag: int, p: Put)
    requires SoundCache(cache, history, crossed, lag) && p.crossed == crossed && 0 <= lag
    ensures SoundCache(cache[p.key := Cached(p.effect, p.revision, p.at + TTL * SECOND)], history + [p], crossed, lag)
  {
    var next := cache[p.key := Cached(p.effect, p.revision, p.at + TTL * SECOND)];
    forall k | k in next ensures SoundEntry(k, next[k], history + [p], crossed, lag) {
      LatestAfter(history, p, k);
    }
  }

  lemma ServeKeepsInvariant(c: Config, s: State, a: Action)
    requires Invariant(c, s) && a.Serve? && Enabled(c, s, a) && !Stores(c, s.memory, a.request, a.io, a.clock)
    ensures Invariant(c, Next(c, s, a))
  {
    CrossedMore(Lines(s.memory.file), s.history, s.crossed, s.now, s.crossed, a.clock.stored);
    assert a.request.Some? && a.request.value.kind.Admin? ==>
             Next(c, s, a).memory == s.memory || Next(c, s, a).memory == Memory(map[], s.memory.file)
             || (Next(c, s, a).memory == Memory(map[], None) && Rotates(c, s.memory, a.request, a.io, a.clock));
  }

  lemma InvariantStep(c: Config, s: State, a: Action)
    requires Invariant(c, s) && Enabled(c, s, a)
    ensures Invariant(c, Next(c, s, a))
  {
    match a
    case Serve(request, io, clock) =>
      if Stores(c, s.memory, request, io, clock) {
        StoreKeepsInvariant(c, s, a);
      } else {
        ServeKeepsInvariant(c, s, a);
      }
    case Start(_, _, _, _, _) => StartKeepsInvariant(c, s, a);
    case Noise => NoiseKeepsLog(Lines(s.memory.file), s.history, s.crossed, s.now);
    case Pass(to) => CrossedMore(Lines(s.memory.file), s.history, s.crossed, s.now, s.crossed, to);
    case RotateFile =>
    case Stop =>
  }

  lemma {:induction false} Reachable(c: Config, states: seq<State>, actions: seq<Action>, i: nat)
    requires Run(c, states, actions) && i < |states|
    ensures Invariant(c, states[i])
  {
    if i > 0 {
      Reachable(c, states, actions, i - 1);
      InvariantStep(c, states[i - 1], actions[i - 1]);
    }
  }

  // ---------------------------------------------------------------- what a hit means

  /** In every run, a cache hit answers with the newest decision stored for the key since the last
      successful rotation, stored under the requested revision, whatever effect is asked for now; and at
      less than TTL + 1 seconds after it was stored, plus the second boundaries that startups crossed since
      and the time the last startup took. */
  lemma HitsAreCurrent(c: Config, states: seq<State>, actions: seq<Action>, i: nat)
    requires Run(c, states, actions) && i < |actions| && actions[i].Serve?
    requires Answer(c, states[i].memory, actions[i].request, actions[i].io, actions[i].clock).1.cacheHit
    ensures var s, r, clock := states[i], actions[i].request.value, actions[i].clock;
            var answer := Answer(c, s.memory, actions[i].request, actions[i].io, clock).1;
            var p := Latest(s.history, Key(r.namespaceId, r.resource));
            && p.Some? && answer.effect == p.value.effect && r.revision == p.value.revision
            && clock.check < p.value.at + (TTL + 1 + s.crossed - p.value.crossed) * SECOND + s.lag
  {
    Reachable(c, states, actions, i);
  }

  /** Startups that read the clock within one instant. */
  ghost predicate Instantaneous(a: Action) {
    a.Start? ==> a.clocks.dump == a.clocks.load
  }

  lemma {:induction false} NothingCrossed(c: Config, states: seq<State>, actions: seq<Action>, i: nat)
    requires Run(c, states, actions) && i < |states|
    requires forall j :: 0 <= j < i ==> Instantaneous(actions[j])
    ensures states[i].crossed == 0 && states[i].lag == 0
    ensures forall j :: 0 <= j < |states[i].history| ==> states[i].history[j].crossed == 0
  {
    if i > 0 {
      NothingCrossed(c, states, actions, i - 1);
      assert Instantaneous(actions[i - 1]);
    }
  }

  /** With such startups, however many, no entry is used TTL + 1 seconds or more after it was stored. */
  lemma HitsAreFresh(c: Config, states: seq<State>, actions: seq<Action>, i: nat)
    requires Run(c, states, actions) && i < |actions| && actions[i].Serve?
    requires forall j :: 0 <= j < i ==> Instantaneous(actions[j])
    requires Answer(c, states[i].memory, actions[i].request, actions[i].io, actions[i].clock).1.cacheHit
    ensures var r := actions[i].request.value;
            var p := Latest(states[i].history, Key(r.namespaceId, r.resource));
            p.Some? && actions[i].clock.check < p.value.at + (TTL + 1) * SECOND
  {
    HitsAreCurrent(c, states, actions, i);
    NothingCrossed(c, states, actions, i);
    var r := actions[i].request.value;
    LatestIsIn(states[i].history, Key(r.namespaceId, r.resource));
  }

  /** A startup within one instant keeps exactly the decisions whose deadline has not come, each at the
      deadline it had. */
  lemma InstantRestartKeepsDeadlines(lines: seq<Line>, keyed: bool, clocks: Reads, history: seq<Put>, crossed: int, now: int, i: nat)
    requires SoundLog(lines, history, crossed, now)
    requires i < |lines| && lines[i].Entry? && LastOfKey(lines, i)
    requires forall j :: clocks.line(j) == clocks.load
    requires forall k :: clocks.entry(k) == clocks.load
    requires clocks.dump == clocks.load
    ensures var cache := Replayed(lines, keyed, clocks);
            && (lines[i].key in cache <==> keyed && lines[i].deadline > Epoch(clocks.load))
            && (lines[i].key in cache ==> CompactLine(lines[i].key, cache[lines[i].key], clocks) == lines[i])
  {
    var key := lines[i].key;
    var cache := Replayed(lines, keyed, clocks);
    ReplayedFrom(lines, keyed, clocks, key);
    if key in cache {
      var k :| ComesFrom(lines, keyed, clocks, key, cache[key], k);
      LiveIsLast(lines, keyed, clocks, key, cache[key], k);
      assert k == i;
      assert clocks.line(i) == clocks.entry(key);
      DeadlineDrift(lines[i], clocks, i);
    }
  }

  // ---------------------------------------------------------------- what is answered

  /** A request that the gateway decides or answers from its cache. */
  predicate Asks(request: Option<Request>, key: string, revision: string) {
    && request.Some? && request.value.kind.Ordinary? && request.value.namespaceId != "" && request.value.resource != ""
    && Key(request.value.namespaceId, request.value.resource) == key && request.value.revision == revision
  }

  /** On a miss the answer is what is asked for, and is stored with the time to live from then on; unless
      that is unsupported, or cannot be persisted, which is denied and changes nothing. */
  lemma MissAnswersAsked(c: Config, m: Memory, request: Option<Request>, io: Io, clock: Clock, key: string, revision: string)
    requires Asks(request, key, revision) && !Answer(c, m, request, io, clock).1.cacheHit
    ensures var (m', response) := Answer(c, m, request, io, clock);
            var asked := request.value.asked;
            if asked.Unsupported? || (c.keyed && !io.persist) then m' == m && response.effect == DENY && response.isFallback
            else
              && response == Response(asked.effect, true, false, false, Requested(revision), GatewayDecision)
              && m'.cache == m.cache[key := Cached(asked.effect, revision, clock.stored + TTL * SECOND)]
              && m'.file == if c.keyed then Some(Lines(m.file) + [Entry(key, asked.effect, revision, Epoch(clock.stamp) + TTL)])
                            else m.file
  {
  }

  /** The only permissions: a hit on a stored permission, a stored one that was asked for, a health probe, and
      a listing or rotation with the admin token. Everything else is denied; so is whatever cannot be audited. */
  lemma AllowsOnly(c: Config, m: Memory, request: Option<Request>, io: Io, clock: Clock)
    requires Recorded(Answer(c, m, request, io, clock).1, io.audit).effect == ALLOW
    ensures io.audit && request.Some?
    ensures var r := request.value;
            var key := Key(r.namespaceId, r.resource);
            match r.kind
            case Ordinary =>
              && Asks(request, key, r.revision)
              && if Answer(c, m, request, io, clock).1.cacheHit
                 then key in m.cache && m.cache[key].effect == ALLOW && m.cache[key].revision == r.revision
                 else r.asked == Asked(ALLOW)
            case Health => r.namespaceId != "" && r.resource != "" && !Answer(c, m, request, io, clock).1.applied
            case Admin => c.adminToken != "" && r.token == Some(c.adminToken) && !r.operation.OtherOperation?
  {
  }

  /** A rotation forgets every decision in memory, whether or not the file could be renamed; the file goes only with
      the renaming, and a rotation that leaves it is a denial. So the next request for anything is a miss. */
  lemma RotationForgets(c: Config, m: Memory, r: Request, io: Io, clock: Clock, next: Option<Request>, io2: Io, later: Clock)
    requires r.kind.Admin? && r.operation.Rotate? && c.adminToken != "" && r.token == Some(c.adminToken)
    ensures var (m', response) := Answer(c, m, Some(r), io, clock);
            && (m'.file == if io.rename then None else m.file) && (response.effect == ALLOW <==> m'.file.None?)
            && !Answer(c, m', next, io2, later).1.cacheHit
  {
  }

  // ---------------------------------------------------------------- decisions are kept

  /** The running broker still answers the key and revision with this effect, until then. */
  predicate InMemory(m: Memory, key: string, effect: Effect, revision: string, until: int) {
    key in m.cache && m.cache[key].effect == effect && m.cache[key].revision == revision && m.cache[key].expires >= until
  }

  /** The action stores nothing else for the key, and rotates nothing. */
  predicate Undisturbing(c: Config, s: State, a: Action, key: string) {
    match a
    case Serve(request, io, clock) =>
      var reason := Answer(c, s.memory, request, io, clock).1.reason;
      && (reason.GatewayDecision? ==> Key(request.value.namespaceId, request.value.resource) != key)
      && !reason.RotateOk? && !reason.RotateFailed?
    case RotateFile => false
    case _ => true
  }

  lemma GatewayHasRequest(c: Config, m: Memory, request: Option<Request>, io: Io, clock: Clock)
    requires Answer(c, m, request, io, clock).1.reason.GatewayDecision?
    ensures request.Some? && request.value.asked.Asked?
    ensures var r := request.value;
            Answer(c, m, request, io, clock).0 == Stored(m, Key(r.namespaceId, r.resource), r.asked.effect, r.revision, c.keyed, clock)
  {
  }

  lemma OthersKeepMemory(c: Config, m: Memory, request: Option<Request>, io: Io, clock: Clock)
    requires var reason := Answer(c, m, request, io, clock).1.reason;
             !reason.GatewayDecision? && !reason.RotateOk? && !reason.RotateFailed?
    ensures Answer(c, m, request, io, clock).0 == m
  {
  }

  lemma ServeKeepsMemory(c: Config, s: State, a: Action, key: string, effect: Effect, revision: string, until: int)
    requires a.Serve? && Undisturbing(c, s, a, key) && InMemory(s.memory, key, effect, revision, until)
    ensures InMemory(Answer(c, s.memory, a.request, a.io, a.clock).0, key, effect, revision, until)
  {
    if Answer(c, s.memory, a.request, a.io, a.clock).1.reason.GatewayDecision? {
      GatewayHasRequest(c, s.memory, a.request, a.io, a.clock);
    } else {
      OthersKeepMemory(c, s.memory, a.request, a.io, a.clock);
    }
  }

  /** What is in memory is answered, whatever is asked. */
  lemma InMemoryIsHit(c: Config, m: Memory, request: Option<Request>, io: Io, clock: Clock,
                      key: string, effect: Effect, revision: string, until: int)
    requires InMemory(m, key, effect, revision, until) && Asks(request, key, revision) && clock.check < until
    ensures Answer(c, m, request, io, clock) ==
            (m, Response(effect, true, true, false, Requested(revision), VersionedCacheHit))
  {
  }

  /** A running broker that stores the decision at step i. */
  ghost predicate StoresAt(c: Config, states: seq<State>, actions: seq<Action>, i: nat, key: string, effect: Effect, revision: string)
    requires i < |actions| && i < |states|
  {
    && actions[i].Serve? && Asks(actions[i].request, key, revision) && actions[i].request.value.asked == Asked(effect)
    && Answer(c, states[i].memory, actions[i].request, actions[i].io, actions[i].clock).1.reason.GatewayDecision?
  }

  lemma {:induction false} StaysInMemory(c: Config, states: seq<State>, actions: seq<Action>, i: nat, j: nat,
                                         key: string, effect: Effect, revision: string)
    requires Run(c, states, actions) && i < j <= |actions| && StoresAt(c, states, actions, i, key, effect, revision)
    requires forall k :: i < k < j ==> Undisturbing(c, states[k], actions[k], key) && !actions[k].Stop?
    ensures states[j].serving
    ensures InMemory(states[j].memory, key, effect, revision, actions[i].clock.stored + TTL * SECOND)
    decreases j
  {
    if j == i + 1 {
      GatewayHasRequest(c, states[i].memory, actions[i].request, actions[i].io, actions[i].clock);
      assert states[i + 1] == Next(c, states[i], actions[i]);
    } else {
      StaysInMemory(c, states, actions, i, j - 1, key, effect, revision);
      var a := actions[j - 1];
      assert Enabled(c, states[j - 1], a) && states[j] == Next(c, states[j - 1], a);
      if a.Serve? {
        ServeKeepsMemory(c, states[j - 1], a, key, effect, revision, actions[i].clock.stored + TTL * SECOND);
      }
    }
  }

  /** In every run: once a decision is stored, and while the broker runs, stores nothing else for the key and
      rotates nothing, every request for the key and revision is answered by it for the whole time to live,
      whatever effect it asks for. */
  lemma StoredIsHit(c: Config, states: seq<State>, actions: seq<Action>, i: nat, j: nat, key: string, effect: Effect, revision: string)
    requires Run(c, states, actions) && i < j < |actions| && StoresAt(c, states, actions, i, key, effect, revision)
    requires forall k :: i < k < j ==> Undisturbing(c, states[k], actions[k], key) && !actions[k].Stop?
    requires actions[j].Serve? && Asks(actions[j].request, key, revision)
    requires actions[j].clock.check < actions[i].clock.stored + TTL * SECOND
    ensures Answer(c, states[j].memory, actions[j].request, actions[j].io, actions[j].clock).1 ==
            Response(effect, true, true, false, Requested(revision), VersionedCacheHit)
  {
    StaysInMemory(c, states, actions, i, j, key, effect, revision);
    InMemoryIsHit(c, states[j].memory, actions[j].request, actions[j].io, actions[j].clock,
                  key, effect, revision, actions[i].clock.stored + TTL * SECOND);
  }

  // ---------------------------------------------------------------- and survive restarts

  ghost predicate OnFile(lines: seq<Line>, key: string, effect: Effect, revision: string, deadline: int) {
    exists i :: 0 <= i < |lines| && lines[i] == Entry(key, effect, revision, deadline) && LastOfKey(lines, i)
  }

  lemma OnFileAppend(lines: seq<Line>, line: Line, key: string, effect: Effect, revision: string, deadline: int)
    requires OnFile(lines, key, effect, revision, deadline) && (line.Entry? ==> line.key != key)
    ensures OnFile(lines + [line], key, effect, revision, deadline)
  {
    var i :| 0 <= i < |lines| && lines[i] == Entry(key, effect, revision, deadline) && LastOfKey(lines, i);
    var all := lines + [line];
    assert all[i] == lines[i];
    assert forall j :: i < j < |lines| ==> all[j] == lines[j];
    assert LastOfKey(all, i);
  }

  /** The whole startup reads one instant. */
  ghost predicate OneInstant(clocks: Reads) {
    && clocks.dump == clocks.load && (forall i :: clocks.line(i) == clocks.load) && forall k :: clocks.entry(k) == clocks.load
  }

  lemma LoadsFromFile(lines: seq<Line>, keyed: bool, clocks: Reads, key: string, effect: Effect, revision: string, deadline: int)
    requires OnFile(lines, key, effect, revision, deadline) && keyed && deadline > Epoch(clocks.load) && OneInstant(clocks)
    ensures var cache := Replayed(lines, keyed, clocks);
            key in cache && cache[key] == LoadedAt(Entry(key, effect, revision, deadline), Epoch(clocks.load), clocks.load)
  {
    var i :| 0 <= i < |lines| && lines[i] == Entry(key, effect, revision, deadline) && LastOfKey(lines, i);
    ReplayedFrom(lines, keyed, clocks, key);
    var cache := Replayed(lines, keyed, clocks);
    assert key in cache;
    var k :| ComesFrom(lines, keyed, clocks, key, cache[key], k);
    assert k == i;
  }

  lemma CompactsOnFile(cache: map<string, Cached>, order: seq<string>, clocks: Reads, key: string, effect: Effect, revision: string,
                       deadline: int)
    requires Enumerates(order, cache.Keys) && key in cache && OneInstant(clocks) && deadline > Epoch(clocks.load)
    requires cache[key] == LoadedAt(Entry(key, effect, revision, deadline), Epoch(clocks.load), clocks.load)
    ensures OnFile(Compacted(cache, order, clocks), key, effect, revision, deadline)
  {
    var lines := Compacted(cache, order, clocks);
    var i :| 0 <= i < |order| && order[i] == key;
    assert lines[i] == CompactLine(key, cache[key], clocks);
    assert (deadline - Epoch(clocks.load)) * SECOND / SECOND == deadline - Epoch(clocks.load);
    assert lines[i] == Entry(key, effect, revision, deadline);
    forall j | i < j < |lines| && lines[j].Entry? ensures lines[j].key != key {
      assert lines[j] == CompactLine(order[j], cache[order[j]], clocks);
    }
    assert LastOfKey(lines, i);
  }

  /** The decision is on file at its deadline and, if the broker runs, in memory until then; or the deadline has
      passed. */
  ghost predicate Persisted(s: State, key: string, effect: Effect, revision: string, deadline: int) {
    || s.now >= deadline * SECOND
    || (OnFile(Lines(s.memory.file), key, effect, revision, deadline)
        && (s.serving ==> InMemory(s.memory, key, effect, revision, deadline * SECOND)))
  }

  /** Any startup in between opens the file and reads one instant; nothing else disturbs the key. */
  ghost predicate Preserving(c: Config, s: State, a: Action, key: string) {
    Undisturbing(c, s, a, key) && (a.Start? ==> a.openable && OneInstant(a.clocks))
  }

  lemma ServeKeepsFile(c: Config, s: State, a: Action, key: string, effect: Effect, revision: string, deadline: int)
    requires a.Serve? && Undisturbing(c, s, a, key) && OnFile(Lines(s.memory.file), key, effect, revision, deadline)
    ensures OnFile(Lines(Answer(c, s.memory, a.request, a.io, a.clock).0.file), key, effect, revision, deadline)
  {
    if Answer(c, s.memory, a.request, a.io, a.clock).1.reason.GatewayDecision? {
      GatewayHasRequest(c, s.memory, a.request, a.io, a.clock);
      var r := a.request.value;
      OnFileAppend(Lines(s.memory.file), Entry(Key(r.namespaceId, r.resource), r.asked.effect, r.revision, Epoch(a.clock.stamp) + TTL),
                   key, effect, revision, deadline);
    } else {
      OthersKeepMemory(c, s.memory, a.request, a.io, a.clock);
    }
  }

  lemma StartPersists(c: Config, s: State, a: Action, key: string, effect: Effect, revision: string, deadline: int)
    requires Invariant(c, s) && c.keyed && a.Start? && Enabled(c, s, a) && a.openable && OneInstant(a.clocks)
    requires OnFile(Lines(s.memory.file), key, effect, revision, deadline)
    ensures Persisted(Next(c, s, a), key, effect, revision, deadline)
  {
    var lines := Lines(s.memory.file);
    if deadline > Epoch(a.clocks.load) {
      ReadableIsAll(lines);
      LoadsFromFile(lines, c.keyed, a.clocks, key, effect, revision, deadline);
      var cache := Loaded(c, s.memory.file, a.openable, a.clocks);
      CompactsOnFile(cache, a.order, a.clocks, key, effect, revision, deadline);
    }
  }

  lemma PersistedStep(c: Config, s: State, a: Action, key: string, effect: Effect, revision: string, deadline: int)
    requires Invariant(c, s) && c.keyed && Enabled(c, s, a) && Preserving(c, s, a, key)
    requires Persisted(s, key, effect, revision, deadline)
    ensures Persisted(Next(c, s, a), key, effect, revision, deadline)
  {
    if s.now < deadline * SECOND {
      match a
      case Serve(_, _, _) =>
        ServeKeepsMemory(c, s, a, key, effect, revision, deadline * SECOND);
        ServeKeepsFile(c, s, a, key, effect, revision, deadline);
      case Start(_, _, _, _, _) => StartPersists(c, s, a, key, effect, revision, deadline);
      case Noise => OnFileAppend(Lines(s.memory.file), Foreign, key, effect, revision, deadline);
      case _ =>
    }
  }

  lemma StorePersists(c: Config, s: State, a: Action, key: string, effect: Effect, revision: string)
    requires c.keyed && a.Serve? && Enabled(c, s, a) && Asks(a.request, key, revision) && a.request.value.asked == Asked(effect)
    requires Answer(c, s.memory, a.request, a.io, a.clock).1.reason.GatewayDecision?
    ensures Persisted(Next(c, s, a), key, effect, revision, Epoch(a.clock.stamp) + TTL)
  {
    GatewayHasRequest(c, s.memory, a.request, a.io, a.clock);
    var s' := Next(c, s, a);
    var n, deadline := |Lines(s.memory.file)|, Epoch(a.clock.stamp) + TTL;
    assert Lines(s'.memory.file)[n] == Entry(key, effect, revision, deadline) && LastOfKey(Lines(s'.memory.file), n);
    assert deadline * SECOND <= a.clock.stored + TTL * SECOND;
  }

  lemma PersistedNext(c: Config, states: seq<State>, actions: seq<Action>, k: nat, key: string, effect: Effect, revision: string,
                      deadline: int)
    requires Run(c, states, actions) && c.keyed && k < |actions| && Preserving(c, states[k], actions[k], key)
    requires Persisted(states[k], key, effect, revision, deadline)
    ensures Persisted(states[k + 1], key, effect, revision, deadline)
  {
    Reachable(c, states, actions, k);
    PersistedStep(c, states[k], actions[k], key, effect, revision, deadline);
  }

  lemma PersistedFirst(c: Config, states: seq<State>, actions: seq<Action>, i: nat, key: string, effect: Effect, revision: string)
    requires Run(c, states, actions) && c.keyed && i < |actions| && StoresAt(c, states, actions, i, key, effect, revision)
    ensures Persisted(states[i + 1], key, effect, revision, Epoch(actions[i].clock.stamp) + TTL)
  {
    assert Enabled(c, states[i], actions[i]) && states[i + 1] == Next(c, states[i], actions[i]);
    StorePersists(c, states[i], actions[i], key, effect, revision);
  }

  lemma {:induction false} StaysPersisted(c: Config, states: seq<State>, actions: seq<Action>, i: nat, j: nat,
                                          key: string, effect: Effect, revision: string)
    requires Run(c, states, actions) && c.keyed && i < j <= |actions| && StoresAt(c, states, actions, i, key, effect, revision)
    requires forall k :: i < k < j ==> Preserving(c, states[k], actions[k], key)
    ensures Persisted(states[j], key, effect, revision, Epoch(actions[i].clock.stamp) + TTL)
    decreases j
  {
    if j == i + 1 {
      PersistedFirst(c, states, actions, i, key, effect, revision);
    } else {
      StaysPersisted(c, states, actions, i, j - 1, key, effect, revision);
      PersistedNext(c, states, actions, j - 1, key, effect, revision, Epoch(actions[i].clock.stamp) + TTL);
    }
  }

  /** In every run of a keyed broker, also with stops, failed startups, foreign lines and restarts within an
      instant: until the persisted deadline, each request for the key and revision is answered by the stored
      decision, whatever effect it asks for, as long as nothing else is stored for the key and nothing rotates. */
  lemma StoredSurvivesRestarts(c: Config, states: seq<State>, actions: seq<Action>, i: nat, j: nat,
                               key: string, effect: Effect, revision: string)
    requires Run(c, states, actions) && c.keyed && i < j < |actions| && StoresAt(c, states, actions, i, key, effect, revision)
    requires forall k :: i < k < j ==> Preserving(c, states[k], actions[k], key)
    requires actions[j].Serve? && Asks(actions[j].request, key, revision)
    requires actions[j].clock.check < (Epoch(actions[i].clock.stamp) + TTL) * SECOND
    ensures Answer(c, states[j].memory, actions[j].request, actions[j].io, actions[j].clock).1 ==
            Response(effect, true, true, false, Requested(revision), VersionedCacheHit)
  {
    StaysPersisted(c, states, actions, i, j, key, effect, revision);
    assert Enabled(c, states[j], actions[j]);
    InMemoryIsHit(c, states[j].memory, actions[j].request, actions[j].io, actions[j].clock,
                  key, effect, revision, (Epoch(actions[i].clock.stamp) + TTL) * SECOND);
  }

  // ---------------------------------------------------------------- the joined key

  /** One key for two pairs: the longer namespace goes on with a separator, and the other resource makes
      up for it. */
  ghost predicate Shifted(n: string, r: string, m: string, q: string) {
    exists s: string :: n == m + "|" + s && q == s + "|" + r
  }

  lemma ShiftedCollides(n: string, r: string, m: string, q: string)
    requires Shifted(n, r, m, q)
    ensures Key(n, r) == Key(m, q)
  {
    var s: string :| n == m + "|" + s && q == s + "|" + r;
    assert (m + "|" + s) + "|" + r == m + "|" + (s + "|" + r);
  }

  lemma LongerIsShifted(n: string, r: string, m: string, q: string)
    requires Key(n, r) == Key(m, q) && |m| < |n|
    ensures Shifted(n, r, m, q)
  {
    var key := Key(n, r);
    var s := n[|m| + 1..];
    assert key[..|n|] == n && key[..|m|] == m && key[|m|] == '|' && key[|n|] == '|';
    assert n == m + "|" + s;
    assert q == key[|m| + 1..] && r == key[|n| + 1..];
    assert q == s + "|" + r;
  }

  /** Exactly when two pairs of namespace and resource share a key. */
  lemma KeysIdentify(n: string, r: string, m: string, q: string)
    ensures Key(n, r) == Key(m, q) <==> (n == m && r == q) || Shifted(n, r, m, q) || Shifted(m, q, n, r)
  {
    if Shifted(n, r, m, q) {
      ShiftedCollides(n, r, m, q);
    }
    if Shifted(m, q, n, r) {
      ShiftedCollides(m, q, n, r);
    }
    if Key(n, r) == Key(m, q) {
      if |m| < |n| {
        LongerIsShifted(n, r, m, q);
      } else if |n| < |m| {
        LongerIsShifted(m, q, n, r);
      } else {
        assert Key(n, r)[..|n|] == n && Key(m, q)[..|m|] == m;
        assert Key(n, r)[|n| + 1..] == r && Key(m, q)[|m| + 1..] == q;
      }
    }
  }

  /** The two namespaces have requests, with resources, that share a key. */
  ghost predicate Collide(n: string, m: string) {
    exists r, q :: r != "" && q != "" && Key(n, r) == Key(m, q)
  }

  lemma ExtensionCollides(n: string, m: string)
    requires m + "|" <= n + "|" && n != m
    ensures Collide(n, m)
  {
    assert (m + "|")[|m|] == (n + "|")[|m|];
    assert m == (m + "|")[..|m|] == (n + "|")[..|m|];
    assert (n + "|")[..|n|] == n;
    var s := n[|m| + 1..];
    assert n == m + "|" + s by {
      assert (n + "|")[..|m|] == n[..|m|];
      assert n[|m|] == '|';
    }
    var r, q := "c", s + "|" + "c";
    assert q[|s|] == '|';
    assert Shifted(n, r, m, q);
    ShiftedCollides(n, r, m, q);
  }

  lemma ShiftedExtends(n: string, r: string, m: string, q: string)
    requires Shifted(n, r, m, q)
    ensures m + "|" <= n + "|"
  {
    var s: string :| n == m + "|" + s && q == s + "|" + r;
    assert n + "|" == (m + "|") + (s + "|");
  }

  /** Two different namespaces can share a key exactly if one, with the separator after it, begins the
      other with the separator after it. Namespaces without a separator never do. */
  lemma KeysCollide(n: string, m: string)
    requires n != m
    ensures Collide(n, m) <==> m + "|" <= n + "|" || n + "|" <= m + "|"
  {
    if Collide(n, m) {
      var r, q :| r != "" && q != "" && Key(n, r) == Key(m, q);
      KeysIdentify(n, r, m, q);
      if Shifted(n, r, m, q) {
        ShiftedExtends(n, r, m, q);
      } else {
        ShiftedExtends(m, q, n, r);
      }
    }
    if m + "|" <= n + "|" {
      ExtensionCollides(n, m);
    } else if n + "|" <= m + "|" {
      ExtensionCollides(m, n);
      var r, q :| r != "" && q != "" && Key(m, r) == Key(n, q);
      assert Key(n, q) == Key(m, r);
    }
  }
}
