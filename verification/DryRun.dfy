/** The dry-run loop: evaluate, audit, cache, save, respond. Each step can be the last before a crash. */
module DryRun {
  import opened Wrappers
  import opened Text
  import opened Contracts
  import opened Gate3Policy
  import opened Gate3Cache
  import opened Gate3Audit
  import opened JsonText
  import opened RuntimePolicy

  datatype Setup = Setup(digests: Digests, profile: Profile, hmac: Hmac, secret: string, groupSize: nat)
  {
    ghost predicate Valid() {
      digests.Shaped() && ValidProfile(profile) && secret != "" && 1 <= groupSize <= MAX_GROUP
    }
  }

  /** A written response; `line` is the audit line it acknowledges, none if it replaced its decision. */
  datatype Response = Response(decision: PolicyDecision, cacheKey: string, now: nat, line: Option<nat>)

  datatype Phase =
    | Idle
    | Written(req: Request)
    | Audited(req: Request, durable: bool)
    | Decided(req: Request, decision: PolicyDecision, line: Option<nat>)
    | Saved(req: Request, decision: PolicyDecision, line: Option<nat>)
    | Stopped

  /** `disk` is the entry map that the cache file was last written from; `responses` are all ever
      written; `acknowledged` are the audit lines acknowledged since the last crash, by any process;
      `starts` counts the processes that ran since the log was last durable as a whole. */
  datatype Machine = Machine(log: Log, cache: Entries, disk: Option<Entries>, responses: seq<Response>,
                             acknowledged: seq<nat>, starts: nat, phase: Phase, clock: nat)

  /** `Finish` is the end of the input with its last synchronization. `Exit` is every other end of the
      process, by an error or from outside: what it wrote stays, but nothing is synchronized. */
  datatype Action =
    | Take(req: Request, writes: bool)
    | Sync(syncs: bool)
    | CompileAndPut
    | Save(saves: bool)
    | Respond
    | Finish(syncs: bool)
    | Exit
    | Crash(survive: nat)
    | Restart(now: nat)

  function Own(c: Setup, req: Request): PolicyDecision {
    Evaluate(c.digests, req.event, req.state, c.profile)
  }

  function Instead(c: Setup, req: Request, reason: string): PolicyDecision {
    Own(c, req).(effect := ABSTAIN, reasonCodes := [reason], failClosed := true)
  }

  function KeyOf(c: Setup, e: SecurityEvent): string {
    CacheKey(e.namespaceId, e.operation, c.digests.resource(e.resource))
  }

  ghost function DiskFile(c: Setup, entries: Entries): Snapshot {
    Sign(c.hmac, c.profile.policyRevision, Ordered(entries), c.secret)
  }

  /** A start without a cache file begins empty. */
  ghost function LoadDisk(c: Setup, disk: Option<Entries>, now: nat): Result<Entries> {
    if disk.None? then Ok(map[])
    else LoadSnapshot(c.hmac, DiskFile(c, disk.value), c.profile.policyRevision, c.secret, now)
  }

  ghost function Step(c: Setup, m: Machine, a: Action): Option<Machine> {
    match a
    case Take(req, writes) =>
      if m.phase != Idle || req.now < m.clock then None
      else if writes then
        Some(m.(log := Appended(m.log, Line(Own(c, req), req)), phase := Written(req), clock := req.now))
      else
        Some(m.(phase := Decided(req, Instead(c, req, "AUDIT_PERSISTENCE_UNAVAILABLE"), None), clock := req.now))
    case Sync(syncs) =>
      if !m.phase.Written? then None
      else
        var req := m.phase.req;
        if !MustSync(m.log, c.groupSize, Own(c, req).effect) then Some(m.(phase := Audited(req, false)))
        else if syncs then Some(m.(log := Synced(m.log), starts := 1, phase := Audited(req, true)))
        else Some(m.(phase := Decided(req, Instead(c, req, "AUDIT_PERSISTENCE_UNAVAILABLE"), None)))
    case CompileAndPut =>
      if !m.phase.Audited? then None
      else
        var req := m.phase.req;
        var decision := Own(c, req);
        var done := Decided(req, decision, Some(if m.log.lines == [] then 0 else |m.log.lines| - 1));
        if decision.effect == DENY && !m.phase.durable then
          Some(m.(phase := Decided(req, Instead(c, req, "DENY_AUDIT_NOT_DURABLE"), None)))
        else
          var compiled := Compile(c.digests, req.event, decision, c.profile, req.now);
          if compiled.None? then Some(m.(phase := done))
          else if Accepts(compiled.value, c.profile.policyRevision) then
            Some(m.(cache := m.cache[compiled.value.cacheKey := compiled.value], phase := done))
          else Some(m.(phase := Decided(req, Instead(c, req, "CACHE_COMPILATION_FAILED"), None)))
    case Save(saves) =>
      if !m.phase.Decided? then None
      else
        var ready := Saved(m.phase.req, m.phase.decision, m.phase.line);
        if m.phase.decision.effect != DENY then Some(m.(phase := ready))
        else if saves then Some(m.(disk := Some(m.cache), phase := ready))
        else Some(m.(phase := Stopped))
    case Respond =>
      if !m.phase.Saved? then None
      else
        var req := m.phase.req;
        Some(m.(responses := m.responses + [Response(m.phase.decision, KeyOf(c, req.event), req.now, m.phase.line)],
                acknowledged := m.acknowledged + (if m.phase.line.Some? then [m.phase.line.value] else []),
                phase := Idle))
    case Finish(syncs) =>
      if m.phase != Idle then None
      else if syncs && m.log.pending > 0 then Some(m.(log := Synced(m.log), starts := 0, phase := Stopped))
      else Some(m.(phase := Stopped))
    case Exit => if m.phase == Stopped then None else Some(m.(phase := Stopped))
    case Crash(survive) =>
      if m.log.durable <= survive <= |m.log.lines| then
        var kept := m.log.lines[..survive];
        Some(m.(log := Log(kept, survive, survive, 0, 0), cache := map[], acknowledged := [], starts := 0, phase := Stopped))
      else None
    case Restart(now) =>
      if m.phase != Stopped || now < m.clock then None
      else
        var loaded := LoadDisk(c, m.disk, now);
        if loaded.Err? then None
        else
          Some(m.(log := Log(m.log.lines, m.log.durable, |m.log.lines|, 0, 0), cache := loaded.value,
                  starts := m.starts + 1, phase := Idle, clock := now))
  }

  const FRESH := Machine(Log([], 0, 0, 0, 0), map[], None, [], [], 0, Stopped, 0)

  ghost function Run(c: Setup, m: Machine, run: seq<Action>): Option<Machine>
    decreases |run|
  {
    if run == [] then Some(m)
    else
      var next := Step(c, m, run[0]);
      if next.None? then None else Run(c, next.value, run[1..])
  }

  // ---------------------------------------------------------------- invariant

  /** An entry rests on a durable audited denial, and expires a time to live after it. */
  ghost predicate Backed(c: Setup, log: Log, e: CompiledDecision) {
    exists i :: 0 <= i < log.durable && i < |log.lines| && Backs(c, log.lines[i], e)
  }

  /** The entry is the line's denial, with the digest of the evidence that the line cites, for the operation
      and resource of the request that was audited. */
  predicate Backs(c: Setup, line: Line, e: CompiledDecision) {
    && line.decision.effect == DENY && e.effect == DENY
    && line.decision.decisionId == e.decisionId && line.decision.namespaceId == e.namespaceId
    && line.decision.stateRevision == e.stateRevision && line.decision.policyRevision == e.policyRevision
    && e.evidenceDigest == c.digests.evidence(line.decision.evidenceIds)
    && e.operation == line.req.event.operation && e.resourceDigest == c.digests.resource(line.req.event.resource)
    && e.expiresEpoch == Expiry(line.req.now, c.profile.ttlSeconds)
  }

  ghost predicate EntriesGood(c: Setup, log: Log, entries: Entries) {
    forall k :: k in entries ==>
      && entries[k].cacheKey == k && WellFormed(entries[k])
      && Accepts(entries[k], c.profile.policyRevision) && Backed(c, log, entries[k])
  }

  /** The entries still deny what a response denied at `now`. */
  predicate Covers(c: Setup, entries: Entries, key: string, namespaceId: string, now: nat) {
    && key in entries && entries[key].namespaceId == namespaceId
    && entries[key].expiresEpoch >= Expiry(now, c.profile.ttlSeconds)
  }

  /** The key is the key of a compiled denial for the namespace. */
  ghost predicate KeyFor(key: string, namespaceId: string) {
    exists op: Operation, digest ::
      !op.OtherOperation? && IsDigest(digest) && key == CacheKey(namespaceId, op, digest)
  }

  ghost predicate ResponsesCovered(c: Setup, m: Machine) {
    forall i :: 0 <= i < |m.responses| && m.responses[i].decision.effect == DENY ==>
      var r := m.responses[i];
      && r.now <= m.clock && KeyFor(r.cacheKey, r.decision.namespaceId)
      && (Expiry(r.now, c.profile.ttlSeconds) > m.clock ==>
            && m.disk.Some? && Covers(c, m.disk.value, r.cacheKey, r.decision.namespaceId, r.now)
            && (m.phase != Stopped ==> Covers(c, m.cache, r.cacheKey, r.decision.namespaceId, r.now)))
  }

  ghost predicate PhaseAgrees(c: Setup, m: Machine) {
    match m.phase
    case Written(req) => LastLine(c, m, req) && m.log.pending > 0
    case Audited(req, durable) =>
      && LastLine(c, m, req)
      && (durable ==> m.log.durable == |m.log.lines|)
      && (!durable ==> m.log.pending < c.groupSize && Own(c, req).effect != DENY)
    case Decided(req, decision, line) => DecisionAgrees(c, m, req, decision, line)
    case Saved(req, decision, line) =>
      && DecisionAgrees(c, m, req, decision, line)
      && (decision.effect == DENY ==> m.disk == Some(m.cache))
    case _ => true
  }

  predicate LastLine(c: Setup, m: Machine, req: Request) {
    && m.clock == req.now
    && m.log.lines != [] && m.log.lines[|m.log.lines| - 1] == Line(Own(c, req), req)
    && m.log.base < |m.log.lines|
  }

  ghost predicate DecisionAgrees(c: Setup, m: Machine, req: Request, decision: PolicyDecision, line: Option<nat>) {
    && m.clock == req.now
    && (decision.effect == DENY ==>
          && line.Some? && decision == Own(c, req)
          && KeyFor(KeyOf(c, req.event), decision.namespaceId)
          && Covers(c, m.cache, KeyOf(c, req.event), decision.namespaceId, req.now))
    && (line.Some? ==> m.log.base <= line.value && Acknowledgeable(c, m, line.value) && m.log.lines[line.value].decision == decision)
  }

  /** The line is durable or no denial. If it is of the running process, it is durable or one of the
      fewer than `groupSize` lines whose loss a group risks. */
  predicate Acknowledgeable(c: Setup, m: Machine, line: nat) {
    && line < |m.log.lines|
    && (line >= m.log.durable ==>
          && m.log.lines[line].decision.effect != DENY
          && (line >= m.log.base ==> line + 1 < Floor(m.log) + c.groupSize))
  }

  ghost predicate Inv(c: Setup, m: Machine) {
    && LogValid(m.log)
    && EntriesGood(c, m.log, m.cache)
    && (m.disk.Some? ==> EntriesGood(c, m.log, m.disk.value))
    && ResponsesCovered(c, m)
    && PhaseAgrees(c, m)
    && AllAcknowledgeable(c, m)
  }

  // ---------------------------------------------------------------- every step keeps it

  ghost predicate LogGrows(log: Log, log': Log) {
    && log.durable <= log'.durable <= |log'.lines|
    && log.durable <= |log.lines| && log.durable <= |log'.lines|
    && log'.lines[..log.durable] == log.lines[..log.durable]
  }

  lemma BackedGrows(c: Setup, log: Log, log': Log, e: CompiledDecision)
    requires LogGrows(log, log') && Backed(c, log, e)
    ensures Backed(c, log', e)
  {
    var i :| 0 <= i < log.durable && i < |log.lines| && Backs(c, log.lines[i], e);
    assert log'.lines[i] == log'.lines[..log.durable][i] == log.lines[i];
  }

  lemma EntriesGrow(c: Setup, log: Log, log': Log, entries: Entries)
    requires LogGrows(log, log') && EntriesGood(c, log, entries)
    ensures EntriesGood(c, log', entries)
  {
    forall k | k in entries ensures Backed(c, log', entries[k]) {
      BackedGrows(c, log, log', entries[k]);
    }
  }

  lemma BothGrow(c: Setup, m: Machine, log': Log)
    requires Inv(c, m) && LogGrows(m.log, log')
    ensures EntriesGood(c, log', m.cache) && (m.disk.Some? ==> EntriesGood(c, log', m.disk.value))
  {
    EntriesGrow(c, m.log, log', m.cache);
    if m.disk.Some? {
      EntriesGrow(c, m.log, log', m.disk.value);
    }
  }

  lemma TakeKeeps(c: Setup, m: Machine, req: Request, writes: bool)
    requires Inv(c, m) && Step(c, m, Take(req, writes)).Some?
    ensures Inv(c, Step(c, m, Take(req, writes)).value)
  {
    var m' := Step(c, m, Take(req, writes)).value;
    BothGrow(c, m, m'.log);
    assert ResponsesCovered(c, m');
  }

  lemma SyncedAcknowledgeable(c: Setup, m: Machine, line: nat)
    requires LogValid(m.log) && Acknowledgeable(c, m, line)
    ensures Acknowledgeable(c, m.(log := Synced(m.log)), line)
  {
  }

  lemma SyncedGrows(log: Log)
    requires LogValid(log)
    ensures LogValid(Synced(log)) && LogGrows(log, Synced(log)) && Synced(log).lines == log.lines
    ensures log.base < |log.lines| && log.pending > 0 ==> Synced(log).durable == |log.lines|
  {
  }

  lemma SyncFails(c: Setup, m: Machine)
    requires m.phase.Written? && LastLine(c, m, m.phase.req) && MustSync(m.log, c.groupSize, Own(c, m.phase.req).effect)
    ensures var m' := Step(c, m, Sync(false)).value; PhaseAgrees(c, m') && m' == m.(phase := m'.phase) && m'.phase != Stopped
  {
    var req := m.phase.req;
    assert DecisionAgrees(c, Step(c, m, Sync(false)).value, req, Instead(c, req, "AUDIT_PERSISTENCE_UNAVAILABLE"), None);
  }

  lemma SyncSucceeds(c: Setup, m: Machine)
    requires LogValid(m.log) && m.phase.Written? && LastLine(c, m, m.phase.req) && m.log.pending > 0
    requires MustSync(m.log, c.groupSize, Own(c, m.phase.req).effect)
    ensures var m' := Step(c, m, Sync(true)).value;
            PhaseAgrees(c, m') && m' == m.(log := Synced(m.log), starts := 1, phase := m'.phase) && m'.phase != Stopped
  {
    SyncedGrows(m.log);
  }

  lemma SkipsSync(c: Setup, m: Machine, syncs: bool)
    requires m.phase.Written? && !MustSync(m.log, c.groupSize, Own(c, m.phase.req).effect)
    ensures Step(c, m, Sync(syncs)) == Some(m.(phase := Audited(m.phase.req, false)))
  {
  }

  lemma UnsyncedAgrees(c: Setup, m: Machine, req: Request)
    requires LastLine(c, m, req) && !MustSync(m.log, c.groupSize, Own(c, req).effect)
    ensures PhaseAgrees(c, m.(phase := Audited(req, false)))
  {
  }

  lemma SyncSkipped(c: Setup, m: Machine, syncs: bool)
    requires m.phase.Written? && LastLine(c, m, m.phase.req) && !MustSync(m.log, c.groupSize, Own(c, m.phase.req).effect)
    ensures var m' := Step(c, m, Sync(syncs)).value; PhaseAgrees(c, m') && m' == m.(phase := m'.phase) && m'.phase != Stopped
  {
    SkipsSync(c, m, syncs);
    UnsyncedAgrees(c, m, m.phase.req);
  }

  lemma SyncPhase(c: Setup, m: Machine, syncs: bool)
    requires LogValid(m.log) && m.phase.Written? && LastLine(c, m, m.phase.req) && m.log.pending > 0
    ensures var m' := Step(c, m, Sync(syncs)).value;
            && PhaseAgrees(c, m') && m'.phase != Stopped
            && (m' == m.(phase := m'.phase) || m' == m.(log := Synced(m.log), starts := 1, phase := m'.phase))
  {
    if !MustSync(m.log, c.groupSize, Own(c, m.phase.req).effect) {
      SyncSkipped(c, m, syncs);
    } else if syncs {
      SyncSucceeds(c, m);
    } else {
      SyncFails(c, m);
    }
  }

  lemma SyncKeeps(c: Setup, m: Machine, syncs: bool)
    requires Inv(c, m) && Step(c, m, Sync(syncs)).Some?
    ensures Inv(c, Step(c, m, Sync(syncs)).value)
  {
    var m' := Step(c, m, Sync(syncs)).value;
    SyncPhase(c, m, syncs);
    SyncedGrows(m.log);
    BothGrow(c, m, m'.log);
    forall i | 0 <= i < |m.acknowledged| ensures Acknowledgeable(c, m', m.acknowledged[i]) {
      SyncedAcknowledgeable(c, m, m.acknowledged[i]);
    }
    assert ResponsesCovered(c, m');
  }

  lemma SavePhase(c: Setup, m: Machine, saves: bool)
    requires ResponsesCovered(c, m) && PhaseAgrees(c, m) && Step(c, m, Save(saves)).Some?
    ensures var m' := Step(c, m, Save(saves)).value;
            && ResponsesCovered(c, m') && PhaseAgrees(c, m')
            && m' == m.(disk := m'.disk, phase := m'.phase)
            && (m'.disk == m.disk || m'.disk == Some(m.cache))
  {
    var m' := Step(c, m, Save(saves)).value;
    var Decided(req, decision, line) := m.phase;
    assert m'.phase.Saved? ==> DecisionAgrees(c, m', req, decision, line);
    assert ResponsesCovered(c, m');
  }

  lemma SaveKeeps(c: Setup, m: Machine, saves: bool)
    requires Inv(c, m) && Step(c, m, Save(saves)).Some?
    ensures Inv(c, Step(c, m, Save(saves)).value)
  {
    SavePhase(c, m, saves);
  }

  lemma RespondKeeps(c: Setup, m: Machine)
    requires Inv(c, m) && Step(c, m, Respond).Some?
    ensures Inv(c, Step(c, m, Respond).value)
  {
    var m' := Step(c, m, Respond).value;
    var last := m'.responses[|m.responses|];
    assert forall i :: 0 <= i < |m.responses| ==> m'.responses[i] == m.responses[i];
    assert ResponsesCovered(c, m');
  }

  lemma StopKeeps(c: Setup, m: Machine, a: Action)
    requires Inv(c, m) && Step(c, m, a).Some? && (a.Finish? || a.Exit?)
    ensures Inv(c, Step(c, m, a).value)
  {
    var m' := Step(c, m, a).value;
    SyncedGrows(m.log);
    BothGrow(c, m, m'.log);
  }

  lemma CrashKeeps(c: Setup, m: Machine, survive: nat)
    requires Inv(c, m) && Step(c, m, Crash(survive)).Some?
    ensures Inv(c, Step(c, m, Crash(survive)).value)
  {
    var m' := Step(c, m, Crash(survive)).value;
    assert m'.log.lines[..m.log.durable] == m.log.lines[..m.log.durable];
    BothGrow(c, m, m'.log);
  }

  /** What a restart at `now` loads are the entries still live. */
  lemma RestartLoads(c: Setup, m: Machine, now: nat)
    requires c.Valid() && Inv(c, m) && m.disk.Some?
    ensures LoadDisk(c, m.disk, now) == Ok(Unexpired(m.disk.value, now))
  {
    SaveThenLoad(c.hmac, m.disk.value, c.profile.policyRevision, c.secret, now);
  }

  lemma UnexpiredGood(c: Setup, log: Log, entries: Entries, now: nat)
    requires EntriesGood(c, log, entries)
    ensures EntriesGood(c, log, Unexpired(entries, now))
  {
  }

  lemma UnexpiredCovers(c: Setup, entries: Entries, key: string, namespaceId: string, at: nat, now: nat)
    requires Covers(c, entries, key, namespaceId, at) && Expiry(at, c.profile.ttlSeconds) > now
    ensures Covers(c, Unexpired(entries, now), key, namespaceId, at)
  {
  }

  lemma RestartCovers(c: Setup, m: Machine, now: nat)
    requires ResponsesCovered(c, m) && m.phase == Stopped && m.clock <= now
    ensures var cache := if m.disk.None? then map[] else Unexpired(m.disk.value, now);
            ResponsesCovered(c, m.(cache := cache, phase := Idle, clock := now))
  {
    var cache := if m.disk.None? then map[] else Unexpired(m.disk.value, now);
    forall i | 0 <= i < |m.responses| && m.responses[i].decision.effect == DENY
               && Expiry(m.responses[i].now, c.profile.ttlSeconds) > now
      ensures var r := m.responses[i]; Covers(c, cache, r.cacheKey, r.decision.namespaceId, r.now)
    {
      var r := m.responses[i];
      UnexpiredCovers(c, m.disk.value, r.cacheKey, r.decision.namespaceId, r.now, now);
    }
  }

  lemma RestartKeeps(c: Setup, m: Machine, now: nat)
    requires c.Valid() && Inv(c, m) && Step(c, m, Restart(now)).Some?
    ensures Inv(c, Step(c, m, Restart(now)).value)
  {
    var m' := Step(c, m, Restart(now)).value;
    if m.disk.Some? {
      RestartLoads(c, m, now);
      UnexpiredGood(c, m.log, m.disk.value, now);
    }
    RestartCovers(c, m, now);
    assert LogGrows(m.log, m'.log);
    BothGrow(c, m, m'.log);
    EntriesGrow(c, m.log, m'.log, m'.cache);
    assert ResponsesCovered(c, m');
  }

  lemma LoadedRestarts(c: Setup, m: Machine, now: nat)
    requires LoadDisk(c, m.disk, now).Ok? && m.phase == Stopped && m.clock <= now
    ensures Step(c, m, Restart(now)).Some?
  {
  }

  /** A stopped dry run can always start again: its own snapshot is loadable at every later time. */
  lemma RestartSucceeds(c: Setup, m: Machine, now: nat)
    requires c.Valid() && Inv(c, m) && m.phase == Stopped && m.clock <= now
    ensures Step(c, m, Restart(now)).Some?
  {
    if m.disk.Some? {
      RestartLoads(c, m, now);
    }
    LoadedRestarts(c, m, now);
  }

  lemma BackedByLast(c: Setup, log: Log, e: CompiledDecision)
    requires log.lines != [] && log.durable == |log.lines| && Backs(c, log.lines[|log.lines| - 1], e)
    ensures Backed(c, log, e)
  {
  }

  lemma CompiledBacks(c: Setup, req: Request)
    requires c.Valid() && Own(c, req).effect == DENY
    ensures var compiled := Compile(c.digests, req.event, Own(c, req), c.profile, req.now);
            compiled.Some? && Backs(c, Line(Own(c, req), req), compiled.value)
  {
    DenyCompiles(c.digests, req.event, req.state, c.profile, req.now);
  }

  lemma CompiledFields(c: Setup, req: Request)
    requires c.Valid() && Own(c, req).effect == DENY
    ensures var compiled := Compile(c.digests, req.event, Own(c, req), c.profile, req.now);
            && compiled.Some? && compiled.value.cacheKey == KeyOf(c, req.event)
            && compiled.value.namespaceId == Own(c, req).namespaceId && compiled.value.decisionId == Own(c, req).decisionId
            && compiled.value.stateRevision == Own(c, req).stateRevision
            && compiled.value.expiresEpoch == Expiry(req.now, c.profile.ttlSeconds)
            && KeyFor(KeyOf(c, req.event), Own(c, req).namespaceId)
  {
    DenyCompiles(c.digests, req.event, req.state, c.profile, req.now);
    DenyMeansChecked(req.event, req.state, c.profile);
    assert IsDigest(c.digests.resource(req.event.resource));
  }

  /** What compiling and caching a request's denial adds is a good entry under the request's key. */
  lemma CompiledEntryGood(c: Setup, m: Machine, req: Request)
    requires c.Valid() && Own(c, req).effect == DENY
    requires m.log.lines != [] && m.log.durable == |m.log.lines| && m.log.lines[|m.log.lines| - 1] == Line(Own(c, req), req)
    ensures var compiled := Compile(c.digests, req.event, Own(c, req), c.profile, req.now);
            && compiled.Some? && Accepts(compiled.value, c.profile.policyRevision)
            && WellFormed(compiled.value) && Backed(c, m.log, compiled.value)
            && compiled.value.cacheKey == KeyOf(c, req.event)
            && compiled.value.namespaceId == Own(c, req).namespaceId
            && compiled.value.expiresEpoch == Expiry(req.now, c.profile.ttlSeconds)
            && KeyFor(KeyOf(c, req.event), Own(c, req).namespaceId)
  {
    CompiledFields(c, req);
    DenyCompiles(c.digests, req.event, req.state, c.profile, req.now);
    CompiledIsWellFormed(c.digests, req.event, req.state, c.profile, req.now);
    CompiledBacks(c, req);
    BackedByLast(c, m.log, Compile(c.digests, req.event, Own(c, req), c.profile, req.now).value);
  }

  /** Putting a later entry never uncovers an earlier denial: the same key means the same namespace. */
  lemma PutKeepsCover(c: Setup, entries: Entries, e: CompiledDecision, key: string, namespaceId: string,
                      earlier: nat, now: nat)
    requires Covers(c, entries, key, namespaceId, earlier) && KeyFor(key, namespaceId)
    requires WellFormed(e) && e.expiresEpoch == Expiry(now, c.profile.ttlSeconds) && earlier <= now
    ensures Covers(c, entries[e.cacheKey := e], key, namespaceId, earlier)
  {
    if e.cacheKey == key {
      var op: Operation, digest :|
        !op.OtherOperation? && IsDigest(digest) && key == CacheKey(namespaceId, op, digest);
      CacheKeyInjective(namespaceId, op, digest, e.namespaceId, e.operation, e.resourceDigest);
    }
  }

  lemma PutCovers(c: Setup, m: Machine, e: CompiledDecision)
    requires ResponsesCovered(c, m) && m.phase != Stopped
    requires WellFormed(e) && e.expiresEpoch == Expiry(m.clock, c.profile.ttlSeconds)
    ensures ResponsesCovered(c, m.(cache := m.cache[e.cacheKey := e]))
  {
    forall i | 0 <= i < |m.responses| && m.responses[i].decision.effect == DENY
               && Expiry(m.responses[i].now, c.profile.ttlSeconds) > m.clock
      ensures var r := m.responses[i];
              Covers(c, m.cache[e.cacheKey := e], r.cacheKey, r.decision.namespaceId, r.now)
    {
      var r := m.responses[i];
      PutKeepsCover(c, m.cache, e, r.cacheKey, r.decision.namespaceId, r.now, m.clock);
    }
  }

  lemma PutGood(c: Setup, log: Log, entries: Entries, e: CompiledDecision)
    requires EntriesGood(c, log, entries)
    requires WellFormed(e) && Accepts(e, c.profile.policyRevision) && Backed(c, log, e)
    ensures EntriesGood(c, log, entries[e.cacheKey := e])
  {
  }

  /** The machine after a denial was compiled and put. */
  function AfterPut(c: Setup, m: Machine, e: CompiledDecision): Machine
    requires m.phase.Audited? && m.log.lines != []
  {
    m.(cache := m.cache[e.cacheKey := e], phase := Decided(m.phase.req, Own(c, m.phase.req), Some(|m.log.lines| - 1)))
  }

  lemma PutShape(c: Setup, m: Machine)
    requires m.phase.Audited? && m.phase.durable && m.log.lines != [] && Own(c, m.phase.req).effect == DENY
    requires var compiled := Compile(c.digests, m.phase.req.event, Own(c, m.phase.req), c.profile, m.phase.req.now);
             compiled.Some? && Accepts(compiled.value, c.profile.policyRevision)
    ensures var e := Compile(c.digests, m.phase.req.event, Own(c, m.phase.req), c.profile, m.phase.req.now).value;
            Step(c, m, CompileAndPut) == Some(AfterPut(c, m, e))
  {
  }

  lemma ResponsesAfterPut(c: Setup, m: Machine, e: CompiledDecision)
    requires ResponsesCovered(c, m) && m.phase.Audited? && m.log.lines != []
    requires WellFormed(e) && e.expiresEpoch == Expiry(m.clock, c.profile.ttlSeconds)
    ensures ResponsesCovered(c, AfterPut(c, m, e))
  {
    PutCovers(c, m, e);
    ResponsesIgnorePhase(c, m.(cache := m.cache[e.cacheKey := e]), AfterPut(c, m, e).phase);
  }

  lemma ResponsesIgnorePhase(c: Setup, m: Machine, phase: Phase)
    requires ResponsesCovered(c, m) && m.phase != Stopped && phase != Stopped
    ensures ResponsesCovered(c, m.(phase := phase))
  {
  }

  /** The entry that compiling the request at hand puts. */
  ghost predicate Fits(c: Setup, m: Machine, e: CompiledDecision) {
    && m.phase.Audited? && m.phase.durable && m.log.lines != []
    && WellFormed(e) && Accepts(e, c.profile.policyRevision) && Backed(c, m.log, e)
    && e.cacheKey == KeyOf(c, m.phase.req.event) && e.namespaceId == Own(c, m.phase.req).namespaceId
    && e.expiresEpoch == Expiry(m.phase.req.now, c.profile.ttlSeconds)
    && KeyFor(KeyOf(c, m.phase.req.event), e.namespaceId)
  }

  lemma AfterPutEntries(c: Setup, m: Machine, e: CompiledDecision)
    requires EntriesGood(c, m.log, m.cache) && Fits(c, m, e)
    ensures EntriesGood(c, m.log, AfterPut(c, m, e).cache)
  {
    PutGood(c, m.log, m.cache, e);
  }

  lemma AfterPutResponses(c: Setup, m: Machine, e: CompiledDecision)
    requires Fits(c, m, e) && ResponsesCovered(c, m) && m.clock == m.phase.req.now
    ensures ResponsesCovered(c, AfterPut(c, m, e))
  {
    ResponsesAfterPut(c, m, e);
  }

  predicate AllAcknowledgeable(c: Setup, m: Machine) {
    forall i :: 0 <= i < |m.acknowledged| ==> Acknowledgeable(c, m, m.acknowledged[i])
  }

  lemma AfterPutAcknowledged(c: Setup, m: Machine, e: CompiledDecision)
    requires AllAcknowledgeable(c, m) && m.phase.Audited? && m.log.lines != []
    ensures AllAcknowledgeable(c, AfterPut(c, m, e))
  {
  }

  lemma AfterPutPhase(c: Setup, m: Machine, e: CompiledDecision)
    requires Fits(c, m, e) && LogValid(m.log) && LastLine(c, m, m.phase.req) && m.log.durable == |m.log.lines|
    ensures PhaseAgrees(c, AfterPut(c, m, e))
  {
  }

  lemma AfterPutInv(c: Setup, m: Machine, e: CompiledDecision)
    requires Inv(c, m) && Fits(c, m, e)
    ensures Inv(c, AfterPut(c, m, e))
  {
    AfterPutEntries(c, m, e);
    AfterPutPhase(c, m, e);
    AfterPutResponses(c, m, e);
    AfterPutAcknowledged(c, m, e);
  }

  lemma CompileDenialKeeps(c: Setup, m: Machine)
    requires c.Valid() && Inv(c, m) && m.phase.Audited? && m.phase.durable && Own(c, m.phase.req).effect == DENY
    ensures Inv(c, Step(c, m, CompileAndPut).value)
  {
    var req := m.phase.req;
    CompiledEntryGood(c, m, req);
    PutShape(c, m);
    AfterPutInv(c, m, Compile(c.digests, req.event, Own(c, req), c.profile, req.now).value);
  }

  /** Nothing is compiled for a decision that is no denial. */
  lemma OtherDecisionShape(c: Setup, m: Machine)
    requires m.phase.Audited? && m.log.lines != [] && Own(c, m.phase.req).effect != DENY
    ensures Step(c, m, CompileAndPut) ==
            Some(m.(phase := Decided(m.phase.req, Own(c, m.phase.req), Some(|m.log.lines| - 1))))
  {
  }

  lemma DecidedByLine(c: Setup, m: Machine, req: Request, decision: PolicyDecision, line: nat)
    requires LogValid(m.log) && EntriesGood(c, m.log, m.cache) && (m.disk.Some? ==> EntriesGood(c, m.log, m.disk.value))
    requires ResponsesCovered(c, m) && AllAcknowledgeable(c, m) && m.phase != Stopped
    requires decision.effect != DENY && OwnLine(c, m, req, decision, line)
    ensures Inv(c, m.(phase := Decided(req, decision, Some(line))))
  {
    ResponsesIgnorePhase(c, m, Decided(req, decision, Some(line)));
  }

  /** The line at hand, which the running process may acknowledge as `own`. */
  predicate OwnLine(c: Setup, m: Machine, req: Request, own: PolicyDecision, line: nat) {
    && m.clock == req.now && m.log.base <= line && Acknowledgeable(c, m, line) && m.log.lines[line].decision == own
  }

  lemma LastIsOwnLine(c: Setup, m: Machine, req: Request, own: PolicyDecision)
    requires LogValid(m.log) && m.clock == req.now && m.log.base < |m.log.lines| && own.effect != DENY
    requires m.log.lines[|m.log.lines| - 1] == Line(own, req)
    requires m.log.durable == |m.log.lines| || m.log.pending < c.groupSize
    ensures OwnLine(c, m, req, own, |m.log.lines| - 1)
  {
  }

  lemma KeepsOther(c: Setup, m: Machine, req: Request, own: PolicyDecision)
    requires LogValid(m.log) && EntriesGood(c, m.log, m.cache) && (m.disk.Some? ==> EntriesGood(c, m.log, m.disk.value))
    requires ResponsesCovered(c, m) && AllAcknowledgeable(c, m) && m.phase != Stopped
    requires m.clock == req.now && m.log.base < |m.log.lines| && own.effect != DENY
    requires m.log.lines[|m.log.lines| - 1] == Line(own, req)
    requires m.log.durable == |m.log.lines| || m.log.pending < c.groupSize
    ensures Inv(c, m.(phase := Decided(req, own, Some(|m.log.lines| - 1))))
  {
    LastIsOwnLine(c, m, req, own);
    DecidedByLine(c, m, req, own, |m.log.lines| - 1);
  }

  lemma AuditedLog(c: Setup, m: Machine)
    requires PhaseAgrees(c, m) && m.phase.Audited? && Own(c, m.phase.req).effect != DENY
    ensures LastLine(c, m, m.phase.req) && (m.log.durable == |m.log.lines| || m.log.pending < c.groupSize)
  {
  }

  lemma CompileOtherKeeps(c: Setup, m: Machine)
    requires Inv(c, m) && m.phase.Audited? && Own(c, m.phase.req).effect != DENY
    ensures m.log.lines != [] && Inv(c, m.(phase := Decided(m.phase.req, Own(c, m.phase.req), Some(|m.log.lines| - 1))))
  {
    AuditedLog(c, m);
    KeepsOther(c, m, m.phase.req, Own(c, m.phase.req));
  }

  lemma CompileKeeps(c: Setup, m: Machine)
    requires c.Valid() && Inv(c, m) && m.phase.Audited?
    ensures Inv(c, Step(c, m, CompileAndPut).value)
  {
    if Own(c, m.phase.req).effect == DENY {
      assert m.phase.durable;
      CompileDenialKeeps(c, m);
    } else {
      CompileOtherKeeps(c, m);
      OtherDecisionShape(c, m);
    }
  }

  lemma StepKeeps(c: Setup, m: Machine, a: Action)
    requires c.Valid() && Inv(c, m) && Step(c, m, a).Some?
    ensures Inv(c, Step(c, m, a).value)
  {
    match a
    case Take(req, writes) => TakeKeeps(c, m, req, writes);
    case Sync(syncs) => SyncKeeps(c, m, syncs);
    case CompileAndPut => CompileKeeps(c, m);
    case Save(saves) => SaveKeeps(c, m, saves);
    case Respond => RespondKeeps(c, m);
    case Finish(_) => StopKeeps(c, m, a);
    case Exit => StopKeeps(c, m, a);
    case Crash(survive) => CrashKeeps(c, m, survive);
    case Restart(now) => RestartKeeps(c, m, now);
  }

  lemma {:induction false} RunKeeps(c: Setup, m: Machine, run: seq<Action>)
    requires c.Valid() && Inv(c, m) && Run(c, m, run).Some?
    ensures Inv(c, Run(c, m, run).value)
    decreases |run|
  {
    if run != [] {
      StepKeeps(c, m, run[0]);
      RunKeeps(c, Step(c, m, run[0]).value, run[1..]);
    }
  }

  /** No step changes the durable lines, takes a response back, or turns the clock back. */
  lemma StepGrows(c: Setup, m: Machine, a: Action)
    requires LogValid(m.log) && Step(c, m, a).Some?
    ensures var m' := Step(c, m, a).value;
            LogGrows(m.log, m'.log) && m.clock <= m'.clock && m.responses <= m'.responses
  {
    SyncedGrows(m.log);
  }

  // ---------------------------------------------------------------- the order of acknowledgements

  /** Every acknowledged line lies before this one. */
  function NextAcknowledged(m: Machine): int {
    match m.phase
    case Written(_) => |m.log.lines| - 1
    case Audited(_, _) => |m.log.lines| - 1
    case Decided(_, _, line) => if line.Some? then line.value else |m.log.lines|
    case Saved(_, _, line) => if line.Some? then line.value else |m.log.lines|
    case _ => |m.log.lines|
  }

  predicate AcknowledgedInOrder(m: Machine) {
    && (forall i, j :: 0 <= i < j < |m.acknowledged| ==> m.acknowledged[i] < m.acknowledged[j])
    && (forall i :: 0 <= i < |m.acknowledged| ==> m.acknowledged[i] < NextAcknowledged(m) <= |m.log.lines|)
    && ((m.phase.Decided? || m.phase.Saved?) && m.phase.line.Some? ==> m.phase.line.value < |m.log.lines|)
    && (m.phase.Written? || m.phase.Audited? ==> m.log.lines != [])
  }

  /** Compiling leaves all but the cache alone and decides for the request at hand. */
  lemma CompileShape(c: Setup, m: Machine)
    requires m.phase.Audited?
    ensures Step(c, m, CompileAndPut).Some?
    ensures var m' := Step(c, m, CompileAndPut).value;
            && m' == m.(cache := m'.cache, phase := m'.phase) && m'.phase.Decided? && m'.phase.req == m.phase.req
            && (m'.phase.line == None || m'.phase.line == Some(if m.log.lines == [] then 0 else |m.log.lines| - 1))
  {
  }

  lemma SyncShape(c: Setup, m: Machine, syncs: bool)
    requires m.phase.Written?
    ensures Step(c, m, Sync(syncs)).Some?
    ensures var m' := Step(c, m, Sync(syncs)).value;
            && m' == m.(log := m'.log, starts := m'.starts, phase := m'.phase) && m'.log.lines == m.log.lines
            && (m'.phase.Audited? || (m'.phase.Decided? && m'.phase.line == None))
  {
  }

  /** Taking, saving, responding, stopping, crashing and restarting. */
  lemma OrderOther(c: Setup, m: Machine, a: Action)
    requires AcknowledgedInOrder(m) && Step(c, m, a).Some? && !a.Sync? && !a.CompileAndPut? && !a.Respond?
    ensures AcknowledgedInOrder(Step(c, m, a).value)
  {
    var m' := Step(c, m, a).value;
    assert m'.acknowledged == m.acknowledged || m'.acknowledged == [];
    assert m'.acknowledged == m.acknowledged ==> NextAcknowledged(m) <= NextAcknowledged(m') || m.acknowledged == [];
  }

  lemma OrderRespond(c: Setup, m: Machine)
    requires AcknowledgedInOrder(m) && Step(c, m, Respond).Some?
    ensures AcknowledgedInOrder(Step(c, m, Respond).value)
  {
    var m' := Step(c, m, Respond).value;
    var line := m.phase.line;
    assert m'.acknowledged == m.acknowledged + if line.Some? then [line.value] else [];
    forall i | 0 <= i < |m'.acknowledged| ensures m'.acknowledged[i] < |m.log.lines| {
      if i < |m.acknowledged| {
        assert m'.acknowledged[i] == m.acknowledged[i];
      }
    }
    forall i, j | 0 <= i < j < |m'.acknowledged| ensures m'.acknowledged[i] < m'.acknowledged[j] {
      assert m'.acknowledged[i] == m.acknowledged[i];
      if j < |m.acknowledged| {
        assert m'.acknowledged[j] == m.acknowledged[j];
      }
    }
  }

  /** A step that acknowledges nothing and comes no nearer to an earlier line. */
  lemma OrderFrom(m: Machine, m': Machine)
    requires AcknowledgedInOrder(m) && m'.acknowledged == m.acknowledged
    requires NextAcknowledged(m) <= NextAcknowledged(m') <= |m'.log.lines|
    requires (m'.phase.Decided? || m'.phase.Saved?) && m'.phase.line.Some? ==> m'.phase.line.value < |m'.log.lines|
    requires m'.phase.Written? || m'.phase.Audited? ==> m'.log.lines != []
    ensures AcknowledgedInOrder(m')
  {
  }

  lemma OrderSync(c: Setup, m: Machine, syncs: bool)
    requires AcknowledgedInOrder(m) && Step(c, m, Sync(syncs)).Some?
    ensures AcknowledgedInOrder(Step(c, m, Sync(syncs)).value)
  {
    SyncShape(c, m, syncs);
    OrderFrom(m, Step(c, m, Sync(syncs)).value);
  }

  lemma OrderCompile(c: Setup, m: Machine)
    requires AcknowledgedInOrder(m) && Step(c, m, CompileAndPut).Some?
    ensures AcknowledgedInOrder(Step(c, m, CompileAndPut).value)
  {
    CompileShape(c, m);
    OrderFrom(m, Step(c, m, CompileAndPut).value);
  }

  lemma OrderStep(c: Setup, m: Machine, a: Action)
    requires AcknowledgedInOrder(m) && Step(c, m, a).Some?
    ensures AcknowledgedInOrder(Step(c, m, a).value)
  {
    match a
    case Sync(syncs) => OrderSync(c, m, syncs);
    case CompileAndPut => OrderCompile(c, m);
    case Respond => OrderRespond(c, m);
    case _ => OrderOther(c, m, a);
  }

  lemma {:induction false} OrderRun(c: Setup, m: Machine, run: seq<Action>)
    requires AcknowledgedInOrder(m) && Run(c, m, run).Some?
    ensures AcknowledgedInOrder(Run(c, m, run).value)
    decreases |run|
  {
    if run != [] {
      OrderStep(c, m, run[0]);
      OrderRun(c, Step(c, m, run[0]).value, run[1..]);
    }
  }

  // ---------------------------------------------------------------- theorems about every run

  ghost predicate Reachable(c: Setup, m: Machine) {
    exists run :: Run(c, FRESH, run) == Some(m)
  }

  lemma ReachableInv(c: Setup, m: Machine)
    requires c.Valid() && Reachable(c, m)
    ensures Inv(c, m) && AcknowledgedInOrder(m)
  {
    var run :| Run(c, FRESH, run) == Some(m);
    assert Inv(c, FRESH);
    RunKeeps(c, FRESH, run);
    OrderRun(c, FRESH, run);
  }

  /** At every point at which a crash can come, each entry of the cache file has its denial in the
      part of the audit that survives the crash. */
  lemma CacheFileRestsOnDurableAudit(c: Setup, m: Machine, key: string)
    requires c.Valid() && Reachable(c, m) && m.disk.Some? && key in m.disk.value
    ensures exists i :: 0 <= i < m.log.durable <= |m.log.lines| && Backs(c, m.log.lines[i], m.disk.value[key])
  {
    ReachableInv(c, m);
    assert Backed(c, m.log, m.disk.value[key]);
  }

  lemma {:induction false} RangeBound(s: set<nat>, lo: nat, hi: nat)
    requires lo <= hi && forall x :: x in s ==> lo <= x < hi
    ensures |s| <= hi - lo
    decreases hi - lo
  {
    if lo < hi {
      var rest := s - {lo};
      RangeBound(rest, lo + 1, hi);
      assert s <= rest + {lo};
      assert |s| <= |rest| + 1;
    } else {
      assert s == {};
    }
  }

  lemma AuditedFacts(c: Setup, m: Machine)
    requires c.Valid() && Reachable(c, m) && m.phase.Audited?
    ensures m.log.lines != [] && (Own(c, m.phase.req).effect == DENY ==> m.phase.durable)
  {
    ReachableInv(c, m);
  }

  lemma CompiledAccepted(c: Setup, req: Request)
    requires c.Valid()
    ensures var compiled := Compile(c.digests, req.event, Own(c, req), c.profile, req.now);
            compiled.Some? ==> Accepts(compiled.value, c.profile.policyRevision)
  {
    DenyCompiles(c.digests, req.event, req.state, c.profile, req.now);
  }

  lemma CompileOwn(c: Setup, m: Machine)
    requires m.phase.Audited? && m.log.lines != []
    requires Own(c, m.phase.req).effect == DENY ==> m.phase.durable
    requires var compiled := Compile(c.digests, m.phase.req.event, Own(c, m.phase.req), c.profile, m.phase.req.now);
             compiled.Some? ==> Accepts(compiled.value, c.profile.policyRevision)
    ensures KeepsDecision(c, m)
  {
  }

  /** Compiling is possible and decides what was evaluated, acknowledging its own audit line. */
  ghost predicate KeepsDecision(c: Setup, m: Machine) {
    && m.phase.Audited? && m.log.lines != [] && Step(c, m, CompileAndPut).Some?
    && Step(c, m, CompileAndPut).value.phase == Decided(m.phase.req, Own(c, m.phase.req), Some(|m.log.lines| - 1))
  }

  /** Compiling never fails and a denial is never found undurable: the two abstentions for them are
      unreachable, and the decision that goes on to be saved is the evaluated one. */
  lemma CompilationNeverAbstains(c: Setup, m: Machine)
    requires c.Valid() && Reachable(c, m) && m.phase.Audited?
    ensures KeepsDecision(c, m)
  {
    AuditedFacts(c, m);
    CompiledAccepted(c, m.phase.req);
    CompileOwn(c, m);
  }

  // ---------------------------------------------------------------- what lines, entries and answers record

  /** The answer is the evaluated decision, or an abstention from the same request. */
  predicate DecisionFor(c: Setup, req: Request, decision: PolicyDecision, audited: bool) {
    if audited then decision == Own(c, req)
    else |decision.reasonCodes| == 1 && decision == Instead(c, req, decision.reasonCodes[0])
  }

  predicate Answers(c: Setup, req: Request, r: Response) {
    r.now == req.now && r.cacheKey == KeyOf(c, req.event) && DecisionFor(c, req, r.decision, r.line.Some?)
  }

  ghost predicate AnswersTaken(c: Setup, r: Response, done: set<Action>) {
    exists req, writes :: Take(req, writes) in done && Answers(c, req, r)
  }

  predicate LineOfTaken(c: Setup, line: Line, done: set<Action>) {
    Take(line.req, true) in done && line.decision == Own(c, line.req)
  }

  ghost predicate PhaseOfTaken(c: Setup, phase: Phase, done: set<Action>) {
    match phase
    case Idle => true
    case Stopped => true
    case Written(req) => exists writes :: Take(req, writes) in done
    case Audited(req, _) => exists writes :: Take(req, writes) in done
    case Decided(req, decision, line) => DecisionFor(c, req, decision, line.Some?) && exists writes :: Take(req, writes) in done
    case Saved(req, decision, line) => DecisionFor(c, req, decision, line.Some?) && exists writes :: Take(req, writes) in done
  }

  /** Where lines, answers and the request at hand come from; `done` are the actions so far. */
  ghost predicate Traced(c: Setup, m: Machine, done: set<Action>) {
    && (forall i :: 0 <= i < |m.log.lines| ==> LineOfTaken(c, m.log.lines[i], done))
    && (forall i :: 0 <= i < |m.responses| ==> AnswersTaken(c, m.responses[i], done))
    && PhaseOfTaken(c, m.phase, done)
  }

  lemma TracedMore(c: Setup, m: Machine, done: set<Action>, a: Action)
    requires Traced(c, m, done)
    ensures Traced(c, m, done + {a})
  {
    forall i | 0 <= i < |m.responses| ensures AnswersTaken(c, m.responses[i], done + {a}) {
      assert AnswersTaken(c, m.responses[i], done);
      var req, writes :| Take(req, writes) in done && Answers(c, req, m.responses[i]);
      assert Take(req, writes) in done + {a};
    }
    match m.phase
    case Idle =>
    case Stopped =>
    case Written(req) => var writes :| Take(req, writes) in done; assert Take(req, writes) in done + {a};
    case Audited(req, _) => var writes :| Take(req, writes) in done; assert Take(req, writes) in done + {a};
    case Decided(req, _, _) => var writes :| Take(req, writes) in done; assert Take(req, writes) in done + {a};
    case Saved(req, _, _) => var writes :| Take(req, writes) in done; assert Take(req, writes) in done + {a};
  }

  lemma TracedTake(c: Setup, m: Machine, req: Request, writes: bool, done: set<Action>)
    requires Traced(c, m, done) && Take(req, writes) in done && Step(c, m, Take(req, writes)).Some?
    ensures Traced(c, Step(c, m, Take(req, writes)).value, done)
  {
  }

  lemma TracedSync(c: Setup, m: Machine, syncs: bool, done: set<Action>)
    requires Traced(c, m, done) && Step(c, m, Sync(syncs)).Some?
    ensures Traced(c, Step(c, m, Sync(syncs)).value, done)
  {
    SyncShape(c, m, syncs);
    var req, phase := m.phase.req, Step(c, m, Sync(syncs)).value.phase;
    assert phase.Decided? ==> phase == Decided(req, Instead(c, req, "AUDIT_PERSISTENCE_UNAVAILABLE"), None);
  }

  lemma CompilePhase(c: Setup, m: Machine)
    requires m.phase.Audited?
    ensures var phase := Step(c, m, CompileAndPut).value.phase;
            phase.Decided? && phase.req == m.phase.req && DecisionFor(c, m.phase.req, phase.decision, phase.line.Some?)
  {
  }

  lemma TracedCompile(c: Setup, m: Machine, done: set<Action>)
    requires Traced(c, m, done) && Step(c, m, CompileAndPut).Some?
    ensures Traced(c, Step(c, m, CompileAndPut).value, done)
  {
    CompileShape(c, m);
    CompilePhase(c, m);
  }

  lemma TracedRespond(c: Setup, m: Machine, done: set<Action>)
    requires Traced(c, m, done) && Step(c, m, Respond).Some?
    ensures Traced(c, Step(c, m, Respond).value, done)
  {
    var m' := Step(c, m, Respond).value;
    var n := |m.responses|;
    var writes :| Take(m.phase.req, writes) in done;
    assert Answers(c, m.phase.req, m'.responses[n]);
    forall i | 0 <= i < |m'.responses| ensures AnswersTaken(c, m'.responses[i], done) {
      if i < n {
        assert m'.responses[i] == m.responses[i];
      }
    }
  }

  lemma TracedOther(c: Setup, m: Machine, a: Action, done: set<Action>)
    requires Traced(c, m, done) && Step(c, m, a).Some?
    requires a.Save? || a.Finish? || a.Exit? || a.Crash? || a.Restart?
    ensures Traced(c, Step(c, m, a).value, done)
  {
    var m' := Step(c, m, a).value;
    assert m'.responses == m.responses && m'.log.lines <= m.log.lines;
  }

  lemma TracedStep(c: Setup, m: Machine, a: Action, done: set<Action>)
    requires Traced(c, m, done) && Step(c, m, a).Some?
    ensures Traced(c, Step(c, m, a).value, done + {a})
  {
    TracedMore(c, m, done, a);
    match a
    case Take(req, writes) => TracedTake(c, m, req, writes, done + {a});
    case Sync(syncs) => TracedSync(c, m, syncs, done + {a});
    case CompileAndPut => TracedCompile(c, m, done + {a});
    case Respond => TracedRespond(c, m, done + {a});
    case _ => TracedOther(c, m, a, done + {a});
  }

  lemma {:induction false} TracedRun(c: Setup, m: Machine, run: seq<Action>, done: set<Action>)
    requires Traced(c, m, done) && Run(c, m, run).Some?
    ensures Traced(c, Run(c, m, run).value, done + set a | a in run)
    decreases |run|
  {
    if run == [] {
      assert done + (set a | a in run) == done;
    } else {
      TracedStep(c, m, run[0], done);
      TracedRun(c, Step(c, m, run[0]).value, run[1..], done + {run[0]});
      assert run == [run[0]] + run[1..];
      assert done + (set a | a in run) == done + {run[0]} + set a | a in run[1..];
    }
  }

  /** What a decision takes over from the request it was evaluated for. */
  predicate Records(c: Setup, decision: PolicyDecision, req: Request) {
    && decision.evidenceIds == req.state.evidenceIds && decision.namespaceId == req.event.namespaceId
    && decision.stateRevision == req.state.stateRevision && decision.policyRevision == c.profile.policyRevision
    && decision.scope == OperationName(req.event.operation) + ":" + req.event.resource.resourceType
    && decision.createdAt == req.event.occurredAt && decision.mode.AuditMode?
  }

  lemma DecisionRecords(c: Setup, req: Request, decision: PolicyDecision, audited: bool)
    requires DecisionFor(c, req, decision, audited)
    ensures Records(c, decision, req)
  {
  }

  lemma TracedFromFresh(c: Setup, run: seq<Action>)
    requires Run(c, FRESH, run).Some?
    ensures Traced(c, Run(c, FRESH, run).value, set a | a in run)
  {
    TracedRun(c, FRESH, run, {});
    assert {} + (set a | a in run) == set a | a in run;
  }

  /** In every run, each audit line comes from a taken request whose line was written, and records that request:
      it cites exactly its evidence. */
  lemma AuditRecordsRequests(c: Setup, run: seq<Action>, i: nat)
    requires Run(c, FRESH, run).Some? && i < |Run(c, FRESH, run).value.log.lines|
    ensures var line := Run(c, FRESH, run).value.log.lines[i];
            && Take(line.req, true) in run && line.decision == Own(c, line.req) && Records(c, line.decision, line.req)
  {
    TracedFromFresh(c, run);
    var line := Run(c, FRESH, run).value.log.lines[i];
    assert LineOfTaken(c, line, set a | a in run);
    DecisionRecords(c, line.req, line.decision, true);
  }

  /** And each answer is to a taken request: the decision that was evaluated for it, if it acknowledges a line,
      and otherwise an abstention that fails closed; it records the request either way. */
  lemma ResponsesAnswerRequests(c: Setup, run: seq<Action>, i: nat)
    requires Run(c, FRESH, run).Some? && i < |Run(c, FRESH, run).value.responses|
    ensures var r := Run(c, FRESH, run).value.responses[i];
            exists req, writes :: Take(req, writes) in run && r.now == req.now && r.cacheKey == KeyOf(c, req.event)
              && Records(c, r.decision, req)
              && if r.line.Some? then r.decision == Own(c, req) else r.decision.effect == ABSTAIN && r.decision.failClosed
  {
    TracedFromFresh(c, run);
    var done := set a | a in run;
    var r := Run(c, FRESH, run).value.responses[i];
    assert AnswersTaken(c, r, done);
    var req, writes :| Take(req, writes) in done && Answers(c, req, r);
    DecisionRecords(c, req, r.decision, r.line.Some?);
  }

  /** An entry's durable line, and the taken request that the line is for. */
  ghost predicate EntryTraced(c: Setup, run: seq<Action>, log: Log, i: nat, e: CompiledDecision) {
    && i < log.durable <= |log.lines| && Backs(c, log.lines[i], e)
    && var req := log.lines[i].req;
       && Take(req, true) in run && Records(c, log.lines[i].decision, req)
       && e.namespaceId == req.event.namespaceId && e.operation == req.event.operation
       && e.resourceDigest == c.digests.resource(req.event.resource)
       && e.stateRevision == req.state.stateRevision && e.evidenceDigest == c.digests.evidence(req.state.evidenceIds)
       && e.expiresEpoch == Expiry(req.now, c.profile.ttlSeconds)
  }

  /** Each entry of the cache file is for the process, operation, resource, state and evidence of one taken
      request, whose denial is in the durable audit. */
  lemma CacheFileRecordsRequests(c: Setup, run: seq<Action>, key: string)
    requires c.Valid() && Run(c, FRESH, run).Some?
    requires Run(c, FRESH, run).value.disk.Some? && key in Run(c, FRESH, run).value.disk.value
    ensures var m := Run(c, FRESH, run).value; exists i: nat :: EntryTraced(c, run, m.log, i, m.disk.value[key])
  {
    var m := Run(c, FRESH, run).value;
    assert Reachable(c, m);
    CacheFileRestsOnDurableAudit(c, m, key);
    var i: nat :| i < m.log.durable <= |m.log.lines| && Backs(c, m.log.lines[i], m.disk.value[key]);
    AuditRecordsRequests(c, run, i);
    assert EntryTraced(c, run, m.log, i, m.disk.value[key]);
  }

  // ---------------------------------------------------------------- what a crash can lose

  /** The acknowledged lines that a crash now can lose. */
  function AtRisk(m: Machine): set<nat> { set line | line in m.acknowledged && line >= m.log.durable }

  /** Those of them that earlier processes acknowledged. */
  function Inherited(m: Machine): set<nat> { set line | line in AtRisk(m) && line < m.log.base }

  /** At most a group, less one, for each earlier process since the log was last durable as a whole. */
  ghost predicate RiskBounded(c: Setup, m: Machine) {
    && (m.phase != Stopped ==> m.starts >= 1)
    && (m.starts == 0 ==> AtRisk(m) == {})
    && (m.starts >= 1 ==> |Inherited(m)| <= (c.groupSize - 1) * (m.starts - 1))
  }

  lemma OwnRisk(c: Setup, m: Machine)
    requires 1 <= c.groupSize && AllAcknowledgeable(c, m)
    ensures Inherited(m) <= AtRisk(m) && |AtRisk(m)| <= |Inherited(m)| + c.groupSize - 1
  {
    var own := AtRisk(m) - Inherited(m);
    var lo := Floor(m.log);
    forall line | line in own ensures lo <= line < lo + c.groupSize - 1 {
      var i :| 0 <= i < |m.acknowledged| && m.acknowledged[i] == line;
      assert Acknowledgeable(c, m, line);
    }
    RangeBound(own, lo, lo + c.groupSize - 1);
    assert AtRisk(m) == own + Inherited(m);
  }

  lemma BelowTheEnd(m: Machine)
    requires AcknowledgedInOrder(m)
    ensures forall line :: line in AtRisk(m) ==> line < |m.log.lines|
  {
  }

  /** Once everything is durable nothing is at risk. */
  lemma NothingAtRisk(m: Machine)
    requires AcknowledgedInOrder(m) && m.log.durable == |m.log.lines|
    ensures AtRisk(m) == {} && Inherited(m) == {}
  {
    BelowTheEnd(m);
  }

  lemma RestartShape(c: Setup, m: Machine, now: nat)
    requires Step(c, m, Restart(now)).Some?
    ensures m.phase == Stopped && m.clock <= now && LoadDisk(c, m.disk, now).Ok?
    ensures Step(c, m, Restart(now)).value ==
            m.(log := Log(m.log.lines, m.log.durable, |m.log.lines|, 0, 0), cache := LoadDisk(c, m.disk, now).value,
               starts := m.starts + 1, phase := Idle, clock := now)
  {
  }

  lemma RiskOfNext(c: Setup, m: Machine, m': Machine)
    requires 1 <= c.groupSize && AllAcknowledgeable(c, m) && AcknowledgedInOrder(m) && RiskBounded(c, m)
    requires m'.acknowledged == m.acknowledged && m'.starts == m.starts + 1
    requires m'.log.durable == m.log.durable && m'.log.base == |m.log.lines|
    ensures RiskBounded(c, m')
  {
    BelowTheEnd(m);
    OwnRisk(c, m);
    assert Inherited(m') == AtRisk(m);
    if m.starts > 0 {
      assert (c.groupSize - 1) * (m.starts - 1) + (c.groupSize - 1) == (c.groupSize - 1) * m.starts;
    }
  }

  lemma RiskOfRestart(c: Setup, m: Machine, now: nat)
    requires c.Valid() && Inv(c, m) && AcknowledgedInOrder(m) && RiskBounded(c, m) && Step(c, m, Restart(now)).Some?
    ensures RiskBounded(c, Step(c, m, Restart(now)).value)
  {
    RestartShape(c, m, now);
    RiskOfNext(c, m, Step(c, m, Restart(now)).value);
  }

  lemma RiskOfRespond(c: Setup, m: Machine)
    requires Inv(c, m) && RiskBounded(c, m) && Step(c, m, Respond).Some?
    ensures RiskBounded(c, Step(c, m, Respond).value)
  {
    var m' := Step(c, m, Respond).value;
    assert Inherited(m') == Inherited(m);
  }

  /** The steps that make all lines durable, or lose those that are not. */
  predicate Settles(m: Machine, a: Action) {
    (a == Finish(true) && m.log.pending > 0) || a.Crash? || a == Sync(true)
  }

  lemma SettlingStep(c: Setup, m: Machine, a: Action)
    requires LogValid(m.log) && PhaseAgrees(c, m) && Step(c, m, a).Some? && Settles(m, a)
    ensures var m' := Step(c, m, a).value;
            || (m'.log.durable == |m'.log.lines| && (m'.starts == 1 || (m'.starts == 0 && m'.phase == Stopped)))
            || (m' == m.(phase := m'.phase) && m.phase != Stopped)
  {
    SyncedGrows(m.log);
  }

  lemma RiskOfSettled(c: Setup, m: Machine)
    requires AcknowledgedInOrder(m) && m.log.durable == |m.log.lines|
    requires m.starts == 1 || (m.starts == 0 && m.phase == Stopped)
    ensures RiskBounded(c, m)
  {
    NothingAtRisk(m);
  }

  lemma SettledRisk(c: Setup, m: Machine, a: Action)
    requires LogValid(m.log) && PhaseAgrees(c, m) && AcknowledgedInOrder(m) && RiskBounded(c, m)
    requires Step(c, m, a).Some? && Settles(m, a)
    ensures RiskBounded(c, Step(c, m, a).value)
  {
    OrderStep(c, m, a);
    SettlingStep(c, m, a);
    var m' := Step(c, m, a).value;
    if m'.log.durable == |m'.log.lines| && (m'.starts == 1 || (m'.starts == 0 && m'.phase == Stopped)) {
      RiskOfSettled(c, m');
    } else {
      RiskSame(c, m, m');
    }
  }

  /** As many at risk, and no fewer processes. */
  lemma RiskSame(c: Setup, m: Machine, m': Machine)
    requires RiskBounded(c, m) && m'.acknowledged == m.acknowledged && m'.starts == m.starts
    requires m'.log.durable == m.log.durable && m'.log.base == m.log.base
    requires m'.phase != Stopped ==> m.phase != Stopped
    ensures RiskBounded(c, m')
  {
    assert AtRisk(m') == AtRisk(m) && Inherited(m') == Inherited(m);
  }

  lemma QuietStep(c: Setup, m: Machine, a: Action)
    requires Step(c, m, a).Some? && !a.Respond? && !a.Restart? && !Settles(m, a)
    ensures var m' := Step(c, m, a).value;
            && m'.acknowledged == m.acknowledged && m'.starts == m.starts
            && m'.log.durable == m.log.durable && m'.log.base == m.log.base && (m'.phase != Stopped ==> m.phase != Stopped)
  {
  }

  lemma RiskOfOther(c: Setup, m: Machine, a: Action)
    requires RiskBounded(c, m) && Step(c, m, a).Some? && !a.Respond? && !a.Restart? && !Settles(m, a)
    ensures RiskBounded(c, Step(c, m, a).value)
  {
    QuietStep(c, m, a);
    RiskSame(c, m, Step(c, m, a).value);
  }

  lemma RiskStep(c: Setup, m: Machine, a: Action)
    requires c.Valid() && Inv(c, m) && AcknowledgedInOrder(m) && RiskBounded(c, m) && Step(c, m, a).Some?
    ensures RiskBounded(c, Step(c, m, a).value)
  {
    if Settles(m, a) {
      SettledRisk(c, m, a);
    } else if a.Respond? {
      RiskOfRespond(c, m);
    } else if a.Restart? {
      RiskOfRestart(c, m, a.now);
    } else {
      RiskOfOther(c, m, a);
    }
  }

  lemma {:induction false} RiskRun(c: Setup, m: Machine, run: seq<Action>)
    requires c.Valid() && Inv(c, m) && AcknowledgedInOrder(m) && RiskBounded(c, m) && Run(c, m, run).Some?
    ensures RiskBounded(c, Run(c, m, run).value)
    decreases |run|
  {
    if run != [] {
      StepKeeps(c, m, run[0]);
      OrderStep(c, m, run[0]);
      RiskStep(c, m, run[0]);
      RiskRun(c, Step(c, m, run[0]).value, run[1..]);
    }
  }

  lemma ReachableRisk(c: Setup, m: Machine)
    requires c.Valid() && Reachable(c, m)
    ensures RiskBounded(c, m) && AllAcknowledgeable(c, m) && AcknowledgedInOrder(m)
  {
    ReachableInv(c, m);
    var run :| Run(c, FRESH, run) == Some(m);
    assert Inv(c, FRESH);
    RiskRun(c, FRESH, run);
  }

  lemma NoDenialAtRisk(c: Setup, m: Machine)
    requires AllAcknowledgeable(c, m)
    ensures forall line :: line in AtRisk(m) ==> line < |m.log.lines| && m.log.lines[line].decision.effect != DENY
  {
    forall line | line in AtRisk(m) ensures line < |m.log.lines| && m.log.lines[line].decision.effect != DENY {
      var i :| 0 <= i < |m.acknowledged| && m.acknowledged[i] == line;
      assert Acknowledgeable(c, m, line);
    }
  }

  lemma TotalRisk(c: Setup, m: Machine)
    requires 1 <= c.groupSize && RiskBounded(c, m) && AllAcknowledgeable(c, m)
    ensures |AtRisk(m)| <= (c.groupSize - 1) * m.starts
  {
    OwnRisk(c, m);
    if m.starts > 0 {
      assert (c.groupSize - 1) * (m.starts - 1) + (c.groupSize - 1) == (c.groupSize - 1) * m.starts;
    }
  }

  /** At every crash point: of all lines acknowledged since the last crash, each once, at most a group
      less one for each process since the log was last durable as a whole can be lost, none a denial;
      also when synchronizations fail and when processes end without their last one. */
  lemma UndurableAcknowledgementsBounded(c: Setup, m: Machine)
    requires c.Valid() && Reachable(c, m)
    ensures |AtRisk(m)| <= (c.groupSize - 1) * m.starts
    ensures forall line :: line in AtRisk(m) ==> line < |m.log.lines| && m.log.lines[line].decision.effect != DENY
    ensures forall i, j :: 0 <= i < j < |m.acknowledged| ==> m.acknowledged[i] != m.acknowledged[j]
  {
    ReachableRisk(c, m);
    NoDenialAtRisk(c, m);
    TotalRisk(c, m);
  }

  /** Each process but the first comes after one that ended with a successful synchronization, or
      after a crash. */
  predicate EndsSynchronized(run: seq<Action>) {
    forall i :: 0 < i < |run| && run[i].Restart? ==> run[i - 1] == Finish(true) || run[i - 1].Crash?
  }

  lemma SynchronizedStep(c: Setup, m: Machine, a: Action)
    requires c.Valid() && Inv(c, m) && m.log.base <= m.log.durable && Step(c, m, a).Some?
    requires a.Restart? ==> m.log.durable == |m.log.lines|
    ensures var m' := Step(c, m, a).value;
            && m'.log.base <= m'.log.durable
            && (a == Finish(true) || a.Crash? ==> m'.log.durable == |m'.log.lines|)
  {
    SyncedGrows(m.log);
  }

  lemma {:induction false} SynchronizedRun(c: Setup, m: Machine, run: seq<Action>)
    requires c.Valid() && Inv(c, m) && m.log.base <= m.log.durable && EndsSynchronized(run) && Run(c, m, run).Some?
    requires run != [] && run[0].Restart? ==> m.log.durable == |m.log.lines|
    ensures Run(c, m, run).value.log.base <= Run(c, m, run).value.log.durable
    decreases |run|
  {
    if run != [] {
      var rest := run[1..];
      SynchronizedStep(c, m, run[0]);
      StepKeeps(c, m, run[0]);
      assert forall i :: 0 <= i < |rest| ==> rest[i] == run[i + 1];
      SynchronizedRun(c, Step(c, m, run[0]).value, rest);
    }
  }

  /** If processes end synchronized, fewer than a group can be lost, however many there were. */
  lemma OneGroupAtRisk(c: Setup, run: seq<Action>)
    requires c.Valid() && Run(c, FRESH, run).Some? && EndsSynchronized(run)
    ensures |AtRisk(Run(c, FRESH, run).value)| <= c.groupSize - 1
  {
    var m := Run(c, FRESH, run).value;
    assert Reachable(c, m);
    ReachableInv(c, m);
    SynchronizedRun(c, FRESH, run);
    OwnRisk(c, m);
    assert Inherited(m) == {};
  }

  // ---------------------------------------------------------------- and that this much is lost

  /** `n` lines were written and acknowledged since the last crash and none was synchronized; the
      process that is running now is the `starts`-th of them and found `base` lines. */
  predicate Unsynchronized(m: Machine, now: nat, n: nat, base: nat, starts: nat) {
    && base <= n && m.log == Log(m.log.lines, 0, base, n - base, 0) && |m.log.lines| == n
    && |m.acknowledged| == n && (forall i :: 0 <= i < n ==> m.acknowledged[i] == i)
    && m.starts == starts && m.disk.None? && m.phase == Idle && m.clock == now
  }

  lemma {:induction false} RunJoins(c: Setup, m: Machine, run: seq<Action>, a: Action)
    requires Run(c, m, run).Some? && Step(c, Run(c, m, run).value, a).Some?
    ensures Run(c, m, run + [a]) == Step(c, Run(c, m, run).value, a)
    decreases |run|
  {
    if run == [] {
      assert [a][1..] == [];
      assert run + [a] == [a];
    } else {
      assert (run + [a])[1..] == run[1..] + [a];
      RunJoins(c, Step(c, m, run[0]).value, run[1..], a);
    }
  }

  lemma ReachableStep(c: Setup, m: Machine, a: Action)
    requires Reachable(c, m) && Step(c, m, a).Some?
    ensures Reachable(c, Step(c, m, a).value)
  {
    var run :| Run(c, FRESH, run) == Some(m);
    RunJoins(c, FRESH, run, a);
  }

  lemma Takes(c: Setup, m: Machine, req: Request)
    requires m.phase == Idle && m.clock <= req.now
    ensures Step(c, m, Take(req, true)) ==
            Some(m.(log := Appended(m.log, Line(Own(c, req), req)), phase := Written(req), clock := req.now))
  {
  }

  lemma Responds(c: Setup, m: Machine)
    requires m.phase.Decided? && m.phase.decision.effect != DENY && m.phase.line.Some?
    ensures var Decided(req, decision, line) := m.phase;
            var saved := m.(phase := Saved(req, decision, line));
            && Step(c, m, Save(true)) == Some(saved)
            && Step(c, saved, Respond) ==
               Some(m.(responses := m.responses + [Response(decision, KeyOf(c, req.event), req.now, line)],
                       acknowledged := m.acknowledged + [line.value], phase := Idle))
  {
  }

  function DecidedNext(c: Setup, m: Machine, req: Request): Machine {
    m.(log := Appended(m.log, Line(Own(c, req), req)), clock := req.now,
       phase := Decided(req, Own(c, req), Some(|m.log.lines|)))
  }

  lemma DecidesOther(c: Setup, m: Machine, req: Request)
    requires Reachable(c, m) && m.phase == Idle && m.clock <= req.now
    requires Own(c, req).effect != DENY && m.log.pending + 1 < c.groupSize
    ensures Reachable(c, DecidedNext(c, m, req))
  {
    Takes(c, m, req);
    ReachableStep(c, m, Take(req, true));
    var written := Step(c, m, Take(req, true)).value;
    SkipsSync(c, written, true);
    ReachableStep(c, written, Sync(true));
    var audited := written.(phase := Audited(req, false));
    OtherDecisionShape(c, audited);
    ReachableStep(c, audited, CompileAndPut);
  }

  /** One more request, while the group has room for it. */
  lemma ServeOne(c: Setup, req: Request, m: Machine, n: nat, base: nat, starts: nat) returns (m': Machine)
    requires Own(c, req).effect != DENY && base <= n && n + 1 - base < c.groupSize
    requires Reachable(c, m) && Unsynchronized(m, req.now, n, base, starts)
    ensures Reachable(c, m') && Unsynchronized(m', req.now, n + 1, base, starts)
  {
    DecidesOther(c, m, req);
    RespondsReachably(c, DecidedNext(c, m, req));
    m' := Responded(c, DecidedNext(c, m, req));
  }

  /** After the decision at hand is responded, which is no denial. */
  function Responded(c: Setup, m: Machine): Machine
    requires m.phase.Decided? && m.phase.line.Some?
  {
    var Decided(req, decision, line) := m.phase;
    m.(responses := m.responses + [Response(decision, KeyOf(c, req.event), req.now, line)],
       acknowledged := m.acknowledged + [line.value], phase := Idle)
  }

  lemma RespondsReachably(c: Setup, m: Machine)
    requires Reachable(c, m) && m.phase.Decided? && m.phase.decision.effect != DENY && m.phase.line.Some?
    ensures Reachable(c, Responded(c, m))
  {
    Responds(c, m);
    ReachableStep(c, m, Save(true));
    ReachableStep(c, m.(phase := Saved(m.phase.req, m.phase.decision, m.phase.line)), Respond);
  }

  lemma {:induction false} ServeMany(c: Setup, req: Request, m: Machine, base: nat, more: nat, starts: nat) returns (m': Machine)
    requires Own(c, req).effect != DENY && more < c.groupSize
    requires Reachable(c, m) && Unsynchronized(m, req.now, base, base, starts)
    ensures Reachable(c, m') && Unsynchronized(m', req.now, base + more, base, starts)
  {
    m' := m;
    if more > 0 {
      m' := ServeMany(c, req, m, base, more - 1, starts);
      m' := ServeOne(c, req, m', base + more - 1, base, starts);
    }
  }

  lemma RestartsEmpty(c: Setup, m: Machine, now: nat)
    requires m.phase == Stopped && m.disk.None? && m.clock <= now
    ensures Step(c, m, Restart(now)) ==
            Some(m.(log := Log(m.log.lines, m.log.durable, |m.log.lines|, 0, 0), cache := map[],
                    starts := m.starts + 1, phase := Idle, clock := now))
  {
  }

  /** A process that ends without its last synchronization, and the next one. */
  lemma NextProcess(c: Setup, m: Machine, now: nat, n: nat, base: nat, starts: nat) returns (m': Machine)
    requires Reachable(c, m) && Unsynchronized(m, now, n, base, starts)
    ensures Reachable(c, m') && Unsynchronized(m', now, n, n, starts + 1)
  {
    ReachableStep(c, m, Exit);
    RestartsEmpty(c, m.(phase := Stopped), now);
    ReachableStep(c, m.(phase := Stopped), Restart(now));
    m' := Step(c, m.(phase := Stopped), Restart(now)).value;
  }

  lemma FirstProcess(c: Setup, now: nat) returns (m': Machine)
    ensures Reachable(c, m') && Unsynchronized(m', now, 0, 0, 1)
  {
    assert Run(c, FRESH, []) == Some(FRESH);
    RestartsEmpty(c, FRESH, now);
    ReachableStep(c, FRESH, Restart(now));
    m' := Step(c, FRESH, Restart(now)).value;
  }

  lemma {:induction false} ServeByMany(c: Setup, req: Request, each: nat, processes: nat) returns (m: Machine, base: nat)
    requires Own(c, req).effect != DENY && each < c.groupSize && processes > 0
    ensures base + each == each * processes
    ensures Reachable(c, m) && Unsynchronized(m, req.now, base + each, base, processes)
  {
    if processes == 1 {
      base := 0;
      m := FirstProcess(c, req.now);
    } else {
      m, base := ServeByMany(c, req, each, processes - 1);
      m := NextProcess(c, m, req.now, base + each, base, processes - 1);
      base := base + each;
      assert each * (processes - 1) + each == each * processes;
    }
    m := ServeMany(c, req, m, base, each, processes);
  }

  function Below(n: nat): (s: set<nat>)
    ensures |s| == n && forall x: nat :: x in s <==> x < n
  {
    if n == 0 then {} else Below(n - 1) + {n - 1}
  }

  lemma AllAtRisk(m: Machine, now: nat, n: nat, base: nat, starts: nat)
    requires Unsynchronized(m, now, n, base, starts)
    ensures |AtRisk(m)| == n
  {
    forall line | line in Below(n) ensures line in AtRisk(m) {
      assert m.acknowledged[line] == line;
    }
    assert AtRisk(m) == Below(n);
  }

  /** `processes` processes in a row that are not synchronized can leave `lost` acknowledged lines at risk. */
  ghost predicate CanLose(c: Setup, processes: nat, lost: int) {
    exists m :: Reachable(c, m) && m.starts == processes && |AtRisk(m)| == lost
  }

  /** The bound is met for every number of processes: each acknowledges up to a group less one of a
      request that is not denied, and ends without its last synchronization. */
  lemma BoundIsMet(c: Setup, req: Request, each: nat, processes: nat)
    requires Own(c, req).effect != DENY && each <= c.groupSize - 1 && processes > 0
    ensures CanLose(c, processes, each * processes)
  {
    var m, base := ServeByMany(c, req, each, processes);
    AllAtRisk(m, req.now, base + each, base, processes);
    Loses(c, m);
  }

  lemma Loses(c: Setup, m: Machine)
    requires Reachable(c, m)
    ensures CanLose(c, m.starts, |AtRisk(m)|)
  {
  }

  const ACCENTED := Subject(1, "\U{e9}", 1, "x", None, None, None, None)

  const ACCENTED_EVENT := SecurityEvent("1.0", "evt:a", 1, "", "host:a", ProcessNamespace(ACCENTED), ACCENTED, FileOpen,
                                        Resource("f", map[]), Allowed, "p", [], Bpf)

  lemma AccentedNamespace()
    ensures var ns := ProcessNamespace(ACCENTED); |ns| == 13 && ns[8] == ACCENTED.bootId[0] && ByteLen(ns) <= 512
    ensures |ACCENTED.bootId| == 1 && ByteLen(ACCENTED.bootId) <= 128
  {
    var front := "process:" + ACCENTED.bootId;
    assert |front| == 9 && front[8] == ACCENTED.bootId[0];
    assert |Decimal(1)| == 1;
    assert ProcessNamespace(ACCENTED) == front + ([':'] + Decimal(1) + [':'] + Decimal(1));
    ByteLenEmpty(ProcessNamespace(ACCENTED));
    ByteLenEmpty(ACCENTED.bootId);
  }

  lemma AccentedIds()
    ensures ValidSegmentedId("evt:a", "evt:", 128) && ValidPrefixedId("host:a", "host:", 160)
    ensures ByteLen("x") == 1 && ByteLen("f") == 1 && ByteLen("p") == 1
  {
    ByteLenAscii("evt:a");
    ByteLenAscii("host:a");
    ByteLenAscii("x");
    ByteLenAscii("f");
    ByteLenAscii("p");
  }

  /** Valid events with unportable namespaces exist: the contract asks of a boot id only that it be
      short and not empty. */
  lemma AccentedEventIsValid()
    ensures ValidEvent(ACCENTED_EVENT) && !Portable(ACCENTED_EVENT.namespaceId)
  {
    AccentedNamespace();
    AccentedIds();
  }
}
