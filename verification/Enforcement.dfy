/** The dry-run machine and a guardian that reloads the cache file the machine writes: what a decision
    of the guardian rests on, and which denials it enforces. */
module Enforcement {
  import opened Wrappers
  import opened Text
  import opened Contracts
  import opened Gate3Policy
  import opened Gate3Cache
  import opened Gate3Audit
  import opened JsonText
  import opened RuntimePolicy
  import opened DryRun

  /** `loaded` is how many responses were written when the guardian last loaded the cache file. */
  datatype Service = Service(machine: Machine, held: Held, loaded: nat)

  /** What the guardian's system shows it at one reload: the status of the cache file, the raw key file,
      and whether the cache file can be read. The content is the file's current one. */
  datatype Sight = Sight(status: Option<Fingerprint>, key: Option<string>, readable: bool)

  datatype Event = Dry(action: Action) | Reload(sight: Sight, required: bool) | Reboot

  const NOT_LOADED := Held(None, None, "NOT_LOADED")

  const START := Service(FRESH, NOT_LOADED, 0)

  ghost function FilesNow(c: Setup, m: Machine, sight: Sight): Files {
    Files(sight.status, sight.key,
          if sight.readable && m.disk.Some? then Ok(DiskFile(c, m.disk.value)) else Err("cache file unavailable"))
  }

  /** `revision` is the guardian's, which may differ from the writer's. */
  ghost function Next(c: Setup, revision: string, s: Service, e: Event): Option<Service> {
    match e
    case Dry(action) =>
      var m := Step(c, s.machine, action);
      if m.None? then None else Some(s.(machine := m.value))
    case Reload(sight, required) =>
      var (held, r) := Reloaded(c.hmac, s.held, FilesNow(c, s.machine, sight), revision, required);
      Some(Service(s.machine, held, if r == Ok(true) then |s.machine.responses| else s.loaded))
    case Reboot => Some(Service(s.machine, NOT_LOADED, 0))
  }

  ghost function After(c: Setup, revision: string, s: Service, events: seq<Event>): Option<Service>
    decreases |events|
  {
    if events == [] then Some(s)
    else
      var next := Next(c, revision, s, events[0]);
      if next.None? then None else After(c, revision, next.value, events[1..])
  }

  ghost predicate Arises(c: Setup, revision: string, s: Service) {
    exists events :: After(c, revision, START, events) == Some(s)
  }

  // ---------------------------------------------------------------- the guardian's part of the invariant

  /** Whatever is held rests on durable denials: also a snapshot that the file no longer agrees with. */
  ghost predicate HeldBacked(c: Setup, log: Log, held: Held) {
    held.entries.Some? ==> ListBacked(c, log, held.entries.value)
  }

  ghost predicate ListBacked(c: Setup, log: Log, list: seq<CompiledDecision>) {
    forall i :: 0 <= i < |list| ==> Backed(c, log, list[i])
  }

  predicate Outlasts(c: Setup, r: Response, e: CompiledDecision) {
    e.namespaceId == r.decision.namespaceId && e.expiresEpoch >= Expiry(r.now, c.profile.ttlSeconds)
  }

  predicate Enforced(c: Setup, r: Response, list: seq<CompiledDecision>) {
    exists i :: 0 <= i < |list| && Outlasts(c, r, list[i])
  }

  predicate Live(c: Setup, r: Response, now: nat) {
    r.decision.effect == DENY && now < Expiry(r.now, c.profile.ttlSeconds)
  }

  /** What was loaded still enforces the live denials that had been responded by then. */
  ghost predicate HeldCovers(c: Setup, s: Service) {
    && s.loaded <= |s.machine.responses|
    && forall i :: 0 <= i < s.loaded && Live(c, s.machine.responses[i], s.machine.clock) ==>
         s.held.entries.Some? && Enforced(c, s.machine.responses[i], s.held.entries.value)
  }

  ghost predicate ServiceInv(c: Setup, s: Service) {
    Inv(c, s.machine) && HeldBacked(c, s.machine.log, s.held) && HeldCovers(c, s)
  }

  lemma HeldGrows(c: Setup, log: Log, log': Log, held: Held)
    requires LogGrows(log, log') && HeldBacked(c, log, held)
    ensures HeldBacked(c, log', held)
  {
    if held.entries.Some? {
      forall i | 0 <= i < |held.entries.value| ensures Backed(c, log', held.entries.value[i]) {
        BackedGrows(c, log, log', held.entries.value[i]);
      }
    }
  }

  lemma CoverGrows(c: Setup, s: Service, m: Machine)
    requires HeldCovers(c, s) && s.machine.responses <= m.responses && s.machine.clock <= m.clock
    ensures HeldCovers(c, s.(machine := m))
  {
    forall i | 0 <= i < s.loaded && Live(c, m.responses[i], m.clock)
      ensures s.held.entries.Some? && Enforced(c, m.responses[i], s.held.entries.value)
    {
      assert s.machine.responses[i] == m.responses[i];
    }
  }

  lemma DryKeeps(c: Setup, s: Service, action: Action)
    requires c.Valid() && ServiceInv(c, s) && Step(c, s.machine, action).Some?
    ensures ServiceInv(c, s.(machine := Step(c, s.machine, action).value))
  {
    var m := Step(c, s.machine, action).value;
    StepKeeps(c, s.machine, action);
    StepGrows(c, s.machine, action);
    HeldGrows(c, s.machine.log, m.log, s.held);
    CoverGrows(c, s, m);
  }

  lemma FileSelfKeyed(c: Setup, log: Log, entries: Entries)
    requires EntriesGood(c, log, entries)
    ensures SelfKeyed(entries) && ListBacked(c, log, Ordered(entries))
  {
    OrderedEnumerates(entries);
    forall i | 0 <= i < |Ordered(entries)| ensures Backed(c, log, Ordered(entries)[i]) {
      assert Ordered(entries)[i].cacheKey in entries;
    }
  }

  lemma CoverInList(c: Setup, entries: Entries, r: Response)
    requires SelfKeyed(entries) && Covers(c, entries, r.cacheKey, r.decision.namespaceId, r.now)
    ensures Enforced(c, r, Ordered(entries))
  {
    OrderedEnumerates(entries);
    var list := Ordered(entries);
    var j :| 0 <= j < |list| && list[j] == entries[r.cacheKey];
    assert Outlasts(c, r, list[j]);
  }

  /** The current file enforces all live denials ever responded. */
  lemma FileCovers(c: Setup, m: Machine, i: nat)
    requires Inv(c, m) && i < |m.responses| && Live(c, m.responses[i], m.clock)
    ensures m.disk.Some? && Enforced(c, m.responses[i], Ordered(m.disk.value))
  {
    var r := m.responses[i];
    assert Covers(c, m.disk.value, r.cacheKey, r.decision.namespaceId, r.now);
    FileSelfKeyed(c, m.log, m.disk.value);
    CoverInList(c, m.disk.value, r);
  }

  /** A reload holds what it held before, or the current file's entries. */
  lemma ReloadShape(c: Setup, revision: string, s: Service, sight: Sight, required: bool)
    ensures var (held, r) := Reloaded(c.hmac, s.held, FilesNow(c, s.machine, sight), revision, required);
            if r == Ok(true) then
              s.machine.disk.Some? && held.entries == Some(Ordered(s.machine.disk.value)) && held.fingerprint == sight.status
            else held.entries == s.held.entries && held.fingerprint == s.held.fingerprint
  {
    ReloadNeverPartial(c.hmac, s.held, FilesNow(c, s.machine, sight), revision, required);
  }

  lemma LoadKeeps(c: Setup, s: Service, held: Held)
    requires Inv(c, s.machine) && s.machine.disk.Some? && held.entries == Some(Ordered(s.machine.disk.value))
    ensures ServiceInv(c, Service(s.machine, held, |s.machine.responses|))
  {
    FileSelfKeyed(c, s.machine.log, s.machine.disk.value);
    forall i | 0 <= i < |s.machine.responses| && Live(c, s.machine.responses[i], s.machine.clock)
      ensures Enforced(c, s.machine.responses[i], held.entries.value)
    {
      FileCovers(c, s.machine, i);
    }
  }

  lemma ReloadKeeps(c: Setup, revision: string, s: Service, sight: Sight, required: bool)
    requires ServiceInv(c, s)
    ensures ServiceInv(c, Next(c, revision, s, Reload(sight, required)).value)
  {
    ReloadShape(c, revision, s, sight, required);
    var (held, r) := Reloaded(c.hmac, s.held, FilesNow(c, s.machine, sight), revision, required);
    if r == Ok(true) {
      LoadKeeps(c, s, held);
    } else {
      assert HeldBacked(c, s.machine.log, held) && HeldCovers(c, s.(held := held));
    }
  }

  lemma NextKeeps(c: Setup, revision: string, s: Service, e: Event)
    requires c.Valid() && ServiceInv(c, s) && Next(c, revision, s, e).Some?
    ensures ServiceInv(c, Next(c, revision, s, e).value)
  {
    match e
    case Dry(action) => DryKeeps(c, s, action);
    case Reload(sight, required) => ReloadKeeps(c, revision, s, sight, required);
    case Reboot =>
  }

  lemma {:induction false} AfterKeeps(c: Setup, revision: string, s: Service, events: seq<Event>)
    requires c.Valid() && ServiceInv(c, s) && After(c, revision, s, events).Some?
    ensures ServiceInv(c, After(c, revision, s, events).value)
    decreases |events|
  {
    if events != [] {
      NextKeeps(c, revision, s, events[0]);
      AfterKeeps(c, revision, Next(c, revision, s, events[0]).value, events[1..]);
    }
  }

  /** In every run of machine and guardian, with crashes, restarts, failed and skipped reloads anywhere. */
  lemma ArisingInv(c: Setup, revision: string, s: Service)
    requires c.Valid() && Arises(c, revision, s)
    ensures ServiceInv(c, s)
  {
    var events :| After(c, revision, START, events) == Some(s);
    assert Inv(c, FRESH) && ServiceInv(c, START);
    AfterKeeps(c, revision, START, events);
  }

  // ---------------------------------------------------------------- when a reload loads

  /** Read anew: there is a file, and it is not the one that is held already. */
  predicate FreshSight(held: Held, sight: Sight) {
    sight.status.Some? && !(held.entries.Some? && sight.status == held.fingerprint)
  }

  /** A condition on the revision and the namespaces: every boot id stays below the tilde. */
  ghost predicate PortableEntries(c: Setup, entries: Entries) {
    Portable(c.profile.policyRevision) && forall k :: k in entries ==> Portable(entries[k].namespaceId)
  }

  ghost function FileText(c: Setup, entries: Entries, w: Writer): string {
    Write(w, Payload(c.profile.policyRevision, Ordered(entries)))
  }

  lemma ListPortable(c: Setup, entries: Entries)
    requires SelfKeyed(entries)
    ensures PortableEntries(c, entries) <==>
            Portable(c.profile.policyRevision) && forall i :: 0 <= i < |Ordered(entries)| ==> Portable(Ordered(entries)[i].namespaceId)
  {
    var list := Ordered(entries);
    OrderedEnumerates(entries);
    forall k | k in entries && !Portable(entries[k].namespaceId) ensures exists i :: 0 <= i < |list| && !Portable(list[i].namespaceId) {
      assert entries[k] in list;
      var i :| 0 <= i < |list| && list[i] == entries[k];
      assert !Portable(list[i].namespaceId);
    }
  }

  lemma FileIsWellFormed(c: Setup, log: Log, entries: Entries)
    requires EntriesGood(c, log, entries)
    ensures SelfKeyed(entries)
    ensures forall i :: 0 <= i < |Ordered(entries)| ==>
              WellFormed(Ordered(entries)[i]) && Ordered(entries)[i].policyRevision == c.profile.policyRevision
  {
    var list := Ordered(entries);
    OrderedEnumerates(entries);
    forall i | 0 <= i < |list| ensures WellFormed(list[i]) && list[i].policyRevision == c.profile.policyRevision {
      assert list[i].cacheKey in entries;
    }
  }

  /** Which file of the machine a reader with this key and revision accepts. */
  lemma FileAcceptedIff(c: Setup, log: Log, entries: Entries, key: string, revision: string)
    requires EntriesGood(c, log, entries)
    requires Distinguishes(c.hmac, c.secret, FileText(c, entries, Serde), key, FileText(c, entries, Python))
    ensures var r := AuthenticatedEntries(c.hmac, DiskFile(c, entries), key, revision);
            && (r.Ok? <==> revision == c.profile.policyRevision && key == c.secret && PortableEntries(c, entries))
            && (r.Ok? ==> r.value == Ordered(entries))
  {
    FileIsWellFormed(c, log, entries);
    ListPortable(c, entries);
    ReaderAcceptsIffPortable(c.hmac, c.profile.policyRevision, Ordered(entries), c.secret, key, revision);
  }

  /** What a caller can check before a reload of the current file. */
  ghost predicate WillLoad(c: Setup, revision: string, entries: Entries, sight: Sight) {
    && sight.readable && sight.key.Some? && Strip(sight.key.value) == c.secret && ByteLen(c.secret) >= 32
    && revision == c.profile.policyRevision && PortableEntries(c, entries)
  }

  /** The exact condition: a reload of the current file, when the file is read anew, loads exactly if it
      can be read, revisions agree, the stripped key is the writer's secret and has 32 bytes, and all
      texts are portable. It then holds the entries the machine last saved. */
  lemma GuardianLoads(c: Setup, revision: string, s: Service, sight: Sight, required: bool)
    requires c.Valid() && Arises(c, revision, s) && s.machine.disk.Some? && FreshSight(s.held, sight)
    requires sight.key.Some? ==>
               var entries := s.machine.disk.value;
               Distinguishes(c.hmac, c.secret, FileText(c, entries, Serde), Strip(sight.key.value), FileText(c, entries, Python))
    ensures var (held, r) := Reloaded(c.hmac, s.held, FilesNow(c, s.machine, sight), revision, required);
            && (r == Ok(true) <==> WillLoad(c, revision, s.machine.disk.value, sight))
            && (r == Ok(true) ==> held.entries == Some(Ordered(s.machine.disk.value)) && held.fingerprint == sight.status)
            && (r != Ok(true) ==> held.entries == s.held.entries && (r.Err? <==> required || s.held.entries.None?))
  {
    ArisingInv(c, revision, s);
    ReloadShape(c, revision, s, sight, required);
    if sight.key.Some? {
      FileAcceptedIff(c, s.machine.log, s.machine.disk.value, Strip(sight.key.value), revision);
    }
  }

  // ---------------------------------------------------------------- what a decision rests on

  /** `e` is held, active for the namespace and newest so, and rests on the durable audited denial in
      `line`, which names that namespace and is younger than its time to live. */
  ghost predicate Cited(c: Setup, log: Log, list: seq<CompiledDecision>, namespaceId: string, now: nat,
                        line: nat, e: CompiledDecision)
  {
    && line < log.durable <= |log.lines| && Backs(c, log.lines[line], e)
    && log.lines[line].decision.namespaceId == namespaceId && now < log.lines[line].req.now + c.profile.ttlSeconds
    && exists k :: FirstGreatest(list, namespaceId, now, k) && list[k] == e
  }

  lemma JudgedIsCited(c: Setup, log: Log, list: seq<CompiledDecision>, namespaceId: string, now: nat)
    requires LogValid(log) && ListBacked(c, log, list) && Judged(list, namespaceId, now).denied
    ensures exists line, e :: Cited(c, log, list, namespaceId, now, line, e) &&
                              Judged(list, namespaceId, now) == Judgement(true, Some(e.operation), Some(e.decisionId))
  {
    NewestIsMaximal(list, namespaceId, now);
    var e := Newest(list, namespaceId, now).value;
    var j :| FirstGreatest(list, namespaceId, now, j) && list[j] == e;
    assert Backed(c, log, list[j]);
    var line :| 0 <= line < log.durable && line < |log.lines| && Backs(c, log.lines[line], e);
    assert Cited(c, log, list, namespaceId, now, line, e);
  }

  lemma DecisionShape(c: Setup, revision: string, s: Service, sight: Sight, namespaceId: string, now: nat)
    ensures var files := FilesNow(c, s.machine, sight);
            var required := s.held.entries.None?;
            var (held, r) := Decision(c.hmac, s.held, files, revision, namespaceId, now);
            var next := Next(c, revision, s, Reload(sight, required)).value;
            && held == next.held && s.machine == next.machine
            && (r.Ok? <==> Reloaded(c.hmac, s.held, files, revision, required).1.Ok?)
            && (r.Ok? ==> held.entries.Some? && r == Ok(Judged(held.entries.value, namespaceId, now)))
  {
  }

  /** In every reachable state, whatever the guardian holds and whatever the reload does: each denial it
      decides cites a durably audited denial for that very namespace, younger than its time to live,
      and no active entry that it holds for the namespace is newer. */
  lemma EnforcedDenialIsAudited(c: Setup, revision: string, s: Service, sight: Sight, namespaceId: string, now: nat)
    requires c.Valid() && Arises(c, revision, s)
    ensures var (held, r) := Decision(c.hmac, s.held, FilesNow(c, s.machine, sight), revision, namespaceId, now);
            r.Ok? && r.value.denied ==>
              && held.entries.Some?
              && exists line, e :: Cited(c, s.machine.log, held.entries.value, namespaceId, now, line, e) &&
                                   r.value == Judgement(true, Some(e.operation), Some(e.decisionId))
  {
    ArisingInv(c, revision, s);
    ReloadKeeps(c, revision, s, sight, s.held.entries.None?);
    DecisionShape(c, revision, s, sight, namespaceId, now);
    var (held, r) := Decision(c.hmac, s.held, FilesNow(c, s.machine, sight), revision, namespaceId, now);
    if r.Ok? && r.value.denied {
      JudgedIsCited(c, s.machine.log, held.entries.value, namespaceId, now);
    }
  }

  // ---------------------------------------------------------------- which denials are enforced

  lemma EnforcedIsDenied(c: Setup, r: Response, list: seq<CompiledDecision>, now: nat)
    requires Enforced(c, r, list) && Live(c, r, now)
    ensures Judged(list, r.decision.namespaceId, now).denied
  {
    NewestIsMaximal(list, r.decision.namespaceId, now);
    var i :| 0 <= i < |list| && Outlasts(c, r, list[i]);
    assert ActiveAt(list, r.decision.namespaceId, now, i);
  }

  /** After a successful load, in whatever state follows, each denial responded before it is denied by
      every decision until its time to live is over: also if later files cannot be loaded. A decision
      whose own reload loads denies all live ones. In every other case it judges the snapshot it had. */
  lemma RespondedDenialIsEnforced(c: Setup, revision: string, s: Service, sight: Sight, i: nat, now: nat)
    requires c.Valid() && Arises(c, revision, s) && i < |s.machine.responses|
    requires s.machine.clock <= now && Live(c, s.machine.responses[i], now)
    ensures var files := FilesNow(c, s.machine, sight);
            var loads := Reloaded(c.hmac, s.held, files, revision, s.held.entries.None?).1 == Ok(true);
            var namespaceId := s.machine.responses[i].decision.namespaceId;
            var r := Decision(c.hmac, s.held, files, revision, namespaceId, now).1;
            && (loads || i < s.loaded ==> r.Ok? && r.value.denied)
            && (!loads ==> (r.Ok? <==> s.held.entries.Some?)
                           && (r.Ok? ==> r.value == Judged(s.held.entries.value, namespaceId, now)))
  {
    ArisingInv(c, revision, s);
    var r := s.machine.responses[i];
    ReloadShape(c, revision, s, sight, s.held.entries.None?);
    DecisionShape(c, revision, s, sight, r.decision.namespaceId, now);
    FileCovers(c, s.machine, i);
    EnforcedIsDenied(c, r, Ordered(s.machine.disk.value), now);
    if i < s.loaded {
      EnforcedIsDenied(c, r, s.held.entries.value, now);
    }
  }

  // ---------------------------------------------------------------- a denial that is not seen

  lemma {:induction false} AfterJoins(c: Setup, revision: string, s: Service, events: seq<Event>, e: Event)
    requires After(c, revision, s, events).Some? && Next(c, revision, After(c, revision, s, events).value, e).Some?
    ensures After(c, revision, s, events + [e]) == Next(c, revision, After(c, revision, s, events).value, e)
    decreases |events|
  {
    if events == [] {
      assert [e][1..] == [];
      assert events + [e] == [e];
    } else {
      assert (events + [e])[1..] == events[1..] + [e];
      AfterJoins(c, revision, Next(c, revision, s, events[0]).value, events[1..], e);
    }
  }

  lemma ArisesDry(c: Setup, revision: string, s: Service, m: Machine, action: Action)
    requires Arises(c, revision, s.(machine := m)) && Step(c, m, action).Some?
    ensures Arises(c, revision, s.(machine := Step(c, m, action).value))
  {
    var events :| After(c, revision, START, events) == Some(s.(machine := m));
    AfterJoins(c, revision, START, events, Dry(action));
  }

  lemma {:induction false} MachineRuns(c: Setup, revision: string, s: Service, events: seq<Event>)
    requires Reachable(c, s.machine) && After(c, revision, s, events).Some?
    ensures Reachable(c, After(c, revision, s, events).value.machine)
    decreases |events|
  {
    if events != [] {
      var next := Next(c, revision, s, events[0]).value;
      if events[0].Dry? {
        ReachableStep(c, s.machine, events[0].action);
      }
      MachineRuns(c, revision, next, events[1..]);
    }
  }

  lemma MachineReachable(c: Setup, revision: string, s: Service)
    requires Arises(c, revision, s)
    ensures Reachable(c, s.machine)
  {
    var events :| After(c, revision, START, events) == Some(s);
    assert Run(c, FRESH, []) == Some(FRESH);
    MachineRuns(c, revision, START, events);
  }

  lemma SyncsDenial(c: Setup, m: Machine)
    requires m.phase.Written? && Own(c, m.phase.req).effect == DENY
    ensures Step(c, m, Sync(true)) == Some(m.(log := Synced(m.log), starts := 1, phase := Audited(m.phase.req, true)))
  {
  }

  lemma RespondsDenial(c: Setup, m: Machine)
    requires m.phase.Decided? && m.phase.decision.effect == DENY
    ensures var Decided(req, decision, line) := m.phase;
            var saved := m.(disk := Some(m.cache), phase := Saved(req, decision, line));
            && Step(c, m, Save(true)) == Some(saved) && Step(c, saved, Respond).Some?
            && var m' := Step(c, saved, Respond).value;
               && m'.responses == m.responses + [Response(decision, KeyOf(c, req.event), req.now, line)]
               && m'.clock == m.clock && m'.phase == Idle
  {
  }

  /** Serving a request that is denied up to the response, while the guardian does nothing. */
  lemma DenyOne(c: Setup, revision: string, s: Service, req: Request) returns (m: Machine)
    requires c.Valid() && Arises(c, revision, s) && s.machine.phase == Idle && s.machine.clock <= req.now
    requires Own(c, req).effect == DENY
    ensures Arises(c, revision, s.(machine := m)) && m.clock == req.now && |m.responses| == |s.machine.responses| + 1
    ensures var r := m.responses[|s.machine.responses|]; r.decision == Own(c, req) && r.now == req.now
  {
    m := s.machine;
    Takes(c, m, req);
    ArisesDry(c, revision, s, m, Take(req, true));
    m := Step(c, m, Take(req, true)).value;
    SyncsDenial(c, m);
    ArisesDry(c, revision, s, m, Sync(true));
    m := Step(c, m, Sync(true)).value;
    MachineReachable(c, revision, s.(machine := m));
    CompilationNeverAbstains(c, m);
    CompileShape(c, m);
    ArisesDry(c, revision, s, m, CompileAndPut);
    m := Step(c, m, CompileAndPut).value;
    RespondsDenial(c, m);
    ArisesDry(c, revision, s, m, Save(true));
    m := m.(disk := Some(m.cache), phase := Saved(req, Own(c, req), m.phase.line));
    ArisesDry(c, revision, s, m, Respond);
    m := Step(c, m, Respond).value;
  }

  /** A later response denies the namespace now, and the guardian, shown the fingerprint it holds, does not. */
  ghost predicate Missed(c: Setup, revision: string, s: Service, namespaceId: string, now: nat) {
    && (exists i :: 0 <= i < |s.machine.responses| && Live(c, s.machine.responses[i], now)
                    && s.machine.responses[i].decision.namespaceId == namespaceId)
    && forall sight: Sight :: sight.status.Some? && sight.status == s.held.fingerprint ==>
         Decision(c.hmac, s.held, FilesNow(c, s.machine, sight), revision, namespaceId, now) ==
         (s.held, Ok(Judgement(false, None, None)))
  }

  /** An unchanged fingerprint is trusted without reading: whenever the guardian holds a snapshot without
      an active entry for a namespace that is then denied, it misses that denial for as long as the new
      file shows the old modification time and size. */
  lemma UnchangedFingerprintMisses(c: Setup, revision: string, s: Service, req: Request)
    requires c.Valid() && Arises(c, revision, s) && s.machine.phase == Idle && s.machine.clock <= req.now
    requires Own(c, req).effect == DENY && req.now < Expiry(req.now, c.profile.ttlSeconds)
    requires s.held.entries.Some? && !Judged(s.held.entries.value, Own(c, req).namespaceId, req.now).denied
    ensures exists s' :: Arises(c, revision, s') && s'.held == s.held && Missed(c, revision, s', Own(c, req).namespaceId, req.now)
  {
    var m := DenyOne(c, revision, s, req);
    var namespaceId := Own(c, req).namespaceId;
    var s' := s.(machine := m);
    var i := |s.machine.responses|;
    assert Live(c, m.responses[i], req.now);
    forall sight: Sight | sight.status.Some? && sight.status == s.held.fingerprint
      ensures Decision(c.hmac, s.held, FilesNow(c, m, sight), revision, namespaceId, req.now) ==
              (s.held, Ok(Judgement(false, None, None)))
    {
    }
    assert Missed(c, revision, s', namespaceId, req.now);
  }
}
