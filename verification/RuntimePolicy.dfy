/** The Gate 4 reader of Gate 3 cache snapshots: authentication, reload and decision. */
module RuntimePolicy {
  import opened Wrappers
  import opened Text
  import opened Contracts
  import opened Gate3Policy
  import opened JsonText
  import opened Gate3Cache

  predicate Enforceable(e: CompiledDecision, revision: string) {
    e.effect == DENY && e.policyRevision == revision && e.stateRevision >= 1
  }

  /** `authenticated_entries`: all entries or none. The reader writes the document again itself. */
  function AuthenticatedEntries(hmac: Hmac, s: Snapshot, secret: string, revision: string)
    : Result<seq<CompiledDecision>>
  {
    if s.formatVersion != 1 then Err("CACHE_FORMAT_UNSUPPORTED")
    else if s.policyRevision != revision then Err("CACHE_REVISION_MISMATCH")
    else if s.mac != hmac(secret, Write(Python, Payload(revision, s.entries))) then Err("CACHE_AUTHENTICATION_FAILED")
    else if exists i :: 0 <= i < |s.entries| && !Enforceable(s.entries[i], revision) then Err("CACHE_DECISION_INVALID")
    else Ok(s.entries)
  }

  predicate Active(e: CompiledDecision, namespaceId: string, now: nat) {
    e.namespaceId == namespaceId && e.expiresEpoch > now
  }

  predicate Newer(a: CompiledDecision, b: CompiledDecision) {
    a.stateRevision > b.stateRevision || (a.stateRevision == b.stateRevision && a.expiresEpoch > b.expiresEpoch)
  }

  /** The first of the newest active entries, as Python's `max` picks it. */
  function Newest(entries: seq<CompiledDecision>, namespaceId: string, now: nat): Option<CompiledDecision> {
    if entries == [] then None
    else
      var best := Newest(entries[..|entries| - 1], namespaceId, now);
      var last := entries[|entries| - 1];
      if Active(last, namespaceId, now) && (best.None? || Newer(last, best.value)) then Some(last) else best
  }

  /** Entry `k` is for the namespace and not expired. */
  predicate ActiveAt(entries: seq<CompiledDecision>, namespaceId: string, now: nat, k: int) {
    0 <= k < |entries| && entries[k].namespaceId == namespaceId && now < entries[k].expiresEpoch
  }

  /** Entry `k` is the first active one with the greatest state revision and, among those, the latest expiry. */
  ghost predicate FirstGreatest(entries: seq<CompiledDecision>, namespaceId: string, now: nat, k: int) {
    && ActiveAt(entries, namespaceId, now, k)
    && (forall i :: ActiveAt(entries, namespaceId, now, i) ==> entries[i].stateRevision <= entries[k].stateRevision)
    && (forall i :: ActiveAt(entries, namespaceId, now, i) && entries[i].stateRevision == entries[k].stateRevision ==>
          entries[i].expiresEpoch <= entries[k].expiresEpoch)
    && forall i :: ActiveAt(entries, namespaceId, now, i) && i < k ==>
         entries[i].stateRevision != entries[k].stateRevision || entries[i].expiresEpoch != entries[k].expiresEpoch
  }

  lemma {:induction false} NewestIsMaximal(entries: seq<CompiledDecision>, namespaceId: string, now: nat)
    ensures var best := Newest(entries, namespaceId, now);
            && (best.None? <==> forall i :: !ActiveAt(entries, namespaceId, now, i))
            && (best.Some? ==> exists k :: FirstGreatest(entries, namespaceId, now, k) && entries[k] == best.value)
  {
    if entries != [] {
      var n := |entries| - 1;
      var init, best := entries[..n], Newest(entries, namespaceId, now);
      NewestIsMaximal(init, namespaceId, now);
      assert forall i :: i != n ==> (ActiveAt(entries, namespaceId, now, i) <==> ActiveAt(init, namespaceId, now, i));
      if best.Some? {
        NewestStep(entries, namespaceId, now, n);
      }
    }
  }

  lemma NewestStep(entries: seq<CompiledDecision>, namespaceId: string, now: nat, n: nat)
    requires |entries| == n + 1 && Newest(entries, namespaceId, now).Some?
    requires var before := Newest(entries[..n], namespaceId, now);
             && (before.None? <==> forall i :: !ActiveAt(entries[..n], namespaceId, now, i))
             && (before.Some? ==> exists k :: FirstGreatest(entries[..n], namespaceId, now, k) && entries[..n][k] == before.value)
    ensures exists k :: FirstGreatest(entries, namespaceId, now, k) && entries[k] == Newest(entries, namespaceId, now).value
  {
    var init, best := entries[..n], Newest(entries, namespaceId, now).value;
    var before := Newest(init, namespaceId, now);
    assert forall i :: i != n ==> (ActiveAt(entries, namespaceId, now, i) <==> ActiveAt(init, namespaceId, now, i));
    assert forall i :: 0 <= i < n ==> init[i] == entries[i];
    if ActiveAt(entries, namespaceId, now, n) && (before.None? || Newer(entries[n], before.value)) {
      assert FirstGreatest(entries, namespaceId, now, n);
    } else {
      var k :| FirstGreatest(init, namespaceId, now, k) && init[k] == before.value;
      assert FirstGreatest(entries, namespaceId, now, k);
    }
  }

  datatype Judgement = Judgement(denied: bool, operation: Option<Operation>, decisionId: Option<string>)

  function Judged(entries: seq<CompiledDecision>, namespaceId: string, now: nat): Judgement {
    var best := Newest(entries, namespaceId, now);
    if best.None? then Judgement(false, None, None)
    else Judgement(true, Some(best.value.operation), Some(best.value.decisionId))
  }

  // ---------------------------------------------------------------- reload

  type Fingerprint = (int, int)

  predicate IsByteSpace(c: char) { c == ' ' || 9 <= c as int <= 13 }

  predicate Spaces(s: string) { forall i :: 0 <= i < |s| ==> IsByteSpace(s[i]) }

  predicate Trimmed(s: string) { s != [] ==> !IsByteSpace(s[0]) && !IsByteSpace(s[|s| - 1]) }

  function StripEnd(s: string): string {
    if s != [] && IsByteSpace(s[|s| - 1]) then StripEnd(s[..|s| - 1]) else s
  }

  /** `bytes.strip` without arguments. */
  function Strip(s: string): string {
    if s != [] && IsByteSpace(s[0]) then Strip(s[1..]) else StripEnd(s)
  }

  lemma {:induction false} StripEndMeans(x: string, after: string)
    requires Trimmed(x) && Spaces(after)
    ensures StripEnd(x + after) == x
  {
    if after == [] {
      assert x + after == x;
    } else {
      var init := after[..|after| - 1];
      assert (x + after)[..|x + after| - 1] == x + init;
      StripEndMeans(x, init);
    }
  }

  /** A key surrounded by spaces is the key. */
  lemma {:induction false} StripMeans(before: string, x: string, after: string)
    requires Spaces(before) && Trimmed(x) && Spaces(after)
    ensures Strip(before + x + after) == x
  {
    if before != [] {
      assert (before + x + after)[1..] == before[1..] + x + after;
      StripMeans(before[1..], x, after);
    } else {
      assert before + x + after == x + after;
      if x != [] {
        StripEndMeans(x, after);
      } else if after != [] {
        assert (x + after)[1..] == [] + [] + after[1..];
        StripMeans([], [], after[1..]);
      }
    }
  }

  /** What one reload sees: the file's status, the raw key file, and the parsed file; none or an error
      where the operating system or the parser fails. */
  datatype Files = Files(status: Option<Fingerprint>, key: Option<string>, content: Result<Snapshot>)

  datatype Held = Held(entries: Option<seq<CompiledDecision>>, fingerprint: Option<Fingerprint>, reason: string)

  function Fetch(hmac: Hmac, files: Files, revision: string): Result<seq<CompiledDecision>> {
    if files.key.None? then Err("key file unavailable")
    else if ByteLen(Strip(files.key.value)) < 32 then Err("CACHE_KEY_INVALID")
    else if files.content.Err? then Err(files.content.error)
    else AuthenticatedEntries(hmac, files.content.value, Strip(files.key.value), revision)
  }

  /** The state after a reload, and whether it loaded something; an error is a raised exception. */
  function Reloaded(hmac: Hmac, held: Held, files: Files, revision: string, required: bool): (Held, Result<bool>) {
    if files.status.Some? && files.status == held.fingerprint && held.entries.Some? then (held, Ok(false))
    else
      var fetched := if files.status.None? then Err("cache file unavailable") else Fetch(hmac, files, revision);
      match fetched
      case Ok(entries) => (Held(Some(entries), files.status, "CACHE_AUTHENTICATED"), Ok(true))
      case Err(reason) =>
        (held.(reason := reason), if required || held.entries.None? then Err(reason) else Ok(false))
  }

  /** A decision reloads first, and it must load if nothing is held. It then judges the entries held,
      which a failed reload of an already loaded policy leaves as they were. */
  function Decision(hmac: Hmac, held: Held, files: Files, revision: string, namespaceId: string, now: nat)
    : (Held, Result<Judgement>)
  {
    var (after, reload) := Reloaded(hmac, held, files, revision, held.entries.None?);
    (after, if reload.Err? then Err(reload.error) else Ok(Judged(after.entries.value, namespaceId, now)))
  }

  class Gate3RuntimePolicy {
    const revision: string
    var entries: Option<seq<CompiledDecision>>
    var fingerprint: Option<Fingerprint>
    var lastReloadReason: string

    constructor (revision: string)
      ensures this.revision == revision && View() == Held(None, None, "NOT_LOADED")
    {
      this.revision := revision;
      entries, fingerprint, lastReloadReason := None, None, "NOT_LOADED";
    }

    ghost function View(): Held
      reads this
    {
      Held(entries, fingerprint, lastReloadReason)
    }

    method Reload(hmac: Hmac, files: Files, required: bool) returns (r: Result<bool>)
      modifies this
      ensures (View(), r) == Reloaded(hmac, old(View()), files, revision, required)
    {
      if files.status.Some? && files.status == fingerprint && entries.Some? {
        return Ok(false);
      }
      var fetched := if files.status.None? then Err("cache file unavailable") else Fetch(hmac, files, revision);
      if fetched.Err? {
        lastReloadReason := fetched.error;
        if required || entries.None? {
          return Err(lastReloadReason);
        }
        return Ok(false);
      }
      entries, fingerprint, lastReloadReason := Some(fetched.value), files.status, "CACHE_AUTHENTICATED";
      r := Ok(true);
    }

    method Decide(hmac: Hmac, files: Files, namespaceId: string, now: nat) returns (r: Result<Judgement>)
      modifies this
      ensures (View(), r) == Decision(hmac, old(View()), files, revision, namespaceId, now)
    {
      var reload := Reload(hmac, files, entries.None?);
      if reload.Err? {
        return Err(reload.error);
      }
      var best: Option<CompiledDecision> := None;
      var list := entries.value;
      for i := 0 to |list|
        invariant best == Newest(list[..i], namespaceId, now)
      {
        assert list[..i + 1][..i] == list[..i];
        if Active(list[i], namespaceId, now) && (best.None? || Newer(list[i], best.value)) {
          best := Some(list[i]);
        }
      }
      assert list[..|list|] == list;
      r := Ok(if best.None? then Judgement(false, None, None)
              else Judgement(true, Some(best.value.operation), Some(best.value.decisionId)));
    }
  }

  /** Reloading is all or nothing: the entries afterwards are the old ones, or a complete
      authenticated snapshot whose every entry is an enforceable denial of this revision. */
  lemma ReloadNeverPartial(hmac: Hmac, held: Held, files: Files, revision: string, required: bool)
    ensures var (after, r) := Reloaded(hmac, held, files, revision, required);
            if r == Ok(true) then
              && files.content.Ok? && files.key.Some? && after.entries == Some(files.content.value.entries)
              && files.content.value.policyRevision == revision
              && forall e :: e in after.entries.value ==> Enforceable(e, revision)
            else after.entries == held.entries && after.fingerprint == held.fingerprint
  {
    var fetched := if files.status.None? then Err("cache file unavailable") else Fetch(hmac, files, revision);
    if fetched.Ok? {
      var s := files.content.value;
      forall e | e in s.entries ensures Enforceable(e, revision) {
        var i :| 0 <= i < |s.entries| && s.entries[i] == e;
      }
    }
  }

  // ---------------------------------------------------------------- which snapshots the reader accepts

  /** The shape of every compiled decision. */
  predicate WellFormed(e: CompiledDecision) {
    && !e.operation.OtherOperation? && e.effect == DENY && e.stateRevision >= 1
    && IsDigest(e.resourceDigest) && IsDigest(e.evidenceDigest)
    && e.cacheKey == CacheKey(e.namespaceId, e.operation, e.resourceDigest)
    && HasPrefix(e.decisionId, "dec:") && IsDigest(e.decisionId[4..])
  }

  lemma CompiledIsWellFormed(d: Digests, e: SecurityEvent, s: SecurityStateSummary, p: Profile, now: nat)
    requires d.Shaped()
    ensures var compiled := Compile(d, e, Evaluate(d, e, s, p), p, now);
            compiled.Some? ==> WellFormed(compiled.value)
  {
    var decision := Evaluate(d, e, s, p);
    DenyCompiles(d, e, s, p, now);
    if decision.effect == DENY {
      DenyMeansChecked(e, s, p);
      var payload := e.eventId + ['\0'] + e.namespaceId + ['\0'] + Decimal(s.stateRevision) + ['\0'] + p.policyRevision;
      assert IsDigest(d.identity(payload));
      assert decision.decisionId[4..] == d.identity(payload);
      assert IsDigest(d.resource(e.resource)) && IsDigest(d.evidence(decision.evidenceIds));
    }
  }

  lemma PortableAppend(a: string, b: string)
    ensures Portable(a + b) <==> Portable(a) && Portable(b)
  {
    if Portable(a + b) {
      assert forall i :: 0 <= i < |a| ==> a[i] == (a + b)[i];
      assert forall i :: 0 <= i < |b| ==> b[i] == (a + b)[|a| + i];
    }
  }

  lemma DocAppend(a: seq<Token>, b: seq<Token>)
    ensures PortableDoc(a + b) <==> PortableDoc(a) && PortableDoc(b)
  {
    if PortableDoc(a + b) {
      assert forall i :: 0 <= i < |a| ==> a[i] == (a + b)[i];
      assert forall i :: 0 <= i < |b| ==> b[i] == (a + b)[|a| + i];
    }
  }

  lemma DigestPortable(s: string)
    requires IsDigest(s)
    ensures Portable(s)
  {
  }

  lemma NamesPortable(op: Operation, effect: Effect)
    requires !op.OtherOperation? && effect == DENY
    ensures Portable(OperationName(op)) && Portable(EffectName(effect))
  {
  }

  lemma DecisionIdPortable(id: string)
    requires HasPrefix(id, "dec:") && IsDigest(id[4..])
    ensures Portable(id)
  {
    DigestPortable(id[4..]);
    assert id == "dec:" + id[4..];
    PortableAppend("dec:", id[4..]);
  }

  lemma CacheKeyPortable(namespaceId: string, op: Operation, digest: string)
    requires !op.OtherOperation? && IsDigest(digest)
    ensures Portable(CacheKey(namespaceId, op, digest)) <==> Portable(namespaceId)
  {
    var name := OperationName(op);
    NamesPortable(op, DENY);
    DigestPortable(digest);
    PortableAppend(namespaceId + ['|'] + name + ['|'], digest);
    PortableAppend(namespaceId + ['|'] + name, ['|']);
    PortableAppend(namespaceId + ['|'], name);
    PortableAppend(namespaceId, ['|']);
  }

  lemma EntryStringsPortable(e: CompiledDecision)
    requires WellFormed(e)
    ensures Portable(e.cacheKey) <==> Portable(e.namespaceId)
    ensures Portable(e.decisionId) && Portable(OperationName(e.operation))
    ensures Portable(e.resourceDigest) && Portable(e.evidenceDigest) && Portable(EffectName(e.effect))
  {
    DigestPortable(e.resourceDigest);
    DigestPortable(e.evidenceDigest);
    DecisionIdPortable(e.decisionId);
    NamesPortable(e.operation, e.effect);
    CacheKeyPortable(e.namespaceId, e.operation, e.resourceDigest);
  }

  lemma EntryDocPortable(e: CompiledDecision)
    requires WellFormed(e)
    ensures PortableDoc(EntryDoc(e)) <==> Portable(e.namespaceId) && Portable(e.policyRevision)
  {
    EntryStringsPortable(e);
    FieldsPortable(Fields(e));
    DocAppend(FieldsTokens(Fields(e)), [Literal("}")]);
    PortableFieldsAre(e);
  }

  predicate PortableFields(fs: seq<Field>) { forall i :: 0 <= i < |fs| && fs[i].TextField? ==> Portable(fs[i].text) }

  lemma {:induction false} FieldsPortable(fs: seq<Field>)
    ensures PortableDoc(FieldsTokens(fs)) <==> PortableFields(fs)
  {
    if fs != [] {
      FieldsPortable(fs[1..]);
      DocAppend(FieldTokens(fs[0]), FieldsTokens(fs[1..]));
      assert PortableDoc(FieldTokens(fs[0])) <==> (fs[0].TextField? ==> Portable(fs[0].text)) by {
        assert fs[0].TextField? ==> FieldTokens(fs[0])[1] == Str(fs[0].text);
      }
      assert forall i :: 1 <= i < |fs| ==> fs[i] == fs[1..][i - 1];
      assert forall i :: 0 <= i < |fs[1..]| ==> fs[1..][i] == fs[i + 1];
    }
  }

  lemma PortableFieldsAre(e: CompiledDecision)
    ensures PortableFields(Fields(e)) <==>
            && Portable(e.cacheKey) && Portable(e.decisionId) && Portable(e.namespaceId) && Portable(OperationName(e.operation))
            && Portable(e.resourceDigest) && Portable(EffectName(e.effect)) && Portable(e.policyRevision) && Portable(e.evidenceDigest)
  {
    var fs := Fields(e);
    if PortableFields(fs) {
      assert fs[0].TextField? && fs[1].TextField? && fs[2].TextField? && fs[3].TextField?;
      assert fs[4].TextField? && fs[5].TextField? && fs[6].TextField? && fs[8].TextField?;
    }
  }

  lemma {:induction false} EntryDocsPortable(entries: seq<CompiledDecision>)
    requires forall i :: 0 <= i < |entries| ==> WellFormed(entries[i])
    ensures PortableDoc(EntryDocs(entries)) <==>
            forall i :: 0 <= i < |entries| ==> Portable(entries[i].namespaceId) && Portable(entries[i].policyRevision)
  {
    if entries != [] {
      var comma := if |entries| > 1 then [Literal(",")] else [];
      var rest := entries[1..];
      EntryDocPortable(entries[0]);
      EntryDocsPortable(rest);
      DocAppend(EntryDoc(entries[0]) + comma, EntryDocs(rest));
      DocAppend(EntryDoc(entries[0]), comma);
      assert forall i :: 0 <= i < |rest| ==> rest[i] == entries[i + 1];
      assert forall i :: 1 <= i < |entries| ==> entries[i] == rest[i - 1];
    }
  }

  lemma PayloadPortable(revision: string, entries: seq<CompiledDecision>)
    requires forall i :: 0 <= i < |entries| ==> WellFormed(entries[i]) && entries[i].policyRevision == revision
    ensures PortableDoc(Payload(revision, entries)) <==>
            Portable(revision) && forall i :: 0 <= i < |entries| ==> Portable(entries[i].namespaceId)
  {
    var head := [Literal("[1,"), Str(revision), Literal(",[")];
    EntryDocsPortable(entries);
    DocAppend(head + EntryDocs(entries), [Literal("]]")]);
    DocAppend(head, EntryDocs(entries));
    assert PortableDoc(head) <==> Portable(revision) by {
      assert head[1] == Str(revision);
    }
  }

  /** The codes tell two documents under two secrets apart. */
  predicate Distinguishes(hmac: Hmac, secret: string, a: string, key: string, b: string) {
    hmac(secret, a) == hmac(key, b) ==> secret == key && a == b
  }

  /** Whatever lies in the file, the reader accepts it, whole, iff it is a snapshot for its revision, carries the code
      of what the reader itself writes for these entries, and holds denials of this revision only. */
  lemma ReaderAcceptsIff(hmac: Hmac, s: Snapshot, secret: string, revision: string)
    ensures var r := AuthenticatedEntries(hmac, s, secret, revision);
            && (r.Ok? <==>
                  && s.formatVersion == 1 && s.policyRevision == revision
                  && s.mac == hmac(secret, Write(Python, Payload(revision, s.entries)))
                  && forall e :: e in s.entries ==> e.effect == DENY && e.policyRevision == revision && e.stateRevision >= 1)
            && (r.Ok? ==> r.value == s.entries)
  {
    var r := AuthenticatedEntries(hmac, s, secret, revision);
    if r.Ok? {
      forall e | e in s.entries ensures Enforceable(e, revision) {
        var i :| 0 <= i < |s.entries| && s.entries[i] == e;
      }
    }
  }

  /** What the writer signed is what the reader accepts, with the same entries, exactly when it reads
      with the writer's secret and revision, and the revision and all namespaces stay below the tilde:
      beyond it the two JSON writers differ, and the reader rejects the whole snapshot. */
  lemma ReaderAcceptsIffPortable(hmac: Hmac, revision: string, entries: seq<CompiledDecision>, secret: string,
                                 key: string, expected: string)
    requires forall i :: 0 <= i < |entries| ==> WellFormed(entries[i]) && entries[i].policyRevision == revision
    requires var p := Payload(revision, entries); Distinguishes(hmac, secret, Write(Serde, p), key, Write(Python, p))
    ensures var r := AuthenticatedEntries(hmac, Sign(hmac, revision, entries, secret), key, expected);
            var portable := Portable(revision) && forall i :: 0 <= i < |entries| ==> Portable(entries[i].namespaceId);
            r == if expected != revision then Err("CACHE_REVISION_MISMATCH")
                 else if key == secret && portable then Ok(entries) else Err("CACHE_AUTHENTICATION_FAILED")
  {
    PayloadPortable(revision, entries);
    WritersAgreeIffPortable(Payload(revision, entries));
  }
}
