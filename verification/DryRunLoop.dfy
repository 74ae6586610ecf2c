/** The dry-run process as the objects its loop updates. Serving one request is a run of the
    machine's steps, so each prefix of it is a point at which a crash can come. */
module DryRunLoop {
  import opened Wrappers
  import opened Contracts
  import opened Gate3Policy
  import opened Gate3Cache
  import opened Gate3Audit
  import opened DryRun

  lemma {:induction false} RunConcat(c: Setup, m: Machine, run: seq<Action>, more: seq<Action>)
    requires Run(c, m, run).Some?
    ensures Run(c, m, run + more) == Run(c, Run(c, m, run).value, more)
    decreases |run|
  {
    if run == [] {
      assert run + more == more;
    } else {
      assert (run + more)[1..] == run[1..] + more;
      RunConcat(c, Step(c, m, run[0]).value, run[1..], more);
    }
  }

  lemma RunTwo(c: Setup, m: Machine, a: Action, b: Action)
    requires Step(c, m, a).Some?
    ensures Run(c, m, [a, b]) == Step(c, Step(c, m, a).value, b)
  {
    var m1 := Step(c, m, a).value;
    assert [a, b][1..] == [b] && [b][1..] == [];
    assert Run(c, m1, [b]) == Step(c, m1, b);
  }

  lemma RunSingle(c: Setup, m: Machine, a: Action)
    requires Step(c, m, a).Some?
    ensures Run(c, m, [a]) == Step(c, m, a)
  {
    assert [a][1..] == [];
  }

  /** The last two steps of an iteration: save a denial, respond. */
  lemma SavedAndResponded(c: Setup, m: Machine, saves: bool)
    requires m.phase.Decided? && (m.phase.decision.effect == DENY ==> saves)
    ensures var Decided(req, decision, line) := m.phase;
            Run(c, m, [Save(saves), Respond]) ==
            Some(m.(disk := if decision.effect == DENY then Some(m.cache) else m.disk,
                    responses := m.responses + [Response(decision, KeyOf(c, req.event), req.now, line)],
                    acknowledged := m.acknowledged + (if line.Some? then [line.value] else []),
                    phase := Idle))
  {
    RunTwo(c, m, Save(saves), Respond);
  }

  class DryRunProcess {
    const audit: Gate3AuditLog
    const cache: CompiledDecisionCache
    var file: Option<Snapshot>
    var responses: seq<Response>
    var running: bool
    ghost var saved: Option<Entries>
    ghost var acknowledged: seq<nat>
    ghost var starts: nat
    ghost var clock: nat

    /** Start on the files a former process left: the audit file and, if there is one, the cache file.
        A start that cannot load its cache file does not run; otherwise it is the machine's restart. */
    constructor (c: Setup, lines: seq<Line>, durable: nat, ghost saved: Option<Entries>, file: Option<Snapshot>,
                 responses: seq<Response>, ghost acknowledged: seq<nat>, ghost starts: nat, now: nat)
      requires c.secret != "" && 1 <= c.groupSize <= MAX_GROUP && durable <= |lines|
      requires file == if saved.Some? then Some(DiskFile(c, saved.value)) else None
      ensures Valid(c) && fresh(audit) && fresh(cache)
      ensures running <==> LoadDisk(c, saved, now).Ok?
      ensures running ==>
                forall stopped: Machine ::
                  && stopped.log.lines == lines && stopped.log.durable == durable && stopped.disk == saved
                  && stopped.responses == responses && stopped.acknowledged == acknowledged && stopped.starts == starts
                  && stopped.phase == Stopped && stopped.clock <= now ==>
                    Step(c, stopped, Restart(now)) == Some(View(Idle))
    {
      var newAudit := new Gate3AuditLog(lines, durable, c.groupSize);
      var newCache := new CompiledDecisionCache();
      audit, cache := newAudit, newCache;
      this.file, this.responses, this.running := file, responses, true;
      this.saved, this.acknowledged, this.starts, this.clock := saved, acknowledged, starts + 1, now;
      new;
      if file.Some? {
        var loaded := cache.LoadAuthenticated(c.hmac, file.value, c.profile.policyRevision, c.secret, now);
        running := loaded.Ok?;
      }
    }

    ghost predicate Valid(c: Setup)
      reads this, audit, cache
    {
      && audit.groupSize == c.groupSize
      && file == (if saved.Some? then Some(DiskFile(c, saved.value)) else None)
      && c.secret != ""
    }

    ghost function View(phase: Phase): Machine
      reads this, audit, cache
    {
      Machine(audit.View(), cache.entries, saved, responses, acknowledged, starts, phase, clock)
    }

    /** Evaluate and audit; `durable` is what the audit says of the line. */
    method EvaluateAndAudit(c: Setup, req: Request, writes: bool, syncs: bool, ghost before: Machine)
      returns (decision: PolicyDecision, durable: Option<bool>, ghost steps: seq<Action>)
      requires Valid(c) && before == View(Idle) && req.now >= clock
      modifies audit, this`clock, this`starts
      ensures Valid(c)
      ensures Run(c, before, steps) ==
              Some(View(if durable.Some? then Audited(req, durable.value) else Decided(req, decision, None)))
      ensures decision == if durable.Some? then Own(c, req) else Instead(c, req, "AUDIT_PERSISTENCE_UNAVAILABLE")
      ensures durable.Some? ==> audit.lines != []
    {
      decision := Evaluate(c.digests, req.event, req.state, c.profile);
      RunSingle(c, before, Take(req, writes));
      RunTwo(c, before, Take(req, writes), Sync(syncs));
      var appended := audit.Append(Line(decision, req), writes, syncs);
      clock := req.now;
      if appended.Err? {
        durable := None;
        decision := decision.(effect := ABSTAIN, reasonCodes := ["AUDIT_PERSISTENCE_UNAVAILABLE"], failClosed := true);
        steps := if writes then [Take(req, writes), Sync(syncs)] else [Take(req, writes)];
      } else {
        durable := Some(appended.value);
        starts := if appended.value then 1 else starts;
        steps := [Take(req, writes), Sync(syncs)];
      }
    }

    /** Compile a durable denial into the cache. */
    method CompileIntoCache(c: Setup, req: Request, own: PolicyDecision, durable: bool, ghost before: Machine)
      returns (decision: PolicyDecision, line: Option<nat>)
      requires Valid(c) && before == View(Audited(req, durable)) && own == Own(c, req) && audit.lines != []
      modifies cache
      ensures Valid(c)
      ensures Step(c, before, CompileAndPut) == Some(View(Decided(req, decision, line)))
    {
      decision, line := own, Some(|audit.lines| - 1);
      if own.effect == DENY && !durable {
        return own.(effect := ABSTAIN, reasonCodes := ["DENY_AUDIT_NOT_DURABLE"], failClosed := true), None;
      }
      var compiled := Compile(c.digests, req.event, own, c.profile, req.now);
      if compiled.Some? {
        var accepted := cache.Put(compiled.value, c.profile.policyRevision);
        if !accepted {
          return own.(effect := ABSTAIN, reasonCodes := ["CACHE_COMPILATION_FAILED"], failClosed := true), None;
        }
      }
    }

    /** Rewrite the cache file for a denial, then respond. A failed save ends the process. */
    method SaveAndRespond(c: Setup, req: Request, decision: PolicyDecision, line: Option<nat>, saves: bool)
      returns (ghost steps: seq<Action>)
      requires Valid(c) && running
      modifies this
      ensures Valid(c) && clock == old(clock)
      ensures Run(c, old(View(Decided(req, decision, line))), steps) == Some(View(if running then Idle else Stopped))
      ensures if running then responses == old(responses) + [Response(decision, KeyOf(c, req.event), req.now, line)]
              else responses == old(responses) && !saves && decision.effect == DENY
    {
      ghost var before := View(Decided(req, decision, line));
      if decision.effect == DENY {
        if !saves {
          running := false;
          steps := [Save(saves)];
          RunSingle(c, before, Save(saves));
          return;
        }
        var snapshot := cache.SaveAuthenticated(c.hmac, c.profile.policyRevision, c.secret);
        file := Some(snapshot.value);
        saved := Some(cache.entries);
      }
      responses := responses + [Response(decision, KeyOf(c, req.event), req.now, line)];
      acknowledged := acknowledged + (if line.Some? then [line.value] else []);
      steps := [Save(saves), Respond];
      SavedAndResponded(c, before, saves);
    }

    /** One iteration of the loop. The flags say which file operations succeed. */
    method Serve(c: Setup, req: Request, writes: bool, syncs: bool, saves: bool)
      returns (ghost steps: seq<Action>)
      requires Valid(c) && running && req.now >= clock
      modifies this, audit, cache
      ensures Valid(c)
      ensures Run(c, old(View(Idle)), steps) == Some(View(if running then Idle else Stopped))
      ensures running ==> |responses| == |old(responses)| + 1 && responses[..|old(responses)|] == old(responses)
      ensures !running ==> responses == old(responses) && !saves
    {
      ghost var before := View(Idle);
      var decision, durable, done := EvaluateAndAudit(c, req, writes, syncs, before);
      var line: Option<nat> := None;
      if durable.Some? {
        ghost var audited := View(Audited(req, durable.value));
        decision, line := CompileIntoCache(c, req, decision, durable.value, audited);
        RunSingle(c, audited, CompileAndPut);
        RunConcat(c, before, done, [CompileAndPut]);
        done := done + [CompileAndPut];
      }
      ghost var last := SaveAndRespond(c, req, decision, line, saves);
      RunConcat(c, before, done, last);
      steps := done + last;
    }
  }
}
