/** The append-only decision audit with grouped synchronization. */
module Gate3Audit {
  import opened Wrappers
  import opened Contracts

  datatype Request = Request(event: SecurityEvent, state: SecurityStateSummary, now: nat)

  /** One audited decision, which is what the file holds, and the request that it was evaluated for. */
  datatype Line = Line(decision: PolicyDecision, req: Request)

  /** The audit file and the counters of the process that has it open. The first `durable` lines
      survive a crash; `base` is how many lines there were when the process opened the file. */
  datatype Log = Log(lines: seq<Line>, durable: nat, base: nat, pending: nat, syncCount: nat)

  const MAX_GROUP: nat := 65536

  predicate MustSync(log: Log, groupSize: nat, effect: Effect) {
    effect == DENY || log.pending >= groupSize
  }

  function Appended(log: Log, line: Line): Log {
    log.(lines := log.lines + [line], pending := log.pending + 1)
  }

  function Synced(log: Log): Log {
    if log.pending == 0 then log
    else log.(durable := |log.lines|, pending := 0, syncCount := log.syncCount + 1)
  }

  predicate LogValid(log: Log) {
    && log.durable <= |log.lines| && log.base <= |log.lines|
    && log.pending == |log.lines| - Floor(log)
  }

  /** Lines from here on were appended by this process and are not durable. */
  function Floor(log: Log): nat { if log.durable < log.base then log.base else log.durable }

  class Gate3AuditLog {
    const groupSize: nat
    var lines: seq<Line>
    var durable: nat
    ghost const base: nat
    var pendingUnsynced: nat
    var syncCount: nat

    ghost function View(): Log
      reads this
    {
      Log(lines, durable, base, pendingUnsynced, syncCount)
    }

    /** Open an existing file; the caller has checked the group size. */
    constructor (lines: seq<Line>, durable: nat, groupSize: nat)
      requires 1 <= groupSize <= MAX_GROUP && durable <= |lines|
      ensures this.groupSize == groupSize && View() == Log(lines, durable, |lines|, 0, 0)
      ensures LogValid(View())
    {
      this.groupSize := groupSize;
      this.lines, this.durable := lines, durable;
      this.base := |lines|;
      this.pendingUnsynced, this.syncCount := 0, 0;
    }

    /** Write one line and synchronize if it is a denial or the group is full. `writes` and `syncs`
        say whether the file system takes the write and the synchronization. */
    method Append(line: Line, writes: bool, syncs: bool) returns (r: Result<bool>)
      modifies this
      ensures var written := Appended(old(View()), line);
              var must := MustSync(written, groupSize, line.decision.effect);
              && View() == (if !writes then old(View()) else if must && syncs then Synced(written) else written)
              && r.Ok? == (writes && (must ==> syncs))
              && (r.Ok? ==> r.value == must)
    {
      if !writes {
        return Err("audit write failed");
      }
      lines := lines + [line];
      pendingUnsynced := pendingUnsynced + 1;
      var must := line.decision.effect == DENY || pendingUnsynced >= groupSize;
      if must {
        var done := Sync(syncs);
        if !done {
          return Err("audit sync failed");
        }
      }
      r := Ok(must);
    }

    method Sync(syncs: bool) returns (done: bool)
      modifies this
      ensures done <==> syncs || old(pendingUnsynced) == 0
      ensures View() == if syncs then Synced(old(View())) else old(View())
    {
      if pendingUnsynced == 0 {
        return true;
      }
      if !syncs {
        return false;
      }
      durable := |lines|;
      pendingUnsynced := 0;
      syncCount := syncCount + 1;
      done := true;
    }
  }
}
