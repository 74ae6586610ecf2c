/** The stateful proxy with a checksummed snapshot written after every accepted event. */
module PersistentEngine {
  import opened Wrappers
  import opened BenchmarkEngines

  const FORMAT_VERSION: int := 1
  const ENGINE_FINGERPRINT := "sha256:stateful-proxy-v1"

  datatype Body = Body(format: int, engine: string, configuration: string, namespaces: ProxyStates)

  datatype Document = Document(body: Body, checksum: string)

  type Checksum = Body -> string

  function Snapshot(sum: Checksum, configuration: string, states: ProxyStates): Document {
    var body := Body(FORMAT_VERSION, ENGINE_FINGERPRINT, configuration, states);
    Document(body, sum(body))
  }

  /** `_restore`: every mismatch rejects the whole snapshot. */
  function Restore(sum: Checksum, configuration: string, doc: Document): Result<ProxyStates> {
    if doc.checksum != sum(doc.body) then Err("snapshot checksum mismatch")
    else if doc.body.format != FORMAT_VERSION then Err("unsupported snapshot format")
    else if doc.body.engine != ENGINE_FINGERPRINT then Err("engine fingerprint mismatch")
    else if doc.body.configuration != configuration then Err("configuration fingerprint mismatch")
    else Ok(doc.body.namespaces)
  }

  datatype Store = Store(states: ProxyStates, file: Option<Document>)

  /** What happens to an engine: an event, with whether its checkpoint can be written, or a restart. */
  datatype Op = Apply(event: Event, checkpoints: bool) | Restart

  predicate Raises(s: Store, op: Op) {
    op.Apply? && ProxyDecision(s.states, op.event).effect != ABSTAIN && !op.checkpoints
  }

  function Next(sum: Checksum, configuration: string, s: Store, op: Op): Store {
    match op
    case Restart =>
      if s.file.None? then s.(states := map[])
      else
        var restored := Restore(sum, configuration, s.file.value);
        s.(states := if restored.Ok? then restored.value else map[])
    case Apply(e, checkpoints) =>
      var states := ProxyUpdate(s.states, e);
      if ProxyDecision(s.states, e).effect == ABSTAIN then s.(states := states)
      else if checkpoints then Store(states, Some(Snapshot(sum, configuration, states)))
      else s
  }

  class PersistentStatefulProxy {
    const configuration: string
    const engine: StatefulProxyEngine
    var file: Option<Document>

    ghost function View(): Store
      reads this, engine
    {
      Store(engine.states, file)
    }

    /** Construct over an existing file, if there is one. */
    constructor (sum: Checksum, configuration: string, file: Option<Document>)
      requires file.Some? ==> Restore(sum, configuration, file.value).Ok?
      ensures fresh(engine) && this.configuration == configuration
      ensures forall before: ProxyStates :: View() == Next(sum, configuration, Store(before, file), Restart)
    {
      var inner := new StatefulProxyEngine();
      engine := inner;
      this.configuration, this.file := configuration, file;
      new;
      if file.Some? {
        engine.states := Restore(sum, configuration, file.value).value;
      }
    }

    method Checkpoint(sum: Checksum, writes: bool) returns (done: bool)
      modifies this`file
      ensures done == writes
      ensures file == if writes then Some(Snapshot(sum, configuration, engine.states)) else old(file)
    {
      done := writes;
      if writes {
        file := Some(Snapshot(sum, configuration, engine.states));
      }
    }

    /** An accepted event whose checkpoint fails raises and leaves memory and file as they were. */
    method Update(sum: Checksum, e: Event, checkpoints: bool) returns (r: Result<Decision>)
      modifies this, engine
      ensures View() == Next(sum, configuration, old(View()), Apply(e, checkpoints))
      ensures r.Err? <==> Raises(old(View()), Apply(e, checkpoints))
      ensures r.Ok? ==> r.value == ProxyDecision(old(View()).states, e)
    {
      var previous := engine.states;
      var decision := engine.Update(e);
      if decision.effect != ABSTAIN {
        var done := Checkpoint(sum, checkpoints);
        if !done {
          engine.states := previous;
          return Err("checkpoint failed");
        }
      }
      r := Ok(decision);
    }
  }

  // ---------------------------------------------------------------- runs

  const EMPTY := Store(map[], None)

  function After(sum: Checksum, configuration: string, ops: seq<Op>): Store {
    if ops == [] then EMPTY
    else Next(sum, configuration, After(sum, configuration, ops[..|ops| - 1]), ops[|ops| - 1])
  }

  /** The events that were applied without raising. */
  function Applied(sum: Checksum, configuration: string, ops: seq<Op>): seq<Event> {
    if ops == [] then []
    else
      var init, op := ops[..|ops| - 1], ops[|ops| - 1];
      Applied(sum, configuration, init)
      + if op.Restart? || Raises(After(sum, configuration, init), op) then [] else [op.event]
  }

  /** The decisions that the persistent engine returned. */
  function Returned(sum: Checksum, configuration: string, ops: seq<Op>): seq<Decision> {
    if ops == [] then []
    else
      var init, op := ops[..|ops| - 1], ops[|ops| - 1];
      var before := After(sum, configuration, init);
      Returned(sum, configuration, init)
      + if op.Restart? || Raises(before, op) then [] else [ProxyDecision(before.states, op.event)]
  }

  /** Equal up to default entries. */
  ghost predicate Same(a: ProxyStates, b: ProxyStates) {
    forall ns :: Get(a, ns, NO_STATE) == Get(b, ns, NO_STATE)
  }

  ghost predicate FileAgrees(sum: Checksum, configuration: string, s: Store) {
    if s.file.None? then Same(s.states, map[])
    else
      var restored := Restore(sum, configuration, s.file.value);
      restored.Ok? && Same(restored.value, s.states)
  }

  lemma UpdateRespectsSame(a: ProxyStates, b: ProxyStates, e: Event)
    requires Same(a, b)
    ensures Same(ProxyUpdate(a, e), ProxyUpdate(b, e)) && ProxyDecision(a, e) == ProxyDecision(b, e)
  {
    forall ns ensures Get(ProxyUpdate(a, e), ns, NO_STATE) == Get(ProxyUpdate(b, e), ns, NO_STATE) {
      assert Get(a, ns, NO_STATE) == Get(b, ns, NO_STATE);
      assert Get(a, e.namespaceId, NO_STATE) == Get(b, e.namespaceId, NO_STATE);
    }
    assert Get(a, e.namespaceId, NO_STATE) == Get(b, e.namespaceId, NO_STATE);
  }

  lemma GapKeepsStates(states: ProxyStates, e: Event)
    requires ProxyDecision(states, e).effect == ABSTAIN
    ensures Same(ProxyUpdate(states, e), states)
  {
  }

  /** Restart transparency: with restarts and failed checkpoints anywhere, the persistent engine has
      returned exactly the decisions of one uninterrupted engine over the applied events; its memory is
      that engine's up to default entries, and so is what a restart now would restore. */
  lemma {:induction false} RestartsAreTransparent(sum: Checksum, configuration: string, ops: seq<Op>)
    ensures var s := After(sum, configuration, ops);
            var events := Applied(sum, configuration, ops);
            && Returned(sum, configuration, ops) == Decisions(events)
            && Same(s.states, StatesAfter(events))
            && FileAgrees(sum, configuration, s)
            && Same(Next(sum, configuration, s, Restart).states, s.states)
  {
    if ops != [] {
      var init, op := ops[..|ops| - 1], ops[|ops| - 1];
      RestartsAreTransparent(sum, configuration, init);
      var before := After(sum, configuration, init);
      var events := Applied(sum, configuration, init);
      if op.Apply? && !Raises(before, op) {
        var e := op.event;
        UpdateRespectsSame(before.states, StatesAfter(events), e);
        assert (events + [e])[..|events|] == events;
        assert Applied(sum, configuration, ops) == events + [e];
        if ProxyDecision(before.states, e).effect == ABSTAIN {
          GapKeepsStates(before.states, e);
        }
      } else {
        assert Applied(sum, configuration, ops) == events;
        assert Returned(sum, configuration, ops) == Returned(sum, configuration, init);
      }
    }
  }

  /** Any change to a snapshot that the checksum notices, or of format, engine or configuration,
      makes the restore fail. */
  lemma ForeignSnapshotsRejected(sum: Checksum, configuration: string, doc: Document)
    ensures Restore(sum, configuration, doc).Ok? <==>
            exists states: ProxyStates :: doc == Snapshot(sum, configuration, states)
  {
    if Restore(sum, configuration, doc).Ok? {
      assert doc == Snapshot(sum, configuration, doc.body.namespaces);
    }
  }
}
