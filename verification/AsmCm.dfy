/** The ASM-CM adapter's per-namespace state under the `security-relevant` policy: a ring of 64 value
    tokens, the evidence by (relation, value), and the last 128 history tokens. The neural prediction
    is an arbitrary function. */
module AsmCm {
  import opened Wrappers

  const NETWORK: int := 2
  const PERSISTENCE: int := 3
  const ADMIN: int := 4
  const VALUE_OFFSET: int := 34
  const VALUE_CAPACITY: int := 64
  const MAX_HISTORY: int := 128

  datatype Operation = FileOpen | NetworkConnect | IdentityChange | Other

  datatype Event = Event(id: string, sequence: int, operation: Operation, labels: set<string>)

  /** Predicted value token for a token history and a queried relation. */
  type Predictor = (seq<int>, int) -> int

  datatype State = State(revision: int, lastSequence: int, nextValue: int,
                         evidence: map<(int, int), string>, tokens: seq<int>)

  const START := State(0, 0, VALUE_OFFSET, map[], [])

  datatype Effect = ALLOW | DENY | ABSTAIN

  datatype Decision = Decision(effect: Effect, reason: string, evidenceIds: seq<string>, stateRevision: int)

  // ---------------------------------------------------------------- what an event is

  function QueryRelation(e: Event): Option<int> {
    if !e.operation.FileOpen? then None
    else if "credential" in e.labels then Some(NETWORK)
    else if "persistence-control" in e.labels then Some(PERSISTENCE)
    else if "admin-control" in e.labels then Some(ADMIN)
    else None
  }

  function TriggerRelation(e: Event): Option<int> {
    if e.operation.NetworkConnect? && "trusted-network" !in e.labels then Some(NETWORK)
    else if e.operation.FileOpen? && "persistence-origin" in e.labels then Some(PERSISTENCE)
    else if e.operation.FileOpen? && "admin-origin" in e.labels then Some(ADMIN)
    else None
  }

  predicate IsSafe(e: Event) {
    || (e.operation.IdentityChange? && "trusted-reset" in e.labels)
    || (e.operation.NetworkConnect? && "trusted-network" in e.labels)
  }

  // ---------------------------------------------------------------- the update

  function NextValue(value: int): int {
    VALUE_OFFSET + (value - VALUE_OFFSET + 1) % VALUE_CAPACITY
  }

  function Remember(tokens: seq<int>, more: seq<int>): seq<int> {
    var all := tokens + more;
    if |all| > MAX_HISTORY then all[|all| - MAX_HISTORY..] else all
  }

  function Absorb(s: State, e: Event): State {
    var s1 := s.(revision := s.revision + 1, lastSequence := e.sequence);
    if TriggerRelation(e).Some? then
      var r := TriggerRelation(e).value;
      s1.(nextValue := NextValue(s.nextValue), evidence := s.evidence[(r, s.nextValue) := e.id],
          tokens := Remember(s.tokens, [r, s.nextValue]))
    else if IsSafe(e) then
      s1.(nextValue := NextValue(s.nextValue), evidence := s.evidence - {(NETWORK, s.nextValue)},
          tokens := Remember(s.tokens, [NETWORK, s.nextValue]))
    else s1
  }

  /** The evidence a query selects: none unless the event only queries, and an empty id counts as none. */
  function Selected(s: State, e: Event, predict: Predictor): Option<string> {
    if TriggerRelation(e).Some? || IsSafe(e) || QueryRelation(e).None? then None
    else
      var key := (QueryRelation(e).value, predict(s.tokens, QueryRelation(e).value));
      if key in s.evidence && s.evidence[key] != "" then Some(s.evidence[key]) else None
  }

  function Decide(s: State, e: Event, predict: Predictor): Decision {
    if e.sequence != s.lastSequence + 1 then Decision(ABSTAIN, "SEQUENCE_GAP", [e.id], s.revision)
    else
      var selected := Selected(s, e, predict);
      if selected.Some? then
        Decision(DENY, "ASM_CM_SELECTED_CAUSAL_EVIDENCE", [selected.value, e.id], s.revision + 1)
      else Decision(ALLOW, "NO_SELECTED_CAUSAL_EVIDENCE", [e.id], s.revision + 1)
  }

  function Next(s: State, e: Event): State {
    if e.sequence != s.lastSequence + 1 then s else Absorb(s, e)
  }

  /** One namespace's record, updated in place. */
  class Namespace {
    var revision: int
    var lastSequence: int
    var nextValue: int
    var evidence: map<(int, int), string>
    var tokens: seq<int>

    ghost function View(): State
      reads this
    {
      State(revision, lastSequence, nextValue, evidence, tokens)
    }

    constructor ()
      ensures View() == START
    {
      revision, lastSequence, nextValue, evidence, tokens := 0, 0, VALUE_OFFSET, map[], [];
    }

    method RememberTokens(more: seq<int>)
      modifies this`tokens
      ensures tokens == Remember(old(tokens), more)
    {
      tokens := tokens + more;
      var overflow := |tokens| - MAX_HISTORY;
      if overflow > 0 {
        tokens := tokens[overflow..];
      }
    }

    /** One update. `checkpoints` says whether the snapshot could be written (or none is configured);
        if not, the update raises and the record is what it was. */
    method Update(e: Event, predict: Predictor, checkpoints: bool) returns (r: Result<Decision>)
      modifies this
      ensures r.Ok? <==> checkpoints || e.sequence != old(lastSequence) + 1
      ensures r.Ok? ==> r.value == Decide(old(View()), e, predict)
      ensures View() == if r.Ok? then Next(old(View()), e) else old(View())
    {
      if e.sequence != lastSequence + 1 {
        return Ok(Decision(ABSTAIN, "SEQUENCE_GAP", [e.id], revision));
      }
      var savedRevision, savedSequence, savedValue := revision, lastSequence, nextValue;
      var savedEvidence, savedTokens := evidence, tokens;
      lastSequence := e.sequence;
      revision := revision + 1;
      var selected: Option<string> := None;
      var query, trigger := QueryRelation(e), TriggerRelation(e);
      if trigger.Some? {
        var value := nextValue;
        nextValue := VALUE_OFFSET + (value - VALUE_OFFSET + 1) % VALUE_CAPACITY;
        evidence := evidence[(trigger.value, value) := e.id];
        RememberTokens([trigger.value, value]);
      } else if IsSafe(e) {
        var value := nextValue;
        nextValue := VALUE_OFFSET + (value - VALUE_OFFSET + 1) % VALUE_CAPACITY;
        evidence := evidence - {(NETWORK, value)};
        RememberTokens([NETWORK, value]);
      } else if query.Some? {
        var predicted := predict(tokens, query.value);
        if (query.value, predicted) in evidence && evidence[(query.value, predicted)] != "" {
          selected := Some(evidence[(query.value, predicted)]);
        }
      }
      if !checkpoints {
        revision, lastSequence, nextValue := savedRevision, savedSequence, savedValue;
        evidence, tokens := savedEvidence, savedTokens;
        return Err("checkpoint failed");
      }
      r := Ok(if selected.Some?
              then Decision(DENY, "ASM_CM_SELECTED_CAUSAL_EVIDENCE", [selected.value, e.id], revision)
              else Decision(ALLOW, "NO_SELECTED_CAUSAL_EVIDENCE", [e.id], revision));
    }
  }

  // ---------------------------------------------------------------- the allocation history

  /** One allocation of a value: its relation, and the triggering event or none for a safe pair. */
  datatype Allocation = Allocation(relation: int, event: Option<string>)

  function AllocationOf(e: Event): seq<Allocation> {
    if TriggerRelation(e).Some? then [Allocation(TriggerRelation(e).value, Some(e.id))]
    else if IsSafe(e) then [Allocation(NETWORK, None)]
    else []
  }

  /** The events of a stream that extend the sequence without a gap. */
  function Accepted(events: seq<Event>): seq<Event> {
    if events == [] then []
    else
      var before := Accepted(events[..|events| - 1]);
      var e := events[|events| - 1];
      if e.sequence == |before| + 1 then before + [e] else before
  }

  /** All allocations of the accepted events, in order and never forgotten. */
  function Allocations(accepted: seq<Event>): seq<Allocation> {
    if accepted == [] then []
    else Allocations(accepted[..|accepted| - 1]) + AllocationOf(accepted[|accepted| - 1])
  }

  function RunState(events: seq<Event>): State {
    if events == [] then START else Next(RunState(events[..|events| - 1]), events[|events| - 1])
  }

  /** The value token of the k-th allocation. */
  function ValueOf(k: nat): int { VALUE_OFFSET + k % VALUE_CAPACITY }

  /** The tokens of the allocations from `from` on. */
  function TokensFrom(a: seq<Allocation>, from: nat): seq<int>
    requires from <= |a|
    decreases |a| - from
  {
    if from == |a| then [] else [a[from].relation, ValueOf(from)] + TokensFrom(a, from + 1)
  }

  function WindowStart(a: seq<Allocation>): nat { if |a| <= VALUE_CAPACITY then 0 else |a| - VALUE_CAPACITY }

  /** The latest allocation of a (relation, value) pair, if any. */
  function Latest(a: seq<Allocation>, relation: int, value: int): Option<nat> {
    if a == [] then None
    else
      var k := |a| - 1;
      if a[k].relation == relation && ValueOf(k) == value then Some(k) else Latest(a[..k], relation, value)
  }

  /** What the evidence map should hold for a pair: the event of the pair's latest allocation. */
  function Evidence(a: seq<Allocation>, relation: int, value: int): Option<string> {
    var k := Latest(a, relation, value);
    if k.Some? && k.value < |a| then a[k.value].event else None
  }

  lemma {:induction false} LatestInRange(a: seq<Allocation>, relation: int, value: int)
    ensures var k := Latest(a, relation, value);
            k.Some? ==> k.value < |a| && a[k.value].relation == relation && ValueOf(k.value) == value
    ensures forall j :: 0 <= j < |a| && a[j].relation == relation && ValueOf(j) == value ==>
              Latest(a, relation, value).Some? && j <= Latest(a, relation, value).value
  {
    if a != [] {
      LatestInRange(a[..|a| - 1], relation, value);
    }
  }

  // ---------------------------------------------------------------- invariant

  ghost predicate Agrees(s: State, accepted: seq<Event>) {
    var a := Allocations(accepted);
    && s.revision == s.lastSequence == |accepted|
    && s.nextValue == ValueOf(|a|)
    && s.tokens == TokensFrom(a, WindowStart(a))
    && EvidenceAgrees(s.evidence, a)
  }

  ghost predicate EvidenceAgrees(evidence: map<(int, int), string>, a: seq<Allocation>) {
    forall r, v :: Evidence(a, r, v) == if (r, v) in evidence then Some(evidence[(r, v)]) else None
  }

  lemma {:induction false} TokensLength(a: seq<Allocation>, from: nat)
    requires from <= |a|
    ensures |TokensFrom(a, from)| == 2 * (|a| - from)
    decreases |a| - from
  {
    if from < |a| {
      TokensLength(a, from + 1);
    }
  }

  lemma {:induction false} TokensAppend(a: seq<Allocation>, x: Allocation, from: nat)
    requires from <= |a|
    ensures TokensFrom(a + [x], from) == TokensFrom(a, from) + [x.relation, ValueOf(|a|)]
    decreases |a| - from
  {
    if from < |a| {
      TokensAppend(a, x, from + 1);
    } else {
      assert TokensFrom(a + [x], from + 1) == [];
    }
  }

  lemma DropsOldest(a: seq<Allocation>, from: nat)
    requires from < |a|
    ensures |TokensFrom(a, from)| >= 2 && TokensFrom(a, from)[2..] == TokensFrom(a, from + 1)
  {
  }

  lemma RememberShort(tokens: seq<int>, more: seq<int>)
    requires |tokens + more| <= MAX_HISTORY
    ensures Remember(tokens, more) == tokens + more
  {
  }

  lemma RememberFull(tokens: seq<int>, more: seq<int>)
    requires |tokens| == MAX_HISTORY && |more| == 2
    ensures Remember(tokens, more) == (tokens + more)[2..]
  {
  }

  lemma WindowGrows(a: seq<Allocation>, x: Allocation)
    requires |a| < VALUE_CAPACITY
    ensures Remember(TokensFrom(a, 0), [x.relation, ValueOf(|a|)]) == TokensFrom(a + [x], 0)
  {
    TokensAppend(a, x, 0);
    TokensLength(a, 0);
    RememberShort(TokensFrom(a, 0), [x.relation, ValueOf(|a|)]);
  }

  lemma WindowSlides(a: seq<Allocation>, x: Allocation, from: nat, next: nat)
    requires |a| >= VALUE_CAPACITY && from == |a| - VALUE_CAPACITY && next == from + 1
    ensures Remember(TokensFrom(a, from), [x.relation, ValueOf(|a|)]) == TokensFrom(a + [x], next)
  {
    TokensAppend(a, x, from);
    TokensLength(a, from);
    RememberFull(TokensFrom(a, from), [x.relation, ValueOf(|a|)]);
    DropsOldest(a + [x], from);
  }

  /** Forgetting the oldest two tokens of an overfull history forgets exactly the oldest allocation. */
  lemma RememberIsWindow(a: seq<Allocation>, x: Allocation, from: nat, next: nat)
    requires from == WindowStart(a) && next == WindowStart(a + [x])
    ensures Remember(TokensFrom(a, from), [x.relation, ValueOf(|a|)]) == TokensFrom(a + [x], next)
  {
    if |a| < VALUE_CAPACITY {
      WindowGrows(a, x);
    } else {
      WindowSlides(a, x, from, next);
    }
  }

  lemma ValueSteps(k: nat)
    ensures NextValue(ValueOf(k)) == ValueOf(k + 1)
  {
  }

  lemma EvidenceAppend(a: seq<Allocation>, x: Allocation, r: int, v: int)
    ensures Evidence(a + [x], r, v) ==
            if r == x.relation && v == ValueOf(|a|) then x.event else Evidence(a, r, v)
  {
    assert (a + [x])[..|a|] == a;
    LatestInRange(a, r, v);
  }

  lemma AllocationsStep(accepted: seq<Event>, e: Event)
    ensures Allocations(accepted + [e]) == Allocations(accepted) + AllocationOf(e)
  {
    assert (accepted + [e])[..|accepted|] == accepted;
  }

  lemma AbsorbEvidence(s: State, a: seq<Allocation>, e: Event)
    requires EvidenceAgrees(s.evidence, a) && s.nextValue == ValueOf(|a|)
    ensures EvidenceAgrees(Absorb(s, e).evidence, a + AllocationOf(e))
  {
    var more := AllocationOf(e);
    if more == [] {
      assert a + more == a;
    } else {
      forall r, v {
        EvidenceAppend(a, more[0], r, v);
      }
      assert more == [more[0]];
    }
  }

  lemma AbsorbTokens(s: State, a: seq<Allocation>, e: Event)
    requires s.tokens == TokensFrom(a, WindowStart(a)) && s.nextValue == ValueOf(|a|)
    ensures var s', b := Absorb(s, e), a + AllocationOf(e);
            s'.tokens == TokensFrom(b, WindowStart(b)) && s'.nextValue == ValueOf(|b|)
  {
    var more := AllocationOf(e);
    if more == [] {
      assert a + more == a;
    } else {
      assert more == [more[0]];
      RememberIsWindow(a, more[0], WindowStart(a), WindowStart(a + more));
      ValueSteps(|a|);
    }
  }

  lemma AbsorbAgrees(s: State, accepted: seq<Event>, e: Event)
    requires Agrees(s, accepted) && e.sequence == |accepted| + 1
    ensures Agrees(Absorb(s, e), accepted + [e])
  {
    var a := Allocations(accepted);
    AllocationsStep(accepted, e);
    AbsorbTokens(s, a, e);
    AbsorbEvidence(s, a, e);
  }

  lemma {:induction false} RunAgrees(events: seq<Event>)
    ensures Agrees(RunState(events), Accepted(events))
  {
    if events != [] {
      var init, e := events[..|events| - 1], events[|events| - 1];
      RunAgrees(init);
      if e.sequence == |Accepted(init)| + 1 {
        AbsorbAgrees(RunState(init), Accepted(init), e);
      }
    } else {
      assert Allocations([]) == [];
    }
  }

  // ---------------------------------------------------------------- theorems about every run

  /** The history holds the pairs of the last 64 allocations, oldest first. */
  lemma {:induction false} TokensAre(a: seq<Allocation>, from: nat, k: nat)
    requires from <= k < |a|
    ensures var t := TokensFrom(a, from);
            |t| == 2 * (|a| - from) && t[2 * (k - from)] == a[k].relation && t[2 * (k - from) + 1] == ValueOf(k)
    decreases k - from
  {
    TokensLength(a, from);
    if from < k {
      TokensAre(a, from + 1, k);
    }
  }

  /** Any two allocations in the window have different values. */
  lemma WindowValuesDistinct(n: nat, j: nat, k: nat)
    requires j < k < n && n - j <= VALUE_CAPACITY
    ensures ValueOf(j) != ValueOf(k)
  {
  }

  /** A pair in the window is the latest allocation of its relation and value. */
  lemma WindowEvidence(a: seq<Allocation>, k: nat)
    requires WindowStart(a) <= k < |a|
    ensures Evidence(a, a[k].relation, ValueOf(k)) == a[k].event
  {
    LatestInRange(a, a[k].relation, ValueOf(k));
    var last := Latest(a, a[k].relation, ValueOf(k)).value;
    if k < last {
      WindowValuesDistinct(|a|, k, last);
    }
  }

  /** The history spells out the last allocations of the window, which have distinct values, and the
      evidence map holds for each of them exactly its event, or nothing for a safe pair. */
  ghost predicate WindowIntact(s: State, a: seq<Allocation>) {
    var from := WindowStart(a);
    && |s.tokens| == 2 * (|a| - from)
    && (forall k :: from <= k < |a| ==> PairAt(s, a, from, k) && Evidenced(s, a[k], ValueOf(k)))
    && (forall j, k :: from <= j < k < |a| ==> ValueOf(j) != ValueOf(k))
  }

  predicate PairAt(s: State, a: seq<Allocation>, from: nat, k: nat)
    requires from <= k < |a|
  {
    && |s.tokens| == 2 * (|a| - from)
    && s.tokens[2 * (k - from)] == a[k].relation && s.tokens[2 * (k - from) + 1] == ValueOf(k)
  }

  predicate Evidenced(s: State, x: Allocation, value: int) {
    x.event == if (x.relation, value) in s.evidence then Some(s.evidence[(x.relation, value)]) else None
  }

  lemma WindowFromAgreement(s: State, accepted: seq<Event>)
    requires Agrees(s, accepted)
    ensures WindowIntact(s, Allocations(accepted))
  {
    var a := Allocations(accepted);
    var from := WindowStart(a);
    TokensLength(a, from);
    forall k | from <= k < |a| ensures PairAt(s, a, from, k) && Evidenced(s, a[k], ValueOf(k)) {
      TokensAre(a, from, k);
      WindowEvidence(a, k);
      assert Evidence(a, a[k].relation, ValueOf(k)) == a[k].event;
    }
    forall j, k | from <= j < k < |a| ensures ValueOf(j) != ValueOf(k) {
      WindowValuesDistinct(|a|, j, k);
    }
  }

  /** In every run: revision and last sequence count the accepted events, and the window over the last
      min(n, 64) of the n allocations is intact. */
  lemma HistoryIsLastAllocations(events: seq<Event>)
    ensures var s := RunState(events);
            var a := Allocations(Accepted(events));
            && s.revision == s.lastSequence == |Accepted(events)|
            && |a| - WindowStart(a) == (if |a| < VALUE_CAPACITY then |a| else VALUE_CAPACITY)
            && WindowIntact(s, a)
  {
    RunAgrees(events);
    WindowFromAgreement(RunState(events), Accepted(events));
  }

  lemma {:induction false} AllocationHasEvent(accepted: seq<Event>, k: nat)
    requires k < |Allocations(accepted)| && Allocations(accepted)[k].event.Some?
    ensures exists i :: 0 <= i < |accepted| && accepted[i].id == Allocations(accepted)[k].event.value
              && TriggerRelation(accepted[i]) == Some(Allocations(accepted)[k].relation)
  {
    var init := accepted[..|accepted| - 1];
    if k < |Allocations(init)| {
      AllocationHasEvent(init, k);
      var i :| 0 <= i < |init| && init[i].id == Allocations(init)[k].event.value
               && TriggerRelation(init[i]) == Some(Allocations(init)[k].relation);
      assert accepted[i] == init[i];
    }
  }

  /** For every prediction function, a denial cites an earlier accepted trigger of the relation that
      the event queries. A wrong prediction can miss evidence but never invent it. */
  lemma DenialCitesTrigger(events: seq<Event>, e: Event, predict: Predictor)
    requires Decide(RunState(events), e, predict).effect == DENY
    ensures var cited := Decide(RunState(events), e, predict).evidenceIds;
            && |cited| == 2 && cited[1] == e.id && QueryRelation(e).Some?
            && exists i :: 0 <= i < |Accepted(events)| && Accepted(events)[i].id == cited[0]
                 && TriggerRelation(Accepted(events)[i]) == QueryRelation(e)
  {
    RunAgrees(events);
    var s := RunState(events);
    var a := Allocations(Accepted(events));
    var r := QueryRelation(e).value;
    var v := predict(s.tokens, r);
    assert Evidence(a, r, v) == Some(s.evidence[(r, v)]);
    LatestInRange(a, r, v);
    AllocationHasEvent(Accepted(events), Latest(a, r, v).value);
  }

  /** A prediction that names the value of an allocation still in the window selects exactly the event
      of that allocation: the mechanism loses no evidence inside the window. */
  lemma WindowEvidenceIsUsable(events: seq<Event>, e: Event, predict: Predictor, k: nat)
    requires e.sequence == |Accepted(events)| + 1 && TriggerRelation(e).None? && !IsSafe(e)
    requires QueryRelation(e).Some?
    requires var a := Allocations(Accepted(events));
             && WindowStart(a) <= k < |a| && a[k].relation == QueryRelation(e).value
             && predict(RunState(events).tokens, a[k].relation) == ValueOf(k)
    ensures var a := Allocations(Accepted(events));
            Decide(RunState(events), e, predict).effect ==
            if a[k].event.Some? && a[k].event.value != "" then DENY else ALLOW
    ensures var a := Allocations(Accepted(events));
            Decide(RunState(events), e, predict).effect == DENY ==>
              Decide(RunState(events), e, predict).evidenceIds == [a[k].event.value, e.id]
  {
    HistoryIsLastAllocations(events);
  }

  // ---------------------------------------------------------------- decisions in operations and labels

  /** The event takes the next value, under this relation: any connect and a trusted reset as network, an
      opened persistence origin as persistence, and an opened admin origin as admin. */
  predicate Under(x: Event, relation: int) {
    || (relation == 2 && (x.operation.NetworkConnect? || (x.operation.IdentityChange? && "trusted-reset" in x.labels)))
    || (relation == 3 && x.operation.FileOpen? && "persistence-origin" in x.labels)
    || (relation == 4 && x.operation.FileOpen? && "admin-origin" in x.labels && "persistence-origin" !in x.labels)
  }

  predicate Allocating(x: Event) { Under(x, 2) || Under(x, 3) || Under(x, 4) }

  /** How many values a stream has taken. */
  function Allocated(xs: seq<Event>): nat {
    if xs == [] then 0 else Allocated(xs[..|xs| - 1]) + if Allocating(xs[|xs| - 1]) then 1 else 0
  }

  /** The value that event `i` of the stream took. */
  function ValueTaken(xs: seq<Event>, i: nat): int
    requires i < |xs|
  {
    34 + Allocated(xs[..i]) % 64
  }

  /** What an open asks for: an open of credentials for a connect outside the trusted network, else an open of
      a persistence control for an opened persistence origin, else an open of an admin control for an opened
      admin origin. An open of an origin asks for nothing. */
  predicate Causes(x: Event, e: Event, relation: int) {
    && e.operation.FileOpen? && "persistence-origin" !in e.labels && "admin-origin" !in e.labels
    && if "credential" in e.labels then relation == 2 && x.operation.NetworkConnect? && "trusted-network" !in x.labels
       else if "persistence-control" in e.labels then relation == 3 && x.operation.FileOpen? && "persistence-origin" in x.labels
       else
         && "admin-control" in e.labels
         && relation == 4 && x.operation.FileOpen? && "admin-origin" in x.labels && "persistence-origin" !in x.labels
  }

  /** Event `i` is a cause for `e`, and the last that took this value under this relation. */
  ghost predicate Owns(xs: seq<Event>, i: int, e: Event, relation: int, value: int) {
    && 0 <= i < |xs| && xs[i].id != "" && Causes(xs[i], e, relation) && ValueTaken(xs, i) == value
    && forall j :: i < j < |xs| && Under(xs[j], relation) ==> ValueTaken(xs, j) != value
  }

  lemma AllocationIs(x: Event)
    ensures Allocating(x) <==> AllocationOf(x) != []
    ensures |AllocationOf(x)| <= 1
    ensures AllocationOf(x) != [] ==> forall relation :: Under(x, relation) <==> AllocationOf(x)[0].relation == relation
    ensures AllocationOf(x) != [] ==>
              AllocationOf(x)[0].event ==
              if x.operation.FileOpen? || (x.operation.NetworkConnect? && "trusted-network" !in x.labels) then Some(x.id) else None
  {
  }

  lemma {:induction false} AllocationsLength(xs: seq<Event>)
    ensures |Allocations(xs)| == Allocated(xs)
  {
    if xs != [] {
      AllocationsLength(xs[..|xs| - 1]);
      AllocationIs(xs[|xs| - 1]);
    }
  }

  lemma {:induction false} AllocationIn(xs: seq<Event>, i: nat)
    requires i < |xs| && Allocating(xs[i])
    ensures Allocated(xs[..i]) < |Allocations(xs)| && [Allocations(xs)[Allocated(xs[..i])]] == AllocationOf(xs[i])
  {
    var n := |xs| - 1;
    var init := xs[..n];
    AllocationsLength(init);
    AllocationIs(xs[i]);
    if i < n {
      AllocationIn(init, i);
      assert xs[..i] == init[..i];
    }
  }

  lemma {:induction false} AllocationHasSource(xs: seq<Event>, k: nat) returns (i: nat)
    requires k < Allocated(xs)
    ensures i < |xs| && Allocating(xs[i]) && Allocated(xs[..i]) == k
  {
    var n := |xs| - 1;
    if k < Allocated(xs[..n]) {
      i := AllocationHasSource(xs[..n], k);
      assert xs[..i] == xs[..n][..i];
    } else {
      i := n;
    }
  }

  lemma {:induction false} AllocatedGrows(xs: seq<Event>, i: nat, j: nat)
    requires i < j <= |xs|
    ensures Allocated(xs[..i]) + (if Allocating(xs[i]) then 1 else 0) <= Allocated(xs[..j])
    decreases j
  {
    assert xs[..j][..j - 1] == xs[..j - 1];
    if i < j - 1 {
      AllocatedGrows(xs, i, j - 1);
    }
  }

  /** Under its relation and value, the latest allocation is that of the event that owns them. */
  lemma LatestIsLast(xs: seq<Event>, i: nat, relation: int)
    requires i < |xs| && Under(xs[i], relation)
    requires forall j :: i < j < |xs| && Under(xs[j], relation) ==> ValueTaken(xs, j) != ValueTaken(xs, i)
    ensures Latest(Allocations(xs), relation, ValueTaken(xs, i)) == Some(Allocated(xs[..i]))
  {
    var a, value := Allocations(xs), ValueTaken(xs, i);
    AllocationAt(xs, i, relation);
    LatestInRange(a, relation, value);
    var last := Latest(a, relation, value).value;
    AllocationsLength(xs);
    var j := AllocationHasSource(xs, last);
    AllocationAt(xs, j, relation);
    if j < i {
      AllocatedGrows(xs, j, i);
    }
  }

  /** Event `i`'s allocation, where it has one. */
  lemma AllocationAt(xs: seq<Event>, i: nat, relation: int)
    requires i < |xs| && Allocating(xs[i])
    ensures Allocated(xs[..i]) < |Allocations(xs)|
    ensures Allocations(xs)[Allocated(xs[..i])].relation == relation <==> Under(xs[i], relation)
    ensures ValueOf(Allocated(xs[..i])) == ValueTaken(xs, i)
  {
    AllocationIn(xs, i);
    AllocationIs(xs[i]);
  }

  /** The event behind the latest allocation is the last with its relation and value. */
  lemma LatestHasEvent(xs: seq<Event>, relation: int, value: int) returns (i: nat)
    requires Latest(Allocations(xs), relation, value).Some?
    ensures i < |xs| && Under(xs[i], relation) && ValueTaken(xs, i) == value
    ensures Latest(Allocations(xs), relation, value) == Some(Allocated(xs[..i]))
    ensures forall j :: i < j < |xs| && Under(xs[j], relation) ==> ValueTaken(xs, j) != value
  {
    var a := Allocations(xs);
    AllocationsLength(xs);
    LatestInRange(a, relation, value);
    var last := Latest(a, relation, value).value;
    i := AllocationHasSource(xs, last);
    AllocationAt(xs, i, relation);
    forall j | i < j < |xs| && Under(xs[j], relation) ensures ValueTaken(xs, j) != value {
      AllocationAt(xs, j, relation);
      AllocatedGrows(xs, i, j);
    }
  }

  /** What an event asks for, in the adapter's terms and in labels. */
  lemma AskedIs(e: Event, relation: int)
    ensures TriggerRelation(e).None? && !IsSafe(e) && QueryRelation(e) == Some(relation) <==> exists x :: Causes(x, e, relation)
  {
    var connect := Event("", 0, NetworkConnect, {});
    var persistence, admin := Event("", 0, FileOpen, {"persistence-origin"}), Event("", 0, FileOpen, {"admin-origin"});
    if TriggerRelation(e).None? && !IsSafe(e) && QueryRelation(e) == Some(relation) {
      assert Causes(connect, e, relation) || Causes(persistence, e, relation) || Causes(admin, e, relation);
    }
  }

  lemma CauseIs(x: Event, e: Event, relation: int)
    requires TriggerRelation(e).None? && !IsSafe(e) && QueryRelation(e) == Some(relation)
    ensures Causes(x, e, relation) <==> AllocationOf(x) == [Allocation(relation, Some(x.id))]
  {
  }

  /** For every prediction: a next event is denied exactly if an accepted event owns the predicted value as a
      cause for it, in operations and labels alone; the denial cites that cause. */
  lemma DeniesIffCause(events: seq<Event>, e: Event, predict: Predictor)
    ensures var xs, d := Accepted(events), Decide(RunState(events), e, predict);
            && (d.effect == DENY <==>
                  e.sequence == |xs| + 1
                  && exists i, relation :: Owns(xs, i, e, relation, predict(RunState(events).tokens, relation)))
            && (d.effect == DENY ==>
                  exists i, relation :: Owns(xs, i, e, relation, predict(RunState(events).tokens, relation))
                                        && d.evidenceIds == [xs[i].id, e.id])
  {
    RunAgrees(events);
    var xs, s := Accepted(events), RunState(events);
    if Decide(s, e, predict).effect == DENY {
      var relation := QueryRelation(e).value;
      var value := predict(s.tokens, relation);
      assert Evidence(Allocations(xs), relation, value) == Some(s.evidence[(relation, value)]);
      var i := LatestHasEvent(xs, relation, value);
      AllocationIn(xs, i);
      AllocationIs(xs[i]);
      CauseIs(xs[i], e, relation);
      assert Owns(xs, i, e, relation, value);
    }
    if i, relation :| Owns(xs, i, e, relation, predict(s.tokens, relation)) {
      OwnerIsSelected(events, e, predict, i, relation);
    }
  }

  lemma OwnerIsSelected(events: seq<Event>, e: Event, predict: Predictor, i: nat, relation: int)
    requires Owns(Accepted(events), i, e, relation, predict(RunState(events).tokens, relation))
    ensures Selected(RunState(events), e, predict) == Some(Accepted(events)[i].id)
  {
    var xs, s := Accepted(events), RunState(events);
    var value := predict(s.tokens, relation);
    RunAgrees(events);
    AskedIs(e, relation);
    CauseIs(xs[i], e, relation);
    AllocationIs(xs[i]);
    LatestIsLast(xs, i, relation);
    AllocationIn(xs, i);
    assert Evidence(Allocations(xs), relation, value) == Some(xs[i].id);
  }

  /** A cause among the last 64 that took a value still owns it: predicting that value denies. */
  lemma RecentCauseIsDenied(events: seq<Event>, e: Event, predict: Predictor, i: nat, relation: int)
    requires var xs := Accepted(events);
             && i < |xs| && xs[i].id != "" && Causes(xs[i], e, relation) && e.sequence == |xs| + 1
             && Allocated(xs) - Allocated(xs[..i]) <= 64
             && predict(RunState(events).tokens, relation) == ValueTaken(xs, i)
    ensures var d := Decide(RunState(events), e, predict);
            d.effect == DENY && d.evidenceIds == [Accepted(events)[i].id, e.id]
  {
    var xs := Accepted(events);
    assert Under(xs[i], relation);
    assert xs[..|xs|] == xs;
    forall j | i < j < |xs| && Under(xs[j], relation) ensures ValueTaken(xs, j) != ValueTaken(xs, i) {
      AllocatedGrows(xs, i, j);
      AllocatedGrows(xs, j, |xs|);
      WindowValuesDistinct(Allocated(xs), Allocated(xs[..i]), Allocated(xs[..j]));
    }
    OwnerIsSelected(events, e, predict, i, relation);
    RunAgrees(events);
  }

  /** A gap, and only a gap, is abstained from, and changes nothing; every other event is counted, and
      cites itself alone unless it is denied. */
  lemma GapsAbstain(events: seq<Event>, e: Event, predict: Predictor)
    ensures var s, d := RunState(events), Decide(RunState(events), e, predict);
            && (d.effect == ABSTAIN <==> e.sequence != |Accepted(events)| + 1)
            && (d.effect == ABSTAIN ==> d.reason == "SEQUENCE_GAP" && RunState(events + [e]) == s && d.stateRevision == |Accepted(events)|)
            && (d.effect != ABSTAIN ==> RunState(events + [e]).revision == d.stateRevision == |Accepted(events)| + 1)
            && (d.effect != DENY ==> d.evidenceIds == [e.id])
  {
    RunAgrees(events);
    assert (events + [e])[..|events|] == events;
  }
}
