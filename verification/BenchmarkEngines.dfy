/** The deterministic engines: a sequence rule, a sliding window, and the stateful proxy. */
module BenchmarkEngines {
  import opened Wrappers

  datatype Operation = ProcessExec | FileOpen | NetworkConnect | IdentityChange | OtherOperation(text: string)

  datatype Event = Event(namespaceId: string, id: string, sequence: int, operation: Operation, labels: set<string>)

  datatype Effect = ALLOW | DENY | ABSTAIN

  datatype Decision = Decision(effect: Effect, evidence: seq<string>)

  predicate IsExec(e: Event) { e.operation.ProcessExec? }

  predicate IsReset(e: Event) { e.operation.IdentityChange? && "trusted-reset" in e.labels }

  predicate IsUntrustedConnect(e: Event) { e.operation.NetworkConnect? && "trusted-network" !in e.labels }

  predicate IsSensitive(e: Event) { e.operation.FileOpen? && "credential" in e.labels }

  function NonEmpty(ids: seq<string>): seq<string> {
    if ids == [] then [] else (if ids[0] == "" then [] else [ids[0]]) + NonEmpty(ids[1..])
  }

  // ---------------------------------------------------------------- the rule

  datatype RuleState = RuleState(sawExec: bool, connect: Option<string>)

  const NO_RULE := RuleState(false, None)

  function RuleNext(s: RuleState, e: Event): RuleState {
    if IsExec(e) then RuleState(true, None)
    else if IsReset(e) then s.(connect := None)
    else if IsUntrustedConnect(e) && s.sawExec then s.(connect := Some(e.id))
    else s
  }

  /** The verdict on an event, given the state after it. */
  function RuleVerdict(s: RuleState, e: Event): Decision {
    if IsSensitive(e) && s.connect.Some? then Decision(DENY, NonEmpty([s.connect.value, e.id]))
    else Decision(ALLOW, NonEmpty([e.id]))
  }

  function Get<S>(states: map<string, S>, key: string, default: S): S {
    if key in states then states[key] else default
  }

  class SequenceRuleEngine {
    var states: map<string, RuleState>

    constructor ()
      ensures states == map[]
    {
      states := map[];
    }

    method Update(e: Event) returns (d: Decision)
      modifies this
      ensures var s := RuleNext(Get(old(states), e.namespaceId, NO_RULE), e);
              states == old(states)[e.namespaceId := s] && d == RuleVerdict(s, e)
    {
      var state := if e.namespaceId in states then states[e.namespaceId] else RuleState(false, None);
      if e.operation.ProcessExec? {
        state := RuleState(true, None);
      }
      if e.operation.IdentityChange? && "trusted-reset" in e.labels {
        state := state.(connect := None);
      }
      if e.operation.NetworkConnect? && state.sawExec && "trusted-network" !in e.labels {
        state := state.(connect := Some(e.id));
      }
      states := states[e.namespaceId := state];
      var deny := IsSensitive(e) && state.connect.Some?;
      var evidence := if deny then [state.connect.value, e.id] else [e.id];
      d := Decision(if deny then DENY else ALLOW, NonEmpty(evidence));
    }
  }

  // ---------------------------------------------------------------- the stateful proxy

  datatype ProxyState = ProxyState(revision: int, lastSequence: int, rule: RuleState)

  const NO_STATE := ProxyState(0, 0, NO_RULE)

  function ProxyNext(s: ProxyState, e: Event): ProxyState {
    if e.sequence != s.lastSequence + 1 then s
    else ProxyState(s.revision + 1, e.sequence, RuleNext(s.rule, e))
  }

  function ProxyVerdict(s: ProxyState, e: Event): Decision {
    if e.sequence != s.lastSequence + 1 then Decision(ABSTAIN, [e.id]) else RuleVerdict(RuleNext(s.rule, e), e)
  }

  type ProxyStates = map<string, ProxyState>

  function ProxyUpdate(states: ProxyStates, e: Event): ProxyStates {
    states[e.namespaceId := ProxyNext(Get(states, e.namespaceId, NO_STATE), e)]
  }

  function ProxyDecision(states: ProxyStates, e: Event): Decision {
    ProxyVerdict(Get(states, e.namespaceId, NO_STATE), e)
  }

  class StatefulProxyEngine {
    var states: ProxyStates

    constructor ()
      ensures states == map[]
    {
      states := map[];
    }

    /** An event out of order is abstained from; it changes at most a missing entry into a default one. */
    method Update(e: Event) returns (d: Decision)
      modifies this
      ensures states == ProxyUpdate(old(states), e) && d == ProxyDecision(old(states), e)
      ensures d.effect == ABSTAIN ==> forall ns :: Get(states, ns, NO_STATE) == Get(old(states), ns, NO_STATE)
    {
      var state := if e.namespaceId in states then states[e.namespaceId] else NO_STATE;
      if e.namespaceId !in states {
        states := states[e.namespaceId := NO_STATE];
      }
      if e.sequence != state.lastSequence + 1 {
        return Decision(ABSTAIN, [e.id]);
      }
      state := state.(lastSequence := e.sequence, revision := state.revision + 1);
      if e.operation.ProcessExec? {
        state := state.(rule := RuleState(true, None));
      }
      if e.operation.IdentityChange? && "trusted-reset" in e.labels {
        state := state.(rule := state.rule.(connect := None));
      }
      if e.operation.NetworkConnect? && state.rule.sawExec && "trusted-network" !in e.labels {
        state := state.(rule := state.rule.(connect := Some(e.id)));
      }
      states := states[e.namespaceId := state];
      var deny := IsSensitive(e) && state.rule.connect.Some?;
      var evidence := if deny then [state.rule.connect.value, e.id] else [e.id];
      d := Decision(if deny then DENY else ALLOW, NonEmpty(evidence));
    }
  }

  // ---------------------------------------------------------------- the sliding window

  /** An entry of the window: the event's id, and whether it is an untrusted connect. */
  datatype Entry = Entry(connect: bool, id: string)

  function EntryOf(e: Event): Entry { Entry(IsUntrustedConnect(e), e.id) }

  function LastOf<T>(s: seq<T>, n: nat): seq<T> { if |s| > n then s[|s| - n..] else s }

  function WindowNext(recent: seq<Entry>, e: Event, window: nat): seq<Entry> {
    LastOf((if IsReset(e) then [] else recent) + [EntryOf(e)], window)
  }

  /** The id of the last connect in the window. */
  function LastConnect(recent: seq<Entry>): Option<string> {
    if recent == [] then None
    else
      var last := recent[|recent| - 1];
      if last.connect then Some(last.id) else LastConnect(recent[..|recent| - 1])
  }

  function WindowVerdict(recent: seq<Entry>, e: Event): Decision {
    var connect := LastConnect(recent);
    if IsSensitive(e) && connect.Some? then Decision(DENY, [connect.value, e.id]) else Decision(ALLOW, [e.id])
  }

  class SlidingWindowEngine {
    const window: nat
    var states: map<string, seq<Entry>>

    constructor (window: nat)
      ensures this.window == window && states == map[]
    {
      this.window := window;
      states := map[];
    }

    method Update(e: Event) returns (d: Decision)
      modifies this
      ensures var recent := WindowNext(Get(old(states), e.namespaceId, []), e, window);
              states == old(states)[e.namespaceId := recent] && d == WindowVerdict(recent, e)
    {
      var recent := if e.namespaceId in states then states[e.namespaceId] else [];
      if IsReset(e) {
        recent := [];
      }
      recent := PopOld(recent + [EntryOf(e)], window);
      states := states[e.namespaceId := recent];
      var connect := FindConnect(recent);
      d := if IsSensitive(e) && connect.Some? then Decision(DENY, [connect.value, e.id]) else Decision(ALLOW, [e.id]);
    }
  }

  /** Pop from the front while there are more than `window` entries. */
  method PopOld(full: seq<Entry>, window: nat) returns (recent: seq<Entry>)
    ensures recent == LastOf(full, window)
  {
    recent := full;
    while |recent| > window
      invariant |recent| <= |full| && recent == full[|full| - |recent|..]
      invariant |recent| >= window || recent == full
    {
      recent := recent[1..];
    }
  }

  method FindConnect(recent: seq<Entry>) returns (connect: Option<string>)
    ensures connect == LastConnect(recent)
  {
    connect := None;
    for i := 0 to |recent|
      invariant connect == LastConnect(recent[..i])
    {
      assert recent[..i + 1][..i] == recent[..i];
      if recent[i].connect {
        connect := Some(recent[i].id);
      }
    }
    assert recent[..|recent|] == recent;
  }

  // ---------------------------------------------------------------- one namespace's stream

  function RuleAfter(es: seq<Event>): RuleState {
    if es == [] then NO_RULE else RuleNext(RuleAfter(es[..|es| - 1]), es[|es| - 1])
  }

  function ProxyAfter(es: seq<Event>): ProxyState {
    if es == [] then NO_STATE else ProxyNext(ProxyAfter(es[..|es| - 1]), es[|es| - 1])
  }

  function WindowAfter(es: seq<Event>, window: nat): seq<Entry> {
    if es == [] then [] else WindowNext(WindowAfter(es[..|es| - 1], window), es[|es| - 1], window)
  }

  /** The events that continue the sequence; the others are stutter steps. */
  function Accepted(es: seq<Event>): seq<Event> {
    if es == [] then []
    else
      var before := Accepted(es[..|es| - 1]);
      var e := es[|es| - 1];
      if e.sequence == |before| + 1 then before + [e] else before
  }

  predicate GapFree(es: seq<Event>) {
    forall i :: 0 <= i < |es| ==> es[i].sequence == i + 1
  }

  /** In the stream so far, `j` is an untrusted connect that follows an exec, with no exec or trusted
      reset after it. */
  ghost predicate Chain(es: seq<Event>, j: int) {
    && 0 <= j < |es| && es[j].operation.NetworkConnect? && "trusted-network" !in es[j].labels
    && (exists h :: 0 <= h < j && es[h].operation.ProcessExec?)
    && forall m :: j < m < |es| ==>
         !es[m].operation.ProcessExec? && !(es[m].operation.IdentityChange? && "trusted-reset" in es[m].labels)
  }

  /** The end of the stream's chain: no later connect has one. */
  ghost predicate LastChain(es: seq<Event>, j: int) {
    Chain(es, j) && forall k :: k > j ==> !Chain(es, k)
  }

  lemma ChainExtends(es: seq<Event>, e: Event, j: int)
    requires j < |es|
    ensures Chain(es + [e], j) <==> Chain(es, j) && !IsExec(e) && !IsReset(e)
  {
    var all := es + [e];
    if Chain(all, j) {
      var h :| 0 <= h < j && IsExec(all[h]);
      assert IsExec(es[h]);
      assert all[|es|] == e;
      assert forall m :: j < m < |es| ==> all[m] == es[m];
    }
    if Chain(es, j) {
      var h :| 0 <= h < j && IsExec(es[h]);
      assert IsExec(all[h]);
    }
  }

  /** What the rule's state means: an exec was seen, and the remembered connect is the last one of a
      chain that nothing has broken. */
  ghost predicate RuleMeaning(es: seq<Event>, s: RuleState) {
    && (s.sawExec <==> exists h :: 0 <= h < |es| && es[h].operation.ProcessExec?)
    && (s.connect.None? ==> forall j :: !Chain(es, j))
    && (s.connect.Some? ==> exists j :: LastChain(es, j) && es[j].id == s.connect.value)
  }

  lemma SawExecStep(es: seq<Event>, e: Event)
    ensures (exists h :: 0 <= h < |es + [e]| && IsExec((es + [e])[h])) <==>
            IsExec(e) || exists h :: 0 <= h < |es| && IsExec(es[h])
  {
    var all := es + [e];
    assert all[|es|] == e;
    if h :| 0 <= h < |es| && IsExec(es[h]) {
      assert IsExec(all[h]);
    }
    if h :| 0 <= h < |all| && IsExec(all[h]) && h < |es| {
      assert IsExec(es[h]);
    }
  }

  /** A new untrusted connect has a chain as soon as there was an exec. */
  lemma ChainOfLast(es: seq<Event>, e: Event)
    ensures Chain(es + [e], |es|) <==> IsUntrustedConnect(e) && exists h :: 0 <= h < |es| && IsExec(es[h])
  {
    var all := es + [e];
    assert all[|es|] == e;
    if h :| 0 <= h < |es| && IsExec(es[h]) {
      assert IsExec(all[h]);
    }
    if h :| 0 <= h < |es| && IsExec(all[h]) {
      assert IsExec(es[h]);
    }
  }

  lemma ChainsStep(es: seq<Event>, e: Event)
    ensures forall j :: Chain(es + [e], j) <==>
              (j == |es| && Chain(es + [e], |es|)) || (j < |es| && Chain(es, j) && !IsExec(e) && !IsReset(e))
  {
    forall j | j < |es| ensures Chain(es + [e], j) <==> Chain(es, j) && !IsExec(e) && !IsReset(e) {
      ChainExtends(es, e, j);
    }
  }

  lemma RuleMeaningStep(es: seq<Event>, e: Event, s: RuleState)
    requires RuleMeaning(es, s)
    ensures RuleMeaning(es + [e], RuleNext(s, e))
  {
    var all := es + [e];
    var s' := RuleNext(s, e);
    assert all[|es|] == e;
    SawExecStep(es, e);
    ChainOfLast(es, e);
    ChainsStep(es, e);
    if s'.connect.Some? {
      if IsUntrustedConnect(e) && s.sawExec {
        assert LastChain(all, |es|) && all[|es|].id == s'.connect.value;
      } else {
        var j :| LastChain(es, j) && es[j].id == s.connect.value;
        assert LastChain(all, j) && all[j].id == s'.connect.value;
      }
    }
  }

  lemma {:induction false} RuleMeans(es: seq<Event>)
    ensures RuleMeaning(es, RuleAfter(es))
  {
    if es != [] {
      var init := es[..|es| - 1];
      RuleMeans(init);
      RuleMeaningStep(init, es[|es| - 1], RuleAfter(init));
      assert es == init + [es[|es| - 1]];
    }
  }

  /** An id as evidence; an empty one is left out. */
  function Cited(id: string): seq<string> { if id == "" then [] else [id] }

  lemma OneCited(a: string)
    ensures NonEmpty([a]) == Cited(a)
  {
    assert [a][1..] == [] && Cited(a) + [] == Cited(a);
  }

  lemma TwoCited(a: string, b: string)
    ensures NonEmpty([a, b]) == Cited(a) + Cited(b)
  {
    assert [a, b][1..] == [b];
    OneCited(b);
  }

  /** The rule denies an event exactly if it opens a credential at the end of an unbroken chain, and
      it then cites the last connect of that chain. */
  lemma RuleDeniesIffChain(es: seq<Event>, e: Event)
    ensures var d := RuleVerdict(RuleAfter(es + [e]), e);
            && (d.effect == DENY <==> e.operation.FileOpen? && "credential" in e.labels && exists j :: Chain(es, j))
            && (d.effect == DENY ==>
                  exists j :: LastChain(es, j) && d.evidence == Cited(es[j].id) + Cited(e.id))
            && (d.effect != DENY ==> d.effect == ALLOW && d.evidence == Cited(e.id))
  {
    var s := RuleAfter(es);
    RuleMeans(es);
    assert (es + [e])[..|es|] == es;
    assert RuleAfter(es + [e]) == RuleNext(s, e);
    if IsSensitive(e) && s.connect.Some? {
      var j :| LastChain(es, j) && es[j].id == s.connect.value;
      assert RuleVerdict(s, e).evidence == NonEmpty([es[j].id, e.id]);
      TwoCited(es[j].id, e.id);
    }
    OneCited(e.id);
  }

  lemma {:induction false} ProxyIsRuleOnAccepted(es: seq<Event>)
    ensures ProxyAfter(es) == ProxyState(|Accepted(es)|, |Accepted(es)|, RuleAfter(Accepted(es)))
  {
    if es != [] {
      var init, e := es[..|es| - 1], es[|es| - 1];
      ProxyIsRuleOnAccepted(init);
      if e.sequence == |Accepted(init)| + 1 {
        assert (Accepted(init) + [e])[..|Accepted(init)|] == Accepted(init);
      }
    }
  }

  /** The proxy abstains exactly from the events that do not continue the accepted stream, and decides
      the others exactly as the sequence rule decides them on the accepted events alone. */
  lemma ProxyDecidesLikeRule(es: seq<Event>, e: Event)
    ensures var d := ProxyVerdict(ProxyAfter(es), e);
            var accepted := Accepted(es);
            && (d.effect == ABSTAIN <==> e.sequence != |accepted| + 1)
            && (d.effect != ABSTAIN ==> d == RuleVerdict(RuleAfter(accepted + [e]), e))
  {
    ProxyIsRuleOnAccepted(es);
    var accepted := Accepted(es);
    assert (accepted + [e])[..|accepted|] == accepted;
  }

  lemma {:induction false} GapFreeIsAccepted(es: seq<Event>)
    requires GapFree(es)
    ensures Accepted(es) == es
  {
    if es != [] {
      GapFreeIsAccepted(es[..|es| - 1]);
      assert es == es[..|es| - 1] + [es[|es| - 1]];
    }
  }

  /** On a gap-free stream the proxy never abstains and agrees with the sequence rule; both deny iff
      the chain is there. */
  lemma GapFreeProxy(es: seq<Event>, e: Event)
    requires GapFree(es + [e])
    ensures var d := ProxyVerdict(ProxyAfter(es), e);
            && d == RuleVerdict(RuleAfter(es + [e]), e) && d.effect != ABSTAIN
            && (d.effect == DENY <==> e.operation.FileOpen? && "credential" in e.labels && exists j :: Chain(es, j))
  {
    assert GapFree(es) by {
      assert forall i :: 0 <= i < |es| ==> (es + [e])[i] == es[i];
    }
    assert (es + [e])[|es|] == e;
    GapFreeIsAccepted(es);
    ProxyDecidesLikeRule(es, e);
    RuleDeniesIffChain(es, e);
  }

  // ---------------------------------------------------------------- what the window sees

  function Entries(es: seq<Event>): seq<Entry> { seq(|es|, i requires 0 <= i < |es| => EntryOf(es[i])) }

  /** Event `j` is one of the last `window`, and no trusted reset came after it. */
  ghost predicate Recent(es: seq<Event>, window: nat, j: int) {
    && 0 <= j < |es| && |es| - j <= window
    && forall m :: j < m < |es| ==> !(es[m].operation.IdentityChange? && "trusted-reset" in es[m].labels)
  }

  lemma RecentStep(es: seq<Event>, e: Event, window: nat, j: int)
    ensures Recent(es + [e], window, j) <==>
            (j == |es| && window >= 1) || (!IsReset(e) && Recent(es, window, j) && |es| + 1 - j <= window)
  {
    var all := es + [e];
    assert all[|es|] == e;
    assert forall m :: 0 <= m < |es| ==> all[m] == es[m];
  }

  lemma EntriesLast(es: seq<Event>, e: Event)
    ensures Entries(es + [e]) == Entries(es) + [EntryOf(e)]
  {
  }

  /** The last of a tail and one more are a tail of all. */
  lemma LastOfTail<T>(all: seq<T>, x: T, k: nat, n: nat)
    requires k <= |all|
    ensures var last := LastOf(all[|all| - k..] + [x], n); |last| <= |all| + 1 && last == (all + [x])[|all| + 1 - |last|..]
  {
  }

  /** These are exactly the recent events, in order. */
  ghost predicate HoldsRecent(recent: seq<Entry>, es: seq<Event>, window: nat) {
    && |recent| <= |es| && recent == Entries(es)[|es| - |recent|..]
    && forall j :: |es| - |recent| <= j < |es| <==> Recent(es, window, j)
  }

  lemma RecentNext(recent: seq<Entry>, es: seq<Event>, e: Event, window: nat)
    requires HoldsRecent(recent, es, window)
    ensures HoldsRecent(WindowNext(recent, e, window), es + [e], window)
  {
    var kept := if IsReset(e) then [] else recent;
    var next := WindowNext(recent, e, window);
    EntriesLast(es, e);
    LastOfTail(Entries(es), EntryOf(e), |kept|, window);
    assert kept == Entries(es)[|es| - |kept|..];
    forall j ensures |es| + 1 - |next| <= j < |es| + 1 <==> Recent(es + [e], window, j) {
      RecentStep(es, e, window, j);
    }
  }

  /** The window's contents are exactly the recent events. */
  lemma {:induction false} WindowIsRecent(es: seq<Event>, window: nat)
    ensures HoldsRecent(WindowAfter(es, window), es, window)
  {
    if es != [] {
      var n := |es| - 1;
      WindowIsRecent(es[..n], window);
      RecentNext(WindowAfter(es[..n], window), es[..n], es[n], window);
      assert es == es[..n] + [es[n]];
    }
  }

  lemma {:induction false} LastConnectMeans(recent: seq<Entry>)
    ensures LastConnect(recent).None? <==> forall i :: 0 <= i < |recent| ==> !recent[i].connect
    ensures LastConnect(recent).Some? ==>
              exists i :: 0 <= i < |recent| && recent[i].connect && LastConnect(recent) == Some(recent[i].id)
                          && forall m :: i < m < |recent| ==> !recent[m].connect
  {
    if recent != [] {
      var n := |recent| - 1;
      LastConnectMeans(recent[..n]);
      if !recent[n].connect && LastConnect(recent).Some? {
        var i :| 0 <= i < n && recent[..n][i].connect && LastConnect(recent) == Some(recent[..n][i].id)
                 && forall m :: i < m < n ==> !recent[..n][m].connect;
        assert recent[i].connect;
        assert forall m :: i < m < n ==> recent[m] == recent[..n][m];
      }
    }
  }

  ghost predicate RecentConnect(es: seq<Event>, window: nat, j: int) {
    Recent(es, window, j) && es[j].operation.NetworkConnect? && "trusted-network" !in es[j].labels
  }

  ghost predicate LastRecentConnect(es: seq<Event>, window: nat, j: int) {
    RecentConnect(es, window, j) && forall k :: k > j ==> !RecentConnect(es, window, k)
  }

  /** Position `i` of the window is event `start + i` of the stream. */
  lemma WindowPositions(es: seq<Event>, window: nat, start: int)
    requires start == |es| - |WindowAfter(es, window)|
    ensures start >= 0 && forall j :: start <= j < |es| <==> Recent(es, window, j)
    ensures forall j :: start <= j < |es| ==> WindowAfter(es, window)[j - start] == EntryOf(es[j])
  {
    WindowIsRecent(es, window);
  }

  lemma NoConnectInWindow(es: seq<Event>, window: nat)
    requires LastConnect(WindowAfter(es, window)).None?
    ensures forall j :: !RecentConnect(es, window, j)
  {
    var start := |es| - |WindowAfter(es, window)|;
    WindowPositions(es, window, start);
    LastConnectMeans(WindowAfter(es, window));
    forall j | start <= j < |es| ensures !IsUntrustedConnect(es[j]) {
      assert !WindowAfter(es, window)[j - start].connect;
    }
  }

  lemma ConnectInWindow(es: seq<Event>, window: nat)
    requires LastConnect(WindowAfter(es, window)).Some?
    ensures exists j :: LastRecentConnect(es, window, j) && LastConnect(WindowAfter(es, window)) == Some(es[j].id)
  {
    var recent := WindowAfter(es, window);
    var start := |es| - |recent|;
    WindowPositions(es, window, start);
    LastConnectMeans(recent);
    var i :| 0 <= i < |recent| && recent[i].connect && LastConnect(recent) == Some(recent[i].id)
             && forall m :: i < m < |recent| ==> !recent[m].connect;
    forall k | start + i < k < |es| ensures !IsUntrustedConnect(es[k]) {
      assert !recent[k - start].connect;
    }
    assert recent[start + i - start] == EntryOf(es[start + i]);
    assert LastRecentConnect(es, window, start + i);
  }

  /** The window denies an event exactly if it opens a credential and an untrusted connect is recent; it
      then cites the last such connect. Unlike the rule it asks for no exec, and an exec breaks nothing. */
  lemma WindowDeniesIffRecent(es: seq<Event>, e: Event, window: nat)
    ensures var d := WindowVerdict(WindowAfter(es + [e], window), e);
            && (d.effect == DENY <==>
                  e.operation.FileOpen? && "credential" in e.labels && exists j :: RecentConnect(es + [e], window, j))
            && (d.effect == DENY ==>
                  exists j :: LastRecentConnect(es + [e], window, j) && d.evidence == [(es + [e])[j].id, e.id])
            && (d.effect != DENY ==> d == Decision(ALLOW, [e.id]))
  {
    if LastConnect(WindowAfter(es + [e], window)).Some? {
      ConnectInWindow(es + [e], window);
    } else {
      NoConnectInWindow(es + [e], window);
    }
  }

  lemma RecentChain(es: seq<Event>, e: Event, window: nat, j: int)
    requires Chain(es, j) && e.operation.FileOpen? && "credential" in e.labels && |es| + 1 - j <= window
    ensures RecentConnect(es + [e], window, j)
  {
    assert (es + [e])[|es|] == e;
    assert forall m :: 0 <= m < |es| ==> (es + [e])[m] == es[m];
  }

  /** A later connect ends the same chain. */
  lemma LaterConnectIsChain(es: seq<Event>, j: int, k: int)
    requires Chain(es, j) && j <= k < |es| && IsUntrustedConnect(es[k])
    ensures Chain(es, k)
  {
    var h :| 0 <= h < j && IsExec(es[h]);
    assert h < k;
  }

  /** A chain from connect to open that fits into the window is denied by window and rule, and both cite
      the same connect: the last of the chain. */
  lemma WindowDeniesShortChains(es: seq<Event>, e: Event, window: nat, j: int)
    requires Chain(es, j) && e.operation.FileOpen? && "credential" in e.labels && |es| + 1 - j <= window
    ensures exists last :: LastChain(es, last)
              && WindowVerdict(WindowAfter(es + [e], window), e) == Decision(DENY, [es[last].id, e.id])
              && RuleVerdict(RuleAfter(es + [e]), e) == Decision(DENY, Cited(es[last].id) + Cited(e.id))
  {
    var all := es + [e];
    RecentChain(es, e, window, j);
    WindowDeniesIffRecent(es, e, window);
    var d := WindowVerdict(WindowAfter(all, window), e);
    var last :| LastRecentConnect(all, window, last) && d.evidence == [all[last].id, e.id];
    assert all[|es|] == e && last >= j;
    LaterConnectIsChain(es, j, last);
    forall k | k > last ensures !Chain(es, k) {
      if Chain(es, k) {
        RecentChain(es, e, window, k);
      }
    }
    RuleDeniesIffChain(es, e);
    var cited :| LastChain(es, cited) && RuleVerdict(RuleAfter(all), e).evidence == Cited(es[cited].id) + Cited(e.id);
    assert cited == last;
  }

  // ---------------------------------------------------------------- namespaces do not interfere

  function Of(events: seq<Event>, ns: string): seq<Event> {
    if events == [] then []
    else
      var e := events[|events| - 1];
      Of(events[..|events| - 1], ns) + if e.namespaceId == ns then [e] else []
  }

  function StatesAfter(events: seq<Event>): ProxyStates {
    if events == [] then map[] else ProxyUpdate(StatesAfter(events[..|events| - 1]), events[|events| - 1])
  }

  /** The decisions of a run, in order. */
  function Decisions(events: seq<Event>): seq<Decision> {
    if events == [] then []
    else
      var init := events[..|events| - 1];
      Decisions(init) + [ProxyDecision(StatesAfter(init), events[|events| - 1])]
  }

  /** The decisions on one namespace's own stream. */
  function StreamDecisions(es: seq<Event>): seq<Decision> {
    if es == [] then []
    else
      var init := es[..|es| - 1];
      StreamDecisions(init) + [ProxyVerdict(ProxyAfter(init), es[|es| - 1])]
  }

  /** Those decisions of a run that were made on events of the namespace. */
  function DecisionsOf(events: seq<Event>, ns: string): seq<Decision> {
    if events == [] then []
    else
      var init, e := events[..|events| - 1], events[|events| - 1];
      DecisionsOf(init, ns) + if e.namespaceId == ns then [ProxyDecision(StatesAfter(init), e)] else []
  }

  /** State and decisions of a namespace depend on its own subsequence only. */
  lemma {:induction false} NamespacesAreIsolated(events: seq<Event>, ns: string)
    ensures Get(StatesAfter(events), ns, NO_STATE) == ProxyAfter(Of(events, ns))
    ensures DecisionsOf(events, ns) == StreamDecisions(Of(events, ns))
  {
    if events != [] {
      var init, e := events[..|events| - 1], events[|events| - 1];
      NamespacesAreIsolated(init, ns);
      if e.namespaceId == ns {
        assert (Of(init, ns) + [e])[..|Of(init, ns)|] == Of(init, ns);
        assert Of(events, ns) == Of(init, ns) + [e];
      } else {
        assert Of(events, ns) == Of(init, ns);
      }
    }
  }

  predicate AbstainFree(ds: seq<Decision>) {
    forall i :: 0 <= i < |ds| ==> ds[i].effect != ABSTAIN
  }

  /** The proxy gets through a stream without abstaining exactly if the stream has no gap. */
  lemma {:induction false} AbstainFreeIffGapFree(es: seq<Event>)
    ensures AbstainFree(StreamDecisions(es)) <==> GapFree(es)
    ensures |StreamDecisions(es)| == |es|
  {
    if es != [] {
      var init, e := es[..|es| - 1], es[|es| - 1];
      AbstainFreeIffGapFree(init);
      var ds, d := StreamDecisions(init), ProxyVerdict(ProxyAfter(init), e);
      assert StreamDecisions(es) == ds + [d];
      assert AbstainFree(ds + [d]) <==> AbstainFree(ds) && d.effect != ABSTAIN by {
        assert (ds + [d])[|ds|] == d;
        assert forall i :: 0 <= i < |ds| ==> (ds + [d])[i] == ds[i];
      }
      ProxyDecidesLikeRule(init, e);
      if GapFree(init) {
        GapFreeIsAccepted(init);
      }
      assert GapFree(es) <==> GapFree(init) && e.sequence == |es|;
    }
  }
}
