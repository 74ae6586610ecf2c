/** Replay of a loaded corpus through the stateful proxy, and the confusion counts. */
module CorpusReplay {
  import opened Wrappers
  import opened Text
  import opened T = TelemetryPipeline
  import opened I = IndependentCorpus
  import B = BenchmarkEngines

  // ---------------------------------------------------------------- counting

  datatype Counts = Counts(tp: nat, fp: nat, tn: nat, fn: nat, abstain: nat) {
    function Decided(): nat { tp + fp + tn + fn }
    function Size(): nat { Decided() + abstain }
  }

  const NO_COUNTS := Counts(0, 0, 0, 0, 0)

  /** What a value is as a key of a Python dictionary; lists and objects are none. */
  datatype Key = TextKey(text: string) | ScalarKey(key: int) | NoKey

  function KeyOf(v: Value): Key {
    match v
    case Textual(text) => TextKey(text)
    case Scalar(key, _) => ScalarKey(key)
    case Container(_) => NoKey
  }

  datatype Outcome = Outcome(malicious: bool, effect: B.Effect, family: Key, confidence: Confidence)

  function Record(c: Counts, malicious: bool, effect: B.Effect): Counts {
    if effect == B.ABSTAIN then c.(abstain := c.abstain + 1)
    else if malicious && effect == B.DENY then c.(tp := c.tp + 1)
    else if malicious then c.(fn := c.fn + 1)
    else if effect == B.DENY then c.(fp := c.fp + 1)
    else c.(tn := c.tn + 1)
  }

  function Tally(os: seq<Outcome>): Counts {
    if os == [] then NO_COUNTS
    else var o := os[|os| - 1]; Record(Tally(os[..|os| - 1]), o.malicious, o.effect)
  }

  function CountsAt<K>(m: map<K, Counts>, k: K): Counts { if k in m then m[k] else NO_COUNTS }

  function Strata<K>(os: seq<Outcome>, key: Outcome -> K): map<K, Counts> {
    if os == [] then map[]
    else
      var before, o := Strata(os[..|os| - 1], key), os[|os| - 1];
      before[key(o) := Record(CountsAt(before, key(o)), o.malicious, o.effect)]
  }

  function FamilyOf(o: Outcome): Key { o.family }

  function ConfidenceOf(o: Outcome): Confidence { o.confidence }

  function Only<K(==)>(os: seq<Outcome>, key: Outcome -> K, k: K): seq<Outcome> {
    if os == [] then []
    else
      var o := os[|os| - 1];
      Only(os[..|os| - 1], key, k) + if key(o) == k then [o] else []
  }

  function CountIf(os: seq<Outcome>, p: Outcome -> bool): nat {
    if os == [] then 0 else CountIf(os[..|os| - 1], p) + if p(os[|os| - 1]) then 1 else 0
  }

  predicate TruePositive(o: Outcome) { o.malicious && o.effect == B.DENY }

  predicate FalseNegative(o: Outcome) { o.malicious && o.effect == B.ALLOW }

  predicate FalsePositive(o: Outcome) { !o.malicious && o.effect == B.DENY }

  predicate TrueNegative(o: Outcome) { !o.malicious && o.effect == B.ALLOW }

  predicate Abstained(o: Outcome) { o.effect == B.ABSTAIN }

  /** The four cells and the abstentions mean what they are called, and together miss no trajectory. */
  lemma {:induction false} TallyMeans(os: seq<Outcome>)
    ensures var c := Tally(os);
            && c.tp == CountIf(os, TruePositive) && c.fn == CountIf(os, FalseNegative)
            && c.fp == CountIf(os, FalsePositive) && c.tn == CountIf(os, TrueNegative)
            && c.abstain == CountIf(os, Abstained) && c.Size() == |os|
  {
    if os != [] {
      TallyMeans(os[..|os| - 1]);
    }
  }

  /** A stratum counts exactly its own trajectories, and exists exactly if it has some. */
  lemma {:induction false} StrataMean<K(!new)>(os: seq<Outcome>, key: Outcome -> K, k: K)
    ensures k in Strata(os, key) <==> Only(os, key, k) != []
    ensures CountsAt(Strata(os, key), k) == Tally(Only(os, key, k))
  {
    if os != [] {
      var o := os[|os| - 1];
      StrataMean(os[..|os| - 1], key, k);
      var before := Only(os[..|os| - 1], key, k);
      assert (before + [o])[..|before|] == before;
      assert before + [] == before;
    }
  }

  // ---------------------------------------------------------------- the replay

  function OrEmpty(s: Option<string>): string { if s.Some? then s.value else "" }

  /** The event as an engine reads it. */
  function EventOf(r: T.Record): B.Event {
    B.Event(OrEmpty(r.namespaceId), OrEmpty(r.eventId), if r.sequence.Some? then r.sequence.value else 0, r.operation, r.labels)
  }

  /** The event at its canonical position when the provenance has one. */
  function EvaluationEvent(r: T.Record): B.Event {
    if r.sourceSequence.Some? then EventOf(Restore(r)) else EventOf(r)
  }

  function Raw(s: seq<T.Record>): seq<B.Event> { seq(|s|, i requires 0 <= i < |s| => EventOf(s[i])) }

  function Replay(s: seq<T.Record>): seq<B.Event> { seq(|s|, i requires 0 <= i < |s| => EvaluationEvent(s[i])) }

  function ReplayAll(ts: seq<Trajectory>): seq<B.Event> {
    if ts == [] then [] else ReplayAll(ts[..|ts| - 1]) + Replay(ts[|ts| - 1].events)
  }

  /** What an engine reads is there. */
  predicate Complete(events: seq<T.Record>) {
    forall i :: 0 <= i < |events| ==> events[i].namespaceId.Some? && events[i].eventId.Some? && events[i].sequence.Some?
  }

  /** The evaluation needs an event in every trajectory, and a family to count it under. */
  predicate Countable(t: Trajectory) { t.events != [] && Complete(t.events) && KeyOf(t.family) != NoKey }

  predicate Replayable(ts: seq<Trajectory>) { forall i :: 0 <= i < |ts| ==> Countable(ts[i]) }

  /** The decision on the last event of a stream. */
  function LastDecision(events: seq<B.Event>): B.Decision {
    if events == [] then B.Decision(B.ABSTAIN, [])
    else B.ProxyDecision(B.StatesAfter(events[..|events| - 1]), events[|events| - 1])
  }

  function OutcomeOf(t: Trajectory, d: B.Decision): Outcome { Outcome(t.malicious, d.effect, KeyOf(t.family), t.confidence) }

  /** Each trajectory is counted by the decision on its last event. */
  function Outcomes(ts: seq<Trajectory>): seq<Outcome> {
    if ts == [] then []
    else Outcomes(ts[..|ts| - 1]) + [OutcomeOf(ts[|ts| - 1], LastDecision(ReplayAll(ts)))]
  }

  method ReplayTrajectory(engine: B.StatefulProxyEngine, t: Trajectory, ghost before: seq<B.Event>) returns (d: B.Decision)
    requires engine.states == B.StatesAfter(before) && t.events != [] && Complete(t.events)
    modifies engine
    ensures engine.states == B.StatesAfter(before + Replay(t.events))
    ensures d == LastDecision(before + Replay(t.events))
  {
    d := B.Decision(B.ABSTAIN, []);
    ghost var all := before;
    assert before + [] == before;
    for i := 0 to |t.events|
      invariant all == before + Replay(t.events)[..i] && engine.states == B.StatesAfter(all)
      invariant i > 0 ==> d == LastDecision(all)
    {
      var event := EvaluationEvent(t.events[i]);
      assert Replay(t.events)[..i + 1] == Replay(t.events)[..i] + [event];
      d := engine.Update(event);
      ghost var was := all;
      all := all + [event];
      assert all[..|was|] == was && all == before + Replay(t.events)[..i + 1];
    }
    assert Replay(t.events)[..|t.events|] == Replay(t.events);
  }

  /** The three dictionaries of counters. */
  datatype Report = Report(total: Counts, families: map<Key, Counts>, strata: map<Confidence, Counts>)

  function ReportOn(os: seq<Outcome>): Report {
    Report(Tally(os), Strata(os, FamilyOf), Strata(os, ConfidenceOf))
  }

  function Count(r: Report, o: Outcome): Report {
    Report(Record(r.total, o.malicious, o.effect),
           r.families[o.family := Record(CountsAt(r.families, o.family), o.malicious, o.effect)],
           r.strata[o.confidence := Record(CountsAt(r.strata, o.confidence), o.malicious, o.effect)])
  }

  lemma ReportStep(os: seq<Outcome>, o: Outcome)
    ensures ReportOn(os + [o]) == Count(ReportOn(os), o)
  {
    assert (os + [o])[..|os|] == os;
  }

  lemma OutcomesStep(front: seq<Trajectory>, t: Trajectory)
    ensures ReplayAll(front + [t]) == ReplayAll(front) + Replay(t.events)
    ensures Outcomes(front + [t]) == Outcomes(front) + [OutcomeOf(t, LastDecision(ReplayAll(front + [t])))]
  {
    assert (front + [t])[..|front|] == front;
  }

  /** One iteration: replay a trajectory and count its outcome. */
  method CountTrajectory(engine: B.StatefulProxyEngine, t: Trajectory, report: Report, ghost front: seq<Trajectory>)
    returns (next: Report)
    requires engine.states == B.StatesAfter(ReplayAll(front)) && report == ReportOn(Outcomes(front))
    requires t.events != [] && Complete(t.events)
    modifies engine
    ensures engine.states == B.StatesAfter(ReplayAll(front + [t])) && next == ReportOn(Outcomes(front + [t]))
  {
    OutcomesStep(front, t);
    var decision := ReplayTrajectory(engine, t, ReplayAll(front));
    ReportStep(Outcomes(front), OutcomeOf(t, decision));
    next := Count(report, OutcomeOf(t, decision));
  }

  method Evaluate(ts: seq<Trajectory>) returns (report: Report)
    requires Replayable(ts)
    ensures report == ReportOn(Outcomes(ts))
  {
    var engine := new B.StatefulProxyEngine();
    report := Report(NO_COUNTS, map[], map[]);
    ghost var front: seq<Trajectory> := [];
    for i := 0 to |ts|
      invariant fresh(engine) && engine.states == B.StatesAfter(ReplayAll(front))
      invariant |front| == i && front <= ts && report == ReportOn(Outcomes(front))
    {
      report := CountTrajectory(engine, ts[i], report, front);
      front := front + [ts[i]];
    }
    assert front == ts;
  }

  predicate CountableFamilies(items: seq<Item>, split: Option<Split>, purpose: Option<Purpose>) {
    forall i :: 0 <= i < |items| && Wanted(items[i], split, purpose) ==> KeyOf(items[i].family) != NoKey
  }

  /** A corpus that loads can be replayed exactly if no selected family is a list or an object; neither
      review nor loader look at that. */
  lemma LoadedIsReplayable(items: seq<Item>, split: Option<Split>, purpose: Option<Purpose>)
    requires Load(items, split, purpose).Ok?
    ensures Replayable(Load(items, split, purpose).value) <==> CountableFamilies(items, split, purpose)
  {
    LoadsIffWellFormed(items, split, purpose);
    PickedIsReplayable(items, split, purpose);
  }

  lemma ReplayableSplits(t: Trajectory, ts: seq<Trajectory>)
    ensures Replayable([t] + ts) <==> Countable(t) && Replayable(ts)
  {
    var all := [t] + ts;
    if Replayable(all) {
      assert Countable(all[0]);
      forall i | 0 <= i < |ts| ensures Countable(ts[i]) {
        assert Countable(all[i + 1]);
      }
    }
  }

  lemma CountableSplits(items: seq<Item>, split: Option<Split>, purpose: Option<Purpose>)
    requires items != []
    ensures CountableFamilies(items, split, purpose) <==>
            (Wanted(items[0], split, purpose) ==> KeyOf(items[0].family) != NoKey) && CountableFamilies(items[1..], split, purpose)
  {
    assert forall i :: 0 <= i < |items[1..]| ==> items[1..][i] == items[i + 1];
    assert forall i :: 0 < i < |items| ==> items[i] == items[1..][i - 1];
  }

  lemma SoundIsComplete(x: Item)
    requires Sound(x)
    ensures x.events != [] && Complete(x.events)
  {
  }

  lemma {:induction false} PickedIsReplayable(items: seq<Item>, split: Option<Split>, purpose: Option<Purpose>)
    requires WellFormedCorpus(items)
    ensures Replayable(Pick(items, split, purpose)) <==> CountableFamilies(items, split, purpose)
  {
    if items != [] {
      CorpusSplits(items);
      CountableSplits(items, split, purpose);
      PickedIsReplayable(items[1..], split, purpose);
      SoundIsComplete(items[0]);
      var rest := Pick(items[1..], split, purpose);
      ReplayableSplits(TrajectoryOf(items[0]), rest);
      assert [] + rest == rest;
    }
  }

  // ---------------------------------------------------------------- one namespace of the replay

  lemma {:induction false} OfAppend(a: seq<B.Event>, b: seq<B.Event>, ns: string)
    ensures B.Of(a + b, ns) == B.Of(a, ns) + B.Of(b, ns)
  {
    if b == [] {
      assert a + b == a;
      assert B.Of(a, ns) + [] == B.Of(a, ns);
    } else {
      var init, last := b[..|b| - 1], if b[|b| - 1].namespaceId == ns then [b[|b| - 1]] else [];
      assert (a + b)[..|a + b| - 1] == a + init;
      OfAppend(a, init, ns);
      assert B.Of(a + b, ns) == B.Of(a + init, ns) + last;
      assert (B.Of(a, ns) + B.Of(init, ns)) + last == B.Of(a, ns) + (B.Of(init, ns) + last);
    }
  }

  lemma {:induction false} OfOneNamespace(es: seq<B.Event>, ns: string, other: string)
    requires forall i :: 0 <= i < |es| ==> es[i].namespaceId == ns
    ensures B.Of(es, other) == if other == ns then es else []
  {
    if es != [] {
      OfOneNamespace(es[..|es| - 1], ns, other);
      assert es == es[..|es| - 1] + [es[|es| - 1]];
    }
  }

  lemma {:induction false} ReplayAppend(a: seq<Trajectory>, b: seq<Trajectory>)
    ensures ReplayAll(a + b) == ReplayAll(a) + ReplayAll(b)
  {
    if b == [] {
      assert a + b == a;
      assert ReplayAll(a) + [] == ReplayAll(a);
    } else {
      var init, last := b[..|b| - 1], Replay(b[|b| - 1].events);
      assert (a + b)[..|a + b| - 1] == a + init;
      ReplayAppend(a, init);
      assert ReplayAll(a + b) == ReplayAll(a + init) + last;
      assert (ReplayAll(a) + ReplayAll(init)) + last == ReplayAll(a) + (ReplayAll(init) + last);
    }
  }

  /** The candidates a review keeps, in order. */
  function Kept(cs: seq<Candidate>, byId: map<string, Review>): seq<Candidate> {
    if cs == [] then []
    else
      (if cs[0].trajectoryId in byId && I.Decided(byId[cs[0].trajectoryId].verdict) then [cs[0]] else []) + Kept(cs[1..], byId)
  }

  predicate Selected(c: Candidate, split: Option<Split>, purpose: Option<Purpose>) {
    (split.None? || c.split == split.value) && (purpose.None? || c.purpose == purpose.value)
  }

  function ReplayCandidates(cs: seq<Candidate>): seq<B.Event> {
    if cs == [] then [] else Replay(cs[0].events) + ReplayCandidates(cs[1..])
  }

  /** What one candidate contributes to the loaded corpus. */
  function Loaded(c: Candidate, byId: map<string, Review>, split: Option<Split>, purpose: Option<Purpose>): seq<Trajectory>
    requires c.trajectoryId in byId
  {
    var r := byId[c.trajectoryId];
    if I.Decided(r.verdict) && Selected(c, split, purpose) then [TrajectoryOf(ItemOf(c, r))] else []
  }

  lemma PickStep(cs: seq<Candidate>, byId: map<string, Review>, split: Option<Split>, purpose: Option<Purpose>)
    requires cs != [] && CandidateIds(cs) <= byId.Keys
    ensures cs[0].trajectoryId in byId && CandidateIds(cs[1..]) <= byId.Keys
    ensures Pick(Reviewed(cs, byId), split, purpose) ==
            Loaded(cs[0], byId, split, purpose) + Pick(Reviewed(cs[1..], byId), split, purpose)
  {
    assert cs[0] in cs && cs[0].trajectoryId in CandidateIds(cs);
    forall id | id in CandidateIds(cs[1..]) ensures id in CandidateIds(cs) {
      var c :| c in cs[1..] && c.trajectoryId == id;
      assert c in cs;
    }
    var r := byId[cs[0].trajectoryId];
    if I.Decided(r.verdict) {
      var item, tail := ItemOf(cs[0], r), Reviewed(cs[1..], byId);
      assert Reviewed(cs, byId) == [item] + tail;
      assert ([item] + tail)[1..] == tail;
    } else {
      assert Reviewed(cs, byId) == Reviewed(cs[1..], byId);
    }
  }

  lemma ReplayLoaded(c: Candidate, byId: map<string, Review>, split: Option<Split>, purpose: Option<Purpose>)
    requires c.trajectoryId in byId
    ensures ReplayAll(Loaded(c, byId, split, purpose)) ==
            if I.Decided(byId[c.trajectoryId].verdict) && Selected(c, split, purpose) then Replay(c.events) else []
  {
    var ts := Loaded(c, byId, split, purpose);
    if ts != [] {
      assert ts[..0] == [];
      assert ReplayAll(ts) == [] + Replay(c.events);
    }
  }

  lemma KeptStep(cs: seq<Candidate>, byId: map<string, Review>, ns: string)
    requires cs != [] && OneNamespace(cs[0].events) && cs[0].trajectoryId in byId
    ensures ReplayCandidates(Kept(About(cs, ns), byId)) ==
            (if cs[0].events[0].namespaceId == Some(ns) && I.Decided(byId[cs[0].trajectoryId].verdict) then Replay(cs[0].events) else [])
            + ReplayCandidates(Kept(About(cs[1..], ns), byId))
    ensures About(cs, ns) == (if cs[0].events[0].namespaceId == Some(ns) then [cs[0]] else []) + About(cs[1..], ns)
  {
    var rest := About(cs[1..], ns);
    if cs[0].events[0].namespaceId == Some(ns) {
      assert About(cs, ns) == [cs[0]] + rest;
      KeptHead(cs[0], rest, byId);
    } else {
      assert About(cs, ns) == rest;
    }
  }

  /** The part of a replay that concerns a namespace comes from that namespace's candidates only. */
  lemma {:induction false} ReplayOfNamespace(cs: seq<Candidate>, byId: map<string, Review>, split: Option<Split>, purpose: Option<Purpose>,
                                             ns: string, sel: bool)
    requires CandidateIds(cs) <= byId.Keys && forall x :: x in cs ==> OneNamespace(x.events)
    requires forall x :: x in About(cs, ns) ==> Selected(x, split, purpose) == sel
    ensures B.Of(ReplayAll(Pick(Reviewed(cs, byId), split, purpose)), ns) ==
            if sel then ReplayCandidates(Kept(About(cs, ns), byId)) else []
  {
    if cs != [] {
      var c, rest := cs[0], cs[1..];
      assert c in cs;
      PickStep(cs, byId, split, purpose);
      KeptStep(cs, byId, ns);
      assert forall x :: x in About(rest, ns) ==> x in About(cs, ns);
      ReplayOfNamespace(rest, byId, split, purpose, ns, sel);
      var head, tail := Loaded(c, byId, split, purpose), Pick(Reviewed(rest, byId), split, purpose);
      ReplayAppend(head, tail);
      OfAppend(ReplayAll(head), ReplayAll(tail), ns);
      ReplayLoaded(c, byId, split, purpose);
      HeadReplay(c, ns);
      if c.events[0].namespaceId == Some(ns) {
        assert About(cs, ns)[0] == c;
      }
    }
  }

  lemma HeadReplay(c: Candidate, ns: string)
    requires OneNamespace(c.events)
    ensures B.Of(Replay(c.events), ns) == if c.events[0].namespaceId == Some(ns) then Replay(c.events) else []
  {
    OfOneNamespace(Replay(c.events), c.events[0].namespaceId.value, ns);
  }

  // ---------------------------------------------------------------- windows of an ordered stream

  lemma ReplayRenumbered(w: seq<T.Record>)
    requires forall i :: 0 <= i < |w| ==> w[i].sequence.Some?
    ensures Replay(Renumber(w)) == Raw(w)
  {
    assert forall i :: 0 <= i < |w| ==> Renumber(w)[i].sourceSequence == w[i].sequence;
  }

  predicate NumberedFrom(o: seq<T.Record>, from: int) {
    forall i :: 0 <= i < |o| ==> o[i].sequence == Some(from + i + 1)
  }

  predicate Continues(es: seq<B.Event>, from: int) {
    forall i :: 0 <= i < |es| ==> es[i].sequence == from + i + 1
  }

  predicate Beyond(es: seq<B.Event>, from: int) {
    forall i :: 0 <= i < |es| ==> from < es[i].sequence
  }

  /** What keeping some of the windows does to their events: they all come after `from`, go on without
      a gap exactly if a prefix of the windows is kept, and are all of them if all are kept. */
  ghost predicate PrefixFacts(cs: seq<Candidate>, raw: seq<B.Event>, from: int, byId: map<string, Review>) {
    var kept := Kept(cs, byId);
    var es := ReplayCandidates(kept);
    && Beyond(es, from) && (kept <= cs <==> Continues(es, from))
    && (kept == cs ==> es == raw) && (es == [] <==> kept == [])
  }

  lemma RawSplits(o: seq<T.Record>, n: nat)
    requires n <= |o|
    ensures Raw(o) == Raw(o[..n]) + Raw(o[n..])
  {
  }

  /** Keeping some windows of an ordered stretch leaves a prefix of it exactly if a prefix of the windows
      is kept. */
  lemma {:induction false} KeptIsPrefix(c: Config, h: Hashes, ns: string, exe: string, o: seq<T.Record>, from: int, byId: map<string, Review>)
    requires c.maxEvents > 0 && NumberedFrom(o, from)
    ensures PrefixFacts(CandidatesOf(c, h, ns, exe, Windows(o, c.maxEvents)), Raw(o), from, byId)
    decreases |o|
  {
    if o != [] {
      var n := Min(c.maxEvents, |o|);
      var rest := Windows(o[n..], c.maxEvents);
      assert Windows(o, c.maxEvents) == [o[..n]] + rest;
      CandidatesCons(c, h, ns, exe, o[..n], rest);
      RawSplits(o, n);
      KeptIsPrefix(c, h, ns, exe, o[n..], from + n, byId);
      ReplayRenumbered(o[..n]);
      PrefixStep(CandidateOf(c, h, ns, exe, o[..n]), CandidatesOf(c, h, ns, exe, rest), byId, Raw(o[..n]), Raw(o[n..]), from);
    }
  }

  predicate IsKept(c: Candidate, byId: map<string, Review>) {
    c.trajectoryId in byId && I.Decided(byId[c.trajectoryId].verdict)
  }

  lemma PrefixKept(head: Candidate, tail: seq<Candidate>, byId: map<string, Review>, front: seq<B.Event>, raw: seq<B.Event>, from: int)
    requires Replay(head.events) == front && front != [] && Continues(front, from) && IsKept(head, byId)
    requires PrefixFacts(tail, raw, from + |front|, byId)
    ensures PrefixFacts([head] + tail, front + raw, from, byId)
  {
    KeptHead(head, tail, byId);
    PrefixShift(front, ReplayCandidates(Kept(tail, byId)), from, |front|);
  }

  lemma PrefixDropped(head: Candidate, tail: seq<Candidate>, byId: map<string, Review>, front: seq<B.Event>, raw: seq<B.Event>, from: int)
    requires Replay(head.events) == front && front != [] && Continues(front, from) && !IsKept(head, byId)
    requires PrefixFacts(tail, raw, from + |front|, byId)
    ensures PrefixFacts([head] + tail, front + raw, from, byId)
  {
    KeptHead(head, tail, byId);
    var rest := Kept(tail, byId);
    if rest != [] {
      assert from + |front| < ReplayCandidates(rest)[0].sequence;
    }
  }

  /** One more window in front. */
  lemma PrefixStep(head: Candidate, tail: seq<Candidate>, byId: map<string, Review>, front: seq<B.Event>, raw: seq<B.Event>, from: int)
    requires Replay(head.events) == front && front != [] && Continues(front, from)
    requires PrefixFacts(tail, raw, from + |front|, byId)
    ensures PrefixFacts([head] + tail, front + raw, from, byId)
  {
    if IsKept(head, byId) {
      PrefixKept(head, tail, byId, front, raw, from);
    } else {
      PrefixDropped(head, tail, byId, front, raw, from);
    }
  }

  lemma PrefixShift(front: seq<B.Event>, es: seq<B.Event>, from: int, n: nat)
    requires |front| == n && forall i :: 0 <= i < n ==> front[i].sequence == from + i + 1
    ensures Continues(front + es, from) <==> Continues(es, from + n)
  {
    var all := front + es;
    assert forall i :: 0 <= i < |es| ==> all[n + i] == es[i];
    if forall i :: 0 <= i < |es| ==> es[i].sequence == from + n + i + 1 {
      forall i | 0 <= i < |all| ensures all[i].sequence == from + i + 1 {
        assert i >= n ==> all[i] == es[i - n];
      }
    }
  }

  lemma KeptHead(head: Candidate, tail: seq<Candidate>, byId: map<string, Review>)
    ensures var kept := Kept([head] + tail, byId);
            if head.trajectoryId in byId && I.Decided(byId[head.trajectoryId].verdict) then
              && kept == [head] + Kept(tail, byId)
              && ReplayCandidates(kept) == Replay(head.events) + ReplayCandidates(Kept(tail, byId))
              && (kept <= [head] + tail <==> Kept(tail, byId) <= tail)
              && (kept == [head] + tail <==> Kept(tail, byId) == tail)
            else kept == Kept(tail, byId) && (|kept| <= |tail|)
  {
    assert ([head] + tail)[1..] == tail;
    KeptShorter(tail, byId);
    var rest := Kept(tail, byId);
    assert ([head] + rest)[1..] == rest;
    if [head] + rest <= [head] + tail {
      assert ([head] + tail)[..1 + |rest|] == [head] + tail[..|rest|];
      assert rest == ([head] + tail)[..1 + |rest|][1..];
    }
  }

  lemma {:induction false} KeptShorter(cs: seq<Candidate>, byId: map<string, Review>)
    ensures |Kept(cs, byId)| <= |cs|
  {
    if cs != [] {
      KeptShorter(cs[1..], byId);
    }
  }

  // ---------------------------------------------------------------- the replay is transparent

  /** The windows of a namespace are those of its ordered stream, all on the same side of every selection. */
  lemma WindowsOfNamespace(c: Config, h: Hashes, events: seq<T.Record>, ns: string)
    requires Build(c, h, events).Ok?
    ensures var ws := About(Build(c, h, events).value, ns);
            var o := Observed(events, ns);
            ws != [] ==> Sequential(o) && o != [] && c.maxEvents > 0
                         && ws == CandidatesOf(c, h, ns, o[0].executable, Windows(o, c.maxEvents))
  {
    NamespaceOfBuilt(c, h, events, Sorted(NamespacesOf(events)), ns);
  }

  lemma SelectionIsUniform(c: Config, h: Hashes, ns: string, exe: string, windows: seq<seq<T.Record>>, split: Option<Split>, purpose: Option<Purpose>)
    ensures var ws := CandidatesOf(c, h, ns, exe, windows);
            forall x, y :: x in ws && y in ws ==> Selected(x, split, purpose) == Selected(y, split, purpose)
  {
    var ws := CandidatesOf(c, h, ns, exe, windows);
    forall x | x in ws ensures x.split == SplitOf(c, h, ns) && x.purpose == PurposeOf(SubjectOf(c, exe)) {
      var i :| 0 <= i < |ws| && ws[i] == x;
    }
  }

  /** The replayed stream of a namespace. */
  lemma ReplayedStream(c: Config, h: Hashes, events: seq<T.Record>, reviews: seq<Review>, split: Option<Split>,
                       purpose: Option<Purpose>, ns: string)
    requires Build(c, h, events).Ok? && |h.coverage(c)| == 64
    requires Apply(Build(c, h, events).value, reviews).Ok?
    requires Load(Apply(Build(c, h, events).value, reviews).value, split, purpose).Ok?
    ensures var ws := About(Build(c, h, events).value, ns);
            var replay := ReplayAll(Load(Apply(Build(c, h, events).value, reviews).value, split, purpose).value);
            B.Of(replay, ns) == if ws != [] && Selected(ws[0], split, purpose) then ReplayCandidates(Kept(ws, ById(reviews, map[]).value)) else []
  {
    var cs := Build(c, h, events).value;
    var ws := About(cs, ns);
    var o := Observed(events, ns);
    LoadsIffWellFormed(Apply(cs, reviews).value, split, purpose);
    BuiltIsLoadable(c, h, events);
    WindowsOfNamespace(c, h, events, ns);
    if ws != [] {
      SelectionIsUniform(c, h, ns, o[0].executable, Windows(o, c.maxEvents), split, purpose);
    }
    ReplayOfNamespace(cs, ById(reviews, map[]).value, split, purpose, ns, ws != [] && Selected(ws[0], split, purpose));
  }

  lemma RawIs(events: seq<T.Record>, ns: string)
    ensures RawOf(Raw(Observed(events, ns)), Observed(events, ns))
  {
    ObservedMembers(events, ns);
  }

  /** The engine's events are the collected ones, field by field. */
  predicate RawOf(raw: seq<B.Event>, o: seq<T.Record>) {
    && |raw| == |o|
    && forall i :: 0 <= i < |o| ==>
         && o[i].namespaceId == Some(raw[i].namespaceId) && (o[i].eventId.Some? ==> o[i].eventId == Some(raw[i].id))
         && (o[i].sequence.Some? ==> o[i].sequence == Some(raw[i].sequence))
         && o[i].operation == raw[i].operation && o[i].labels == raw[i].labels
  }

  /** The decisions a replay of the loaded corpus makes about a namespace, whatever else is in the corpus:
      none if the namespace is not selected. If it is, the proxy never abstains exactly if the reviewed
      windows that survive are a prefix of all its windows; and if all survive, the decisions are those on
      the raw ordered stream, which has no gap. */
  lemma ReplayIsTransparent(c: Config, h: Hashes, events: seq<T.Record>, reviews: seq<Review>, split: Option<Split>,
                            purpose: Option<Purpose>, ns: string)
    requires Build(c, h, events).Ok? && |h.coverage(c)| == 64
    requires Apply(Build(c, h, events).value, reviews).Ok?
    requires Load(Apply(Build(c, h, events).value, reviews).value, split, purpose).Ok?
    ensures var ws := About(Build(c, h, events).value, ns);
            var kept := Kept(ws, ById(reviews, map[]).value);
            var replay := ReplayAll(Load(Apply(Build(c, h, events).value, reviews).value, split, purpose).value);
            var raw := Raw(Observed(events, ns));
            && RawOf(raw, Observed(events, ns))
            && (ws == [] || !Selected(ws[0], split, purpose) ==> B.DecisionsOf(replay, ns) == [])
            && (ws != [] && Selected(ws[0], split, purpose) ==>
                  (B.AbstainFree(B.DecisionsOf(replay, ns)) <==> kept <= ws))
            && (ws != [] && Selected(ws[0], split, purpose) && kept == ws ==>
                  B.DecisionsOf(replay, ns) == B.StreamDecisions(raw) && B.GapFree(raw))
  {
    var ws := About(Build(c, h, events).value, ns);
    var o := Observed(events, ns);
    var replay := ReplayAll(Load(Apply(Build(c, h, events).value, reviews).value, split, purpose).value);
    ReplayedStream(c, h, events, reviews, split, purpose, ns);
    RawIs(events, ns);
    B.NamespacesAreIsolated(replay, ns);
    B.AbstainFreeIffGapFree(B.Of(replay, ns));
    if ws != [] {
      WindowsOfNamespace(c, h, events, ns);
      KeptIsPrefix(c, h, ns, o[0].executable, o, 0, ById(reviews, map[]).value);
    }
  }

  // ---------------------------------------------------------------- what the evaluation counts

  /** The review decides the candidate. */
  predicate Decides(r: Review, c: Candidate) {
    r.trajectoryId == c.trajectoryId && (r.verdict == Benign || r.verdict == Malicious)
  }

  /** The candidates that the reviews keep and the selection asks for, in order. */
  function Chosen(cs: seq<Candidate>, reviews: seq<Review>, split: Option<Split>, purpose: Option<Purpose>): seq<Candidate> {
    if cs == [] then []
    else
      var c := cs[0];
      (if (exists r :: r in reviews && Decides(r, c)) && (split == None || split == Some(c.split))
          && (purpose == None || purpose == Some(c.purpose)) then [c] else [])
      + Chosen(cs[1..], reviews, split, purpose)
  }

  /** The trajectory is the candidate as the review labels it. */
  predicate Labelled(t: Trajectory, c: Candidate, r: Review) {
    && Decides(r, c) && t.malicious == (r.verdict == Malicious) && t.family == r.family
    && t.confidence == (match r.confidence case None => High case Some(confidence) => confidence)
    && t.caseId == c.trajectoryId && t.events == c.events && t.split == c.split && t.scope == c.scope
    && t.coverageDigest == c.coverageDigest && t.subject == c.subject && t.purpose == c.purpose
  }

  ghost predicate LabelledBy(t: Trajectory, c: Candidate, reviews: seq<Review>) {
    exists r :: r in reviews && Labelled(t, c, r)
  }

  ghost predicate AllLabelled(ts: seq<Trajectory>, cs: seq<Candidate>, reviews: seq<Review>) {
    |ts| == |cs| && forall i :: 0 <= i < |ts| ==> LabelledBy(ts[i], cs[i], reviews)
  }

  /** No other review is about the candidate. */
  predicate OneReviewEach(reviews: seq<Review>, byId: map<string, Review>) {
    && (forall r :: r in reviews ==> r.trajectoryId in byId && byId[r.trajectoryId] == r)
    && forall id :: id in byId ==> byId[id] in reviews && byId[id].trajectoryId == id
  }

  lemma {:induction false} FiledUnderOwnId(reviews: seq<Review>, byId: map<string, Review>)
    requires ById(reviews, byId).Ok? && forall id :: id in byId ==> byId[id].trajectoryId == id
    ensures forall id :: id in ById(reviews, byId).value ==> ById(reviews, byId).value[id].trajectoryId == id
    decreases |reviews|
  {
    if reviews != [] {
      FiledUnderOwnId(reviews[1..], byId[reviews[0].trajectoryId := reviews[0]]);
    }
  }

  lemma HeadIsLabelled(c: Candidate, reviews: seq<Review>, byId: map<string, Review>, split: Option<Split>, purpose: Option<Purpose>)
    requires OneReviewEach(reviews, byId) && c.trajectoryId in byId
    ensures AllLabelled(Loaded(c, byId, split, purpose), Chosen([c], reviews, split, purpose), reviews)
  {
    var r := byId[c.trajectoryId];
    assert [c][1..] == [];
    if Loaded(c, byId, split, purpose) != [] {
      assert r in reviews && Labelled(Loaded(c, byId, split, purpose)[0], c, r);
    }
  }

  lemma ChosenStep(cs: seq<Candidate>, reviews: seq<Review>, split: Option<Split>, purpose: Option<Purpose>)
    requires cs != []
    ensures Chosen(cs, reviews, split, purpose) == Chosen([cs[0]], reviews, split, purpose) + Chosen(cs[1..], reviews, split, purpose)
  {
    assert [cs[0]][1..] == [];
  }

  lemma LabelledJoin(ts: seq<Trajectory>, cs: seq<Candidate>, us: seq<Trajectory>, ds: seq<Candidate>, reviews: seq<Review>)
    requires AllLabelled(ts, cs, reviews) && AllLabelled(us, ds, reviews)
    ensures AllLabelled(ts + us, cs + ds, reviews)
  {
  }

  lemma {:induction false} PickedAreLabelled(cs: seq<Candidate>, reviews: seq<Review>, byId: map<string, Review>,
                                             split: Option<Split>, purpose: Option<Purpose>)
    requires CandidateIds(cs) <= byId.Keys && OneReviewEach(reviews, byId)
    ensures AllLabelled(Pick(Reviewed(cs, byId), split, purpose), Chosen(cs, reviews, split, purpose), reviews)
  {
    if cs != [] {
      PickStep(cs, byId, split, purpose);
      ChosenStep(cs, reviews, split, purpose);
      HeadIsLabelled(cs[0], reviews, byId, split, purpose);
      PickedAreLabelled(cs[1..], reviews, byId, split, purpose);
      LabelledJoin(Loaded(cs[0], byId, split, purpose), Chosen([cs[0]], reviews, split, purpose),
                   Pick(Reviewed(cs[1..], byId), split, purpose), Chosen(cs[1..], reviews, split, purpose), reviews);
    }
  }

  /** What loads are exactly the chosen candidates, in order, each malicious if and only if its review says so,
      with that review's family and confidence. */
  lemma LoadedAsReviewed(cs: seq<Candidate>, reviews: seq<Review>, split: Option<Split>, purpose: Option<Purpose>)
    requires Apply(cs, reviews).Ok? && Load(Apply(cs, reviews).value, split, purpose).Ok?
    ensures AllLabelled(Load(Apply(cs, reviews).value, split, purpose).value, Chosen(cs, reviews, split, purpose), reviews)
  {
    var byId := ById(reviews, map[]).value;
    ByIdHolds(reviews, map[]);
    FiledUnderOwnId(reviews, map[]);
    LoadsIffWellFormed(Apply(cs, reviews).value, split, purpose);
    PickedAreLabelled(cs, reviews, byId, split, purpose);
  }

  lemma {:induction false} ReplayOfLabelled(ts: seq<Trajectory>, cs: seq<Candidate>, reviews: seq<Review>)
    requires AllLabelled(ts, cs, reviews)
    ensures ReplayAll(ts) == ReplayCandidates(cs)
  {
    if ts != [] {
      var n := |ts| - 1;
      ReplayOfLabelled(ts[..n], cs[..n], reviews);
      assert LabelledBy(ts[n], cs[n], reviews);
      assert cs == cs[..n] + [cs[n]];
      CandidatesLast(cs[..n], cs[n]);
    }
  }

  lemma {:induction false} CandidatesLast(cs: seq<Candidate>, c: Candidate)
    ensures ReplayCandidates(cs + [c]) == ReplayCandidates(cs) + Replay(c.events)
  {
    if cs == [] {
      assert [] + [c] == [c] && [c][1..] == [];
      assert Replay(c.events) + [] == [] + Replay(c.events);
    } else {
      assert (cs + [c])[1..] == cs[1..] + [c];
      CandidatesLast(cs[1..], c);
      assert Replay(cs[0].events) + (ReplayCandidates(cs[1..]) + Replay(c.events)) ==
             (Replay(cs[0].events) + ReplayCandidates(cs[1..])) + Replay(c.events);
    }
  }

  lemma OutcomeOfLast(front: seq<Trajectory>, t: Trajectory)
    ensures |Outcomes(front + [t])| == |front| + 1
    ensures Outcomes(front + [t])[|front|] == OutcomeOf(t, LastDecision(ReplayAll(front + [t])))
  {
    OutcomesStep(front, t);
    OutcomesLength(front);
  }

  lemma NextKeepsOutcome(front: seq<Trajectory>, t: Trajectory, i: nat)
    requires i < |front|
    ensures |Outcomes(front)| == |front| && |Outcomes(front + [t])| == |front| + 1
    ensures Outcomes(front + [t])[i] == Outcomes(front)[i]
  {
    OutcomesStep(front, t);
    OutcomesLength(front);
  }

  /** Later trajectories change no earlier outcome. */
  lemma {:induction false} OutcomeStays(front: seq<Trajectory>, more: seq<Trajectory>, i: nat, o: Outcome)
    requires i < |front| && |Outcomes(front)| == |front| && Outcomes(front)[i] == o
    ensures |Outcomes(front + more)| == |front + more| && Outcomes(front + more)[i] == o
    decreases |more|
  {
    Regroup(front, more);
    if more != [] {
      NextKeepsOutcome(front, more[0], i);
      OutcomeStays(front + [more[0]], more[1..], i, o);
    }
  }

  lemma Regroup<T>(a: seq<T>, b: seq<T>)
    ensures if b == [] then a + b == a else a + b == (a + [b[0]]) + b[1..]
  {
  }

  lemma OutcomeAt(ts: seq<Trajectory>, i: nat)
    requires i < |ts|
    ensures |Outcomes(ts)| == |ts| && Outcomes(ts)[i] == OutcomeOf(ts[i], LastDecision(ReplayAll(ts[..i + 1])))
  {
    var front, more := ts[..i], ts[i + 1..];
    assert ts[..i + 1] == front + [ts[i]] && ts == (front + [ts[i]]) + more;
    OutcomeOfLast(front, ts[i]);
    OutcomeStays(front + [ts[i]], more, i, OutcomeOf(ts[i], LastDecision(ReplayAll(front + [ts[i]]))));
  }

  lemma {:induction false} OutcomesLength(ts: seq<Trajectory>)
    ensures |Outcomes(ts)| == |ts|
  {
    if ts != [] {
      OutcomesLength(ts[..|ts| - 1]);
    }
  }

  /** The decision on the last event of a chosen candidate, after everything replayed before it. */
  function Effect(chosen: seq<Candidate>, i: nat): B.Effect
    requires i < |chosen|
  {
    LastDecision(ReplayCandidates(chosen[..i + 1])).effect
  }

  predicate ReviewedAs(c: Candidate, reviews: seq<Review>, verdict: Label) {
    exists r :: r in reviews && r.trajectoryId == c.trajectoryId && r.verdict == verdict
  }

  /** How many chosen candidates a review calls so and the engine decides so. */
  function Cell(chosen: seq<Candidate>, reviews: seq<Review>, verdict: Label, effect: B.Effect): nat {
    |set i: nat | i < |chosen| && ReviewedAs(chosen[i], reviews, verdict) && Effect(chosen, i) == effect|
  }

  function Where(os: seq<Outcome>, p: Outcome -> bool): set<nat> { set i: nat | i < |os| && p(os[i]) }

  lemma WhereLast(os: seq<Outcome>, o: Outcome, p: Outcome -> bool)
    ensures Where(os + [o], p) == Where(os, p) + if p(o) then {|os|} else {}
  {
  }

  lemma {:induction false} CountIsCardinality(os: seq<Outcome>, p: Outcome -> bool)
    ensures CountIf(os, p) == |Where(os, p)|
  {
    if os != [] {
      var n := |os| - 1;
      CountIsCardinality(os[..n], p);
      WhereLast(os[..n], os[n], p);
      assert os == os[..n] + [os[n]];
    }
  }

  lemma ReviewsAgree(reviews: seq<Review>, t: Trajectory, c: Candidate)
    requires ById(reviews, map[]).Ok? && LabelledBy(t, c, reviews)
    ensures ReviewedAs(c, reviews, Malicious) <==> t.malicious
    ensures ReviewedAs(c, reviews, Benign) <==> !t.malicious
  {
    ByIdHolds(reviews, map[]);
    var r :| r in reviews && Labelled(t, c, r);
    var byId := ById(reviews, map[]).value;
    assert byId[c.trajectoryId] == r;
  }

  /** Each trajectory's outcome, in terms of its review and the replayed candidates. */
  lemma OutcomeAsReviewed(ts: seq<Trajectory>, chosen: seq<Candidate>, reviews: seq<Review>, i: nat)
    requires ById(reviews, map[]).Ok? && AllLabelled(ts, chosen, reviews) && i < |ts|
    ensures |Outcomes(ts)| == |ts|
    ensures var o := Outcomes(ts)[i];
            && o.effect == Effect(chosen, i)
            && (o.malicious <==> ReviewedAs(chosen[i], reviews, Malicious)) && (!o.malicious <==> ReviewedAs(chosen[i], reviews, Benign))
            && exists r :: r in reviews && Decides(r, chosen[i]) && o.family == KeyOf(r.family)
                           && o.confidence == (match r.confidence case None => High case Some(confidence) => confidence)
  {
    OutcomeAt(ts, i);
    assert LabelledBy(ts[i], chosen[i], reviews);
    ReviewsAgree(reviews, ts[i], chosen[i]);
    assert AllLabelled(ts[..i + 1], chosen[..i + 1], reviews) by {
      assert forall k :: 0 <= k <= i ==> LabelledBy(ts[k], chosen[k], reviews);
    }
    ReplayOfLabelled(ts[..i + 1], chosen[..i + 1], reviews);
    var r :| r in reviews && Labelled(ts[i], chosen[i], r);
    assert Decides(r, chosen[i]);
  }

  lemma CellIs(os: seq<Outcome>, chosen: seq<Candidate>, reviews: seq<Review>, p: Outcome -> bool, verdict: Label, effect: B.Effect)
    requires |os| == |chosen|
    requires forall i :: 0 <= i < |os| ==> (p(os[i]) <==> ReviewedAs(chosen[i], reviews, verdict) && Effect(chosen, i) == effect)
    ensures CountIf(os, p) == Cell(chosen, reviews, verdict, effect)
  {
    CountIsCardinality(os, p);
    assert Where(os, p) ==
           (set i: nat | i < |chosen| && ReviewedAs(chosen[i], reviews, verdict) && Effect(chosen, i) == effect);
  }

  /** End to end: the evaluation of what was reviewed and loaded counts the chosen candidates by what their
      reviews call them and what the engine decides on their last replayed event. */
  lemma EvaluationMeans(cs: seq<Candidate>, reviews: seq<Review>, split: Option<Split>, purpose: Option<Purpose>)
    requires Apply(cs, reviews).Ok? && Load(Apply(cs, reviews).value, split, purpose).Ok?
    ensures var ts := Load(Apply(cs, reviews).value, split, purpose).value;
            var total := ReportOn(Outcomes(ts)).total;
            var chosen := Chosen(cs, reviews, split, purpose);
            && total.tp == Cell(chosen, reviews, Malicious, B.DENY) && total.fn == Cell(chosen, reviews, Malicious, B.ALLOW)
            && total.fp == Cell(chosen, reviews, Benign, B.DENY) && total.tn == Cell(chosen, reviews, Benign, B.ALLOW)
            && total.Size() == |chosen|
  {
    var ts := Load(Apply(cs, reviews).value, split, purpose).value;
    var chosen := Chosen(cs, reviews, split, purpose);
    LoadedAsReviewed(cs, reviews, split, purpose);
    OutcomesLength(ts);
    var os := Outcomes(ts);
    TallyMeans(os);
    forall i | 0 <= i < |os|
      ensures os[i].effect == Effect(chosen, i)
      ensures os[i].malicious <==> ReviewedAs(chosen[i], reviews, Malicious)
      ensures !os[i].malicious <==> ReviewedAs(chosen[i], reviews, Benign)
    {
      OutcomeAsReviewed(ts, chosen, reviews, i);
    }
    CellIs(os, chosen, reviews, TruePositive, Malicious, B.DENY);
    CellIs(os, chosen, reviews, FalseNegative, Malicious, B.ALLOW);
    CellIs(os, chosen, reviews, FalsePositive, Benign, B.DENY);
    CellIs(os, chosen, reviews, TrueNegative, Benign, B.ALLOW);
  }
}
