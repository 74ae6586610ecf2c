/** From normalized telemetry to reviewable windows: grouping, ordering, windowing and renumbering. */
module TelemetryPipeline {
  import opened Wrappers
  import opened Text
  import BenchmarkEngines

  datatype Source = Ptrace | Bpf | Audit | AgentBroker | OtherSource

  /** One telemetry event. Fields that may be missing are optional; `sourceSequence` is what the
      provenance records of the canonical position. */
  datatype Record = Record(namespaceId: Option<string>, eventId: Option<string>, sequence: Option<int>,
                           source: Source, sourceSequence: Option<int>, executable: string,
                           operation: BenchmarkEngines.Operation, labels: set<string>)

  /** A JSON value where Python asks for no type: a text, another value that can be a dictionary key, known
      by what it equals as one, or a list or object. */
  datatype Value = Textual(text: string) | Scalar(key: int, shown: string) | Container(shown: string)

  /** `str(value)` */
  function Str(v: Value): string { if v.Textual? then v.text else v.shown }

  datatype Scope = SystemWide | ProtectedOnly | Allowlist | OtherScope

  datatype Split = Calibration | Test | OtherSplit

  datatype Subject = Protected | External | OtherSubject

  datatype Purpose = SecurityEfficacy | FalsePositiveMonitoring | OtherPurpose

  datatype Config = Config(collectorRevision: string, calibrationPercent: int, minEvents: int, maxEvents: int,
                           scope: Scope, protectedExecutables: set<string>, includeExternal: bool)

  /** The digests: a namespace's bucket, a window's identity, and the coverage configuration. */
  datatype Hashes = Hashes(bucket: string -> nat, identity: (string, seq<string>) -> string, coverage: Config -> string)

  datatype Candidate = Candidate(trajectoryId: string, pending: bool, split: Split, collectorRevision: Value,
                                 scope: Scope, coverageDigest: string, subject: Subject, purpose: Purpose,
                                 events: seq<Record>)

  /** Python's white space. */
  predicate IsSpace(c: char) {
    var u := c as int;
    0x9 <= u <= 0xD || 0x1C <= u <= 0x20 || u == 0x85 || u == 0xA0 || u == 0x1680 || 0x2000 <= u <= 0x200A
    || u == 0x2028 || u == 0x2029 || u == 0x202F || u == 0x205F || u == 0x3000
  }

  predicate Blank(s: string) { forall i :: 0 <= i < |s| ==> IsSpace(s[i]) }

  function ConfigError(c: Config): Option<string> {
    if Blank(c.collectorRevision) then Some("collector revision is required")
    else if !(1 <= c.calibrationPercent <= 99) then Some("calibration percent must be between 1 and 99")
    else if c.minEvents < 1 then Some("minimum events must be positive")
    else if c.maxEvents < c.minEvents then Some("maximum events must be at least minimum events")
    else if c.scope.OtherScope? then Some("invalid coverage scope")
    else None
  }

  // ---------------------------------------------------------------- grouping

  function RecordError(r: Record, seen: set<string>): Option<string> {
    if r.namespaceId.None? || r.namespaceId.value == "" then Some("namespace_id is required")
    else if r.eventId.None? || r.eventId.value in seen then Some("duplicate or missing event_id")
    else if r.source.OtherSource? then Some("not independent telemetry")
    else None
  }

  function GroupError(events: seq<Record>, seen: set<string>): Option<string>
    decreases |events|
  {
    if events == [] then None
    else if RecordError(events[0], seen).Some? then RecordError(events[0], seen)
    else GroupError(events[1..], seen + {events[0].eventId.value})
  }

  /** The events of a namespace, in input order. */
  function Of(events: seq<Record>, ns: string): seq<Record> {
    if events == [] then []
    else
      var r := events[|events| - 1];
      Of(events[..|events| - 1], ns) + if r.namespaceId == Some(ns) then [r] else []
  }

  function NamespacesOf(events: seq<Record>): set<string> {
    set r | r in events && r.namespaceId.Some? :: r.namespaceId.value
  }

  // ---------------------------------------------------------------- ordering

  function SortKey(r: Record): int { if r.sequence.Some? then r.sequence.value else -1 }

  /** A stable sort by sequence. */
  function Insert(r: Record, s: seq<Record>): seq<Record> {
    if s == [] || SortKey(r) < SortKey(s[0]) then [r] + s else [s[0]] + Insert(r, s[1..])
  }

  function SortBySequence(s: seq<Record>): seq<Record> {
    if s == [] then [] else Insert(s[|s| - 1], SortBySequence(s[..|s| - 1]))
  }

  predicate Sequential(s: seq<Record>) {
    forall i :: 0 <= i < |s| ==> s[i].sequence == Some(i + 1)
  }

  // ---------------------------------------------------------------- windows

  function Min(a: int, b: int): int { if a < b then a else b }

  /** A window with its own numbering; the provenance keeps the position in the stream. */
  function Renumber(w: seq<Record>): seq<Record> {
    seq(|w|, i requires 0 <= i < |w| => w[i].(sourceSequence := w[i].sequence, sequence := Some(i + 1)))
  }

  function Windows(observed: seq<Record>, size: nat): seq<seq<Record>>
    requires size > 0
    decreases |observed|
  {
    if observed == [] then []
    else var n := Min(size, |observed|); [observed[..n]] + Windows(observed[n..], size)
  }

  function Ids(w: seq<Record>): seq<string> {
    seq(|w|, i requires 0 <= i < |w| => if w[i].eventId.Some? then w[i].eventId.value else "")
  }

  function SplitOf(c: Config, h: Hashes, ns: string): Split {
    if h.bucket(ns) % 100 < c.calibrationPercent then Calibration else Test
  }

  function SubjectOf(c: Config, executable: string): Subject {
    if c.scope.ProtectedOnly? || executable in c.protectedExecutables then Protected else External
  }

  function PurposeOf(s: Subject): Purpose {
    if s.Protected? then SecurityEfficacy else FalsePositiveMonitoring
  }

  function CandidateOf(c: Config, h: Hashes, ns: string, executable: string, window: seq<Record>): Candidate {
    var subject := SubjectOf(c, executable);
    Candidate(h.identity(ns, Ids(window)), true, SplitOf(c, h, ns), Textual(c.collectorRevision), c.scope, h.coverage(c),
              subject, PurposeOf(subject), Renumber(window))
  }

  function CandidatesOf(c: Config, h: Hashes, ns: string, executable: string, windows: seq<seq<Record>>): seq<Candidate> {
    seq(|windows|, i requires 0 <= i < |windows| => CandidateOf(c, h, ns, executable, windows[i]))
  }

  /** What one namespace contributes; `observed` is in order. */
  function NamespaceCandidates(c: Config, h: Hashes, ns: string, observed: seq<Record>): Result<seq<Candidate>>
    requires c.maxEvents > 0
  {
    if |observed| < c.minEvents || observed == [] then Ok([])
    else if !Sequential(observed) then Err("sequence gap")
    else if !c.includeExternal && observed[0].executable !in c.protectedExecutables then Ok([])
    else Ok(CandidatesOf(c, h, ns, observed[0].executable, Windows(observed, c.maxEvents)))
  }

  function Prepend(front: seq<Candidate>, r: Result<seq<Candidate>>): Result<seq<Candidate>> {
    if r.Ok? then Ok(front + r.value) else r
  }

  function BuildNamespaces(c: Config, h: Hashes, events: seq<Record>, keys: seq<string>): Result<seq<Candidate>>
    requires c.maxEvents > 0
    decreases |keys|
  {
    if keys == [] then Ok([])
    else
      var first := NamespaceCandidates(c, h, keys[0], SortBySequence(Of(events, keys[0])));
      if first.Err? then first else Prepend(first.value, BuildNamespaces(c, h, events, keys[1..]))
  }

  ghost function Build(c: Config, h: Hashes, events: seq<Record>): Result<seq<Candidate>> {
    if ConfigError(c).Some? then Err(ConfigError(c).value)
    else if GroupError(events, {}).Some? then Err(GroupError(events, {}).value)
    else
      var built := BuildNamespaces(c, h, events, Sorted(NamespacesOf(events)));
      if built == Ok([]) then Err("no trajectories met the collection criteria") else built
  }

  /** The dictionary of the events so far, by namespace. */
  ghost predicate Grouped(grouped: map<string, seq<Record>>, events: seq<Record>) {
    && grouped.Keys == NamespacesOf(events)
    && forall ns :: Of(events, ns) == GroupOf(grouped, ns)
  }

  function GroupOf(grouped: map<string, seq<Record>>, ns: string): seq<Record> {
    if ns in grouped then grouped[ns] else []
  }

  lemma OfStep(events: seq<Record>, event: Record, ns: string)
    ensures Of(events + [event], ns) == if event.namespaceId == Some(ns) then Of(events, ns) + [event] else Of(events, ns)
  {
    assert (events + [event])[..|events|] == events;
    assert Of(events, ns) + [] == Of(events, ns);
  }

  lemma NamespacesStep(events: seq<Record>, event: Record, ns: string)
    requires event.namespaceId == Some(ns)
    ensures NamespacesOf(events + [event]) == NamespacesOf(events) + {ns}
  {
    assert forall x :: x in events + [event] <==> x in events || x == event;
  }

  lemma GroupedStep(grouped: map<string, seq<Record>>, next: map<string, seq<Record>>, events: seq<Record>, event: Record, ns: string)
    requires Grouped(grouped, events) && event.namespaceId == Some(ns)
    requires next == grouped[ns := GroupOf(grouped, ns) + [event]]
    ensures Grouped(next, events + [event])
  {
    NamespacesStep(events, event, ns);
    forall other ensures Of(events + [event], other) == GroupOf(next, other) {
      OfStep(events, event, other);
    }
  }

  lemma GroupErrorNext(events: seq<Record>, i: nat, seen: set<string>)
    requires i < |events|
    ensures GroupError(events[i..], seen) ==
            if RecordError(events[i], seen).Some? then RecordError(events[i], seen)
            else GroupError(events[i + 1..], seen + {events[i].eventId.value})
  {
    assert events[i..][0] == events[i] && events[i..][1..] == events[i + 1..];
  }

  method AddTo(grouped: map<string, seq<Record>>, event: Record, ns: string, ghost front: seq<Record>)
    returns (next: map<string, seq<Record>>)
    requires Grouped(grouped, front) && event.namespaceId == Some(ns)
    ensures Grouped(next, front + [event])
  {
    next := grouped[ns := GroupOf(grouped, ns) + [event]];
    GroupedStep(grouped, next, front, event, ns);
  }

  method Group(events: seq<Record>) returns (r: Result<map<string, seq<Record>>>)
    ensures var e := GroupError(events, {}); if e.Some? then r == Err(e.value) else r.Ok?
    ensures r.Ok? ==> Grouped(r.value, events)
  {
    var grouped: map<string, seq<Record>> := map[];
    var seen: set<string> := {};
    ghost var front: seq<Record> := [];
    ghost var goal := GroupError(events, {});
    assert events[0..] == events;
    for i := 0 to |events|
      invariant goal == GroupError(events[i..], seen)
      invariant front == events[..i] && Grouped(grouped, front)
    {
      var event := events[i];
      GroupErrorNext(events, i, seen);
      var error := RecordError(event, seen);
      if error.Some? {
        return Err(error.value);
      }
      seen := seen + {event.eventId.value};
      grouped := AddTo(grouped, event, event.namespaceId.value, front);
      front := front + [event];
    }
    assert front == events && events[|events|..] == [];
    r := Ok(grouped);
  }

  lemma NextWindow(observed: seq<Record>, start: nat, size: nat)
    requires size > 0 && start < |observed|
    ensures var end := Min(start + size, |observed|);
            Windows(observed[start..], size) == [observed[start..end]] + Windows(observed[end..], size)
  {
    var end, n := Min(start + size, |observed|), Min(size, |observed[start..]|);
    assert observed[start..][..n] == observed[start..end] && observed[start..][n..] == observed[end..];
  }

  lemma LastWindow(c: Config, h: Hashes, ns: string, executable: string, cut: seq<seq<Record>>, window: seq<Record>,
                   rest: seq<seq<Record>>)
    ensures cut + ([window] + rest) == (cut + [window]) + rest
    ensures CandidatesOf(c, h, ns, executable, cut + [window]) ==
            CandidatesOf(c, h, ns, executable, cut) + [CandidateOf(c, h, ns, executable, window)]
  {
  }

  /** The windows of one ordered namespace, by stepping through it. */
  method CutWindows(c: Config, h: Hashes, ns: string, observed: seq<Record>) returns (r: seq<Candidate>)
    requires observed != [] && c.maxEvents > 0
    ensures r == CandidatesOf(c, h, ns, observed[0].executable, Windows(observed, c.maxEvents))
  {
    r := [];
    ghost var cut: seq<seq<Record>> := [];
    var start := 0;
    while start < |observed|
      invariant 0 <= start <= |observed|
      invariant Windows(observed, c.maxEvents) == cut + Windows(observed[start..], c.maxEvents)
      invariant r == CandidatesOf(c, h, ns, observed[0].executable, cut)
    {
      var end := Min(start + c.maxEvents, |observed|);
      var window := observed[start..end];
      NextWindow(observed, start, c.maxEvents);
      LastWindow(c, h, ns, observed[0].executable, cut, window, Windows(observed[end..], c.maxEvents));
      r := r + [CandidateOf(c, h, ns, observed[0].executable, window)];
      cut := cut + [window];
      start := end;
    }
    assert cut + [] == cut;
  }

  method BuildNamespace(c: Config, h: Hashes, ns: string, grouped: seq<Record>) returns (r: Result<seq<Candidate>>)
    requires c.maxEvents > 0
    ensures r == NamespaceCandidates(c, h, ns, SortBySequence(grouped))
  {
    var observed := SortBySequence(grouped);
    if |observed| < c.minEvents || observed == [] {
      return Ok([]);
    }
    if !Sequential(observed) {
      return Err("sequence gap");
    }
    if !c.includeExternal && observed[0].executable !in c.protectedExecutables {
      return Ok([]);
    }
    var windows := CutWindows(c, h, ns, observed);
    r := Ok(windows);
  }

  lemma BuildNext(c: Config, h: Hashes, events: seq<Record>, keys: seq<string>, i: nat, front: seq<Candidate>)
    requires c.maxEvents > 0 && i < |keys|
    ensures Prepend(front, BuildNamespaces(c, h, events, keys[i..])) ==
            (var first := NamespaceCandidates(c, h, keys[i], SortBySequence(Of(events, keys[i])));
             if first.Err? then first else Prepend(front + first.value, BuildNamespaces(c, h, events, keys[i + 1..])))
  {
    assert keys[i..][0] == keys[i] && keys[i..][1..] == keys[i + 1..];
    var first := NamespaceCandidates(c, h, keys[i], SortBySequence(Of(events, keys[i])));
    var rest := BuildNamespaces(c, h, events, keys[i + 1..]);
    if first.Ok? && rest.Ok? {
      assert front + (first.value + rest.value) == (front + first.value) + rest.value;
    }
  }

  method BuildEach(c: Config, h: Hashes, ghost events: seq<Record>, grouped: map<string, seq<Record>>, keys: seq<string>)
    returns (r: Result<seq<Candidate>>)
    requires c.maxEvents > 0
    requires forall i :: 0 <= i < |keys| ==> keys[i] in grouped && grouped[keys[i]] == Of(events, keys[i])
    ensures r == BuildNamespaces(c, h, events, keys)
  {
    var candidates: seq<Candidate> := [];
    ghost var all := BuildNamespaces(c, h, events, keys);
    assert keys[0..] == keys && (all.Ok? ==> [] + all.value == all.value);
    for i := 0 to |keys|
      invariant all == Prepend(candidates, BuildNamespaces(c, h, events, keys[i..]))
    {
      BuildNext(c, h, events, keys, i, candidates);
      var built := BuildNamespace(c, h, keys[i], grouped[keys[i]]);
      if built.Err? {
        return built;
      }
      candidates := candidates + built.value;
    }
    assert keys[|keys|..] == [] && candidates + [] == candidates;
    r := Ok(candidates);
  }

  lemma KeysAreGrouped(grouped: map<string, seq<Record>>, events: seq<Record>, keys: seq<string>)
    requires Grouped(grouped, events) && Elements(keys) == grouped.Keys
    ensures forall i :: 0 <= i < |keys| ==> keys[i] in grouped && grouped[keys[i]] == Of(events, keys[i])
  {
    assert forall i :: 0 <= i < |keys| ==> keys[i] in Elements(keys);
  }

  method BuildCandidates(c: Config, h: Hashes, events: seq<Record>) returns (r: Result<seq<Candidate>>)
    ensures r == Build(c, h, events)
  {
    var error := ConfigError(c);
    if error.Some? {
      return Err(error.value);
    }
    var grouped := Group(events);
    if grouped.Err? {
      return Err(grouped.error);
    }
    var keys := SortKeys(grouped.value.Keys);
    KeysAreGrouped(grouped.value, events, keys);
    r := BuildEach(c, h, events, grouped.value, keys);
    if r == Ok([]) {
      r := Err("no trajectories met the collection criteria");
    }
  }

  // ---------------------------------------------------------------- the order of the input does not matter

  predicate Acceptable(r: Record) {
    r.namespaceId.Some? && r.namespaceId.value != "" && r.eventId.Some? && r.source != OtherSource
  }

  /** What makes a batch acceptable, whatever its order: sound records with ids of their own. */
  ghost predicate Groupable(m: multiset<Record>) {
    && (forall r :: r in m ==> Acceptable(r) && m[r] == 1)
    && forall r, q :: r in m && q in m && r.eventId == q.eventId ==> r == q
  }

  ghost predicate AllFresh(m: multiset<Record>, seen: set<string>) {
    forall r :: r in m ==> r.eventId.Some? && r.eventId.value !in seen
  }

  lemma GroupableSplits(e: Record, m: multiset<Record>)
    ensures Groupable(multiset{e} + m) <==>
            Acceptable(e) && Groupable(m) && forall r :: r in m ==> r.eventId != e.eventId
  {
    var all := multiset{e} + m;
    assert forall r :: r in all <==> r == e || r in m;
    if Groupable(all) {
      assert e in all && all[e] == 1;
      assert forall r :: r in m ==> r in all && m[r] <= all[r];
    }
    if Acceptable(e) && Groupable(m) && forall r :: r in m ==> r.eventId != e.eventId {
      assert e !in m;
      assert forall r :: r in all ==> all[r] == if r == e then 1 else m[r];
    }
  }

  lemma FreshSplits(e: Record, m: multiset<Record>, seen: set<string>)
    requires e.eventId.Some?
    ensures AllFresh(multiset{e} + m, seen) && (forall r :: r in m ==> r.eventId != e.eventId) <==>
            e.eventId.value !in seen && AllFresh(m, seen + {e.eventId.value})
  {
    assert forall r :: r in multiset{e} + m <==> r == e || r in m;
  }

  lemma {:induction false} GroupsIffGroupable(events: seq<Record>, seen: set<string>)
    ensures GroupError(events, seen).None? <==> Groupable(multiset(events)) && AllFresh(multiset(events), seen)
    decreases |events|
  {
    if events != [] {
      var e, rest := events[0], events[1..];
      assert events == [e] + rest;
      assert multiset(events) == multiset{e} + multiset(rest);
      GroupableSplits(e, multiset(rest));
      if RecordError(e, {}).None? {
        GroupsIffGroupable(rest, seen + {e.eventId.value});
        FreshSplits(e, multiset(rest), seen);
      }
    }
  }

  lemma {:induction false} OfCounts(events: seq<Record>, ns: string, r: Record)
    ensures multiset(Of(events, ns))[r] == if r.namespaceId == Some(ns) then multiset(events)[r] else 0
  {
    if events != [] {
      var init, e := events[..|events| - 1], events[|events| - 1];
      OfCounts(init, ns, r);
      assert events == init + [e];
    }
  }

  predicate InOrder(s: seq<Record>) {
    forall i, j :: 0 <= i < j < |s| ==> SortKey(s[i]) <= SortKey(s[j])
  }

  lemma ConsInOrder(r: Record, s: seq<Record>)
    requires InOrder(s) && forall x :: x in multiset(s) ==> SortKey(r) <= SortKey(x)
    ensures InOrder([r] + s)
  {
    assert forall i :: 0 <= i < |s| ==> s[i] in multiset(s);
  }

  lemma {:induction false} InsertCounts(r: Record, s: seq<Record>)
    ensures multiset(Insert(r, s)) == multiset(s) + multiset{r}
  {
    if s != [] && SortKey(s[0]) <= SortKey(r) {
      InsertCounts(r, s[1..]);
      assert s == [s[0]] + s[1..];
    }
  }

  lemma {:induction false} InsertSorts(r: Record, s: seq<Record>)
    requires InOrder(s)
    ensures InOrder(Insert(r, s))
  {
    if s != [] && SortKey(s[0]) <= SortKey(r) {
      InsertSorts(r, s[1..]);
      InsertCounts(r, s[1..]);
      forall x | x in multiset(Insert(r, s[1..])) ensures SortKey(s[0]) <= SortKey(x) {
        assert x == r || x in s[1..];
      }
      ConsInOrder(s[0], Insert(r, s[1..]));
    }
  }

  lemma {:induction false} SortSorts(s: seq<Record>)
    ensures InOrder(SortBySequence(s)) && multiset(SortBySequence(s)) == multiset(s)
  {
    if s != [] {
      SortSorts(s[..|s| - 1]);
      InsertSorts(s[|s| - 1], SortBySequence(s[..|s| - 1]));
      InsertCounts(s[|s| - 1], SortBySequence(s[..|s| - 1]));
      assert s == s[..|s| - 1] + [s[|s| - 1]];
    }
  }

  lemma TailCounts(s: seq<Record>)
    requires s != []
    ensures multiset(s[1..]) == multiset(s) - multiset{s[0]}
  {
    assert s == [s[0]] + s[1..];
  }

  predicate StrictlyInOrder(s: seq<Record>) {
    forall i, j :: 0 <= i < j < |s| ==> SortKey(s[i]) < SortKey(s[j])
  }

  lemma SameFirst(s: seq<Record>, t: seq<Record>)
    requires StrictlyInOrder(s) && InOrder(t) && multiset(s) == multiset(t) && s != []
    ensures t != [] && s[0] == t[0]
  {
    assert |t| == |multiset(t)| == |multiset(s)| == |s|;
    assert s[0] in multiset(t) && t[0] in multiset(s);
  }

  /** Without ties, the order of the elements is the only sorted one. */
  lemma {:induction false} SortedIsUnique(s: seq<Record>, t: seq<Record>)
    requires StrictlyInOrder(s) && InOrder(t) && multiset(s) == multiset(t)
    ensures s == t
  {
    if s == [] {
      assert |t| == |multiset(t)| == |multiset(s)|;
    } else {
      SameFirst(s, t);
      TailCounts(s);
      TailCounts(t);
      SortedIsUnique(s[1..], t[1..]);
      assert s == [s[0]] + s[1..] && t == [t[0]] + t[1..];
    }
  }

  lemma SequentialSurvives(a: seq<Record>, b: seq<Record>)
    requires multiset(a) == multiset(b) && Sequential(SortBySequence(a))
    ensures SortBySequence(a) == SortBySequence(b)
  {
    SortSorts(a);
    SortSorts(b);
    SortedIsUnique(SortBySequence(a), SortBySequence(b));
  }

  lemma NamespaceOrderless(c: Config, h: Hashes, ns: string, a: seq<Record>, b: seq<Record>)
    requires multiset(a) == multiset(b) && c.maxEvents > 0
    ensures NamespaceCandidates(c, h, ns, SortBySequence(a)) == NamespaceCandidates(c, h, ns, SortBySequence(b))
  {
    SortSorts(a);
    SortSorts(b);
    assert |SortBySequence(a)| == |multiset(a)| == |multiset(b)| == |SortBySequence(b)|;
    if Sequential(SortBySequence(a)) {
      SequentialSurvives(a, b);
    } else if Sequential(SortBySequence(b)) {
      SequentialSurvives(b, a);
    }
  }

  lemma {:induction false} NamespacesOrderless(c: Config, h: Hashes, a: seq<Record>, b: seq<Record>, keys: seq<string>)
    requires multiset(a) == multiset(b) && c.maxEvents > 0
    ensures BuildNamespaces(c, h, a, keys) == BuildNamespaces(c, h, b, keys)
    decreases |keys|
  {
    if keys != [] {
      forall r ensures multiset(Of(a, keys[0]))[r] == multiset(Of(b, keys[0]))[r] {
        OfCounts(a, keys[0], r);
        OfCounts(b, keys[0], r);
      }
      NamespaceOrderless(c, h, keys[0], Of(a, keys[0]), Of(b, keys[0]));
      NamespacesOrderless(c, h, a, b, keys[1..]);
    }
  }

  lemma SameNamespaces(a: seq<Record>, b: seq<Record>)
    requires multiset(a) == multiset(b)
    ensures NamespacesOf(a) == NamespacesOf(b)
  {
    assert forall r :: (r in a <==> r in multiset(a)) && (r in b <==> r in multiset(b));
  }

  lemma SameAcceptance(a: seq<Record>, b: seq<Record>)
    requires multiset(a) == multiset(b)
    ensures GroupError(a, {}).None? <==> GroupError(b, {}).None?
  {
    GroupsIffGroupable(a, {});
    GroupsIffGroupable(b, {});
  }

  /** Permuting the telemetry changes nothing: the same batches are accepted, with the same candidates
      or the same failure; only which record a malformed batch is blamed on depends on the order. */
  lemma BuildIsOrderless(c: Config, h: Hashes, a: seq<Record>, b: seq<Record>)
    requires multiset(a) == multiset(b)
    ensures GroupError(a, {}).None? <==> GroupError(b, {}).None?
    ensures ConfigError(c).Some? || GroupError(a, {}).None? ==> Build(c, h, a) == Build(c, h, b)
    ensures Build(c, h, a).Ok? <==> Build(c, h, b).Ok?
  {
    SameAcceptance(a, b);
    if ConfigError(c).None? {
      SameNamespaces(a, b);
      NamespacesOrderless(c, h, a, b, Sorted(NamespacesOf(a)));
    }
  }

  // ---------------------------------------------------------------- nothing is lost in the windows

  /** The event at its canonical position, as its provenance records it. */
  function Restore(r: Record): Record { r.(sequence := r.sourceSequence) }

  function RestoreAll(s: seq<Record>): seq<Record> {
    seq(|s|, i requires 0 <= i < |s| => Restore(s[i]))
  }

  /** The events as observed, each carrying its own position as provenance. */
  function Stamp(s: seq<Record>): seq<Record> {
    seq(|s|, i requires 0 <= i < |s| => s[i].(sourceSequence := s[i].sequence))
  }

  function Stream(candidates: seq<Candidate>): seq<Record> {
    if candidates == [] then [] else RestoreAll(candidates[0].events) + Stream(candidates[1..])
  }

  predicate InNamespace(events: seq<Record>, ns: string) {
    forall i :: 0 <= i < |events| ==> events[i].namespaceId == Some(ns)
  }

  /** The candidates about a namespace, in order. */
  function About(candidates: seq<Candidate>, ns: string): seq<Candidate> {
    if candidates == [] then []
    else
      (if candidates[0].events != [] && candidates[0].events[0].namespaceId == Some(ns) then [candidates[0]] else [])
      + About(candidates[1..], ns)
  }

  lemma {:induction false} AboutAppend(a: seq<Candidate>, b: seq<Candidate>, ns: string)
    ensures About(a + b, ns) == About(a, ns) + About(b, ns)
  {
    if a == [] {
      assert a + b == b;
    } else {
      assert (a + b)[0] == a[0] && (a + b)[1..] == a[1..] + b;
      AboutAppend(a[1..], b, ns);
      var head := if a[0].events != [] && a[0].events[0].namespaceId == Some(ns) then [a[0]] else [];
      assert head + (About(a[1..], ns) + About(b, ns)) == (head + About(a[1..], ns)) + About(b, ns);
    }
  }

  lemma {:induction false} AboutOneNamespace(cs: seq<Candidate>, ns: string, other: string)
    requires forall x :: x in cs ==> x.events != [] && InNamespace(x.events, ns)
    ensures About(cs, other) == if other == ns then cs else []
  {
    if cs != [] {
      assert cs[0] in cs && cs == [cs[0]] + cs[1..];
      AboutOneNamespace(cs[1..], ns, other);
    }
  }

  /** A window of a namespace is numbered from 1 and stays in the namespace. Its side of the split is decided by
      the namespace alone, its subject by the coverage and the executable. */
  ghost predicate ProperWindow(x: Candidate, c: Config, h: Hashes, ns: string, exe: string, observed: seq<Record>) {
    && 1 <= |x.events| <= c.maxEvents && Sequential(x.events) && InNamespace(x.events, ns)
    && x.pending && x.trajectoryId == h.identity(ns, Ids(x.events))
    && (x.split == if h.bucket(ns) % 100 < c.calibrationPercent then Calibration else Test)
    && x.collectorRevision == Textual(c.collectorRevision) && x.scope == c.scope && x.coverageDigest == h.coverage(c)
    && (x.subject == if c.scope == ProtectedOnly || exe in c.protectedExecutables then Protected else External)
    && (x.purpose == if x.subject == Protected then SecurityEfficacy else FalsePositiveMonitoring)
    && forall r :: r in x.events ==> Stems(r, observed)
  }

  /** All windows but the last are of full size. */
  predicate FullButLast(cs: seq<Candidate>, size: nat) {
    forall i :: 0 <= i < |cs| - 1 ==> |cs[i].events| == size
  }

  function FirstExecutable(observed: seq<Record>): string { if observed == [] then "" else observed[0].executable }

  ghost predicate Stems(r: Record, observed: seq<Record>) {
    exists q :: q in observed && r.eventId == q.eventId && r.source == q.source
  }

  lemma CandidatesCons(c: Config, h: Hashes, ns: string, exe: string, w: seq<Record>, rest: seq<seq<Record>>)
    ensures CandidatesOf(c, h, ns, exe, [w] + rest) == [CandidateOf(c, h, ns, exe, w)] + CandidatesOf(c, h, ns, exe, rest)
  {
  }

  lemma {:induction false} WindowsPartition(c: Config, h: Hashes, ns: string, exe: string, observed: seq<Record>)
    requires InNamespace(observed, ns) && c.maxEvents > 0
    ensures var cs := CandidatesOf(c, h, ns, exe, Windows(observed, c.maxEvents));
            && Stream(cs) == Stamp(observed)
            && FullButLast(cs, c.maxEvents)
            && forall x :: x in cs ==> ProperWindow(x, c, h, ns, exe, observed)
    decreases |observed|
  {
    if observed != [] {
      var n := Min(c.maxEvents, |observed|);
      var rest := observed[n..];
      var head := CandidateOf(c, h, ns, exe, observed[..n]);
      var tail := CandidatesOf(c, h, ns, exe, Windows(rest, c.maxEvents));
      WindowsPartition(c, h, ns, exe, rest);
      assert Windows(observed, c.maxEvents) == [observed[..n]] + Windows(rest, c.maxEvents);
      CandidatesCons(c, h, ns, exe, observed[..n], Windows(rest, c.maxEvents));
      assert ([head] + tail)[1..] == tail;
      FirstIsProper(c, h, ns, exe, observed, n);
      forall x | x in tail ensures ProperWindow(x, c, h, ns, exe, observed) {
        ProperInLonger(x, c, h, ns, exe, observed, n);
      }
    }
  }

  lemma FirstIsProper(c: Config, h: Hashes, ns: string, exe: string, observed: seq<Record>, n: nat)
    requires InNamespace(observed, ns) && 1 <= n <= c.maxEvents && n <= |observed|
    ensures var head := CandidateOf(c, h, ns, exe, observed[..n]);
            && ProperWindow(head, c, h, ns, exe, observed)
            && RestoreAll(head.events) + Stamp(observed[n..]) == Stamp(observed)
  {
    var head := CandidateOf(c, h, ns, exe, observed[..n]);
    assert Ids(observed[..n]) == Ids(head.events);
    forall r | r in head.events ensures Stems(r, observed) {
      var i :| 0 <= i < |head.events| && head.events[i] == r;
      assert observed[i] in observed;
    }
  }

  lemma ProperInLonger(x: Candidate, c: Config, h: Hashes, ns: string, exe: string, observed: seq<Record>, n: nat)
    requires n <= |observed| && ProperWindow(x, c, h, ns, exe, observed[n..])
    ensures ProperWindow(x, c, h, ns, exe, observed)
  {
    forall r | r in x.events ensures Stems(r, observed) {
      var q :| q in observed[n..] && r.eventId == q.eventId && r.source == q.source;
      assert q in observed;
    }
  }

  ghost function Observed(events: seq<Record>, ns: string): seq<Record> { SortBySequence(Of(events, ns)) }

  lemma ObservedMembers(events: seq<Record>, ns: string)
    ensures InNamespace(Observed(events, ns), ns)
    ensures forall r :: r in Observed(events, ns) ==> r in events
    ensures Observed(events, ns) != [] ==> ns in NamespacesOf(events)
  {
    var o := Observed(events, ns);
    SortSorts(Of(events, ns));
    forall r | r in o ensures r in events && r.namespaceId == Some(ns) {
      assert r in multiset(o);
      OfCounts(events, ns, r);
      assert r in multiset(events);
    }
    assert forall i :: 0 <= i < |o| ==> o[i] in o;
    if o != [] {
      assert o[0] in events;
    }
  }

  /** Whether a namespace is collected at all. */
  ghost predicate Collected(c: Config, events: seq<Record>, ns: string) {
    var o := Observed(events, ns);
    o != [] && |o| >= c.minEvents && (c.includeExternal || o[0].executable in c.protectedExecutables)
  }

  lemma CollectedWindows(c: Config, h: Hashes, events: seq<Record>, ns: string)
    requires c.maxEvents > 0 && NamespaceCandidates(c, h, ns, Observed(events, ns)).Ok?
    ensures var cs := NamespaceCandidates(c, h, ns, Observed(events, ns)).value;
            && Stream(cs) == (if Collected(c, events, ns) then Stamp(Observed(events, ns)) else [])
            && (Collected(c, events, ns) ==> Sequential(Observed(events, ns))) && FullButLast(cs, c.maxEvents)
            && forall x :: x in cs ==> ProperWindow(x, c, h, ns, FirstExecutable(Observed(events, ns)), Observed(events, ns))
  {
    var o := Observed(events, ns);
    ObservedMembers(events, ns);
    if Collected(c, events, ns) {
      WindowsPartition(c, h, ns, o[0].executable, o);
    }
  }

  lemma FirstKeyOnce(keys: seq<string>, ns: string)
    requires keys != [] && Ascending(keys)
    ensures Ascending(keys[1..]) && (ns in keys <==> ns == keys[0] || ns in keys[1..]) && keys[0] !in keys[1..]
  {
    assert keys == [keys[0]] + keys[1..];
    forall i | 0 <= i < |keys[1..]| ensures keys[1..][i] != keys[0] {
      AscendingDistinct(keys, 0, i + 1);
    }
  }

  lemma {:induction false} NamespaceOfBuilt(c: Config, h: Hashes, events: seq<Record>, keys: seq<string>, ns: string)
    requires c.maxEvents > 0 && BuildNamespaces(c, h, events, keys).Ok? && Ascending(keys)
    ensures ns in keys ==> NamespaceCandidates(c, h, ns, Observed(events, ns)).Ok?
    ensures About(BuildNamespaces(c, h, events, keys).value, ns) ==
            if ns in keys then NamespaceCandidates(c, h, ns, Observed(events, ns)).value else []
    decreases |keys|
  {
    if keys != [] {
      var first := NamespaceCandidates(c, h, keys[0], Observed(events, keys[0])).value;
      var rest := BuildNamespaces(c, h, events, keys[1..]).value;
      FirstKeyOnce(keys, ns);
      NamespaceOfBuilt(c, h, events, keys[1..], ns);
      CollectedWindows(c, h, events, keys[0]);
      AboutOneNamespace(first, keys[0], ns);
      AboutAppend(first, rest, ns);
      assert first + [] == first;
    }
  }

  /** The windows of a namespace, put end to end at their canonical positions, are exactly its ordered
      gap-free stream; a namespace that is not collected leaves no window. */
  lemma WindowsAreLossless(c: Config, h: Hashes, events: seq<Record>, ns: string)
    requires Build(c, h, events).Ok?
    ensures var cs := About(Build(c, h, events).value, ns);
            && Stream(cs) == (if Collected(c, events, ns) then Stamp(Observed(events, ns)) else [])
            && (Collected(c, events, ns) ==> Sequential(Observed(events, ns))) && FullButLast(cs, c.maxEvents)
            && forall x :: x in cs ==> ProperWindow(x, c, h, ns, FirstExecutable(Observed(events, ns)), Observed(events, ns))
  {
    var keys := Sorted(NamespacesOf(events));
    NamespaceOfBuilt(c, h, events, keys, ns);
    assert ns in keys <==> ns in NamespacesOf(events) by {
      assert ns in keys <==> ns in Elements(keys);
    }
    if ns in keys {
      CollectedWindows(c, h, events, ns);
    }
    ObservedMembers(events, ns);
  }
}
