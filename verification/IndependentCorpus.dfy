/** Review of candidate windows and the loader of the reviewed corpus. */
module IndependentCorpus {
  import opened Wrappers
  import opened Text
  import opened TelemetryPipeline

  datatype Label = Benign | Malicious | Inconclusive | OtherLabel

  datatype Confidence = High | Low | OtherConfidence

  datatype Review = Review(trajectoryId: string, verdict: Label, labelSource: Value, family: Value,
                           confidence: Option<Confidence>, reason: Option<Value>)

  datatype Item = Item(trajectoryId: string, verdict: Label, labelSource: Value, family: Value,
                       confidence: Option<Confidence>, split: Split, collectorRevision: Value, scope: Scope,
                       coverageDigest: string, subject: Subject, purpose: Purpose, events: seq<Record>)

  datatype Trajectory = Trajectory(caseId: string, family: Value, malicious: bool, confidence: Confidence, split: Split,
                                   scope: Scope, coverageDigest: string, subject: Subject, purpose: Purpose,
                                   events: seq<Record>)

  function OrHigh(c: Option<Confidence>): Confidence { if c.Some? then c.value else High }

  // ---------------------------------------------------------------- applying reviews

  function CandidateError(c: Candidate): Option<string> {
    if !c.pending then Some("invalid review status")
    else if c.split.OtherSplit? then Some("invalid split")
    else if Blank(Str(c.collectorRevision)) then Some("collector revision is required")
    else None
  }

  function CandidatesError(cs: seq<Candidate>): Option<string> {
    if cs == [] then None
    else if CandidateError(cs[0]).Some? then CandidateError(cs[0])
    else CandidatesError(cs[1..])
  }

  function ReviewError(r: Review, byId: map<string, Review>): Option<string> {
    if r.trajectoryId in byId then Some("duplicate review")
    else if r.verdict.OtherLabel? then Some("invalid label")
    else if OrHigh(r.confidence).OtherConfidence? then Some("invalid review confidence")
    else if Blank(Str(r.labelSource)) || Blank(Str(r.family)) then Some("label_source and family are required")
    else if r.reason.Some? && Blank(Str(r.reason.value)) then Some("review_reason must be non-empty")
    else None
  }

  function ById(reviews: seq<Review>, byId: map<string, Review>): Result<map<string, Review>>
    decreases |reviews|
  {
    if reviews == [] then Ok(byId)
    else
      var error := ReviewError(reviews[0], byId);
      if error.Some? then Err(error.value) else ById(reviews[1..], byId[reviews[0].trajectoryId := reviews[0]])
  }

  function ItemOf(c: Candidate, r: Review): Item {
    Item(c.trajectoryId, r.verdict, r.labelSource, r.family, Some(OrHigh(r.confidence)), c.split, c.collectorRevision,
         c.scope, c.coverageDigest, c.subject, c.purpose, c.events)
  }

  function Decided(l: Label): bool { l.Benign? || l.Malicious? }

  function CandidateIds(cs: seq<Candidate>): set<string> { set c | c in cs :: c.trajectoryId }

  function Reviewed(cs: seq<Candidate>, byId: map<string, Review>): seq<Item>
    requires CandidateIds(cs) <= byId.Keys
  {
    if cs == [] then []
    else
      assert cs[0] in cs;
      var r := byId[cs[0].trajectoryId];
      (if Decided(r.verdict) then [ItemOf(cs[0], r)] else []) + Reviewed(cs[1..], byId)
  }

  function Apply(cs: seq<Candidate>, reviews: seq<Review>): Result<seq<Item>> {
    var error := CandidatesError(cs);
    var byId := ById(reviews, map[]);
    if error.Some? then Err(error.value)
    else if byId.Err? then Err(byId.error)
    else if byId.value.Keys - CandidateIds(cs) != {} then Err("reviews reference unknown candidates")
    else if CandidateIds(cs) - byId.value.Keys != {} then Err("candidates still pending review")
    else
      assert CandidateIds(cs) <= byId.value.Keys;
      Ok(Reviewed(cs, byId.value))
  }

  method IndexReviews(reviews: seq<Review>) returns (r: Result<map<string, Review>>)
    ensures r == ById(reviews, map[])
  {
    var byId: map<string, Review> := map[];
    for i := 0 to |reviews|
      invariant ById(reviews, map[]) == ById(reviews[i..], byId)
    {
      assert reviews[i..][0] == reviews[i] && reviews[i..][1..] == reviews[i + 1..];
      var error := ReviewError(reviews[i], byId);
      if error.Some? {
        return Err(error.value);
      }
      byId := byId[reviews[i].trajectoryId := reviews[i]];
    }
    r := Ok(byId);
  }

  method ApplyReviews(cs: seq<Candidate>, reviews: seq<Review>) returns (r: Result<seq<Item>>)
    ensures r == Apply(cs, reviews)
  {
    for i := 0 to |cs|
      invariant CandidatesError(cs) == CandidatesError(cs[i..])
    {
      assert cs[i..][0] == cs[i] && cs[i..][1..] == cs[i + 1..];
      var error := CandidateError(cs[i]);
      if error.Some? {
        return Err(error.value);
      }
    }
    var byId := IndexReviews(reviews);
    if byId.Err? {
      return Err(byId.error);
    }
    if byId.value.Keys - CandidateIds(cs) != {} {
      return Err("reviews reference unknown candidates");
    }
    if CandidateIds(cs) - byId.value.Keys != {} {
      return Err("candidates still pending review");
    }
    assert CandidateIds(cs) <= byId.value.Keys;
    r := Ok(Reviewed(cs, byId.value));
  }

  // ---------------------------------------------------------------- loading

  function ExpectedPurpose(s: Subject): Purpose { if s.Protected? then SecurityEfficacy else FalsePositiveMonitoring }

  /** One exact namespace in all events. */
  predicate OneNamespace(events: seq<Record>) {
    events != [] && events[0].namespaceId.Some? && InNamespace(events, events[0].namespaceId.value)
  }

  function ItemError(x: Item): Option<string> {
    if !Decided(x.verdict) || x.split.OtherSplit? then Some("invalid label or split")
    else if OrHigh(x.confidence).OtherConfidence? then Some("invalid review confidence")
    else if x.scope.OtherScope? then Some("invalid coverage scope")
    else if |x.coverageDigest| != 64 then Some("invalid coverage digest")
    else if x.subject.OtherSubject? then Some("invalid subject scope")
    else if x.purpose.OtherPurpose? then Some("invalid evaluation purpose")
    else if x.purpose != ExpectedPurpose(x.subject) then Some("subject scope and purpose disagree")
    else if !x.labelSource.Textual? then Some("label source is not a text")
    else if Blank(x.labelSource.text) then Some("label source and revision required")
    else if !x.collectorRevision.Textual? then Some("collector revision is not a text")
    else if Blank(x.collectorRevision.text) then Some("label source and revision required")
    else if x.events == [] then Some("events must be non-empty")
    else if !OneNamespace(x.events) then Some("one exact namespace is required")
    else None
  }

  /** The check of a window's events from position `previous` on, with the ids seen anywhere before. */
  function EventsError(events: seq<Record>, previous: int, seen: set<string>): Option<string>
    decreases |events|
  {
    if events == [] then None
    else
      var e := events[0];
      if e.eventId.None? || e.eventId.value in seen then Some("duplicate or missing event_id")
      else if e.sequence != Some(previous + 1) then Some("sequence gap")
      else if e.source.OtherSource? then Some("not independent telemetry")
      else EventsError(events[1..], previous + 1, seen + {e.eventId.value})
  }

  function EventIds(events: seq<Record>): set<string> {
    set r | r in events && r.eventId.Some? :: r.eventId.value
  }

  /** What the loader remembers of the lines before. */
  datatype Seen = Seen(ids: set<string>, splits: map<string, Split>)

  const NOTHING := Seen({}, map[])

  function LoadItem(x: Item, seen: Seen): Result<Seen> {
    var error := ItemError(x);
    var eventError := EventsError(x.events, 0, seen.ids);
    if error.Some? then Err(error.value)
    else if eventError.Some? then Err(eventError.value)
    else
      var ns := x.events[0].namespaceId.value;
      if ns in seen.splits && seen.splits[ns] != x.split then Err("namespace leakage")
      else Ok(Seen(seen.ids + EventIds(x.events), seen.splits[ns := x.split]))
  }

  function TrajectoryOf(x: Item): Trajectory {
    Trajectory(x.trajectoryId, x.family, x.verdict.Malicious?, OrHigh(x.confidence), x.split, x.scope, x.coverageDigest,
               x.subject, x.purpose, x.events)
  }

  predicate Wanted(x: Item, split: Option<Split>, purpose: Option<Purpose>) {
    (split.None? || x.split == split.value) && (purpose.None? || x.purpose == purpose.value)
  }

  function Pick(items: seq<Item>, split: Option<Split>, purpose: Option<Purpose>): seq<Trajectory> {
    if items == [] then []
    else (if Wanted(items[0], split, purpose) then [TrajectoryOf(items[0])] else []) + Pick(items[1..], split, purpose)
  }

  function Scan(items: seq<Item>, seen: Seen): Result<Seen>
    decreases |items|
  {
    if items == [] then Ok(seen)
    else
      var next := LoadItem(items[0], seen);
      if next.Err? then next else Scan(items[1..], next.value)
  }

  function Load(items: seq<Item>, split: Option<Split>, purpose: Option<Purpose>): Result<seq<Trajectory>> {
    var scanned := Scan(items, NOTHING);
    if scanned.Err? then Err(scanned.error)
    else if Pick(items, split, purpose) == [] then Err("corpus contains no trajectories for requested split")
    else Ok(Pick(items, split, purpose))
  }

  /** The inner loop over a window's events, which grows the set of seen ids. */
  method CheckEvents(events: seq<Record>, seen: set<string>) returns (error: Option<string>, ids: set<string>)
    ensures error == EventsError(events, 0, seen)
    ensures error.None? ==> ids == seen + EventIds(events)
  {
    ids := seen;
    var previous := 0;
    for i := 0 to |events|
      invariant EventsError(events, 0, seen) == EventsError(events[i..], previous, ids)
      invariant ids == seen + EventIds(events[..i])
    {
      var e := events[i];
      assert events[i..][0] == e && events[i..][1..] == events[i + 1..];
      assert forall x :: x in events[..i + 1] <==> x in events[..i] || x == e;
      if e.eventId.None? || e.eventId.value in ids {
        return Some("duplicate or missing event_id"), ids;
      }
      ids := ids + {e.eventId.value};
      if e.sequence != Some(previous + 1) {
        return Some("sequence gap"), ids;
      }
      previous := e.sequence.value;
      if e.source.OtherSource? {
        return Some("not independent telemetry"), ids;
      }
    }
    assert events[..|events|] == events;
    error := None;
  }

  lemma {:induction false} PickLast(items: seq<Item>, x: Item, split: Option<Split>, purpose: Option<Purpose>)
    ensures Pick(items + [x], split, purpose) ==
            Pick(items, split, purpose) + if Wanted(x, split, purpose) then [TrajectoryOf(x)] else []
  {
    if items == [] {
      assert ([] + [x])[1..] == [];
    } else {
      assert (items + [x])[1..] == items[1..] + [x];
      PickLast(items[1..], x, split, purpose);
    }
  }

  method CheckItem(x: Item, seen: Seen) returns (r: Result<Seen>)
    ensures r == LoadItem(x, seen)
  {
    var error := ItemError(x);
    if error.Some? {
      return Err(error.value);
    }
    var eventError, ids := CheckEvents(x.events, seen.ids);
    if eventError.Some? {
      return Err(eventError.value);
    }
    var ns := x.events[0].namespaceId.value;
    if ns in seen.splits && seen.splits[ns] != x.split {
      return Err("namespace leakage");
    }
    r := Ok(Seen(ids, seen.splits[ns := x.split]));
  }

  method CheckNext(x: Item, seen: Seen, ghost rest: seq<Item>) returns (r: Result<Seen>)
    requires rest != [] && x == rest[0]
    ensures Scan(rest, seen) == if r.Err? then r else Scan(rest[1..], r.value)
  {
    r := CheckItem(x, seen);
  }

  method Select(trajectories: seq<Trajectory>, x: Item, split: Option<Split>, purpose: Option<Purpose>, ghost front: seq<Item>)
    returns (more: seq<Trajectory>)
    requires trajectories == Pick(front, split, purpose)
    ensures more == Pick(front + [x], split, purpose)
  {
    PickLast(front, x, split, purpose);
    more := if Wanted(x, split, purpose) then trajectories + [TrajectoryOf(x)] else trajectories;
  }

  lemma Advance(front: seq<Item>, rest: seq<Item>)
    requires rest != []
    ensures front + rest == (front + [rest[0]]) + rest[1..] && (front + rest)[|front|] == rest[0]
  {
  }

  /** The loop over the lines, which checks each and collects the wanted ones. */
  method CheckAll(items: seq<Item>, split: Option<Split>, purpose: Option<Purpose>) returns (r: Result<seq<Trajectory>>)
    ensures var scanned := Scan(items, NOTHING);
            r == if scanned.Err? then Err(scanned.error) else Ok(Pick(items, split, purpose))
  {
    var trajectories: seq<Trajectory> := [];
    var seen := NOTHING;
    ghost var front, rest := [], items;
    ghost var goal := Scan(items, NOTHING);
    for i := 0 to |items|
      invariant |front| == i && items == front + rest && goal == Scan(rest, seen)
      invariant trajectories == Pick(front, split, purpose)
    {
      Advance(front, rest);
      var next := CheckNext(items[i], seen, rest);
      if next.Err? {
        return Err(next.error);
      }
      seen := next.value;
      trajectories := Select(trajectories, items[i], split, purpose, front);
      front, rest := front + [items[i]], rest[1..];
    }
    assert front == items;
    r := Ok(trajectories);
  }

  method LoadIndependentCorpus(items: seq<Item>, split: Option<Split>, purpose: Option<Purpose>)
    returns (r: Result<seq<Trajectory>>)
    ensures r == Load(items, split, purpose)
  {
    r := CheckAll(items, split, purpose);
    if r.Ok? && r.value == [] {
      r := Err("corpus contains no trajectories for requested split");
    }
  }

  // ---------------------------------------------------------------- exactly which corpora load

  predicate DistinctIds(events: seq<Record>) {
    && (forall i :: 0 <= i < |events| ==> events[i].eventId.Some?)
    && forall i, j :: 0 <= i < j < |events| ==> events[i].eventId != events[j].eventId
  }

  predicate Independent(events: seq<Record>) {
    forall i :: 0 <= i < |events| ==> !events[i].source.OtherSource?
  }

  predicate SoundEvents(events: seq<Record>) {
    DistinctIds(events) && Independent(events) && Sequential(events)
  }

  predicate NumberedAfter(events: seq<Record>, previous: int) {
    forall i :: 0 <= i < |events| ==> events[i].sequence == Some(previous + i + 1)
  }

  lemma IdsSplit(events: seq<Record>)
    requires events != [] && events[0].eventId.Some?
    ensures EventIds(events) == EventIds(events[1..]) + {events[0].eventId.value}
  {
    assert events == [events[0]] + events[1..];
    assert forall x :: x in events <==> x == events[0] || x in events[1..];
  }

  lemma PointwiseSplits(events: seq<Record>, previous: int)
    requires events != []
    ensures Independent(events) <==> !events[0].source.OtherSource? && Independent(events[1..])
    ensures NumberedAfter(events, previous) <==>
            events[0].sequence == Some(previous + 1) && NumberedAfter(events[1..], previous + 1)
  {
    var rest := events[1..];
    assert forall i :: 0 <= i < |rest| ==> rest[i] == events[i + 1];
    assert forall i :: 1 <= i < |events| ==> events[i] == rest[i - 1];
  }

  lemma {:induction false} EventsErrorIff(events: seq<Record>, previous: int, seen: set<string>)
    ensures EventsError(events, previous, seen).None? <==>
            DistinctIds(events) && Independent(events) && EventIds(events) !! seen && NumberedAfter(events, previous)
    decreases |events|
  {
    if events != [] {
      var e := events[0];
      PointwiseSplits(events, previous);
      if e.eventId.Some? {
        IdsSplit(events);
        DistinctSplits(events);
        EventsErrorIff(events[1..], previous + 1, seen + {e.eventId.value});
      }
    }
  }

  lemma DistinctSplits(events: seq<Record>)
    requires events != [] && events[0].eventId.Some?
    ensures DistinctIds(events) <==> DistinctIds(events[1..]) && events[0].eventId.value !in EventIds(events[1..])
  {
    var e, rest := events[0], events[1..];
    assert forall i :: 0 <= i < |rest| ==> rest[i] == events[i + 1];
    if DistinctIds(rest) && e.eventId.value !in EventIds(rest) {
      forall i, j | 0 <= i < j < |events| ensures events[i].eventId != events[j].eventId {
        assert events[j] == rest[j - 1] && rest[j - 1] in rest;
        if i > 0 {
          assert events[i] == rest[i - 1];
        }
      }
    }
  }

  /** Every field of the item is what the loader asks for, and so is every event. */
  predicate Sound(x: Item) {
    && (x.verdict == Benign || x.verdict == Malicious) && (x.split == Calibration || x.split == Test)
    && x.confidence in {None, Some(High), Some(Low)} && x.scope in {SystemWide, ProtectedOnly, Allowlist}
    && |x.coverageDigest| == 64
    && ((x.subject == Protected && x.purpose == SecurityEfficacy) || (x.subject == External && x.purpose == FalsePositiveMonitoring))
    && x.labelSource.Textual? && !Blank(x.labelSource.text) && x.collectorRevision.Textual? && !Blank(x.collectorRevision.text)
    && OneNamespace(x.events) && SoundEvents(x.events)
  }

  lemma SoundIsFaultless(x: Item)
    ensures Sound(x) <==> ItemError(x).None? && SoundEvents(x.events)
  {
  }

  function Namespace(x: Item): Option<string> { if x.events == [] then None else x.events[0].namespaceId }

  /** No event in both, and no namespace on both sides of the split. */
  predicate Compatible(x: Item, y: Item) {
    && EventIds(x.events) !! EventIds(y.events)
    && (Namespace(x) == Namespace(y) ==> x.split == y.split)
  }

  predicate WellFormedCorpus(items: seq<Item>) {
    && (forall i :: 0 <= i < |items| ==> Sound(items[i]))
    && forall i, j :: 0 <= i < j < |items| ==> Compatible(items[i], items[j])
  }

  predicate Fresh(x: Item, seen: Seen) {
    && EventIds(x.events) !! seen.ids
    && (Namespace(x).Some? && Namespace(x).value in seen.splits ==> seen.splits[Namespace(x).value] == x.split)
  }

  lemma LoadItemIff(x: Item, seen: Seen)
    ensures LoadItem(x, seen).Ok? <==> Sound(x) && Fresh(x, seen)
  {
    SoundIsFaultless(x);
    EventsErrorIff(x.events, 0, seen.ids);
  }

  lemma FreshAfter(x: Item, y: Item, seen: Seen)
    requires LoadItem(x, seen).Ok? && Sound(y)
    ensures Fresh(y, LoadItem(x, seen).value) <==> Fresh(y, seen) && Compatible(x, y)
  {
    LoadItemIff(x, seen);
  }

  lemma {:induction false} ScanIff(items: seq<Item>, seen: Seen)
    ensures Scan(items, seen).Ok? <==>
            WellFormedCorpus(items) && forall i :: 0 <= i < |items| ==> Fresh(items[i], seen)
    decreases |items|
  {
    if items != [] {
      var x, rest := items[0], items[1..];
      assert forall i :: 0 <= i < |rest| ==> rest[i] == items[i + 1];
      LoadItemIff(x, seen);
      var next := LoadItem(x, seen);
      if next.Ok? {
        ScanIff(rest, next.value);
        forall i | 0 <= i < |rest| && Sound(rest[i])
          ensures Fresh(rest[i], next.value) <==> Fresh(rest[i], seen) && Compatible(x, rest[i])
        {
          FreshAfter(x, rest[i], seen);
        }
        assert WellFormedCorpus(items) <==> WellFormedCorpus(rest) && forall i :: 0 <= i < |rest| ==> Compatible(x, rest[i]) by {
          CorpusSplits(items);
        }
        assert (forall i :: 0 <= i < |items| ==> Fresh(items[i], seen)) <==> forall i :: 0 <= i < |rest| ==> Fresh(rest[i], seen) by {
          FreshSplits(items, seen);
        }
      }
    }
  }

  lemma FreshSplits(items: seq<Item>, seen: Seen)
    requires items != []
    ensures (forall i :: 0 <= i < |items| ==> Fresh(items[i], seen)) <==>
            Fresh(items[0], seen) && forall i :: 0 <= i < |items[1..]| ==> Fresh(items[1..][i], seen)
  {
    if Fresh(items[0], seen) && forall i :: 0 <= i < |items[1..]| ==> Fresh(items[1..][i], seen) {
      forall i | 0 <= i < |items| ensures Fresh(items[i], seen) {
        assert i > 0 ==> items[i] == items[1..][i - 1];
      }
    }
    assert forall i :: 0 <= i < |items[1..]| ==> items[1..][i] == items[i + 1];
  }

  lemma CorpusSplits(items: seq<Item>)
    requires items != []
    ensures WellFormedCorpus(items) <==>
            && Sound(items[0]) && WellFormedCorpus(items[1..])
            && forall i :: 0 <= i < |items[1..]| ==> Compatible(items[0], items[1..][i])
  {
    var rest := items[1..];
    assert forall i :: 0 <= i < |rest| ==> rest[i] == items[i + 1];
    if Sound(items[0]) && WellFormedCorpus(rest) && forall i :: 0 <= i < |rest| ==> Compatible(items[0], rest[i]) {
      forall i | 0 <= i < |items| ensures Sound(items[i]) {
        assert i > 0 ==> items[i] == rest[i - 1];
      }
      forall i, j | 0 <= i < j < |items| ensures Compatible(items[i], items[j]) {
        assert items[j] == rest[j - 1];
        assert i > 0 ==> items[i] == rest[i - 1];
      }
    }
  }

  /** A corpus loads exactly if every item is sound, no two share an event, and no namespace is on both
      sides of the split; whatever is asked for, an item outside the selection is still checked. */
  lemma LoadsIffWellFormed(items: seq<Item>, split: Option<Split>, purpose: Option<Purpose>)
    ensures Load(items, split, purpose).Ok? <==>
            WellFormedCorpus(items) && exists i :: 0 <= i < |items| && Wanted(items[i], split, purpose)
    ensures Load(items, split, purpose).Ok? ==> Load(items, split, purpose).value == Pick(items, split, purpose)
  {
    ScanIff(items, NOTHING);
    PickEmpty(items, split, purpose);
  }

  lemma {:induction false} PickEmpty(items: seq<Item>, split: Option<Split>, purpose: Option<Purpose>)
    ensures Pick(items, split, purpose) != [] <==> exists i :: 0 <= i < |items| && Wanted(items[i], split, purpose)
  {
    if items != [] {
      PickEmpty(items[1..], split, purpose);
      assert forall i :: 0 <= i < |items[1..]| ==> items[1..][i] == items[i + 1];
      if i :| 0 <= i < |items| && Wanted(items[i], split, purpose) {
        assert i > 0 ==> items[i] == items[1..][i - 1];
      }
    }
  }

  // ---------------------------------------------------------------- what is built and reviewed always loads

  lemma Twice<T>(s: seq<T>, i: nat, j: nat)
    requires i < j < |s| && s[i] == s[j]
    ensures multiset(s)[s[i]] >= 2
  {
    assert s == s[..j] + [s[j]] + s[j + 1..];
    assert s[..j][i] == s[i] && s[i] in multiset(s[..j]);
  }

  lemma OnceOnly(o: seq<Record>, m: multiset<Record>)
    requires Groupable(m) && forall r :: r in o ==> r in m && multiset(o)[r] <= 1
    ensures DistinctIds(o) && Independent(o)
  {
    assert forall i :: 0 <= i < |o| ==> o[i] in o;
    forall i, j | 0 <= i < j < |o| ensures o[i].eventId != o[j].eventId {
      if o[i] == o[j] {
        Twice(o, i, j);
      }
    }
  }

  lemma ObservedIsDistinct(events: seq<Record>, ns: string)
    requires Groupable(multiset(events))
    ensures DistinctIds(Observed(events, ns)) && Independent(Observed(events, ns))
  {
    var o := Observed(events, ns);
    SortSorts(Of(events, ns));
    forall r | r in o ensures r in multiset(events) && multiset(o)[r] <= 1 {
      assert r in multiset(o);
      OfCounts(events, ns, r);
    }
    OnceOnly(o, multiset(events));
  }

  /** Sound windows, no two of which share an event. */
  ghost predicate Apart(cs: seq<Candidate>) {
    && (forall i :: 0 <= i < |cs| ==> SoundEvents(cs[i].events))
    && forall i, j :: 0 <= i < j < |cs| ==> EventIds(cs[i].events) !! EventIds(cs[j].events)
  }

  lemma ApartAppend(a: seq<Candidate>, b: seq<Candidate>)
    requires Apart(a) && Apart(b)
    requires forall x, y :: x in a && y in b ==> EventIds(x.events) !! EventIds(y.events)
    ensures Apart(a + b)
  {
    var all := a + b;
    assert forall i :: 0 <= i < |a| ==> all[i] == a[i] && a[i] in a;
    assert forall i :: |a| <= i < |all| ==> all[i] == b[i - |a|] && b[i - |a|] in b;
  }

  /** Windows of two disjoint stretches are disjoint. */
  lemma StemsApart(x: seq<Record>, y: seq<Record>, o: seq<Record>, q: seq<Record>)
    requires forall r :: r in x ==> Stems(r, o)
    requires forall r :: r in y ==> Stems(r, q)
    requires forall r, t :: r in o && t in q ==> r.eventId != t.eventId
    ensures EventIds(x) !! EventIds(y)
  {
    forall id | id in EventIds(x) ensures id !in EventIds(y) {
      var r :| r in x && r.eventId.Some? && r.eventId.value == id;
      assert Stems(r, o);
      forall t | t in y ensures t.eventId != r.eventId {
        assert Stems(t, q);
      }
    }
  }

  lemma RenumberedIsSound(w: seq<Record>)
    requires DistinctIds(w) && Independent(w)
    ensures SoundEvents(Renumber(w))
  {
    var e := Renumber(w);
    assert forall i :: 0 <= i < |w| ==> e[i].eventId == w[i].eventId && e[i].source == w[i].source;
  }

  /** The first window shares no event with the later ones. */
  lemma FirstWindowApart(c: Config, h: Hashes, ns: string, exe: string, o: seq<Record>, n: nat)
    requires c.maxEvents > 0 && DistinctIds(o) && InNamespace(o, ns) && n <= |o|
    ensures var head := CandidateOf(c, h, ns, exe, o[..n]);
            forall y :: y in CandidatesOf(c, h, ns, exe, Windows(o[n..], c.maxEvents)) ==>
                          EventIds(head.events) !! EventIds(y.events)
  {
    var first, rest := o[..n], o[n..];
    var head := CandidateOf(c, h, ns, exe, first);
    WindowsPartition(c, h, ns, exe, rest);
    SlicesApart(o, n);
    forall r | r in head.events ensures Stems(r, first) {
      var i :| 0 <= i < |head.events| && head.events[i] == r;
      assert first[i] in first;
    }
    forall y | y in CandidatesOf(c, h, ns, exe, Windows(rest, c.maxEvents)) ensures EventIds(head.events) !! EventIds(y.events) {
      StemsApart(head.events, y.events, first, rest);
    }
  }

  lemma {:induction false} WindowsApart(c: Config, h: Hashes, ns: string, exe: string, o: seq<Record>)
    requires c.maxEvents > 0 && DistinctIds(o) && Independent(o) && InNamespace(o, ns)
    ensures Apart(CandidatesOf(c, h, ns, exe, Windows(o, c.maxEvents)))
    decreases |o|
  {
    if o != [] {
      var n := Min(c.maxEvents, |o|);
      var rest := Windows(o[n..], c.maxEvents);
      var head := CandidateOf(c, h, ns, exe, o[..n]);
      WindowsApart(c, h, ns, exe, o[n..]);
      RenumberedIsSound(o[..n]);
      FirstWindowApart(c, h, ns, exe, o, n);
      assert Windows(o, c.maxEvents) == [o[..n]] + rest;
      CandidatesCons(c, h, ns, exe, o[..n], rest);
      assert Apart([head]);
      ApartAppend([head], CandidatesOf(c, h, ns, exe, rest));
    }
  }

  lemma SlicesApart(o: seq<Record>, n: nat)
    requires DistinctIds(o) && n <= |o|
    ensures forall r, t :: r in o[..n] && t in o[n..] ==> r.eventId != t.eventId
  {
    forall r, t | r in o[..n] && t in o[n..] ensures r.eventId != t.eventId {
      var i :| 0 <= i < n && o[i] == r;
      var j :| 0 <= j < |o[n..]| && o[n..][j] == t;
      assert o[n + j] == t;
    }
  }

  /** A window of some collected namespace. */
  ghost predicate Genuine(x: Candidate, c: Config, h: Hashes, events: seq<Record>, ns: string) {
    ProperWindow(x, c, h, ns, FirstExecutable(Observed(events, ns)), Observed(events, ns))
  }

  lemma {:induction false} BuiltIsGenuine(c: Config, h: Hashes, events: seq<Record>, keys: seq<string>)
    requires c.maxEvents > 0 && BuildNamespaces(c, h, events, keys).Ok?
    ensures forall x :: x in BuildNamespaces(c, h, events, keys).value ==> exists ns :: ns in keys && Genuine(x, c, h, events, ns)
    decreases |keys|
  {
    if keys != [] {
      BuiltIsGenuine(c, h, events, keys[1..]);
      CollectedWindows(c, h, events, keys[0]);
      var first := NamespaceCandidates(c, h, keys[0], Observed(events, keys[0])).value;
      var rest := BuildNamespaces(c, h, events, keys[1..]).value;
      forall x | x in first + rest ensures exists ns :: ns in keys && Genuine(x, c, h, events, ns) {
        if x in first {
          assert keys[0] in keys && Genuine(x, c, h, events, keys[0]);
        } else {
          var ns :| ns in keys[1..] && Genuine(x, c, h, events, ns);
          assert ns in keys;
        }
      }
    }
  }

  lemma OtherNamespacesApart(events: seq<Record>, a: string, b: string)
    requires Groupable(multiset(events)) && a != b
    ensures forall r, t :: r in Observed(events, a) && t in Observed(events, b) ==> r.eventId != t.eventId
  {
    ObservedMembers(events, a);
    ObservedMembers(events, b);
    forall r, t | r in Observed(events, a) && t in Observed(events, b) ensures r.eventId != t.eventId {
      assert r in multiset(events) && t in multiset(events);
      assert r.namespaceId == Some(a) && t.namespaceId == Some(b);
    }
  }

  lemma NamespaceApart(c: Config, h: Hashes, events: seq<Record>, ns: string)
    requires c.maxEvents > 0 && Groupable(multiset(events)) && NamespaceCandidates(c, h, ns, Observed(events, ns)).Ok?
    ensures Apart(NamespaceCandidates(c, h, ns, Observed(events, ns)).value)
  {
    var o := Observed(events, ns);
    ObservedIsDistinct(events, ns);
    ObservedMembers(events, ns);
    if Collected(c, events, ns) {
      WindowsApart(c, h, ns, o[0].executable, o);
    }
  }

  lemma {:induction false} BuiltIsApart(c: Config, h: Hashes, events: seq<Record>, keys: seq<string>)
    requires c.maxEvents > 0 && Groupable(multiset(events)) && Ascending(keys)
    requires BuildNamespaces(c, h, events, keys).Ok?
    ensures Apart(BuildNamespaces(c, h, events, keys).value)
    decreases |keys|
  {
    if keys != [] {
      BuiltIsApart(c, h, events, keys[1..]);
      NamespaceApart(c, h, events, keys[0]);
      CollectedWindows(c, h, events, keys[0]);
      BuiltIsGenuine(c, h, events, keys[1..]);
      var first := NamespaceCandidates(c, h, keys[0], Observed(events, keys[0])).value;
      var rest := BuildNamespaces(c, h, events, keys[1..]).value;
      forall x, y | x in first && y in rest ensures EventIds(x.events) !! EventIds(y.events) {
        var ns :| ns in keys[1..] && Genuine(y, c, h, events, ns);
        var i :| 0 <= i < |keys[1..]| && keys[1..][i] == ns;
        AscendingDistinct(keys, 0, i + 1);
        OtherNamespacesApart(events, keys[0], ns);
        StemsApart(x.events, y.events, Observed(events, keys[0]), Observed(events, ns));
      }
      ApartAppend(first, rest);
    }
  }

  predicate ValidReview(r: Review) {
    !r.verdict.OtherLabel? && !OrHigh(r.confidence).OtherConfidence? && !Blank(Str(r.labelSource))
  }

  lemma AcceptedIsValid(r: Review, byId: map<string, Review>)
    requires ReviewError(r, byId).None?
    ensures ValidReview(r)
  {
    assert !Blank(Str(r.labelSource));
  }

  lemma {:induction false} ReviewsAreValid(reviews: seq<Review>, byId: map<string, Review>)
    requires forall id :: id in byId ==> ValidReview(byId[id])
    ensures var r := ById(reviews, byId); r.Ok? ==> forall id :: id in r.value ==> ValidReview(r.value[id])
    decreases |reviews|
  {
    if reviews == [] {
      assert ById(reviews, byId) == Ok(byId);
    } else if ReviewError(reviews[0], byId).Some? {
      assert ById(reviews, byId).Err?;
    } else {
      var more := byId[reviews[0].trajectoryId := reviews[0]];
      AcceptedIsValid(reviews[0], byId);
      assert forall id :: id in more ==> ValidReview(more[id]);
      ReviewsAreValid(reviews[1..], more);
    }
  }

  lemma {:induction false} ReviewedFrom(cs: seq<Candidate>, byId: map<string, Review>, x: Item)
    requires CandidateIds(cs) <= byId.Keys && x in Reviewed(cs, byId)
    ensures exists i :: 0 <= i < |cs| && cs[i].trajectoryId in byId && x == ItemOf(cs[i], byId[cs[i].trajectoryId]) && Decided(x.verdict)
  {
    assert cs[0] in cs && cs[0].trajectoryId in CandidateIds(cs);
    if x != ItemOf(cs[0], byId[cs[0].trajectoryId]) || !Decided(x.verdict) {
      ReviewedFrom(cs[1..], byId, x);
      var i :| 0 <= i < |cs[1..]| && cs[1..][i].trajectoryId in byId && x == ItemOf(cs[1..][i], byId[cs[1..][i].trajectoryId]) && Decided(x.verdict);
      assert cs[i + 1] == cs[1..][i];
    }
  }

  /** What every built candidate brings along. */
  ghost predicate Loadable(c: Candidate) {
    && !c.split.OtherSplit? && c.collectorRevision.Textual? && !Blank(c.collectorRevision.text) && !c.scope.OtherScope? && |c.coverageDigest| == 64
    && !c.subject.OtherSubject? && c.purpose == PurposeOf(c.subject) && OneNamespace(c.events)
  }

  ghost predicate OneSide(cs: seq<Candidate>) {
    forall x, y :: x in cs && y in cs && x.events != [] && y.events != [] ==>
                     x.events[0].namespaceId == y.events[0].namespaceId ==> x.split == y.split
  }

  lemma ItemIsSound(c: Candidate, r: Review)
    requires Loadable(c) && SoundEvents(c.events) && ValidReview(r) && Decided(r.verdict)
    ensures Sound(ItemOf(c, r)) <==> r.labelSource.Textual?
  {
  }

  /** Every label source is a text. */
  predicate TextualSources(items: seq<Item>) {
    forall i :: 0 <= i < |items| ==> items[i].labelSource.Textual?
  }

  lemma SourcesSplit(items: seq<Item>)
    requires items != []
    ensures TextualSources(items) <==> items[0].labelSource.Textual? && TextualSources(items[1..])
  {
    assert forall i :: 0 <= i < |items[1..]| ==> items[1..][i] == items[i + 1];
    assert forall i :: 0 < i < |items| ==> items[i] == items[1..][i - 1];
  }

  lemma {:induction false} ReviewedIsWellFormed(cs: seq<Candidate>, byId: map<string, Review>)
    requires Apart(cs) && OneSide(cs) && forall x :: x in cs ==> Loadable(x)
    requires CandidateIds(cs) <= byId.Keys && forall id :: id in byId ==> ValidReview(byId[id])
    ensures WellFormedCorpus(Reviewed(cs, byId)) <==> TextualSources(Reviewed(cs, byId))
  {
    if cs != [] {
      var rest := cs[1..];
      assert cs[0] in cs;
      assert forall i :: 0 <= i < |rest| ==> rest[i] == cs[i + 1];
      ReviewedIsWellFormed(rest, byId);
      var r := byId[cs[0].trajectoryId];
      var head, tail := ItemOf(cs[0], r), Reviewed(rest, byId);
      if Decided(r.verdict) {
        ItemIsSound(cs[0], r);
        forall j | 0 <= j < |tail| ensures Compatible(head, tail[j]) {
          ReviewedFrom(rest, byId, tail[j]);
          var i :| 0 <= i < |rest| && rest[i].trajectoryId in byId && tail[j] == ItemOf(rest[i], byId[rest[i].trajectoryId]) && Decided(tail[j].verdict);
          assert EventIds(cs[0].events) !! EventIds(cs[i + 1].events);
          assert cs[i + 1] in cs && OneNamespace(cs[i + 1].events);
        }
        assert ([head] + tail)[1..] == tail;
        CorpusSplits([head] + tail);
        SourcesSplit([head] + tail);
      } else {
        assert Reviewed(cs, byId) == tail;
      }
    }
  }

  lemma GenuineIsLoadable(x: Candidate, c: Config, h: Hashes, events: seq<Record>, ns: string)
    requires ConfigError(c).None? && |h.coverage(c)| == 64 && Genuine(x, c, h, events, ns)
    ensures Loadable(x) && x.events[0].namespaceId == Some(ns) && x.split == SplitOf(c, h, ns)
  {
  }

  lemma BuiltIsLoadable(c: Config, h: Hashes, events: seq<Record>)
    requires Build(c, h, events).Ok? && |h.coverage(c)| == 64
    ensures var cs := Build(c, h, events).value; Apart(cs) && OneSide(cs) && forall x :: x in cs ==> Loadable(x)
  {
    var cs := Build(c, h, events).value;
    var keys := Sorted(NamespacesOf(events));
    GroupsIffGroupable(events, {});
    BuiltIsApart(c, h, events, keys);
    BuiltIsGenuine(c, h, events, keys);
    forall x | x in cs ensures Loadable(x) && x.split == SplitOf(c, h, x.events[0].namespaceId.value) {
      var ns :| ns in keys && Genuine(x, c, h, events, ns);
      GenuineIsLoadable(x, c, h, events, ns);
    }
  }

  // ---------------------------------------------------------------- from reviews to items

  /** Every review is filed under its trajectory, and nothing else is. */
  lemma {:induction false} ByIdHolds(reviews: seq<Review>, byId: map<string, Review>)
    requires ById(reviews, byId).Ok?
    ensures var all := ById(reviews, byId).value;
            && (forall id :: id in byId ==> id in all && all[id] == byId[id])
            && (forall r :: r in reviews ==> r.trajectoryId in all && all[r.trajectoryId] == r)
            && (forall id :: id in all ==> id in byId || (all[id] in reviews && all[id].trajectoryId == id))
    decreases |reviews|
  {
    if reviews != [] {
      var r, rest := reviews[0], reviews[1..];
      ByIdHolds(rest, byId[r.trajectoryId := r]);
      assert reviews == [r] + rest;
    }
  }

  lemma {:induction false} ReviewedHas(cs: seq<Candidate>, byId: map<string, Review>, c: Candidate)
    requires CandidateIds(cs) <= byId.Keys && c in cs
    ensures c.trajectoryId in byId
    ensures Decided(byId[c.trajectoryId].verdict) ==> ItemOf(c, byId[c.trajectoryId]) in Reviewed(cs, byId)
  {
    assert cs[0] in cs && cs[0].trajectoryId in CandidateIds(cs);
    if c != cs[0] {
      assert cs == [cs[0]] + cs[1..];
      ReviewedHas(cs[1..], byId, c);
    }
  }

  /** What a candidate must be to be reviewed. */
  predicate Reviewable(c: Candidate) {
    c.pending && (c.split.Calibration? || c.split.Test?) && !Blank(Str(c.collectorRevision))
  }

  /** What a review must say; a reason may be absent, but not blank. */
  predicate Complete(r: Review) {
    && (r.verdict.Benign? || r.verdict.Malicious? || r.verdict.Inconclusive?)
    && (r.confidence.None? || r.confidence.value.High? || r.confidence.value.Low?)
    && !Blank(Str(r.labelSource)) && !Blank(Str(r.family)) && (r.reason.None? || !Blank(Str(r.reason.value)))
  }

  predicate AllReviewable(cs: seq<Candidate>) { forall c :: c in cs ==> Reviewable(c) }

  predicate AllComplete(reviews: seq<Review>) { forall r :: r in reviews ==> Complete(r) }

  lemma CandidateIff(c: Candidate)
    ensures CandidateError(c).None? <==> Reviewable(c)
  {
  }

  lemma {:induction false} CandidatesIff(cs: seq<Candidate>)
    ensures CandidatesError(cs).None? <==> AllReviewable(cs)
  {
    if cs != [] {
      CandidateIff(cs[0]);
      CandidatesIff(cs[1..]);
      HeadAndRest(cs, c => Reviewable(c));
    }
  }

  lemma HeadAndRest<T>(s: seq<T>, good: T -> bool)
    requires s != []
    ensures (forall x :: x in s ==> good(x)) <==> good(s[0]) && forall x :: x in s[1..] ==> good(x)
  {
    assert forall x :: x in s ==> x == s[0] || x in s[1..];
  }

  predicate OncePerTrajectory(reviews: seq<Review>) {
    forall i, j :: 0 <= i < j < |reviews| ==> reviews[i].trajectoryId != reviews[j].trajectoryId
  }

  predicate Unfiled(reviews: seq<Review>, byId: map<string, Review>) {
    forall i :: 0 <= i < |reviews| ==> reviews[i].trajectoryId !in byId
  }

  lemma OnceSplits(reviews: seq<Review>, byId: map<string, Review>)
    requires reviews != []
    ensures OncePerTrajectory(reviews) && Unfiled(reviews, byId) <==>
            && reviews[0].trajectoryId !in byId && OncePerTrajectory(reviews[1..])
            && Unfiled(reviews[1..], byId[reviews[0].trajectoryId := reviews[0]])
  {
    var rest := reviews[1..];
    assert forall i :: 1 <= i < |reviews| ==> reviews[i] == rest[i - 1];
    assert forall i :: 0 <= i < |rest| ==> rest[i] == reviews[i + 1];
  }

  lemma ReviewIff(r: Review, byId: map<string, Review>)
    ensures ReviewError(r, byId).None? <==> Complete(r) && r.trajectoryId !in byId
  {
  }

  lemma {:induction false} FilesIff(reviews: seq<Review>, byId: map<string, Review>)
    ensures ById(reviews, byId).Ok? <==>
            AllComplete(reviews) && OncePerTrajectory(reviews) && Unfiled(reviews, byId)
    decreases |reviews|
  {
    if reviews != [] {
      ReviewIff(reviews[0], byId);
      OnceSplits(reviews, byId);
      HeadAndRest(reviews, r => Complete(r));
      FilesIff(reviews[1..], byId[reviews[0].trajectoryId := reviews[0]]);
    }
  }

  predicate EachReviewed(cs: seq<Candidate>, reviews: seq<Review>) {
    forall c :: c in cs ==> exists r :: r in reviews && r.trajectoryId == c.trajectoryId
  }

  predicate NoneUnknown(cs: seq<Candidate>, reviews: seq<Review>) {
    forall r :: r in reviews ==> exists c :: c in cs && c.trajectoryId == r.trajectoryId
  }

  lemma FiledMeans(cs: seq<Candidate>, reviews: seq<Review>)
    requires ById(reviews, map[]).Ok?
    ensures var ids := ById(reviews, map[]).value.Keys;
            && (ids - CandidateIds(cs) == {} <==> NoneUnknown(cs, reviews))
            && (CandidateIds(cs) - ids == {} <==> EachReviewed(cs, reviews))
  {
    var byId := ById(reviews, map[]).value;
    ByIdHolds(reviews, map[]);
    FiledIds(cs, reviews, byId);
  }

  lemma FiledIds(cs: seq<Candidate>, reviews: seq<Review>, byId: map<string, Review>)
    requires forall r :: r in reviews ==> r.trajectoryId in byId && byId[r.trajectoryId] == r
    requires forall id :: id in byId ==> byId[id] in reviews && byId[id].trajectoryId == id
    ensures byId.Keys - CandidateIds(cs) == {} <==> NoneUnknown(cs, reviews)
    ensures CandidateIds(cs) - byId.Keys == {} <==> EachReviewed(cs, reviews)
  {
    if byId.Keys - CandidateIds(cs) == {} {
      forall r | r in reviews ensures exists c :: c in cs && c.trajectoryId == r.trajectoryId {
        assert r.trajectoryId !in byId.Keys - CandidateIds(cs);
      }
    }
    if CandidateIds(cs) - byId.Keys == {} {
      forall c | c in cs ensures exists r :: r in reviews && r.trajectoryId == c.trajectoryId {
        assert c.trajectoryId !in CandidateIds(cs) - byId.Keys;
        assert byId[c.trajectoryId] in reviews;
      }
    }
  }

  /** Reviews are applied iff every candidate is pending with a split and a collector revision, every review is
      complete, and each candidate has a review, each review a candidate, and no trajectory two reviews. */
  lemma AppliesIff(cs: seq<Candidate>, reviews: seq<Review>)
    ensures Apply(cs, reviews).Ok? <==>
            && AllReviewable(cs) && AllComplete(reviews) && EachReviewed(cs, reviews) && NoneUnknown(cs, reviews)
            && OncePerTrajectory(reviews)
  {
    CandidatesIff(cs);
    FilesIff(reviews, map[]);
    assert Unfiled(reviews, map[]);
    ApplyShape(cs, reviews);
    if ById(reviews, map[]).Ok? {
      FiledMeans(cs, reviews);
    }
  }

  lemma ApplyShape(cs: seq<Candidate>, reviews: seq<Review>)
    ensures var byId := ById(reviews, map[]);
            Apply(cs, reviews).Ok? <==>
            && CandidatesError(cs).None? && byId.Ok?
            && byId.value.Keys - CandidateIds(cs) == {} && CandidateIds(cs) - byId.value.Keys == {}
  {
  }

  /** The label sources of the items are those of the reviews that keep their candidate. */
  lemma SourcesOfReviews(cs: seq<Candidate>, reviews: seq<Review>)
    requires Apply(cs, reviews).Ok?
    ensures TextualSources(Apply(cs, reviews).value) <==>
            forall r :: r in reviews && Decided(r.verdict) ==> r.labelSource.Textual?
  {
    var byId := ById(reviews, map[]).value;
    var items := Apply(cs, reviews).value;
    ByIdHolds(reviews, map[]);
    if TextualSources(items) {
      forall r | r in reviews && Decided(r.verdict) ensures r.labelSource.Textual? {
        assert r.trajectoryId in CandidateIds(cs);
        var c :| c in cs && c.trajectoryId == r.trajectoryId;
        ReviewedHas(cs, byId, c);
        assert ItemOf(c, r) in items;
      }
    }
    if forall r :: r in reviews && Decided(r.verdict) ==> r.labelSource.Textual? {
      forall i | 0 <= i < |items| ensures items[i].labelSource.Textual? {
        ReviewedFrom(cs, byId, items[i]);
      }
    }
  }

  /** Closure of the pipeline: whatever telemetry was collected and however it was reviewed, the reviewed
      items load exactly if every review that keeps its candidate names its source by a text, and the
      selection matches some item; nothing else is refused, and nothing that matches is dropped. */
  lemma ReviewedCorpusLoads(c: Config, h: Hashes, events: seq<Record>, reviews: seq<Review>, split: Option<Split>, purpose: Option<Purpose>)
    requires Build(c, h, events).Ok? && |h.coverage(c)| == 64
    requires Apply(Build(c, h, events).value, reviews).Ok?
    ensures var items := Apply(Build(c, h, events).value, reviews).value;
            var textual := forall r :: r in reviews && Decided(r.verdict) ==> r.labelSource.Textual?;
            && (Load(items, split, purpose).Ok? <==> textual && exists i :: 0 <= i < |items| && Wanted(items[i], split, purpose))
            && (Load(items, split, purpose).Ok? ==> Load(items, split, purpose).value == Pick(items, split, purpose))
            && (textual && items != [] ==> Load(items, None, None).Ok? && |Load(items, None, None).value| == |items|)
  {
    var cs := Build(c, h, events).value;
    var byId := ById(reviews, map[]).value;
    var items := Apply(cs, reviews).value;
    BuiltIsLoadable(c, h, events);
    ReviewsAreValid(reviews, map[]);
    ReviewedIsWellFormed(cs, byId);
    SourcesOfReviews(cs, reviews);
    LoadsIffWellFormed(items, split, purpose);
    LoadsIffWellFormed(items, None, None);
    PickAll(items);
    if items != [] {
      assert Wanted(items[0], None, None);
    }
  }

  /** A review whose source is the number 5: `str` finds it non-empty, so it is accepted, for whatever
      candidate is pending; the loader then fails on the item. */
  lemma NumericSourceIsAcceptedNotLoaded(c: Candidate, split: Option<Split>, purpose: Option<Purpose>)
    requires CandidateError(c).None?
    ensures var r := Review(c.trajectoryId, Benign, Scalar(5, "5"), Textual("f"), None, None);
            Apply([c], [r]) == Ok([ItemOf(c, r)]) && Load([ItemOf(c, r)], split, purpose).Err?
  {
    var r := Review(c.trajectoryId, Benign, Scalar(5, "5"), Textual("f"), None, None);
    assert !IsSpace("5"[0]) && !IsSpace("f"[0]);
    assert [c][1..] == [] && [r][1..] == [];
    assert CandidatesError([c]) == None;
    assert ById([r], map[]) == ById([], map[c.trajectoryId := r]) == Ok(map[c.trajectoryId := r]);
    assert CandidateIds([c]) == {c.trajectoryId};
    assert Reviewed([], map[c.trajectoryId := r]) == [];
    assert Reviewed([c], map[c.trajectoryId := r]) == [ItemOf(c, r)];
    LoadsIffWellFormed([ItemOf(c, r)], split, purpose);
    assert !Sound([ItemOf(c, r)][0]);
  }

  lemma {:induction false} PickAll(items: seq<Item>)
    ensures |Pick(items, None, None)| == |items|
  {
    if items != [] {
      PickAll(items[1..]);
    }
  }
}
