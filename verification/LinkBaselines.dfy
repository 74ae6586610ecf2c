/** Baselines that join tool, family and destination links: unbounded, with eviction, and on a suffix. */
module LinkBaselines {
  import opened Wrappers
  import opened Text

  datatype Relation = R3 | R4 | R5 | RN | OtherRelation

  datatype Event = Event(relation: Relation, subject: string, object_: string)

  /** An entry of an ordered dictionary. */
  datatype Link = Link(key: string, value: string)

  /** Family by tool and destination by family, oldest assignment first. */
  datatype Tables = Tables(tools: seq<Link>, families: seq<Link>) {
    function Size(): nat { |tools| + |families| }
  }

  const EMPTY := Tables([], [])

  function Lookup(links: seq<Link>, key: string): Option<string> {
    if links == [] then None else if links[0].key == key then Some(links[0].value) else Lookup(links[1..], key)
  }

  function Without(links: seq<Link>, key: string): seq<Link> {
    if links == [] then [] else (if links[0].key == key then [] else [links[0]]) + Without(links[1..], key)
  }

  /** Assign and move to the end. */
  function Put(links: seq<Link>, key: string, value: string): seq<Link> { Without(links, key) + [Link(key, value)] }

  /** Pop from whichever table has the lesser oldest key, until the total fits. */
  function Evict(t: Tables, retained: int): Result<Tables>
    decreases t.Size()
  {
    if t.Size() <= retained then Ok(t)
    else if t.tools != [] && (t.families == [] || !Less(t.families[0].key, t.tools[0].key)) then
      Evict(t.(tools := t.tools[1..]), retained)
    else if t.families == [] then Err("dictionary is empty")
    else Evict(t.(families := t.families[1..]), retained)
  }

  function Bounded(t: Tables, retained: Option<int>): Result<Tables> {
    if retained.Some? then Evict(t, retained.value) else Ok(t)
  }

  function Step(t: Tables, e: Event, retained: Option<int>): Result<Tables> {
    if e.relation.R3? then Bounded(t.(tools := Put(t.tools, e.subject, e.object_)), retained)
    else if e.relation.R4? then Bounded(t.(families := Put(t.families, e.subject, e.object_)), retained)
    else Ok(t)
  }

  function After(events: seq<Event>, retained: Option<int>): Result<Tables> {
    if events == [] then Ok(EMPTY)
    else
      var before := After(events[..|events| - 1], retained);
      if before.Err? then before else Step(before.value, events[|events| - 1], retained)
  }

  /** The last terminal event. */
  function Terminal(events: seq<Event>): Option<Event> {
    if events == [] then None
    else if events[|events| - 1].relation.R5? then Some(events[|events| - 1])
    else Terminal(events[..|events| - 1])
  }

  /** The terminal tool's family leads to the terminal destination. Without a terminal event the tool is
      empty and no destination is the one looked for. */
  function Joined(t: Tables, terminal: Option<Event>): bool {
    var family := Lookup(t.tools, if terminal.Some? then terminal.value.subject else "");
    family.Some? && family.value != "" &&
    Lookup(t.families, family.value) == if terminal.Some? then Some(terminal.value.object_) else None
  }

  function Malicious(events: seq<Event>, retained: Option<int>): Result<bool> {
    var t := After(events, retained);
    if t.Err? then Err(t.error) else Ok(Joined(t.value, Terminal(events)))
  }

  method EvictDown(t: Tables, retained: int) returns (r: Result<Tables>)
    ensures r == Evict(t, retained)
    ensures r.Ok? ==> r.value.Size() <= retained
    ensures r.Ok? ==> exists i, j :: 0 <= i <= |t.tools| && 0 <= j <= |t.families| && r.value == Tables(t.tools[i..], t.families[j..])
  {
    var tools, families := t.tools, t.families;
    ghost var i, j := 0, 0;
    while |tools| + |families| > retained
      invariant 0 <= i <= |t.tools| && 0 <= j <= |t.families| && tools == t.tools[i..] && families == t.families[j..]
      invariant Evict(t, retained) == Evict(Tables(tools, families), retained)
      decreases |tools| + |families|
    {
      if tools != [] && (families == [] || !Less(families[0].key, tools[0].key)) {
        tools, i := tools[1..], i + 1;
      } else {
        if families == [] {
          return Err("dictionary is empty");
        }
        families, j := families[1..], j + 1;
      }
    }
    r := Ok(Tables(tools, families));
  }

  method MaliciousFromLinks(events: seq<Event>, retained: Option<int>) returns (r: Result<bool>)
    ensures r == Malicious(events, retained)
  {
    var t := EMPTY;
    var terminal: Option<Event> := None;
    for i := 0 to |events|
      invariant After(events[..i], retained) == Ok(t) && terminal == Terminal(events[..i])
    {
      var e := events[i];
      assert events[..i + 1][..i] == events[..i];
      if e.relation.R3? || e.relation.R4? {
        t := if e.relation.R3? then t.(tools := Put(t.tools, e.subject, e.object_))
             else t.(families := Put(t.families, e.subject, e.object_));
        if retained.Some? {
          var kept := EvictDown(t, retained.value);
          if kept.Err? {
            ErrorsStay(events, i + 1, retained);
            return Err(kept.error);
          }
          t := kept.value;
        }
      } else if e.relation.R5? {
        terminal := Some(e);
      }
    }
    assert events[..|events|] == events;
    r := Ok(Joined(t, terminal));
  }

  lemma {:induction false} ErrorsStay(events: seq<Event>, i: nat, retained: Option<int>)
    requires i <= |events| && After(events[..i], retained).Err?
    ensures After(events, retained) == After(events[..i], retained)
    decreases |events| - i
  {
    if i == |events| {
      assert events[..i] == events;
    } else {
      assert events[..i + 1][..i] == events[..i];
      ErrorsStay(events, i + 1, retained);
    }
  }

  // ---------------------------------------------------------------- what the tables hold

  /** The object of the last event that links this subject. */
  function LastLink(events: seq<Event>, relation: Relation, subject: string): Option<string> {
    if events == [] then None
    else
      var e := events[|events| - 1];
      if e.relation == relation && e.subject == subject then Some(e.object_)
      else LastLink(events[..|events| - 1], relation, subject)
  }

  /** Every entry is the last link of its key. */
  ghost predicate Faithful(links: seq<Link>, events: seq<Event>, relation: Relation) {
    forall link :: link in links ==> LastLink(events, relation, link.key) == Some(link.value)
  }

  ghost predicate FaithfulTables(t: Tables, events: seq<Event>) {
    Faithful(t.tools, events, R3) && Faithful(t.families, events, R4)
  }

  lemma {:induction false} LookupIsIn(links: seq<Link>, key: string)
    ensures Lookup(links, key).Some? ==> Link(key, Lookup(links, key).value) in links
    ensures Lookup(links, key).None? ==> forall link :: link in links ==> link.key != key
  {
    if links != [] {
      LookupIsIn(links[1..], key);
      assert links == [links[0]] + links[1..];
    }
  }

  lemma {:induction false} WithoutMembers(links: seq<Link>, key: string)
    ensures forall link :: link in Without(links, key) <==> link in links && link.key != key
  {
    if links != [] {
      WithoutMembers(links[1..], key);
      assert links == [links[0]] + links[1..];
    }
  }

  lemma LastLinkStep(events: seq<Event>, e: Event, relation: Relation, subject: string)
    ensures LastLink(events + [e], relation, subject) ==
            if e.relation == relation && e.subject == subject then Some(e.object_) else LastLink(events, relation, subject)
  {
    assert (events + [e])[..|events|] == events;
  }

  lemma PutIsFaithful(links: seq<Link>, events: seq<Event>, e: Event)
    requires Faithful(links, events, e.relation)
    ensures Faithful(Put(links, e.subject, e.object_), events + [e], e.relation)
  {
    WithoutMembers(links, e.subject);
    forall link | link in Put(links, e.subject, e.object_)
      ensures LastLink(events + [e], e.relation, link.key) == Some(link.value)
    {
      LastLinkStep(events, e, e.relation, link.key);
    }
  }

  lemma OtherIsFaithful(links: seq<Link>, events: seq<Event>, e: Event, relation: Relation)
    requires Faithful(links, events, relation) && e.relation != relation
    ensures Faithful(links, events + [e], relation)
  {
    forall link | link in links ensures LastLink(events + [e], relation, link.key) == Some(link.value) {
      LastLinkStep(events, e, relation, link.key);
    }
  }

  lemma {:induction false} EvictKeepsFaithful(t: Tables, retained: int, events: seq<Event>)
    requires FaithfulTables(t, events)
    ensures var r := Evict(t, retained); r.Ok? ==> FaithfulTables(r.value, events) && r.value.Size() <= retained
    decreases t.Size()
  {
    if t.Size() > retained {
      if t.tools != [] && (t.families == [] || !Less(t.families[0].key, t.tools[0].key)) {
        EvictKeepsFaithful(t.(tools := t.tools[1..]), retained, events);
      } else if t.families != [] {
        EvictKeepsFaithful(t.(families := t.families[1..]), retained, events);
      }
    }
  }

  lemma StepIsFaithful(t: Tables, events: seq<Event>, e: Event, retained: Option<int>)
    requires FaithfulTables(t, events)
    ensures var r := Step(t, e, retained); r.Ok? ==> FaithfulTables(r.value, events + [e])
  {
    if e.relation.R3? {
      PutIsFaithful(t.tools, events, e);
      OtherIsFaithful(t.families, events, e, R4);
      if retained.Some? {
        EvictKeepsFaithful(t.(tools := Put(t.tools, e.subject, e.object_)), retained.value, events + [e]);
      }
    } else if e.relation.R4? {
      PutIsFaithful(t.families, events, e);
      OtherIsFaithful(t.tools, events, e, R3);
      if retained.Some? {
        EvictKeepsFaithful(t.(families := Put(t.families, e.subject, e.object_)), retained.value, events + [e]);
      }
    } else {
      OtherIsFaithful(t.tools, events, e, R3);
      OtherIsFaithful(t.families, events, e, R4);
    }
  }

  lemma {:induction false} TablesAreFaithful(events: seq<Event>, retained: Option<int>)
    ensures var t := After(events, retained); t.Ok? ==> FaithfulTables(t.value, events)
  {
    if events != [] {
      var init, e := events[..|events| - 1], events[|events| - 1];
      TablesAreFaithful(init, retained);
      if After(init, retained).Ok? {
        StepIsFaithful(After(init, retained).value, init, e, retained);
      }
      assert events == init + [e];
    }
  }

  // ---------------------------------------------------------------- nothing missing

  function Keys(links: seq<Link>): set<string> { set link | link in links :: link.key }

  function Subjects(events: seq<Event>, relation: Relation): set<string> {
    set e | e in events && e.relation == relation :: e.subject
  }

  predicate OneEach(links: seq<Link>) {
    forall i, j :: 0 <= i < j < |links| ==> links[i].key != links[j].key
  }

  /** One entry for each subject linked so far. */
  ghost predicate Complete(links: seq<Link>, events: seq<Event>, relation: Relation) {
    Keys(links) == Subjects(events, relation) && OneEach(links)
  }

  lemma {:induction false} SizeIsKeys(links: seq<Link>)
    requires OneEach(links)
    ensures |links| == |Keys(links)|
  {
    if links != [] {
      var n := |links| - 1;
      SizeIsKeys(links[..n]);
      assert links == links[..n] + [links[n]];
      assert Keys(links) == Keys(links[..n]) + {links[n].key};
    }
  }

  lemma {:induction false} WithoutKeepsOneEach(links: seq<Link>, key: string)
    requires OneEach(links)
    ensures OneEach(Without(links, key))
  {
    if links != [] {
      WithoutKeepsOneEach(links[1..], key);
      WithoutMembers(links[1..], key);
      var rest := Without(links[1..], key);
      forall j | 0 <= j < |rest| ensures rest[j].key != links[0].key {
        assert rest[j] in rest;
        var i :| 0 <= i < |links[1..]| && links[1..][i] == rest[j];
        assert links[i + 1] == rest[j];
      }
    }
  }

  lemma PutIsComplete(links: seq<Link>, events: seq<Event>, e: Event)
    requires Complete(links, events, e.relation)
    ensures Complete(Put(links, e.subject, e.object_), events + [e], e.relation)
  {
    var put := Put(links, e.subject, e.object_);
    WithoutMembers(links, e.subject);
    WithoutKeepsOneEach(links, e.subject);
    forall i, j | 0 <= i < j < |put| ensures put[i].key != put[j].key {
      assert put[i] in Without(links, e.subject);
    }
    forall key ensures key in Keys(put) <==> key == e.subject || key in Keys(links) {
      if key == e.subject {
        assert Link(e.subject, e.object_) in put;
      }
      if link :| link in links && link.key == key && key != e.subject {
        assert link in put;
      }
    }
    SubjectsStep(events, e, e.relation);
  }

  lemma SubjectsStep(events: seq<Event>, e: Event, relation: Relation)
    ensures Subjects(events + [e], relation) == Subjects(events, relation) + if e.relation == relation then {e.subject} else {}
  {
    assert forall x :: x in events + [e] <==> x in events || x == e;
  }

  lemma {:induction false} UnboundedIsComplete(events: seq<Event>)
    ensures var t := After(events, None); t.Ok? && Complete(t.value.tools, events, R3) && Complete(t.value.families, events, R4)
  {
    if events != [] {
      var init, e := events[..|events| - 1], events[|events| - 1];
      UnboundedIsComplete(init);
      var t := After(init, None).value;
      assert events == init + [e];
      SubjectsStep(init, e, R3);
      SubjectsStep(init, e, R4);
      if e.relation.R3? {
        PutIsComplete(t.tools, init, e);
      } else if e.relation.R4? {
        PutIsComplete(t.families, init, e);
      }
    }
  }

  lemma LookupIsLastLink(links: seq<Link>, events: seq<Event>, relation: Relation, key: string)
    requires Faithful(links, events, relation) && Complete(links, events, relation)
    ensures Lookup(links, key) == LastLink(events, relation, key)
  {
    LookupIsIn(links, key);
    LastLinkHasSubject(events, relation, key);
  }

  lemma {:induction false} LastLinkHasSubject(events: seq<Event>, relation: Relation, key: string)
    ensures LastLink(events, relation, key).Some? ==> key in Subjects(events, relation)
  {
    if events != [] {
      LastLinkHasSubject(events[..|events| - 1], relation, key);
    }
  }

  /** Tool's last family, and family's last destination, is the terminal one. */
  ghost predicate LinksJoin(events: seq<Event>, terminal: Option<Event>) {
    var family := LastLink(events, R3, if terminal.Some? then terminal.value.subject else "");
    family.Some? && family.value != "" &&
    LastLink(events, R4, family.value) == if terminal.Some? then Some(terminal.value.object_) else None
  }

  /** Without eviction the answer is the join of the last links. */
  lemma UnboundedJoins(events: seq<Event>)
    ensures Malicious(events, None) == Ok(LinksJoin(events, Terminal(events)))
  {
    UnboundedIsComplete(events);
    TablesAreFaithful(events, None);
    var t := After(events, None).value;
    var terminal := Terminal(events);
    LookupIsLastLink(t.tools, events, R3, if terminal.Some? then terminal.value.subject else "");
    var family := Lookup(t.tools, if terminal.Some? then terminal.value.subject else "");
    if family.Some? {
      LookupIsLastLink(t.families, events, R4, family.value);
    }
  }

  predicate Hits(events: seq<Event>, retained: Option<int>) { Malicious(events, retained) == Ok(true) }

  /** Every linked tool has a name. */
  predicate ToolsNamed(events: seq<Event>) {
    forall i :: 0 <= i < |events| && events[i].relation.R3? ==> events[i].subject != ""
  }

  /** The family last linked to the tool without a name, if that tool has one. */
  function NamelessFamily(events: seq<Event>): Option<string> {
    var family := LastLink(events, R3, "");
    if family.Some? && family.value != "" then family else None
  }

  /** No terminal event, and a nameless tool's family without a destination: that is a hit, too. */
  predicate Dangling(events: seq<Event>) {
    && Terminal(events).None? && NamelessFamily(events).Some?
    && LastLink(events, R4, NamelessFamily(events).value).None?
  }

  lemma {:induction false} NamedHasNoFamily(events: seq<Event>)
    requires ToolsNamed(events)
    ensures LastLink(events, R3, "").None? && !Dangling(events)
  {
    if events != [] {
      var init := events[..|events| - 1];
      assert forall i :: 0 <= i < |init| ==> init[i] == events[i];
      NamedHasNoFamily(init);
    }
  }

  /** What a hit without a terminal event is. */
  lemma DanglingHits(events: seq<Event>)
    requires Terminal(events).None?
    ensures Hits(events, None) <==> Dangling(events)
  {
    UnboundedJoins(events);
  }

  // ---------------------------------------------------------------- eviction under-approximates

  /** A hit under a budget is a hit of the unbounded join exactly if there is a terminal event, or the
      nameless tool's family never had a destination; never a false one if every tool has a name. */
  lemma EvictionIsSound(events: seq<Event>, budget: int)
    requires Hits(events, Some(budget))
    ensures Hits(events, None) <==> Terminal(events).Some? || Dangling(events)
    ensures ToolsNamed(events) ==> Terminal(events).Some?
  {
    TablesAreFaithful(events, Some(budget));
    UnboundedJoins(events);
    var t, terminal := After(events, Some(budget)).value, Terminal(events);
    var tool := if terminal.Some? then terminal.value.subject else "";
    LookupIsIn(t.tools, tool);
    LookupIsIn(t.families, Lookup(t.tools, tool).value);
    if ToolsNamed(events) {
      NamedHasNoFamily(events);
    }
  }

  /** Without a terminal event, eviction can forget the destination of the nameless tool's family. */
  lemma EvictedDestinationMisleads()
    ensures var events := [Event(R3, "z", "a"), Event(R3, "", "f"), Event(R4, "f", "d")];
            Hits(events, Some(2)) && !Hits(events, None)
  {
    var a, b, d := Event(R3, "z", "a"), Event(R3, "", "f"), Event(R4, "f", "d");
    var named, nameless := Link("z", "a"), Link("", "f");
    AfterStep([], a, 2);
    assert Put([], "z", "a") == [named];
    AfterStep([a], b, 2);
    assert Put([named], "", "f") == [named, nameless];
    AfterStep([a, b], d, 2);
    EvictsFamily(named, nameless, Link("f", "d"));
    assert [] + [a] == [a] && [a] + [b] == [a, b] && [a, b] + [d] == [a, b, d];
    TerminalStep([], a);
    TerminalStep([a], b);
    TerminalStep([a, b], d);
    assert Lookup([named, nameless], "") == Lookup([nameless], "") == Some("f");
    DanglingHits([a, b, d]);
    LastLinkStep([a], b, R3, "");
    LastLinkStep([a, b], d, R3, "");
    LastLinkStep([a, b], d, R4, "f");
  }

  lemma AfterStep(events: seq<Event>, e: Event, budget: int)
    requires After(events, Some(budget)).Ok?
    ensures After(events + [e], Some(budget)) == Step(After(events, Some(budget)).value, e, Some(budget))
  {
    assert (events + [e])[..|events|] == events;
  }

  lemma EvictsFamily(named: Link, nameless: Link, family: Link)
    requires Less(family.key, named.key)
    ensures Evict(Tables([named, nameless], [family]), 2) == Ok(Tables([named, nameless], []))
  {
    assert [family][1..] == [];
  }

  lemma SubsetSizes(a: set<string>, b: set<string>)
    requires a <= b
    ensures |a| <= |b|
  {
    assert b == a + (b - a);
  }

  lemma PrefixSubjects(events: seq<Event>, i: nat, relation: Relation)
    requires i <= |events|
    ensures |Subjects(events[..i], relation)| <= |Subjects(events, relation)|
  {
    assert forall x :: x in events[..i] ==> x in events;
    SubsetSizes(Subjects(events[..i], relation), Subjects(events, relation));
  }

  /** Unbounded tables never hold more entries than there are subjects in the end. */
  lemma UnboundedSize(events: seq<Event>, i: nat)
    requires i <= |events|
    ensures After(events[..i], None).Ok?
    ensures After(events[..i], None).value.Size() <= |Subjects(events, R3)| + |Subjects(events, R4)|
  {
    UnboundedIsComplete(events[..i]);
    var t := After(events[..i], None).value;
    SizeIsKeys(t.tools);
    SizeIsKeys(t.families);
    PrefixSubjects(events, i, R3);
    PrefixSubjects(events, i, R4);
  }

  lemma {:induction false} NothingEvicted(events: seq<Event>, i: nat, budget: int)
    requires i <= |events| && |Subjects(events, R3)| + |Subjects(events, R4)| <= budget
    ensures After(events[..i], Some(budget)) == After(events[..i], None)
  {
    if i > 0 {
      NothingEvicted(events, i - 1, budget);
      assert events[..i][..i - 1] == events[..i - 1];
      UnboundedSize(events, i - 1);
      UnboundedSize(events, i);
    }
  }

  /** It is exact when the distinct tools and families fit the budget. */
  lemma EvictionIsExactWithinBudget(events: seq<Event>, budget: int)
    requires |Subjects(events, R3)| + |Subjects(events, R4)| <= budget
    ensures Malicious(events, Some(budget)) == Malicious(events, None)
  {
    NothingEvicted(events, |events|, budget);
    assert events[..|events|] == events;
  }

  lemma {:induction false} EvictFailsIff(t: Tables, retained: int)
    ensures Evict(t, retained).Ok? <==> retained >= 0
    decreases t.Size()
  {
    if t.Size() > retained {
      if t.tools != [] && (t.families == [] || !Less(t.families[0].key, t.tools[0].key)) {
        EvictFailsIff(t.(tools := t.tools[1..]), retained);
      } else if t.families != [] {
        EvictFailsIff(t.(families := t.families[1..]), retained);
      }
    }
  }

  /** The loop runs dry exactly under a negative budget, as soon as there is something to retain; under
      any other, what is retained always fits. */
  lemma {:induction false} BudgetHolds(events: seq<Event>, budget: int)
    ensures After(events, Some(budget)).Ok? <==> budget >= 0 || Subjects(events, R3) + Subjects(events, R4) == {}
    ensures After(events, Some(budget)).Ok? && budget >= 0 ==> After(events, Some(budget)).value.Size() <= budget
  {
    if events != [] {
      var init, e := events[..|events| - 1], events[|events| - 1];
      BudgetHolds(init, budget);
      assert events == init + [e];
      SubjectsStep(init, e, R3);
      SubjectsStep(init, e, R4);
      var before := After(init, Some(budget));
      if before.Ok? && (e.relation.R3? || e.relation.R4?) {
        var t := if e.relation.R3? then before.value.(tools := Put(before.value.tools, e.subject, e.object_))
                 else before.value.(families := Put(before.value.families, e.subject, e.object_));
        EvictFailsIff(t, budget);
        EvictFits(t, budget);
      }
    }
  }

  lemma {:induction false} EvictFits(t: Tables, retained: int)
    ensures Evict(t, retained).Ok? ==> Evict(t, retained).value.Size() <= retained
    decreases t.Size()
  {
    if t.Size() > retained {
      if t.tools != [] && (t.families == [] || !Less(t.families[0].key, t.tools[0].key)) {
        EvictFits(t.(tools := t.tools[1..]), retained);
      } else if t.families != [] {
        EvictFits(t.(families := t.families[1..]), retained);
      }
    }
  }

  // ---------------------------------------------------------------- suffixes under-approximate

  function Meaningful(events: seq<Event>): seq<Event> {
    if events == [] then []
    else
      var e := events[|events| - 1];
      Meaningful(events[..|events| - 1]) + if e.relation.RN? then [] else [e]
  }

  function LastOf<T>(s: seq<T>, n: nat): seq<T> { if |s| > n then s[|s| - n..] else s }

  /** A deque of bounded length over the events that are not noise. */
  method FsmPredict(events: seq<Event>, budget: nat) returns (r: bool)
    ensures Malicious(LastOf(Meaningful(events), budget), None) == Ok(r)
  {
    var meaningful: seq<Event> := [];
    for i := 0 to |events|
      invariant meaningful == LastOf(Meaningful(events[..i]), budget)
    {
      assert events[..i + 1][..i] == events[..i];
      if !events[i].relation.RN? {
        meaningful := meaningful + [events[i]];
        if |meaningful| > budget {
          meaningful := meaningful[1..];
        }
      }
    }
    assert events[..|events|] == events;
    var result := MaliciousFromLinks(meaningful, None);
    UnboundedJoins(meaningful);
    r := result.value;
  }

  /** Python's slice from minus `window` on: the last `window` events, all of them for zero, and all but
      the first ones for a negative window. */
  function WindowOf(events: seq<Event>, window: int): seq<Event> {
    if window > 0 then LastOf(events, window)
    else if -window <= |events| then events[-window..]
    else []
  }

  method SlidingPredict(events: seq<Event>, window: int) returns (r: bool)
    ensures Malicious(WindowOf(events, window), None) == Ok(r)
  {
    var result := MaliciousFromLinks(WindowOf(events, window), None);
    UnboundedJoins(WindowOf(events, window));
    r := result.value;
  }

  lemma {:induction false} LastLinkOfSuffix(front: seq<Event>, events: seq<Event>, relation: Relation, subject: string)
    ensures LastLink(events, relation, subject).Some? ==>
              LastLink(front + events, relation, subject) == LastLink(events, relation, subject)
    ensures Terminal(events).Some? ==> Terminal(front + events) == Terminal(events)
  {
    if events != [] {
      LastLinkOfSuffix(front, events[..|events| - 1], relation, subject);
      assert (front + events)[..|front + events| - 1] == front + events[..|events| - 1];
    }
  }

  /** A hit on a suffix that still holds a terminal event is a hit on the whole. */
  lemma SuffixIsSound(front: seq<Event>, events: seq<Event>)
    requires Terminal(events).Some? && Malicious(events, None) == Ok(true)
    ensures Malicious(front + events, None) == Ok(true)
  {
    UnboundedJoins(events);
    UnboundedJoins(front + events);
    var e := Terminal(events).value;
    LastLinkOfSuffix(front, events, R3, e.subject);
    LastLinkOfSuffix(front, events, R4, LastLink(events, R3, e.subject).value);
  }

  /** Another event could always follow the nameless tool's family up. */
  lemma DanglingIsUnsound(events: seq<Event>)
    requires Dangling(events)
    ensures exists front: seq<Event> :: !Hits(front + events, None)
  {
    var family := NamelessFamily(events).value;
    var link := Event(R4, family, "");
    LastLinkOfSuffix([link], events, R3, "");
    NewDestination(link, events, family);
    UnboundedJoins([link] + events);
    assert !Hits([link] + events, None);
  }

  lemma {:induction false} NewDestination(link: Event, events: seq<Event>, family: string)
    requires link.relation.R4? && link.subject == family
    requires Terminal(events).None? && LastLink(events, R4, family).None?
    ensures Terminal([link] + events).None? && LastLink([link] + events, R4, family) == Some(link.object_)
  {
    if events == [] {
      assert [link] + events == [link] && [link][..0] == [];
    } else {
      assert ([link] + events)[..|events|] == [link] + events[..|events| - 1];
      NewDestination(link, events[..|events| - 1], family);
    }
  }

  /** Exactly which suffixes can be trusted without knowing what came before: those that are not
      dangling. A hit among them is one with a terminal event. */
  lemma SuffixIsSoundIff(events: seq<Event>)
    ensures (forall front: seq<Event> :: Hits(events, None) ==> Hits(front + events, None)) <==> !Dangling(events)
    ensures Hits(events, None) ==> (!Dangling(events) <==> Terminal(events).Some?)
  {
    if Terminal(events).None? {
      DanglingHits(events);
    }
    if Dangling(events) {
      DanglingIsUnsound(events);
    } else {
      forall front: seq<Event> | Hits(events, None) ensures Hits(front + events, None) {
        SuffixIsSound(front, events);
      }
    }
  }

  lemma TerminalStep(events: seq<Event>, e: Event)
    ensures Terminal(events + [e]) == if e.relation.R5? then Some(e) else Terminal(events)
  {
    assert (events + [e])[..|events|] == events;
  }

  lemma MeaningfulStep(events: seq<Event>, e: Event)
    ensures Meaningful(events + [e]) == if e.relation.RN? then Meaningful(events) else Meaningful(events) + [e]
  {
    assert (events + [e])[..|events|] == events;
    assert Meaningful(events) + [] == Meaningful(events);
  }

  lemma {:induction false} NoiseIsIrrelevant(events: seq<Event>, relation: Relation, subject: string)
    requires relation != RN
    ensures LastLink(Meaningful(events), relation, subject) == LastLink(events, relation, subject)
    ensures Terminal(Meaningful(events)) == Terminal(events)
  {
    if events != [] {
      var init, e := events[..|events| - 1], events[|events| - 1];
      NoiseIsIrrelevant(init, relation, subject);
      MeaningfulStep(init, e);
      LastLinkStep(init, e, relation, subject);
      LastLinkStep(Meaningful(init), e, relation, subject);
      TerminalStep(init, e);
      TerminalStep(Meaningful(init), e);
      assert events == init + [e];
    }
  }

  lemma MeaningfulJoins(events: seq<Event>)
    ensures Malicious(Meaningful(events), None) == Malicious(events, None)
  {
    UnboundedJoins(events);
    UnboundedJoins(Meaningful(events));
    var terminal := Terminal(events);
    var tool := if terminal.Some? then terminal.value.subject else "";
    NoiseIsIrrelevant(events, R3, tool);
    var family := LastLink(events, R3, tool);
    if family.Some? {
      NoiseIsIrrelevant(events, R4, family.value);
    }
  }

  predicate EndsInTerminal(events: seq<Event>) { events != [] && events[|events| - 1].relation.R5? }

  /** What the bounded forms keep is not dangling if the trajectory ends in a terminal event, or every
      tool in it has a name. */
  lemma SuffixIsTrusted(front: seq<Event>, events: seq<Event>)
    requires events == [] || EndsInTerminal(front + events) || ToolsNamed(front + events)
    ensures !Dangling(events)
  {
    assert forall i :: 0 <= i < |events| ==> events[i] == (front + events)[|front| + i];
    if events != [] && !EndsInTerminal(front + events) {
      NamedHasNoFamily(events);
    }
  }

  lemma {:induction false} MeaningfulIsTrusted(events: seq<Event>)
    ensures ToolsNamed(events) ==> ToolsNamed(Meaningful(events))
    ensures EndsInTerminal(events) ==> EndsInTerminal(Meaningful(events))
  {
    if events != [] {
      var init := events[..|events| - 1];
      assert forall i :: 0 <= i < |init| ==> init[i] == events[i];
      MeaningfulIsTrusted(init);
    }
  }

  /** The rest of a sequence, before its last part. */
  function Before<T>(s: seq<T>, last: seq<T>): (front: seq<T>)
    requires |last| <= |s| && last == s[|s| - |last|..]
    ensures s == front + last
  {
    s[..|s| - |last|]
  }

  lemma TrustedSuffix(events: seq<Event>, last: seq<Event>)
    requires |last| <= |events| && last == events[|events| - |last|..]
    ensures Hits(last, None) && !Dangling(last) ==> Hits(events, None)
    ensures EndsInTerminal(events) || ToolsNamed(events) ==> !Dangling(last)
  {
    var front := Before(events, last);
    SuffixIsSoundIff(last);
    assert Hits(last, None) && !Dangling(last) ==> Hits(front + last, None);
    if EndsInTerminal(events) || ToolsNamed(events) {
      SuffixIsTrusted(front, last);
    }
  }

  /** The sliding window, whatever its size, and the bounded state machine only hit what the unbounded join
      hits, unless what they keep is dangling; it never is on a trajectory that ends in a terminal
      event, or one in which every tool has a name. */
  lemma WindowsAreSound(events: seq<Event>, window: int, budget: nat)
    ensures var w := WindowOf(events, window);
            && (Hits(w, None) && !Dangling(w) ==> Hits(events, None))
            && (EndsInTerminal(events) || ToolsNamed(events) ==> !Dangling(w))
    ensures var f := LastOf(Meaningful(events), budget);
            && (Hits(f, None) && !Dangling(f) ==> Hits(events, None))
            && (EndsInTerminal(events) || ToolsNamed(events) ==> !Dangling(f))
  {
    TrustedSuffix(events, WindowOf(events, window));
    TrustedSuffix(Meaningful(events), LastOf(Meaningful(events), budget));
    MeaningfulJoins(events);
    MeaningfulIsTrusted(events);
  }

  /** A window that has lost the terminal event can hit where the unbounded join does not. */
  lemma LostTerminalMisleads()
    ensures var events := [Event(R5, "x", "y"), Event(R3, "", "f")];
            Malicious(WindowOf(events, 1), None) == Ok(true) && Malicious(events, None) == Ok(false)
  {
    var first, last := Event(R5, "x", "y"), Event(R3, "", "f");
    var events, w := [first, last], [last];
    assert WindowOf(events, 1) == w;
    assert events[..1] == [first] && w[..0] == [] && [first][..0] == [];
    UnboundedJoins(events);
    UnboundedJoins(w);
    assert LastLink(w, R3, "") == Some("f");
    assert LastLink(w, R4, "f") == LastLink([], R4, "f") == None;
    assert Terminal(w) == Terminal([]) == None;
    assert Terminal(events) == Terminal([first]) == Some(first);
    assert LastLink(events, R3, "x") == LastLink([first], R3, "x") == LastLink([], R3, "x") == None;
  }
}
