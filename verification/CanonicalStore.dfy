/** The canonical event store: an append-only log with an index of ids and sequences. */
module CanonicalStore {
  import opened Wrappers
  import opened Contracts

  /** A line of the log; a broken one does not parse. */
  datatype Line = Blank | Entry(event: SecurityEvent) | Broken

  datatype Index = Index(seenIds: set<string>, lastSequence: map<string, nat>)

  const EMPTY := Index({}, map[])

  function IndexError(ix: Index, e: SecurityEvent): Option<string> {
    if e.eventId in ix.seenIds then Some("duplicate event_id")
    else if e.namespaceId in ix.lastSequence && e.sequence <= ix.lastSequence[e.namespaceId] then Some("sequence replay")
    else None
  }

  function Indexed(ix: Index, e: SecurityEvent): Index {
    Index(ix.seenIds + {e.eventId}, ix.lastSequence[e.namespaceId := e.sequence])
  }

  function LoadLine(line: Line, ix: Index): Result<Index> {
    match line
    case Blank => Ok(ix)
    case Broken => Err("invalid canonical record")
    case Entry(e) =>
      if !ValidEvent(e) then Err("invalid canonical record")
      else if IndexError(ix, e).Some? then Err(IndexError(ix, e).value)
      else Ok(Indexed(ix, e))
  }

  /** The index of a log, or the first failure. */
  function Load(lines: seq<Line>, ix: Index): Result<Index>
    decreases |lines|
  {
    if lines == [] then Ok(ix)
    else
      var next := LoadLine(lines[0], ix);
      if next.Err? then next else Load(lines[1..], next.value)
  }

  /** Whether an append goes through, where `io` says that writing and syncing succeed. */
  predicate Accepts(ix: Index, e: SecurityEvent, io: bool) {
    ValidEvent(e) && IndexError(ix, e).None? && io
  }

  class Store {
    var lines: seq<Line>
    var seenIds: set<string>
    var lastSequence: map<string, nat>

    function View(): Index
      reads this
    {
      Index(seenIds, lastSequence)
    }

    /** Opening the log again would give the index in memory. */
    ghost predicate Valid()
      reads this
    {
      Load(lines, EMPTY) == Ok(View())
    }

    constructor (lines: seq<Line>, index: Index)
      requires Load(lines, EMPTY) == Ok(index)
      ensures Valid() && this.lines == lines && View() == index
    {
      this.lines := lines;
      seenIds, lastSequence := index.seenIds, index.lastSequence;
    }

    method CheckIndex(e: SecurityEvent) returns (error: Option<string>)
      ensures error == IndexError(View(), e)
    {
      if e.eventId in seenIds {
        return Some("duplicate event_id");
      }
      if e.namespaceId in lastSequence && e.sequence <= lastSequence[e.namespaceId] {
        return Some("sequence replay");
      }
      error := None;
    }

    method AddToIndex(e: SecurityEvent) returns (error: Option<string>)
      modifies this`seenIds, this`lastSequence
      ensures error == IndexError(old(View()), e)
      ensures View() == if error.None? then Indexed(old(View()), e) else old(View())
    {
      error := CheckIndex(e);
      if error.None? {
        seenIds := seenIds + {e.eventId};
        lastSequence := lastSequence[e.namespaceId := e.sequence];
      }
    }

    /** A rejected append changes nothing; an accepted one adds its line, and reopening stays possible. */
    method Append(e: SecurityEvent, io: bool) returns (error: Option<string>)
      requires Valid()
      modifies this
      ensures Valid() && (error.None? <==> Accepts(old(View()), e, io))
      ensures lines == old(lines) + if error.None? then [Entry(e)] else []
      ensures View() == if error.None? then Indexed(old(View()), e) else old(View())
    {
      assert lines + [] == lines;
      if !ValidEvent(e) {
        return Some("invalid event");
      }
      error := CheckIndex(e);
      if error.Some? {
        return;
      }
      if !io {
        return Some("write failed");
      }
      LoadAppend(lines, [Entry(e)], EMPTY);
      assert [Entry(e)][1..] == [];
      lines := lines + [Entry(e)];
      error := AddToIndex(e);
    }
  }

  method Open(lines: seq<Line>) returns (r: Result<Store>)
    ensures r.Ok? <==> Load(lines, EMPTY).Ok?
    ensures r.Err? ==> Load(lines, EMPTY) == Err(r.error)
    ensures r.Ok? ==> fresh(r.value) && r.value.Valid() && r.value.lines == lines
  {
    var index := EMPTY;
    for i := 0 to |lines|
      invariant Load(lines, EMPTY) == Load(lines[i..], index)
    {
      assert lines[i..][0] == lines[i] && lines[i..][1..] == lines[i + 1..];
      match lines[i] {
        case Blank =>
        case Broken => return Err("invalid canonical record");
        case Entry(e) =>
          if !ValidEvent(e) {
            return Err("invalid canonical record");
          }
          var error := IndexError(index, e);
          if error.Some? {
            return Err(error.value);
          }
          index := Indexed(index, e);
      }
    }
    var store := new Store(lines, index);
    r := Ok(store);
  }

  lemma {:induction false} LoadAppend(a: seq<Line>, b: seq<Line>, ix: Index)
    ensures Load(a + b, ix) == if Load(a, ix).Ok? then Load(b, Load(a, ix).value) else Load(a, ix)
    decreases |a|
  {
    if a == [] {
      assert a + b == b;
    } else {
      assert (a + b)[0] == a[0] && (a + b)[1..] == a[1..] + b;
      if LoadLine(a[0], ix).Ok? {
        LoadAppend(a[1..], b, LoadLine(a[0], ix).value);
      }
    }
  }

  // ---------------------------------------------------------------- runs

  datatype Attempt = Attempt(event: SecurityEvent, io: bool)

  /** The log and the index in memory after some attempts to append. */
  function After(lines: seq<Line>, ix: Index, attempts: seq<Attempt>): (seq<Line>, Index)
    decreases |attempts|
  {
    if attempts == [] then (lines, ix)
    else
      var a := attempts[0];
      if Accepts(ix, a.event, a.io) then After(lines + [Entry(a.event)], Indexed(ix, a.event), attempts[1..])
      else After(lines, ix, attempts[1..])
  }

  /** After any attempts, accepted, rejected or failed, the log opens and gives exactly the index in memory. */
  lemma {:induction false} ReopeningRebuilds(lines: seq<Line>, ix: Index, attempts: seq<Attempt>)
    requires Load(lines, EMPTY) == Ok(ix)
    ensures Load(After(lines, ix, attempts).0, EMPTY) == Ok(After(lines, ix, attempts).1)
    decreases |attempts|
  {
    if attempts != [] {
      var a := attempts[0];
      if Accepts(ix, a.event, a.io) {
        LoadAppend(lines, [Entry(a.event)], EMPTY);
        assert [Entry(a.event)][1..] == [];
        ReopeningRebuilds(lines + [Entry(a.event)], Indexed(ix, a.event), attempts[1..]);
      } else {
        ReopeningRebuilds(lines, ix, attempts[1..]);
      }
    }
  }

  // ---------------------------------------------------------------- what a log that opens looks like

  predicate Comes(a: Line, b: Line) {
    a.Entry? && b.Entry? ==>
      a.event.eventId != b.event.eventId &&
      (a.event.namespaceId == b.event.namespaceId ==> a.event.sequence < b.event.sequence)
  }

  /** Valid records, ids unique throughout, sequences strictly increasing within each namespace. */
  predicate WellFormed(lines: seq<Line>) {
    && (forall i :: 0 <= i < |lines| ==> !lines[i].Broken? && (lines[i].Entry? ==> ValidEvent(lines[i].event)))
    && forall i, j :: 0 <= i < j < |lines| ==> Comes(lines[i], lines[j])
  }

  predicate FitsIndex(ix: Index, line: Line) {
    line.Entry? ==> IndexError(ix, line.event).None?
  }

  lemma LoadLineIff(line: Line, ix: Index)
    ensures LoadLine(line, ix).Ok? <==> !line.Broken? && (line.Entry? ==> ValidEvent(line.event)) && FitsIndex(ix, line)
  {
  }

  lemma FitsAfter(line: Line, later: Line, ix: Index)
    requires LoadLine(line, ix).Ok? && FitsIndex(ix, line)
    ensures FitsIndex(LoadLine(line, ix).value, later) <==> FitsIndex(ix, later) && Comes(line, later)
  {
  }

  lemma {:induction false} LoadIff(lines: seq<Line>, ix: Index)
    ensures Load(lines, ix).Ok? <==> WellFormed(lines) && forall i :: 0 <= i < |lines| ==> FitsIndex(ix, lines[i])
    decreases |lines|
  {
    if lines != [] {
      var head, rest := lines[0], lines[1..];
      var next := LoadLine(head, ix);
      LoadLineIff(head, ix);
      WellFormedSplits(lines);
      assert (forall i :: 0 <= i < |lines| ==> FitsIndex(ix, lines[i])) <==>
             FitsIndex(ix, head) && forall i :: 0 <= i < |rest| ==> FitsIndex(ix, rest[i]) by {
        FitsSplits(lines, ix);
      }
      if next.Ok? {
        LoadIff(rest, next.value);
        forall i | 0 <= i < |rest| ensures FitsIndex(next.value, rest[i]) <==> FitsIndex(ix, rest[i]) && Comes(head, rest[i]) {
          FitsAfter(head, rest[i], ix);
        }
      }
    }
  }

  lemma FitsSplits(lines: seq<Line>, ix: Index)
    requires lines != []
    ensures (forall i :: 0 <= i < |lines| ==> FitsIndex(ix, lines[i])) <==>
            FitsIndex(ix, lines[0]) && forall i :: 0 <= i < |lines[1..]| ==> FitsIndex(ix, lines[1..][i])
  {
    var rest := lines[1..];
    assert forall i :: 0 <= i < |rest| ==> rest[i] == lines[i + 1];
    assert forall i :: 0 < i < |lines| ==> lines[i] == rest[i - 1];
  }

  lemma WellFormedSplits(lines: seq<Line>)
    requires lines != []
    ensures WellFormed(lines) <==>
            && !lines[0].Broken? && (lines[0].Entry? ==> ValidEvent(lines[0].event)) && WellFormed(lines[1..])
            && forall i :: 0 <= i < |lines[1..]| ==> Comes(lines[0], lines[1..][i])
  {
    var rest := lines[1..];
    assert forall i :: 0 <= i < |rest| ==> rest[i] == lines[i + 1];
    assert forall i :: 0 < i < |lines| ==> lines[i] == rest[i - 1];
  }

  /** A log opens exactly if its records are valid, its ids unique and its sequences increasing. */
  lemma OpensIffWellFormed(lines: seq<Line>)
    ensures Load(lines, EMPTY).Ok? <==> WellFormed(lines)
  {
    LoadIff(lines, EMPTY);
  }

  /** The index then holds exactly the ids of the log, and for each namespace its greatest sequence. */
  lemma {:induction false} IndexMeans(lines: seq<Line>, id: string, ns: string)
    requires Load(lines, EMPTY).Ok?
    ensures var ix := Load(lines, EMPTY).value;
            && (id in ix.seenIds <==> exists i :: 0 <= i < |lines| && lines[i].Entry? && lines[i].event.eventId == id)
            && (ns in ix.lastSequence <==> exists i :: 0 <= i < |lines| && lines[i].Entry? && lines[i].event.namespaceId == ns)
            && (forall i :: 0 <= i < |lines| && lines[i].Entry? && lines[i].event.namespaceId == ns ==>
                  lines[i].event.sequence <= ix.lastSequence[ns])
            && (ns in ix.lastSequence ==> exists i :: 0 <= i < |lines| && lines[i].Entry? && lines[i].event.namespaceId == ns
                                                      && lines[i].event.sequence == ix.lastSequence[ns])
    decreases |lines|
  {
    if lines != [] {
      var n := |lines| - 1;
      var init, last := lines[..n], lines[n];
      assert lines == init + [last];
      LoadAppend(init, [last], EMPTY);
      assert [last][1..] == [];
      IndexMeans(init, id, ns);
      assert forall i :: 0 <= i < n ==> init[i] == lines[i];
    }
  }
}
