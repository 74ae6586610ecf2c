/** The hash chain of campaign heartbeats: the loop that writes it and the check that reads it. */
module HeartbeatChain {
  import opened Wrappers

  /** Everything a heartbeat records, apart from the digest of the one before it. */
  datatype Body = Body(content: string, previous: Option<string>)

  datatype Row = Row(body: Body, claimed: Option<string>)

  datatype Summary = Summary(head: Option<string>, samples: Option<int>)

  datatype Mismatch = Previous(number: nat) | Digest(number: nat) | Head | Count

  ghost predicate Distinguishes(digest: Body -> string, a: Body, b: Body) {
    digest(a) == digest(b) ==> a == b
  }

  /** The digest of a canonical body is a function; that it tells bodies apart is assumed only where said. */
  ghost predicate Injective(digest: Body -> string) {
    forall a, b :: Distinguishes(digest, a, b)
  }

  function Genesis(): string { seq(64, i => '0') }

  // ---------------------------------------------------------------- the writer

  function RowOn(digest: Body -> string, content: string, chain: string): Row {
    var body := Body(content, Some(chain));
    Row(body, Some(digest(body)))
  }

  function HeadOf(digest: Body -> string, rows: seq<Row>): string {
    if rows == [] then Genesis() else digest(rows[|rows| - 1].body)
  }

  function Written(digest: Body -> string, contents: seq<string>): seq<Row> {
    if contents == [] then []
    else
      var before := Written(digest, contents[..|contents| - 1]);
      before + [RowOn(digest, contents[|contents| - 1], HeadOf(digest, before))]
  }

  /** The heartbeat loop. The head moves before the row is appended: an append that fails ends the loop
      with the head ahead of the file. */
  method Record(digest: Body -> string, contents: seq<string>, failing: Option<nat>) returns (rows: seq<Row>, summary: Summary)
    ensures failing.None? || failing.value >= |contents| ==>
              rows == Written(digest, contents) && summary == Summary(Some(HeadOf(digest, rows)), Some(|contents|))
    ensures failing.Some? && failing.value < |contents| ==>
              && rows == Written(digest, contents[..failing.value])
              && summary == Summary(Some(digest(Body(contents[failing.value], Some(HeadOf(digest, rows))))), Some(failing.value))
  {
    rows := [];
    var chain, samples := Genesis(), 0;
    while samples < |contents|
      invariant 0 <= samples <= |contents| && (failing.None? || samples <= failing.value || failing.value >= |contents|)
      invariant rows == Written(digest, contents[..samples]) && chain == HeadOf(digest, rows)
    {
      var body := Body(contents[samples], Some(chain));
      assert contents[..samples + 1][..samples] == contents[..samples];
      chain := digest(body);
      if failing == Some(samples) {
        return rows, Summary(Some(chain), Some(samples));
      }
      rows := rows + [Row(body, Some(chain))];
      samples := samples + 1;
    }
    assert contents[..|contents|] == contents;
    summary := Summary(Some(chain), Some(samples));
  }

  // ---------------------------------------------------------------- the check

  function RowErrors(digest: Body -> string, row: Row, previous: string, number: nat): seq<Mismatch> {
    (if row.body.previous != Some(previous) then [Previous(number)] else [])
    + if row.claimed != Some(digest(row.body)) then [Digest(number)] else []
  }

  function ChainErrors(digest: Body -> string, rows: seq<Row>): seq<Mismatch> {
    if rows == [] then []
    else
      var before := rows[..|rows| - 1];
      ChainErrors(digest, before) + RowErrors(digest, rows[|rows| - 1], HeadOf(digest, before), |rows|)
  }

  function Errors(digest: Body -> string, rows: seq<Row>, summary: Summary): seq<Mismatch> {
    ChainErrors(digest, rows)
    + (if Some(HeadOf(digest, rows)) != summary.head then [Head] else [])
    + if Some(|rows|) != summary.samples then [Count] else []
  }

  method Verify(digest: Body -> string, rows: seq<Row>, summary: Summary) returns (errors: seq<Mismatch>)
    ensures errors == Errors(digest, rows, summary)
  {
    errors := [];
    var previous, samples := Genesis(), 0;
    for i := 0 to |rows|
      invariant samples == i && errors == ChainErrors(digest, rows[..i]) && previous == HeadOf(digest, rows[..i])
    {
      var row := rows[i];
      assert rows[..i + 1][..i] == rows[..i];
      ghost var was := errors;
      if row.body.previous != Some(previous) {
        errors := errors + [Previous(i + 1)];
      }
      var actual := digest(row.body);
      if row.claimed != Some(actual) {
        errors := errors + [Digest(i + 1)];
      }
      assert errors == was + RowErrors(digest, row, previous, i + 1);
      previous, samples := actual, samples + 1;
    }
    assert rows[..|rows|] == rows;
    ghost var chained := errors;
    if Some(previous) != summary.head {
      errors := errors + [Head];
    }
    ghost var headed := errors;
    assert headed == chained + if Some(previous) != summary.head then [Head] else [];
    if Some(samples) != summary.samples {
      errors := errors + [Count];
    }
    assert errors == headed + if Some(samples) != summary.samples then [Count] else [];
  }

  // ---------------------------------------------------------------- what the check establishes

  lemma {:induction false} WrittenIsChained(digest: Body -> string, contents: seq<string>)
    ensures ChainErrors(digest, Written(digest, contents)) == [] && |Written(digest, contents)| == |contents|
  {
    if contents != [] {
      var before := Written(digest, contents[..|contents| - 1]);
      WrittenIsChained(digest, contents[..|contents| - 1]);
      assert Written(digest, contents)[..|before|] == before;
    }
  }

  /** What a mismatch says: of a row's link, of its own digest, of the summary's head, of its count. */
  predicate Reports(digest: Body -> string, rows: seq<Row>, summary: Summary, m: Mismatch) {
    match m
    case Previous(k) => 1 <= k <= |rows| && rows[k - 1].body.previous != Some(if k == 1 then Genesis() else digest(rows[k - 2].body))
    case Digest(k) => 1 <= k <= |rows| && rows[k - 1].claimed != Some(digest(rows[k - 1].body))
    case Head => summary.head != Some(if rows == [] then Genesis() else digest(rows[|rows| - 1].body))
    case Count => summary.samples != Some(|rows|)
  }

  lemma RowErrorsMean(digest: Body -> string, row: Row, previous: string, number: nat, m: Mismatch)
    ensures m in RowErrors(digest, row, previous, number) <==>
            || (m == Previous(number) && row.body.previous != Some(previous))
            || (m == Digest(number) && row.claimed != Some(digest(row.body)))
  {
  }

  /** A row mismatch of all rows is one of the last row or one of the rows before. */
  lemma ReportsSplit(digest: Body -> string, rows: seq<Row>, summary: Summary, m: Mismatch)
    requires rows != [] && (m.Previous? || m.Digest?)
    ensures var before, last := rows[..|rows| - 1], rows[|rows| - 1];
            Reports(digest, rows, summary, m) <==>
            || Reports(digest, before, summary, m)
            || (m == Previous(|rows|) && last.body.previous != Some(HeadOf(digest, before)))
            || (m == Digest(|rows|) && last.claimed != Some(digest(last.body)))
  {
  }

  lemma {:induction false} ChainErrorsMean(digest: Body -> string, rows: seq<Row>, summary: Summary, m: Mismatch)
    ensures m in ChainErrors(digest, rows) <==> (m.Previous? || m.Digest?) && Reports(digest, rows, summary, m)
  {
    if rows != [] {
      var before, last := rows[..|rows| - 1], rows[|rows| - 1];
      ChainErrorsMean(digest, before, summary, m);
      RowErrorsMean(digest, last, HeadOf(digest, before), |rows|, m);
      if m.Previous? || m.Digest? {
        ReportsSplit(digest, rows, summary, m);
      }
    }
  }

  /** The check reports exactly the mismatches there are. */
  lemma ErrorsMean(digest: Body -> string, rows: seq<Row>, summary: Summary, m: Mismatch)
    ensures m in Errors(digest, rows, summary) <==> Reports(digest, rows, summary, m)
  {
    ChainErrorsMean(digest, rows, summary, m);
  }

  /** Round trip: what the loop writes and summarizes verifies, if every append succeeded. If one failed,
      it does not, unless the digest of the lost body happens to be the digest before it. */
  lemma WrittenVerifies(digest: Body -> string, contents: seq<string>, lost: Option<string>)
    ensures var rows := Written(digest, contents);
            var head := if lost.Some? then digest(Body(lost.value, Some(HeadOf(digest, rows)))) else HeadOf(digest, rows);
            Errors(digest, rows, Summary(Some(head), Some(|contents|))) == [] <==> head == HeadOf(digest, rows)
  {
    WrittenIsChained(digest, contents);
  }

  predicate Links(digest: Body -> string, row: Row, previous: string) {
    row.body.previous == Some(previous) && row.claimed == Some(digest(row.body))
  }

  predicate Chained(digest: Body -> string, rows: seq<Row>) {
    rows != [] ==>
      Links(digest, rows[|rows| - 1], HeadOf(digest, rows[..|rows| - 1])) && Chained(digest, rows[..|rows| - 1])
  }

  lemma {:induction false} NoChainErrors(digest: Body -> string, rows: seq<Row>)
    ensures ChainErrors(digest, rows) == [] <==> Chained(digest, rows)
  {
    if rows != [] {
      var before := rows[..|rows| - 1];
      NoChainErrors(digest, before);
      var more := RowErrors(digest, rows[|rows| - 1], HeadOf(digest, before), |rows|);
      assert |ChainErrors(digest, before) + more| == |ChainErrors(digest, before)| + |more|;
    }
  }

  lemma NoErrors(digest: Body -> string, rows: seq<Row>, summary: Summary)
    ensures Errors(digest, rows, summary) == [] <==>
            Chained(digest, rows) && summary == Summary(Some(HeadOf(digest, rows)), Some(|rows|))
  {
    NoChainErrors(digest, rows);
    var head := if Some(HeadOf(digest, rows)) != summary.head then [Head] else [];
    var count := if Some(|rows|) != summary.samples then [Count] else [];
    assert Errors(digest, rows, summary) == ChainErrors(digest, rows) + head + count;
    assert |ChainErrors(digest, rows) + head + count| == |ChainErrors(digest, rows)| + |head| + |count|;
  }

  lemma {:induction false} SameHeadSameRows(digest: Body -> string, rows: seq<Row>, other: seq<Row>)
    requires Injective(digest) && |rows| == |other| && HeadOf(digest, rows) == HeadOf(digest, other)
    requires Chained(digest, rows) && Chained(digest, other)
    ensures rows == other
  {
    if rows != [] {
      var n := |rows| - 1;
      assert Distinguishes(digest, rows[n].body, other[n].body);
      SameHeadSameRows(digest, rows[..n], other[..n]);
      assert rows == rows[..n] + [rows[n]] && other == other[..n] + [other[n]];
    }
  }

  /** Tamper evidence: with a digest that tells bodies apart, the only rows that verify against the
      writer's head and count are the rows it wrote. */
  lemma OnlyWrittenVerifies(digest: Body -> string, contents: seq<string>, rows: seq<Row>)
    requires Injective(digest)
    requires Errors(digest, rows, Summary(Some(HeadOf(digest, Written(digest, contents))), Some(|contents|))) == []
    ensures rows == Written(digest, contents)
  {
    VerifiesOnlyIf(digest, rows, HeadOf(digest, Written(digest, contents)), |contents|);
    WrittenIsChained(digest, contents);
    NoChainErrors(digest, Written(digest, contents));
    SameHeadSameRows(digest, rows, Written(digest, contents));
  }

  lemma VerifiesOnlyIf(digest: Body -> string, rows: seq<Row>, head: string, samples: int)
    requires Errors(digest, rows, Summary(Some(head), Some(samples))) == []
    ensures Chained(digest, rows) && HeadOf(digest, rows) == head && |rows| == samples
  {
    NoErrors(digest, rows, Summary(Some(head), Some(samples)));
  }
}
