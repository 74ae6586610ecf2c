/** What the signature of a snapshot fixes: the signed text determines the entries. */
module TamperEvidence {
  import opened Wrappers
  import opened Text
  import opened Contracts
  import opened Gate3Policy
  import opened Gate3Cache
  import opened JsonText
  import opened RuntimePolicy

  /** The entries have the same texts in all ten fields. */
  predicate SameTexts(e: CompiledDecision, f: CompiledDecision) {
    && e.cacheKey == f.cacheKey && e.decisionId == f.decisionId && e.namespaceId == f.namespaceId
    && OperationName(e.operation) == OperationName(f.operation) && e.resourceDigest == f.resourceDigest
    && EffectName(e.effect) == EffectName(f.effect) && e.policyRevision == f.policyRevision
    && e.stateRevision == f.stateRevision && e.evidenceDigest == f.evidenceDigest && e.expiresEpoch == f.expiresEpoch
  }

  predicate SameEntries(es: seq<CompiledDecision>, fs: seq<CompiledDecision>) {
    |es| == |fs| && forall i :: 0 <= i < |es| ==> SameTexts(es[i], fs[i])
  }

  lemma TwoTokens(w: Writer, f: Field)
    ensures Write(w, FieldTokens(f)) == FieldText(w, f)
  {
    var ts := FieldTokens(f);
    assert ts[1..] == [ts[1]] && ts[1..][1..] == [];
    assert Write(w, [ts[1]]) == WriteToken(w, ts[1]) + [] == WriteToken(w, ts[1]);
  }

  lemma {:induction false} FieldsWritten(w: Writer, fs: seq<Field>)
    ensures Write(w, FieldsTokens(fs)) == FieldsText(w, fs)
  {
    if fs != [] {
      TwoTokens(w, fs[0]);
      FieldsWritten(w, fs[1..]);
      WriteAppend(w, FieldTokens(fs[0]), FieldsTokens(fs[1..]));
    }
  }

  lemma EntryText(w: Writer, e: CompiledDecision, x: string)
    ensures Write(w, EntryDoc(e)) + x == FieldsText(w, Fields(e)) + ("}" + x)
  {
    FieldsWritten(w, Fields(e));
    WriteAppend(w, FieldsTokens(Fields(e)), [Literal("}")]);
    assert [Literal("}")][1..] == [] && Write(w, [Literal("}")]) == "}" + [] == "}";
    Regroup(FieldsText(w, Fields(e)), "}", x);
  }

  lemma FieldsFixEntry(e: CompiledDecision, f: CompiledDecision)
    requires Fields(e) == Fields(f)
    ensures SameTexts(e, f)
  {
    var a, b := Fields(e), Fields(f);
    assert a[0] == b[0] && a[1] == b[1] && a[2] == b[2] && a[3] == b[3] && a[4] == b[4];
    assert a[5] == b[5] && a[6] == b[6] && a[7] == b[7] && a[8] == b[8] && a[9] == b[9];
  }

  lemma FieldsAlike(e: CompiledDecision, f: CompiledDecision)
    ensures Alike(Fields(e), Fields(f)) && Separated(Fields(e))
  {
  }

  lemma EntryCancels(w: Writer, v: Writer, e: CompiledDecision, f: CompiledDecision, x: string, y: string)
    requires Write(w, EntryDoc(e)) + x == Write(v, EntryDoc(f)) + y
    ensures SameTexts(e, f) && x == y
  {
    EntryText(w, e, x);
    EntryText(v, f, y);
    FieldsAlike(e, f);
    FieldsCancel(w, v, Fields(e), Fields(f), "}" + x, "}" + y);
    SameHead("}", x, y);
    FieldsFixEntry(e, f);
  }

  /** The text of a list of entries, up to and with its closing brackets. */
  function ListText(w: Writer, es: seq<CompiledDecision>): string {
    if es == [] then "]]" else Write(w, EntryDoc(es[0])) + ((if |es| > 1 then "," else "") + ListText(w, es[1..]))
  }

  lemma CommaWritten(w: Writer, more: bool)
    ensures Write(w, if more then [Literal(",")] else []) == if more then "," else ""
  {
    assert [Literal(",")][1..] == [] && "," + [] == ",";
  }

  lemma {:induction false} ListWritten(w: Writer, es: seq<CompiledDecision>)
    ensures Write(w, EntryDocs(es)) + "]]" == ListText(w, es)
  {
    if es == [] {
      assert [] + "]]" == "]]";
    } else {
      var comma := if |es| > 1 then [Literal(",")] else [];
      var rest := EntryDocs(es[1..]);
      ListWritten(w, es[1..]);
      CommaWritten(w, |es| > 1);
      WriteAppend(w, EntryDoc(es[0]) + comma, rest);
      WriteAppend(w, EntryDoc(es[0]), comma);
      Regroup(Write(w, EntryDoc(es[0])) + Write(w, comma), Write(w, rest), "]]");
      Regroup(Write(w, EntryDoc(es[0])), Write(w, comma), Write(w, rest) + "]]");
    }
  }

  lemma ListStarts(w: Writer, es: seq<CompiledDecision>)
    ensures ListText(w, es) != [] && ListText(w, es)[0] == if es == [] then ']' else '{'
  {
    if es != [] {
      var x := (if |es| > 1 then "," else "") + ListText(w, es[1..]);
      EntryText(w, es[0], x);
      assert FieldsText(w, Fields(es[0])) == FieldText(w, Fields(es[0])[0]) + FieldsText(w, Fields(es[0])[1..]);
      assert FieldText(w, Fields(es[0])[0])[0] == '{';
    }
  }

  lemma {:induction false} ListCancels(w: Writer, v: Writer, es: seq<CompiledDecision>, fs: seq<CompiledDecision>)
    requires ListText(w, es) == ListText(v, fs)
    ensures SameEntries(es, fs)
  {
    ListStarts(w, es);
    ListStarts(v, fs);
    if es != [] {
      var x, y := (if |es| > 1 then "," else "") + ListText(w, es[1..]), (if |fs| > 1 then "," else "") + ListText(v, fs[1..]);
      EntryCancels(w, v, es[0], fs[0], x, y);
      ListStarts(w, es[1..]);
      ListStarts(v, fs[1..]);
      if |es| > 1 && |fs| > 1 {
        SameHead(",", ListText(w, es[1..]), ListText(v, fs[1..]));
        ListCancels(w, v, es[1..], fs[1..]);
        assert forall i :: 1 <= i < |es| ==> es[i] == es[1..][i - 1] && fs[i] == fs[1..][i - 1];
      } else {
        FirstOf(if |es| > 1 then "," else "", ListText(w, es[1..]));
        FirstOf(if |fs| > 1 then "," else "", ListText(v, fs[1..]));
      }
    }
  }

  lemma PayloadText(w: Writer, revision: string, es: seq<CompiledDecision>)
    ensures Write(w, Payload(revision, es)) == "[1," + (WriteToken(w, Str(revision)) + (",[" + ListText(w, es)))
  {
    var head := [Literal("[1,"), Str(revision), Literal(",[")];
    WriteAppend(w, head + EntryDocs(es), [Literal("]]")]);
    WriteAppend(w, head, EntryDocs(es));
    assert head[1..] == [Str(revision), Literal(",[")] && head[1..][1..] == [Literal(",[")] && head[1..][1..][1..] == [];
    assert [Literal("]]")][1..] == [] && Write(w, [Literal("]]")]) == "]]" + [] == "]]";
    assert Write(w, [Literal(",[")]) == ",[" + [] == ",[";
    assert Write(w, head) == "[1," + (WriteToken(w, Str(revision)) + ",[");
    ListWritten(w, es);
    Regroup(Write(w, head), Write(w, EntryDocs(es)), "]]");
    Regroup("[1,", WriteToken(w, Str(revision)) + ",[", ListText(w, es));
    Regroup(WriteToken(w, Str(revision)), ",[", ListText(w, es));
  }

  /** Whichever of the two writers wrote them, equal texts are of equal revisions and equal entries: no field
      can be moved into another, no entry be split, joined, dropped, added or reordered. */
  lemma SignedTextFixesEntries(w: Writer, v: Writer, p: string, es: seq<CompiledDecision>, q: string, fs: seq<CompiledDecision>)
    requires Write(w, Payload(p, es)) == Write(v, Payload(q, fs))
    ensures p == q && SameEntries(es, fs)
  {
    PayloadText(w, p, es);
    PayloadText(v, q, fs);
    SameHead("[1,", WriteToken(w, Str(p)) + (",[" + ListText(w, es)), WriteToken(v, Str(q)) + (",[" + ListText(v, fs)));
    StringCancels(w, v, p, q, ",[" + ListText(w, es), ",[" + ListText(v, fs));
    SameHead(",[", ListText(w, es), ListText(v, fs));
    ListCancels(w, v, es, fs);
  }

  /** The code that the writer put on one snapshot authenticates no other: a reader that accepts a snapshot with
      it holds the written entries, expiry included, as long as the codes tell the two texts apart. */
  lemma AcceptedIsWritten(hmac: Hmac, revision: string, entries: seq<CompiledDecision>, secret: string,
                          s: Snapshot, key: string, expected: string)
    requires s.mac == Sign(hmac, revision, entries, secret).mac
    requires Distinguishes(hmac, secret, Write(Serde, Payload(revision, entries)), key, Write(Python, Payload(expected, s.entries)))
    requires AuthenticatedEntries(hmac, s, key, expected).Ok?
    ensures key == secret && expected == revision && SameEntries(s.entries, entries)
    ensures (forall e :: e in entries ==> WellFormed(e)) ==>
              forall i :: 0 <= i < |entries| && !s.entries[i].operation.OtherOperation? ==> s.entries[i] == entries[i]
  {
    SignedTextFixesEntries(Serde, Python, revision, entries, expected, s.entries);
    forall i | 0 <= i < |entries| && WellFormed(entries[i]) && !s.entries[i].operation.OtherOperation?
      ensures s.entries[i] == entries[i]
    {
      assert SameTexts(entries[i], s.entries[i]);
      OperationNameInjective(s.entries[i].operation, entries[i].operation);
      assert Enforceable(s.entries[i], expected);
    }
  }

  /** The like for the cache's own loader: what it accepts under the code of a written snapshot is that snapshot's
      entries, under that snapshot's revision. */
  lemma LoadedIsWritten(hmac: Hmac, revision: string, entries: seq<CompiledDecision>, secret: string,
                        s: Snapshot, key: string, expected: string, now: nat)
    requires s.mac == Sign(hmac, revision, entries, secret).mac
    requires Distinguishes(hmac, secret, Write(Serde, Payload(revision, entries)), key, Write(Serde, Payload(expected, s.entries)))
    requires LoadSnapshot(hmac, s, expected, key, now).Ok?
    ensures key == secret && expected == revision && SameEntries(s.entries, entries)
  {
    LoadsIff(hmac, s, expected, key, now);
    SignedTextFixesEntries(Serde, Serde, revision, entries, expected, s.entries);
  }
}
