/** Trajectory-local renaming of entity tokens in order of first occurrence. */
module Canonicalization {
  import opened Wrappers

  /** Tokens below `start` are control tokens; canonical entity tokens stay below `limit`. */
  datatype Coder = Coder(start: int, limit: int)

  const DEFAULT := Coder(32, 256)

  /** The entities known so far, in order of first occurrence, and the encoding or the failure. A failed
      call keeps the entities it had already taken in. */
  datatype Outcome = Outcome(known: seq<int>, result: Result<seq<int>>)

  function IndexOf(s: seq<int>, x: int): (i: nat)
    requires x in s
    ensures i < |s| && s[i] == x && forall j :: 0 <= j < i ==> s[j] != x
  {
    if s[0] == x then 0 else IndexOf(s[1..], x) + 1
  }

  function Push(token: int, o: Outcome): Outcome {
    if o.result.Ok? then o.(result := Ok([token] + o.result.value)) else o
  }

  function Learn(c: Coder, known: seq<int>, t: int): seq<int> {
    if t < c.start || t in known then known else known + [t]
  }

  /** Control tokens stand for themselves, entities for their rank among those known by then. */
  function Token(c: Coder, known: seq<int>, t: int): int {
    if t < c.start then t else c.start + IndexOf(Learn(c, known, t), t)
  }

  predicate OverBudget(c: Coder, known: seq<int>, t: int) {
    t >= c.start && t !in known && c.start + |known| >= c.limit
  }

  function Encoding(c: Coder, known: seq<int>, tokens: seq<int>): Outcome
    decreases |tokens|
  {
    if tokens == [] then Outcome(known, Ok([]))
    else if tokens[0] < 0 then Outcome(known, Err("model tokens must be non-negative"))
    else if OverBudget(c, known, tokens[0]) then Outcome(known, Err("trajectory exceeds canonical entity-token budget"))
    else Push(Token(c, known, tokens[0]), Encoding(c, Learn(c, known, tokens[0]), tokens[1..]))
  }

  predicate Distinct(s: seq<int>) {
    forall i, j :: 0 <= i < j < |s| ==> s[i] != s[j]
  }

  function Prefixed(front: seq<int>, o: Outcome): Outcome {
    if o.result.Ok? then o.(result := Ok(front + o.result.value)) else o
  }

  /** The dictionary gives each known entity the canonical token of its rank. */
  ghost predicate Ranks(mapping: map<int, int>, known: seq<int>, start: int) {
    && Distinct(known) && |mapping| == |known|
    && (forall t :: t in mapping <==> t in known)
    && forall i :: 0 <= i < |known| ==> known[i] in mapping && mapping[known[i]] == start + i
  }

  /** What the dictionary lookup of an entity token does. */
  lemma RanksStep(c: Coder, mapping: map<int, int>, known: seq<int>, t: int)
    requires Ranks(mapping, known, c.start) && t >= c.start
    ensures t in mapping <==> t in known
    ensures t in mapping ==> Learn(c, known, t) == known && mapping[t] == Token(c, known, t)
    ensures t !in mapping ==> Learn(c, known, t) == known + [t] && c.start + |mapping| == Token(c, known, t)
                              && Ranks(mapping[t := c.start + |mapping|], known + [t], c.start)
  {
  }

  class CanonicalEntityEncoder {
    const coder: Coder
    var mapping: map<int, int>
    ghost var known: seq<int>

    ghost predicate Valid()
      reads this
    {
      Ranks(mapping, known, coder.start)
    }

    constructor (coder: Coder)
      ensures Valid() && known == [] && this.coder == coder
    {
      this.coder := coder;
      mapping := map[];
      known := [];
    }

    /** The canonical token of an entity, assigned if there is room for it. */
    method Assign(token: int) returns (canonical: Option<int>)
      requires Valid() && token >= coder.start
      modifies this
      ensures Valid() && (canonical.None? <==> OverBudget(coder, old(known), token))
      ensures known == if canonical.None? then old(known) else Learn(coder, old(known), token)
      ensures canonical.Some? ==> canonical.value == Token(coder, old(known), token)
    {
      RanksStep(coder, mapping, known, token);
      if token !in mapping {
        var next := coder.start + |mapping|;
        if next >= coder.limit {
          return None;
        }
        mapping := mapping[token := next];
        known := known + [token];
      }
      canonical := Some(mapping[token]);
    }

    method Encode(tokens: seq<int>) returns (r: Result<seq<int>>)
      requires Valid()
      modifies this
      ensures Valid() && Outcome(known, r) == Encoding(coder, old(known), tokens)
    {
      var encoded: seq<int> := [];
      ghost var goal := Encoding(coder, known, tokens);
      assert tokens[0..] == tokens;
      PrefixedEmpty(goal);
      for i := 0 to |tokens|
        invariant Valid() && goal == Prefixed(encoded, Encoding(coder, known, tokens[i..]))
      {
        var token := tokens[i];
        EncodingNext(coder, known, tokens, i, encoded);
        if token < 0 {
          return Err("model tokens must be non-negative");
        }
        if token < coder.start {
          encoded := encoded + [token];
        } else {
          var canonical := Assign(token);
          if canonical.None? {
            return Err("trajectory exceeds canonical entity-token budget");
          }
          encoded := encoded + [canonical.value];
        }
      }
      assert tokens[|tokens|..] == [] && encoded + [] == encoded;
      r := Ok(encoded);
    }
  }

  /** One more token encoded behind a front. */
  lemma EncodingNext(c: Coder, known: seq<int>, tokens: seq<int>, i: nat, front: seq<int>)
    requires i < |tokens|
    ensures Prefixed(front, Encoding(c, known, tokens[i..])) ==
            if tokens[i] < 0 then Outcome(known, Err("model tokens must be non-negative"))
            else if OverBudget(c, known, tokens[i]) then Outcome(known, Err("trajectory exceeds canonical entity-token budget"))
            else Prefixed(front + [Token(c, known, tokens[i])], Encoding(c, Learn(c, known, tokens[i]), tokens[i + 1..]))
  {
    assert tokens[i..][0] == tokens[i] && tokens[i..][1..] == tokens[i + 1..];
    PushPrefixed(front, Token(c, known, tokens[i]), Encoding(c, Learn(c, known, tokens[i]), tokens[i + 1..]));
  }

  lemma PrefixedEmpty(o: Outcome)
    ensures Prefixed([], o) == o
  {
    if o.result.Ok? {
      assert [] + o.result.value == o.result.value;
    }
  }

  lemma PushPrefixed(front: seq<int>, t: int, o: Outcome)
    ensures Prefixed(front, Push(t, o)) == Prefixed(front + [t], o)
  {
    if o.result.Ok? {
      assert front + ([t] + o.result.value) == (front + [t]) + o.result.value;
    }
  }

  /** Encoding in instalments is encoding at once. */
  lemma {:induction false} EncodingStreams(c: Coder, known: seq<int>, a: seq<int>, b: seq<int>)
    ensures var first := Encoding(c, known, a);
            Encoding(c, known, a + b) == if first.result.Ok? then Prefixed(first.result.value, Encoding(c, first.known, b)) else first
    decreases |a|
  {
    if a == [] {
      assert a + b == b;
      PrefixedEmpty(Encoding(c, known, b));
    } else if a[0] >= 0 && !OverBudget(c, known, a[0]) {
      var t, next := Token(c, known, a[0]), Learn(c, known, a[0]);
      assert (a + b)[0] == a[0] && (a + b)[1..] == a[1..] + b;
      EncodingStreams(c, next, a[1..], b);
      var first := Encoding(c, next, a[1..]);
      if first.result.Ok? {
        PushPushed(t, first.result.value, Encoding(c, first.known, b));
      }
    }
  }

  lemma PushPushed(t: int, front: seq<int>, o: Outcome)
    ensures Push(t, Prefixed(front, o)) == Prefixed([t] + front, o)
  {
    if o.result.Ok? {
      assert [t] + (front + o.result.value) == ([t] + front) + o.result.value;
    }
  }

  // ---------------------------------------------------------------- what an encoding says

  /** `b` is `a` with its entities renamed one to one and its control tokens left alone. */
  predicate Renaming(c: Coder, a: seq<int>, b: seq<int>) {
    && |a| == |b|
    && (forall i :: 0 <= i < |a| ==> (a[i] < c.start <==> b[i] < c.start) && (a[i] < c.start ==> a[i] == b[i]))
    && forall i, j :: 0 <= i < |a| && 0 <= j < |a| ==> (a[i] == a[j] <==> b[i] == b[j])
  }

  /** The same, by way of the renaming itself. */
  ghost predicate RenamedBy(c: Coder, a: seq<int>, b: seq<int>, f: map<int, int>) {
    && |a| == |b|
    && (forall i :: 0 <= i < |a| ==> if a[i] < c.start then a[i] == b[i] else a[i] in f && f[a[i]] == b[i])
    && (forall x :: x in f ==> x >= c.start && f[x] >= c.start)
    && forall x, y :: x in f && y in f && f[x] == f[y] ==> x == y
  }

  lemma RenamingHasMap(c: Coder, a: seq<int>, b: seq<int>)
    ensures Renaming(c, a, b) <==> exists f :: RenamedBy(c, a, b, f)
  {
    if Renaming(c, a, b) {
      var f := map i | 0 <= i < |a| && a[i] >= c.start :: a[i] := b[i];
      assert RenamedBy(c, a, b, f);
    }
  }

  /** The entities known from before and those in the tokens, position by position. */
  predicate Known(c: Coder, known: seq<int>) {
    Distinct(known) && forall i :: 0 <= i < |known| ==> known[i] >= c.start
  }

  /** Canonical tokens of the entities known. */
  function Canonical(c: Coder, n: nat): seq<int> { seq(n, i => c.start + i) }

  /** A repeated or control token adds nothing that a renaming could get wrong. */
  lemma RenamingInsert(c: Coder, k: seq<int>, x: seq<int>, a: seq<int>, b: seq<int>, t: int, u: int)
    requires Renaming(c, k + a, x + b) && |k| == |x|
    requires if t < c.start then u == t else exists i :: 0 <= i < |k| && k[i] == t && x[i] == u
    ensures Renaming(c, k + ([t] + a), x + ([u] + b))
  {
    var p, q := k + a, x + b;
    var r, s := k + ([t] + a), x + ([u] + b);
    var n := |k|;
    assert forall i :: 0 <= i < |r| && i != n ==> r[i] == p[if i < n then i else i - 1] && s[i] == q[if i < n then i else i - 1];
    if t >= c.start {
      var w :| 0 <= w < n && k[w] == t && x[w] == u;
      assert p[w] == t && q[w] == u;
    }
  }

  lemma EncodingRenamesStep(c: Coder, known: seq<int>, tokens: seq<int>, out: seq<int>)
    requires Known(c, known) && tokens != []
    requires var next := Learn(c, known, tokens[0]); Renaming(c, next + tokens[1..], Canonical(c, |next|) + out)
    ensures Renaming(c, known + tokens, Canonical(c, |known|) + ([Token(c, known, tokens[0])] + out))
  {
    var t, u, rest := tokens[0], Token(c, known, tokens[0]), tokens[1..];
    assert tokens == [t] + rest;
    if t < c.start || t in known {
      RenamingInsert(c, known, Canonical(c, |known|), rest, out, t, u);
    } else {
      assert Canonical(c, |known| + 1) == Canonical(c, |known|) + [u];
      assert known + ([t] + rest) == (known + [t]) + rest;
      assert Canonical(c, |known|) + ([u] + out) == (Canonical(c, |known|) + [u]) + out;
    }
  }

  lemma KnownRenames(c: Coder, known: seq<int>)
    requires Known(c, known)
    ensures Renaming(c, known + [], Canonical(c, |known|) + [])
  {
    assert known + [] == known && Canonical(c, |known|) + [] == Canonical(c, |known|);
  }

  /** An encoding is a renaming, compatible with what was known before. */
  lemma {:induction false} EncodingRenames(c: Coder, known: seq<int>, tokens: seq<int>)
    requires Known(c, known)
    ensures var o := Encoding(c, known, tokens);
            o.result.Ok? ==> Renaming(c, known + tokens, Canonical(c, |known|) + o.result.value)
    decreases |tokens|
  {
    if tokens == [] {
      KnownRenames(c, known);
    } else if Encoding(c, known, tokens).result.Ok? {
      var next := Learn(c, known, tokens[0]);
      LearnKeepsKnown(c, known, tokens[0]);
      EncodingRenames(c, next, tokens[1..]);
      EncodingRenamesStep(c, known, tokens, Encoding(c, next, tokens[1..]).result.value);
    }
  }

  lemma LearnKeepsKnown(c: Coder, known: seq<int>, t: int)
    requires Known(c, known)
    ensures Known(c, Learn(c, known, t))
  {
  }

  lemma RenamingDrop(c: Coder, k: seq<int>, a: seq<int>, l: seq<int>, b: seq<int>)
    requires a != [] && b != [] && |k| == |l| && Renaming(c, k + a, l + b)
    ensures Renaming(c, k + a[1..], l + b[1..])
  {
    var p, q := k + a, l + b;
    var r, s := k + a[1..], l + b[1..];
    assert forall i :: 0 <= i < |r| ==> r[i] == p[if i < |k| then i else i + 1] && s[i] == q[if i < |k| then i else i + 1];
  }

  lemma KnownAlike(c: Coder, k: seq<int>, a: seq<int>, l: seq<int>, b: seq<int>)
    requires a != [] && b != [] && |k| == |l| && Renaming(c, k + a, l + b)
    ensures (a[0] < c.start <==> b[0] < c.start) && (a[0] < c.start ==> a[0] == b[0])
    ensures forall i :: 0 <= i < |k| ==> (k[i] == a[0] <==> l[i] == b[0])
  {
    var p, q := k + a, l + b;
    assert p[|k|] == a[0] && q[|l|] == b[0];
    assert forall i :: 0 <= i < |k| ==> p[i] == k[i] && q[i] == l[i];
  }

  lemma RenamedStep(c: Coder, k: seq<int>, a: seq<int>, l: seq<int>, b: seq<int>)
    requires a != [] && b != [] && Known(c, k) && Known(c, l) && |k| == |l| && Renaming(c, k + a, l + b)
    ensures OverBudget(c, k, a[0]) == OverBudget(c, l, b[0]) && Token(c, k, a[0]) == Token(c, l, b[0])
    ensures var k', l' := Learn(c, k, a[0]), Learn(c, l, b[0]);
            Known(c, k') && Known(c, l') && |k'| == |l'| && Renaming(c, k' + a[1..], l' + b[1..])
  {
    KnownAlike(c, k, a, l, b);
    if a[0] < c.start || a[0] in k {
      RenamingDrop(c, k, a, l, b);
      if a[0] >= c.start {
        var i := IndexOf(k, a[0]);
        assert l[i] == b[0];
        assert IndexOf(l, b[0]) == i;
      }
    } else {
      assert b[0] !in l;
      assert (k + [a[0]]) + a[1..] == k + a && (l + [b[0]]) + b[1..] == l + b;
    }
  }

  /** Renamed inputs are treated alike, failures included. */
  lemma {:induction false} RenamedEncodeAlike(c: Coder, k: seq<int>, a: seq<int>, l: seq<int>, b: seq<int>)
    requires 0 <= c.start && Known(c, k) && Known(c, l) && |k| == |l| && Renaming(c, k + a, l + b)
    ensures Encoding(c, k, a).result == Encoding(c, l, b).result
    decreases |a|
  {
    assert |a| == |b|;
    if a != [] {
      KnownAlike(c, k, a, l, b);
      RenamedStep(c, k, a, l, b);
      RenamedEncodeAlike(c, Learn(c, k, a[0]), a[1..], Learn(c, l, b[0]), b[1..]);
    }
  }

  lemma OwnRenaming(c: Coder, a: seq<int>)
    requires Encoding(c, [], a).result.Ok?
    ensures Renaming(c, a, Encoding(c, [], a).result.value)
  {
    var out := Encoding(c, [], a).result.value;
    EncodingRenames(c, [], a);
    assert [] + a == a && Canonical(c, 0) + out == out;
  }

  lemma AlikeFromScratch(c: Coder, a: seq<int>, b: seq<int>)
    requires 0 <= c.start && Renaming(c, a, b)
    ensures Encoding(c, [], a).result == Encoding(c, [], b).result
  {
    assert [] + a == a && [] + b == b;
    RenamedEncodeAlike(c, [], a, [], b);
  }

  lemma RenamingJoins(c: Coder, a: seq<int>, b: seq<int>, out: seq<int>)
    requires Renaming(c, a, out) && Renaming(c, b, out)
    ensures Renaming(c, a, b)
  {
  }

  /** The encoding is a complete invariant: two token lists are encoded alike exactly if one is an
      injective renaming of the other's entities; and a renaming changes not even how encoding fails. */
  lemma EncodingIsCompleteInvariant(c: Coder, a: seq<int>, b: seq<int>)
    requires 0 <= c.start
    ensures (exists f :: RenamedBy(c, a, b, f)) ==> Encoding(c, [], a).result == Encoding(c, [], b).result
    ensures Encoding(c, [], a).result.Ok? && Encoding(c, [], a).result == Encoding(c, [], b).result ==> exists f :: RenamedBy(c, a, b, f)
  {
    RenamingHasMap(c, a, b);
    if Renaming(c, a, b) {
      AlikeFromScratch(c, a, b);
    }
    if Encoding(c, [], a).result.Ok? && Encoding(c, [], a).result == Encoding(c, [], b).result {
      OwnRenaming(c, a);
      OwnRenaming(c, b);
      RenamingJoins(c, a, b, Encoding(c, [], a).result.value);
    }
  }

  /** Encoding an encoding changes nothing. */
  lemma EncodingIsIdempotent(c: Coder, a: seq<int>)
    requires 0 <= c.start && Encoding(c, [], a).result.Ok?
    ensures Encoding(c, [], Encoding(c, [], a).result.value).result == Encoding(c, [], a).result
  {
    OwnRenaming(c, a);
    AlikeFromScratch(c, a, Encoding(c, [], a).result.value);
  }

  // ---------------------------------------------------------------- when encoding succeeds

  function Entities(c: Coder, tokens: seq<int>): set<int> {
    set t | t in tokens && t >= c.start
  }

  lemma {:induction false} DistinctSize(s: seq<int>)
    requires Distinct(s)
    ensures |(set t | t in s)| == |s|
  {
    if s != [] {
      var init := s[..|s| - 1];
      DistinctSize(init);
      assert (set t | t in s) == (set t | t in init) + {s[|s| - 1]};
    }
  }

  predicate NonNegative(tokens: seq<int>) {
    forall i :: 0 <= i < |tokens| ==> tokens[i] >= 0
  }

  /** No token is negative, and the distinct entities, those known before included, stay below the limit
      unless there is no new one. */
  predicate Fits(c: Coder, known: seq<int>, tokens: seq<int>) {
    && NonNegative(tokens)
    && (Entities(c, known + tokens) == Entities(c, known) || c.start + |Entities(c, known + tokens)| <= c.limit)
  }

  lemma FitsWithoutNew(c: Coder, known: seq<int>, tokens: seq<int>)
    requires tokens != [] && (tokens[0] < c.start || tokens[0] in known)
    ensures Fits(c, known, tokens) <==> tokens[0] >= 0 && Fits(c, known, tokens[1..])
  {
    assert tokens == [tokens[0]] + tokens[1..];
    assert Entities(c, known + tokens) == Entities(c, known + tokens[1..]);
  }

  lemma FitsWithNew(c: Coder, known: seq<int>, tokens: seq<int>)
    requires Known(c, known) && tokens != [] && tokens[0] >= c.start && tokens[0] !in known
    ensures Fits(c, known, tokens) <==>
            tokens[0] >= 0 && c.start + |known| < c.limit && Fits(c, known + [tokens[0]], tokens[1..])
  {
    var t, next := tokens[0], known + [tokens[0]];
    assert tokens == [t] + tokens[1..];
    assert next + tokens[1..] == known + tokens;
    assert Entities(c, next) == (set x | x in next);
    DistinctSize(next);
    assert t in Entities(c, next) && t !in Entities(c, known);
    SubsetSize(Entities(c, next), Entities(c, known + tokens));
  }

  lemma {:induction false} EncodesIffFits(c: Coder, known: seq<int>, tokens: seq<int>)
    requires Known(c, known)
    ensures Encoding(c, known, tokens).result.Ok? <==> Fits(c, known, tokens)
    decreases |tokens|
  {
    if tokens == [] {
      assert known + tokens == known;
    } else {
      if tokens[0] < c.start || tokens[0] in known {
        FitsWithoutNew(c, known, tokens);
      } else {
        FitsWithNew(c, known, tokens);
      }
      EncodesIffFits(c, Learn(c, known, tokens[0]), tokens[1..]);
    }
  }

  lemma SubsetSize(a: set<int>, b: set<int>)
    requires a <= b
    ensures |a| <= |b|
  {
    assert b == a + (b - a);
  }

  // ---------------------------------------------------------------- permuting the entities

  /** A permutation of the entity range 32..255. */
  predicate Shuffled(target: seq<int>) {
    |target| == 224 && Distinct(target) && forall i :: 0 <= i < |target| ==> 32 <= target[i] < 256
  }

  function PermuteEntityIds(target: seq<int>, tokens: seq<int>): seq<int>
    requires Shuffled(target)
  {
    seq(|tokens|, i requires 0 <= i < |tokens| => if 32 <= tokens[i] < 256 then target[tokens[i] - 32] else tokens[i])
  }

  /** Permuting the entity ids is invisible after canonicalization. */
  lemma PermutationIsInvisible(target: seq<int>, tokens: seq<int>)
    requires Shuffled(target)
    ensures Encoding(DEFAULT, [], PermuteEntityIds(target, tokens)).result == Encoding(DEFAULT, [], tokens).result
  {
    var out := PermuteEntityIds(target, tokens);
    forall i, j | 0 <= i < |tokens| && 0 <= j < |tokens| ensures tokens[i] == tokens[j] <==> out[i] == out[j] {
      if 32 <= tokens[i] < tokens[j] < 256 {
        assert target[tokens[i] - 32] != target[tokens[j] - 32];
      } else if 32 <= tokens[j] < tokens[i] < 256 {
        assert target[tokens[j] - 32] != target[tokens[i] - 32];
      }
    }
    AlikeFromScratch(DEFAULT, tokens, out);
  }

  // ---------------------------------------------------------------- the frozen implementation

  /** The frozen encoder counts its next token itself, and lets negative tokens through. */
  method CanonicalizeEntityIds(tokens: seq<int>) returns (r: Result<seq<int>>)
    ensures r == Frozen([], tokens).result
  {
    var mapping: map<int, int> := map[];
    var nextToken := 32;
    var encoded: seq<int> := [];
    ghost var known: seq<int> := [];
    assert tokens[0..] == tokens;
    PrefixedEmpty(Frozen([], tokens));
    for i := 0 to |tokens|
      invariant nextToken == 32 + |known| && Ranks(mapping, known, 32)
      invariant Frozen([], tokens) == Prefixed(encoded, Frozen(known, tokens[i..]))
    {
      var token := tokens[i];
      FrozenNext(known, tokens, i, encoded);
      if token < 32 {
        encoded := encoded + [token];
        continue;
      }
      RanksStep(DEFAULT, mapping, known, token);
      if token !in mapping {
        if nextToken >= 256 {
          return Err("trajectory exceeds canonical entity-token budget");
        }
        mapping := mapping[token := nextToken];
        nextToken := nextToken + 1;
        known := known + [token];
      }
      encoded := encoded + [mapping[token]];
    }
    assert tokens[|tokens|..] == [] && encoded + [] == encoded;
    r := Ok(encoded);
  }

  lemma FrozenNext(known: seq<int>, tokens: seq<int>, i: nat, front: seq<int>)
    requires i < |tokens|
    ensures Prefixed(front, Frozen(known, tokens[i..])) ==
            if OverBudget(DEFAULT, known, tokens[i]) then Outcome(known, Err("trajectory exceeds canonical entity-token budget"))
            else Prefixed(front + [Token(DEFAULT, known, tokens[i])], Frozen(Learn(DEFAULT, known, tokens[i]), tokens[i + 1..]))
  {
    assert tokens[i..][0] == tokens[i] && tokens[i..][1..] == tokens[i + 1..];
    PushPrefixed(front, Token(DEFAULT, known, tokens[i]), Frozen(Learn(DEFAULT, known, tokens[i]), tokens[i + 1..]));
  }

  function Frozen(known: seq<int>, tokens: seq<int>): Outcome
    decreases |tokens|
  {
    if tokens == [] then Outcome(known, Ok([]))
    else if OverBudget(DEFAULT, known, tokens[0]) then Outcome(known, Err("trajectory exceeds canonical entity-token budget"))
    else Push(Token(DEFAULT, known, tokens[0]), Frozen(Learn(DEFAULT, known, tokens[0]), tokens[1..]))
  }

  lemma {:induction false} FrozenOnNonNegative(known: seq<int>, tokens: seq<int>)
    requires NonNegative(tokens)
    ensures Frozen(known, tokens) == Encoding(DEFAULT, known, tokens)
    decreases |tokens|
  {
    if tokens != [] {
      FrozenOnNonNegative(Learn(DEFAULT, known, tokens[0]), tokens[1..]);
    }
  }

  /** The frozen encoder is the operational one on non-negative tokens; on others, which it passes
      through, it agrees only in failing. */
  lemma FrozenAgrees(tokens: seq<int>)
    ensures NonNegative(tokens) ==> Frozen([], tokens) == Encoding(DEFAULT, [], tokens)
    ensures Frozen([], tokens).result.Ok? ==>
              (Frozen([], tokens).result == Encoding(DEFAULT, [], tokens).result <==> NonNegative(tokens))
  {
    if NonNegative(tokens) {
      FrozenOnNonNegative([], tokens);
    } else {
      EncodesIffFits(DEFAULT, [], tokens);
    }
  }
}
