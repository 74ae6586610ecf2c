/** Counting admissions in a sliding window, and why a limiter may forget the old ones. */
module RateLimits {
  /** At most `maximum` admissions within `window` seconds; an admission that is exactly `window` old still
      counts if `closed`. */
  datatype Limit = Limit(maximum: int, window: real, closed: bool)

  predicate Recent(l: Limit, t: real, now: real) {
    if l.closed then now - t <= l.window else now - t < l.window
  }

  function Filter<T>(s: seq<T>, p: T -> bool): seq<T> {
    if s == [] then []
    else Filter(s[..|s| - 1], p) + if p(s[|s| - 1]) then [s[|s| - 1]] else []
  }

  function Keep(l: Limit, history: seq<real>, now: real): seq<real> {
    Filter(history, t => Recent(l, t, now))
  }

  /** Whether the whole history leaves room for an admission now. */
  predicate Room(l: Limit, history: seq<real>, now: real) {
    |Keep(l, history, now)| < l.maximum
  }

  function Admit(l: Limit, history: seq<real>, now: real): seq<real> {
    if Room(l, history, now) then history + [now] else history
  }

  /** All admissions of a sequence of calls, nothing forgotten. */
  function Admissions(l: Limit, calls: seq<real>): seq<real> {
    if calls == [] then [] else Admit(l, Admissions(l, calls[..|calls| - 1]), calls[|calls| - 1])
  }

  predicate NonDecreasing(s: seq<real>) {
    forall i, j :: 0 <= i < j < |s| ==> s[i] <= s[j]
  }

  predicate UpTo(s: seq<real>, now: real) {
    forall i :: 0 <= i < |s| ==> s[i] <= now
  }

  lemma {:induction false} FilterTwice<T>(s: seq<T>, p: T -> bool, q: T -> bool)
    requires forall i :: 0 <= i < |s| && q(s[i]) ==> p(s[i])
    ensures Filter(Filter(s, p), q) == Filter(s, q)
  {
    if s != [] {
      var init, x := s[..|s| - 1], s[|s| - 1];
      FilterTwice(init, p, q);
      var f := Filter(init, p);
      assert (f + [x])[..|f|] == f;
      assert f + [] == f;
    }
  }

  lemma {:induction false} FilterFewer<T>(s: seq<T>, p: T -> bool, q: T -> bool)
    requires forall i :: 0 <= i < |s| && p(s[i]) ==> q(s[i])
    ensures |Filter(s, p)| <= |Filter(s, q)|
  {
    if s != [] {
      FilterFewer(s[..|s| - 1], p, q);
    }
  }

  /** What has aged out stays out: forgetting it changes no later count. */
  lemma KeepTwice(l: Limit, history: seq<real>, earlier: real, now: real)
    requires earlier <= now
    ensures Keep(l, Keep(l, history, earlier), now) == Keep(l, history, now)
  {
    FilterTwice(history, t => Recent(l, t, earlier), t => Recent(l, t, now));
  }

  lemma KeepAdmitted(l: Limit, history: seq<real>, now: real)
    requires 0.0 < l.window || (l.closed && 0.0 == l.window)
    ensures Keep(l, history + [now], now) == Keep(l, history, now) + [now]
  {
    assert (history + [now])[..|history|] == history;
  }

  // ---------------------------------------------------------------- popping from the front

  function PopOld(l: Limit, s: seq<real>, now: real): seq<real> {
    if s != [] && !Recent(l, s[0], now) then PopOld(l, s[1..], now) else s
  }

  lemma {:induction false} FilterAll<T>(s: seq<T>, p: T -> bool)
    requires forall i :: 0 <= i < |s| ==> p(s[i])
    ensures Filter(s, p) == s
  {
    if s != [] {
      FilterAll(s[..|s| - 1], p);
      assert s == s[..|s| - 1] + [s[|s| - 1]];
    }
  }

  lemma {:induction false} FilterTail<T>(s: seq<T>, p: T -> bool)
    requires s != [] && !p(s[0])
    ensures Filter(s, p) == Filter(s[1..], p)
  {
    if |s| > 1 {
      var init := s[..|s| - 1];
      FilterTail(init, p);
      assert s[1..][..|s[1..]| - 1] == init[1..];
    } else {
      assert s[..|s| - 1] == [];
    }
  }

  /** In order of time, popping old entries from the front is filtering all of them. */
  lemma {:induction false} PoppingIsFiltering(l: Limit, s: seq<real>, now: real)
    requires NonDecreasing(s)
    ensures PopOld(l, s, now) == Keep(l, s, now)
  {
    if s != [] && !Recent(l, s[0], now) {
      PoppingIsFiltering(l, s[1..], now);
      FilterTail(s, t => Recent(l, t, now));
    } else {
      FilterAll(s, t => Recent(l, t, now));
    }
  }

  // ---------------------------------------------------------------- the bound

  /** The windows of a limit's length from `x` on. */
  datatype Ends = LeftOpen | RightOpen | BothClosed

  predicate Inside(ends: Ends, window: real, x: real, t: real) {
    match ends
    case LeftOpen => x < t <= x + window
    case RightOpen => x <= t < x + window
    case BothClosed => x <= t <= x + window
  }

  function Within(ends: Ends, window: real, x: real, history: seq<real>): seq<real> {
    Filter(history, t => Inside(ends, window, x, t))
  }

  lemma {:induction false} AdmissionsInOrder(l: Limit, calls: seq<real>)
    requires NonDecreasing(calls)
    ensures NonDecreasing(Admissions(l, calls))
    ensures calls != [] ==> UpTo(Admissions(l, calls), calls[|calls| - 1])
  {
    if calls != [] {
      AdmissionsInOrder(l, calls[..|calls| - 1]);
    }
  }

  /** However the calls come, no window holds more than `maximum` admissions: no half-open window for a
      limiter that drops an admission at exactly the window's age, no closed one for a limiter that keeps it. */
  lemma {:induction false} NeverMoreThanMaximum(l: Limit, calls: seq<real>, ends: Ends, x: real)
    requires NonDecreasing(calls) && 0 <= l.maximum && (ends.BothClosed? ==> l.closed)
    ensures |Within(ends, l.window, x, Admissions(l, calls))| <= l.maximum
  {
    if calls != [] {
      var init, now := calls[..|calls| - 1], calls[|calls| - 1];
      var before := Admissions(l, init);
      NeverMoreThanMaximum(l, init, ends, x);
      assert (before + [now])[..|before|] == before;
      if Inside(ends, l.window, x, now) {
        FilterFewer(before, t => Inside(ends, l.window, x, t), t => Recent(l, t, now));
      }
    }
  }

  /** A call is refused only when the window that ends with it is full. */
  lemma RefusedOnlyWhenFull(l: Limit, calls: seq<real>, now: real)
    requires NonDecreasing(calls) && 0 <= l.maximum && UpTo(calls, now)
    requires !Room(l, Admissions(l, calls), now)
    ensures |Within(if l.closed then BothClosed else LeftOpen, l.window, now - l.window, Admissions(l, calls))| == l.maximum
  {
    var history := Admissions(l, calls);
    var ends := if l.closed then BothClosed else LeftOpen;
    AdmissionsInOrder(l, calls);
    NeverMoreThanMaximum(l, calls, ends, now - l.window);
    FilterFewer(history, t => Recent(l, t, now), t => Inside(ends, l.window, now - l.window, t));
  }

  /** The half-open bound is the best one: a closed window can hold one admission more. */
  lemma ClosedWindowHoldsMore()
    ensures var l := Limit(1, 10.0, false);
            |Within(BothClosed, l.window, 0.0, Admissions(l, [0.0, 10.0]))| == 2
  {
    var l := Limit(1, 10.0, false);
    var calls := [0.0, 10.0];
    assert calls[..1] == [0.0] && [0.0][..0] == [];
    assert Keep(l, [0.0], 10.0) == [];
    assert Admissions(l, [0.0]) == [0.0];
    assert Admissions(l, calls) == [0.0] + [10.0];
    assert ([0.0] + [10.0])[..1] == [0.0];
    assert Within(BothClosed, l.window, 0.0, [0.0]) == [0.0];
  }
}
