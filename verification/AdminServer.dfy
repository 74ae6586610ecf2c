/** The admin server's per-peer limiter. */
module AdminServer {
  import opened RateLimits

  const MAXIMUM := 5

  datatype Verdict = NotAllowlisted | RateLimited | Admitted

  function Queue(requests: map<string, seq<real>>, peer: string): seq<real> {
    if peer in requests then requests[peer] else []
  }

  /** A request that reached the server. */
  datatype Call = Call(peer: string, allowed: bool, now: real)

  /** The times of the allowlisted requests of a peer. */
  function CallsOf(calls: seq<Call>, peer: string): seq<real> {
    if calls == [] then []
    else
      var c := calls[|calls| - 1];
      CallsOf(calls[..|calls| - 1], peer) + if c.peer == peer && c.allowed then [c.now] else []
  }

  predicate InOrder(calls: seq<Call>) {
    forall i, j :: 0 <= i < j < |calls| ==> calls[i].now <= calls[j].now
  }

  predicate NotBefore(calls: seq<Call>, now: real) {
    calls == [] || calls[|calls| - 1].now <= now
  }

  /** The peer's queue is its admissions without some that aged out by the last call. */
  ghost predicate Pruned(l: Limit, queue: seq<real>, calls: seq<Call>, peer: string) {
    && NonDecreasing(queue)
    && if calls == [] then queue == []
       else
         var last := calls[|calls| - 1].now;
         UpTo(queue, last) && Keep(l, queue, last) == Keep(l, Admissions(l, CallsOf(calls, peer)), last)
  }

  /** From the last call on, the queue counts like the whole history. */
  lemma PrunedCounts(l: Limit, queue: seq<real>, calls: seq<Call>, peer: string, now: real)
    requires Pruned(l, queue, calls, peer) && NotBefore(calls, now)
    ensures Keep(l, queue, now) == Keep(l, Admissions(l, CallsOf(calls, peer)), now)
  {
    if calls != [] {
      KeepTwice(l, queue, calls[|calls| - 1].now, now);
      KeepTwice(l, Admissions(l, CallsOf(calls, peer)), calls[|calls| - 1].now, now);
    }
  }

  lemma CallsStep(calls: seq<Call>, c: Call, peer: string)
    ensures CallsOf(calls + [c], peer) == CallsOf(calls, peer) + if c.peer == peer && c.allowed then [c.now] else []
  {
    assert (calls + [c])[..|calls|] == calls;
  }

  lemma OtherPeersKeep(l: Limit, queue: seq<real>, calls: seq<Call>, c: Call, other: string)
    requires Pruned(l, queue, calls, other) && NotBefore(calls, c.now) && c.peer != other
    ensures Pruned(l, queue, calls + [c], other)
  {
    CallsStep(calls, c, other);
    PrunedCounts(l, queue, calls, other, c.now);
    assert CallsOf(calls, other) + [] == CallsOf(calls, other);
  }

  function Next(l: Limit, queue: seq<real>, c: Call): seq<real> {
    var recent := PopOld(l, queue, c.now);
    if c.allowed && |recent| < l.maximum then recent + [c.now] else recent
  }

  lemma OwnQueueCounts(l: Limit, queue: seq<real>, calls: seq<Call>, c: Call)
    requires Pruned(l, queue, calls, c.peer) && NotBefore(calls, c.now)
    ensures PopOld(l, queue, c.now) == Keep(l, Admissions(l, CallsOf(calls, c.peer)), c.now)
  {
    PoppingIsFiltering(l, queue, c.now);
    PrunedCounts(l, queue, calls, c.peer, c.now);
  }

  /** What is kept after the call is what is recent then of all admissions, this one included. */
  lemma OwnQueueNext(l: Limit, queue: seq<real>, calls: seq<Call>, c: Call)
    requires Pruned(l, queue, calls, c.peer) && NotBefore(calls, c.now) && l.closed && l.window >= 0.0
    ensures Next(l, queue, c) == Keep(l, Admissions(l, CallsOf(calls + [c], c.peer)), c.now)
  {
    var own := CallsOf(calls, c.peer);
    OwnQueueCounts(l, queue, calls, c);
    CallsStep(calls, c, c.peer);
    if c.allowed {
      AdmissionsStep(l, own, c.now);
      KeepAdmitted(l, Admissions(l, own), c.now);
    } else {
      assert own + [] == own;
    }
  }

  lemma AdmissionsStep(l: Limit, own: seq<real>, now: real)
    ensures Admissions(l, own + [now]) == Admit(l, Admissions(l, own), now)
  {
    assert (own + [now])[..|own|] == own;
  }

  lemma NextInOrder(l: Limit, queue: seq<real>, calls: seq<Call>, c: Call)
    requires Pruned(l, queue, calls, c.peer) && NotBefore(calls, c.now)
    ensures NonDecreasing(Next(l, queue, c)) && UpTo(Next(l, queue, c), c.now)
  {
    PoppedInOrder(l, queue, c.now);
  }

  lemma OwnQueueKeeps(l: Limit, queue: seq<real>, calls: seq<Call>, c: Call)
    requires Pruned(l, queue, calls, c.peer) && NotBefore(calls, c.now) && l.closed && l.window >= 0.0
    ensures Pruned(l, Next(l, queue, c), calls + [c], c.peer)
  {
    OwnQueueNext(l, queue, calls, c);
    NextInOrder(l, queue, calls, c);
    KeepTwice(l, Admissions(l, CallsOf(calls + [c], c.peer)), c.now, c.now);
  }

  lemma {:induction false} PoppedInOrder(l: Limit, queue: seq<real>, now: real)
    requires NonDecreasing(queue)
    ensures NonDecreasing(PopOld(l, queue, now)) && (UpTo(queue, now) ==> UpTo(PopOld(l, queue, now), now))
  {
    if queue != [] && !Recent(l, queue[0], now) {
      PoppedInOrder(l, queue[1..], now);
    }
  }

  ghost predicate AllPruned(l: Limit, requests: map<string, seq<real>>, calls: seq<Call>) {
    InOrder(calls) && forall peer :: Pruned(l, Queue(requests, peer), calls, peer)
  }

  lemma CallKeepsQueue(l: Limit, requests: map<string, seq<real>>, calls: seq<Call>, c: Call, peer: string)
    requires Pruned(l, Queue(requests, peer), calls, peer) && NotBefore(calls, c.now) && l.closed && l.window >= 0.0
    ensures Pruned(l, Queue(requests[c.peer := Next(l, Queue(requests, c.peer), c)], peer), calls + [c], peer)
  {
    if peer == c.peer {
      OwnQueueKeeps(l, Queue(requests, peer), calls, c);
    } else {
      OtherPeersKeep(l, Queue(requests, peer), calls, c, peer);
    }
  }

  lemma InOrderStep(calls: seq<Call>, c: Call)
    requires InOrder(calls) && NotBefore(calls, c.now)
    ensures InOrder(calls + [c])
  {
  }

  lemma CallKeepsPruned(l: Limit, requests: map<string, seq<real>>, calls: seq<Call>, c: Call)
    requires AllPruned(l, requests, calls) && NotBefore(calls, c.now) && l.closed && l.window >= 0.0
    ensures AllPruned(l, requests[c.peer := Next(l, Queue(requests, c.peer), c)], calls + [c])
  {
    var after := requests[c.peer := Next(l, Queue(requests, c.peer), c)];
    InOrderStep(calls, c);
    forall peer ensures Pruned(l, Queue(after, peer), calls + [c], peer) {
      CallKeepsQueue(l, requests, calls, c, peer);
    }
  }

  class Server {
    const windowSeconds: real
    var requests: map<string, seq<real>>
    ghost var calls: seq<Call>

    function Bound(): Limit { Limit(MAXIMUM, windowSeconds, true) }

    ghost predicate Valid()
      reads this
    {
      windowSeconds >= 0.0 && AllPruned(Bound(), requests, calls)
    }

    constructor (windowSeconds: real)
      requires windowSeconds >= 0.0
      ensures Valid() && calls == [] && this.windowSeconds == windowSeconds
    {
      this.windowSeconds := windowSeconds;
      requests, calls := map[], [];
      new;
      assert forall peer :: CallsOf([], peer) == [];
    }

    /** Pop the front while it is older than the window. */
    method Prune(queue: seq<real>, now: real) returns (recent: seq<real>)
      ensures recent == PopOld(Bound(), queue, now)
    {
      recent := queue;
      while recent != [] && now - recent[0] > windowSeconds
        invariant PopOld(Bound(), queue, now) == PopOld(Bound(), recent, now)
        decreases |recent|
      {
        recent := recent[1..];
      }
    }

    /** Admitted exactly if fewer than the maximum of all the peer's admissions are within the window. */
    method Handle(peer: string, allowed: bool, now: real) returns (verdict: Verdict)
      requires Valid() && NotBefore(calls, now)
      modifies this
      ensures Valid() && calls == old(calls) + [Call(peer, allowed, now)]
      ensures verdict == (if !allowed then NotAllowlisted
                          else if Room(Bound(), Admissions(Bound(), CallsOf(old(calls), peer)), now) then Admitted
                          else RateLimited)
    {
      ghost var call := Call(peer, allowed, now);
      OwnQueueCounts(Bound(), Queue(requests, peer), calls, call);
      CallKeepsPruned(Bound(), requests, calls, call);
      var recent := Prune(Queue(requests, peer), now);
      if !allowed {
        verdict := NotAllowlisted;
      } else if |recent| >= MAXIMUM {
        verdict := RateLimited;
      } else {
        recent := recent + [now];
        verdict := Admitted;
      }
      requests := requests[peer := recent];
      calls := calls + [call];
    }
  }

  /** Each peer gets at most five admissions in any closed window, whatever the other peers do. */
  lemma AtMostFivePerPeer(windowSeconds: real, calls: seq<Call>, peer: string, ends: Ends, x: real)
    requires InOrder(calls)
    ensures |Within(ends, windowSeconds, x, Admissions(Limit(MAXIMUM, windowSeconds, true), CallsOf(calls, peer)))| <= MAXIMUM
  {
    CallsOfInOrder(calls, peer);
    NeverMoreThanMaximum(Limit(MAXIMUM, windowSeconds, true), CallsOf(calls, peer), ends, x);
  }

  lemma {:induction false} CallsOfInOrder(calls: seq<Call>, peer: string)
    requires InOrder(calls)
    ensures NonDecreasing(CallsOf(calls, peer)) && (calls != [] ==> UpTo(CallsOf(calls, peer), calls[|calls| - 1].now))
  {
    if calls != [] {
      CallsOfInOrder(calls[..|calls| - 1], peer);
    }
  }
}
