/** The guardian's restart budget and its authenticated handoff. */
module GuardianResilience {
  import opened RateLimits

  class RestartBudget {
    const maximum: int
    const windowSeconds: real
    var attempts: seq<real>
    ghost var calls: seq<real>

    function Bound(): Limit { Limit(maximum, windowSeconds, false) }

    /** What is kept is what was still recent at the last call, of all that was ever admitted. */
    ghost predicate Valid()
      reads this
    {
      maximum >= 1 && windowSeconds > 0.0 && NonDecreasing(calls) && attempts == Kept(Bound(), calls)
    }

    constructor (maximum: int, windowSeconds: real)
      requires maximum >= 1 && windowSeconds > 0.0
      ensures Valid() && calls == [] && this.maximum == maximum && this.windowSeconds == windowSeconds
    {
      this.maximum, this.windowSeconds := maximum, windowSeconds;
      attempts, calls := [], [];
    }

    /** On a clock that does not go back, the answer is the one that counting all admissions gives. */
    method Consume(now: real) returns (admitted: bool)
      requires Valid() && (calls == [] || calls[|calls| - 1] <= now)
      modifies this
      ensures Valid() && calls == old(calls) + [now]
      ensures admitted <==> Room(Bound(), Admissions(Bound(), old(calls)), now)
      ensures Admissions(Bound(), calls) == Admissions(Bound(), old(calls)) + if admitted then [now] else []
    {
      ConsumeStep(Bound(), calls, now);
      attempts := Keep(Bound(), attempts, now);
      calls := calls + [now];
      admitted := |attempts| < maximum;
      if admitted {
        attempts := attempts + [now];
      }
    }
  }

  /** Of all admissions, those still recent at the last call. */
  function Kept(l: Limit, calls: seq<real>): seq<real> {
    if calls == [] then [] else Keep(l, Admissions(l, calls), calls[|calls| - 1])
  }

  /** The attempts kept at the last call count like the whole history, and are kept up to date. */
  lemma ConsumeStep(l: Limit, calls: seq<real>, now: real)
    requires 0.0 < l.window && NonDecreasing(calls) && (calls == [] || calls[|calls| - 1] <= now)
    ensures var kept := Keep(l, Kept(l, calls), now);
            var more := if |kept| < l.maximum then [now] else [];
            && kept == Keep(l, Admissions(l, calls), now)
            && Admissions(l, calls + [now]) == Admissions(l, calls) + more
            && Kept(l, calls + [now]) == kept + more && NonDecreasing(calls + [now])
  {
    var history := Admissions(l, calls);
    if calls != [] {
      KeepTwice(l, history, calls[|calls| - 1], now);
    }
    assert (calls + [now])[..|calls|] == calls;
    assert history + [] == history;
    KeepAdmitted(l, history, now);
  }

  // ---------------------------------------------------------------- handoff

  datatype Payload = Payload(pid: int, uid: int, gid: int, nonce: string, expiresNs: int, policyRevision: string)

  /** A message with exactly the signed fields and the digest, or one with other fields. */
  datatype Message = Message(payload: Payload, mac: string) | OtherFields

  datatype Peer = Peer(pid: int, uid: int, gid: int)

  datatype Handoff = Authenticated | FieldsInvalid | PeerNotAllowlisted | PeerCredentialMismatch | PolicyRevisionMismatch | Expired
                   | Replay | MacInvalid

  /** What the guardian is set up with; the keyed digest is a function. */
  datatype Setup = Setup(mac: Payload -> string, policyRevision: string, allowedUid: int, allowedGid: int)

  function Sign(s: Setup, peer: Peer, nonce: string, expiresNs: int): Message {
    var p := Payload(peer.pid, peer.uid, peer.gid, nonce, expiresNs, s.policyRevision);
    Message(p, s.mac(p))
  }

  function Judge(s: Setup, used: set<string>, m: Message, peer: Peer, now: int): Handoff {
    if m.OtherFields? then FieldsInvalid
    else JudgeFields(s, used, m.payload, m.mac, peer, now)
  }

  function JudgeFields(s: Setup, used: set<string>, p: Payload, mac: string, peer: Peer, now: int): Handoff {
    if peer.uid != s.allowedUid || peer.gid != s.allowedGid then PeerNotAllowlisted
    else if p.pid != peer.pid || p.uid != peer.uid || p.gid != peer.gid then PeerCredentialMismatch
    else if p.policyRevision != s.policyRevision then PolicyRevisionMismatch
    else if p.expiresNs <= now then Expired
    else if p.nonce in used then Replay
    else if s.mac(p) != mac then MacInvalid
    else Authenticated
  }

  class HandoffAuthenticator {
    const setup: Setup
    var usedNonces: set<string>

    constructor (setup: Setup)
      ensures this.setup == setup && usedNonces == {}
    {
      this.setup := setup;
      usedNonces := {};
    }

    /** Only an accepted message uses up its nonce. */
    method Verify(m: Message, peer: Peer, now: int) returns (verdict: Handoff)
      modifies this
      ensures verdict == Judge(setup, old(usedNonces), m, peer, now)
      ensures usedNonces == old(usedNonces) + if verdict.Authenticated? then {m.payload.nonce} else {}
    {
      if m.OtherFields? {
        return FieldsInvalid;
      }
      var p := m.payload;
      if peer.uid != setup.allowedUid || peer.gid != setup.allowedGid {
        return PeerNotAllowlisted;
      }
      if p.pid != peer.pid || p.uid != peer.uid || p.gid != peer.gid {
        return PeerCredentialMismatch;
      }
      if p.policyRevision != setup.policyRevision {
        return PolicyRevisionMismatch;
      }
      if p.expiresNs <= now {
        return Expired;
      }
      if p.nonce in usedNonces {
        return Replay;
      }
      if setup.mac(p) != m.mac {
        return MacInvalid;
      }
      usedNonces := usedNonces + {p.nonce};
      verdict := Authenticated;
    }
  }

  datatype Attempt = Attempt(message: Message, peer: Peer, now: int)

  function Used(s: Setup, attempts: seq<Attempt>): set<string> {
    if attempts == [] then {}
    else
      var before, a := Used(s, attempts[..|attempts| - 1]), attempts[|attempts| - 1];
      before + if Judge(s, before, a.message, a.peer, a.now).Authenticated? then {a.message.payload.nonce} else {}
  }

  ghost predicate AcceptedAt(s: Setup, attempts: seq<Attempt>, i: int) {
    0 <= i < |attempts| &&
    Judge(s, Used(s, attempts[..i]), attempts[i].message, attempts[i].peer, attempts[i].now).Authenticated?
  }

  lemma {:induction false} UsedNonces(s: Setup, attempts: seq<Attempt>, nonce: string)
    ensures nonce in Used(s, attempts) <==> exists i :: AcceptedAt(s, attempts, i) && attempts[i].message.payload.nonce == nonce
  {
    if attempts != [] {
      var n := |attempts| - 1;
      var init := attempts[..n];
      UsedNonces(s, init, nonce);
      assert forall i :: 0 <= i < n ==> init[i] == attempts[i] && init[..i] == attempts[..i];
      assert forall i :: 0 <= i < n ==> (AcceptedAt(s, init, i) <==> AcceptedAt(s, attempts, i));
      if nonce in Used(s, init) {
        var i :| AcceptedAt(s, init, i) && init[i].message.payload.nonce == nonce;
        assert AcceptedAt(s, attempts, i);
      }
      assert AcceptedAt(s, attempts, n) <==> Judge(s, Used(s, init), attempts[n].message, attempts[n].peer, attempts[n].now).Authenticated?;
    }
  }

  /** In every run no nonce is accepted twice, and an accepted message is the one signed for that peer,
      under this policy revision, before its expiry. */
  lemma NoncesAreAcceptedOnce(s: Setup, attempts: seq<Attempt>, i: nat, j: nat)
    requires i < j && AcceptedAt(s, attempts, i) && AcceptedAt(s, attempts, j)
    ensures attempts[i].message.payload.nonce != attempts[j].message.payload.nonce
    ensures var a := attempts[j]; a.message == Sign(s, a.peer, a.message.payload.nonce, a.message.payload.expiresNs)
                                  && a.now < a.message.payload.expiresNs
  {
    assert attempts[..j][..i] == attempts[..i];
    assert AcceptedAt(s, attempts[..j], i);
    UsedNonces(s, attempts[..j], attempts[i].message.payload.nonce);
  }

  /** Conversely a signed message is accepted iff its sender is the allowed user and group, it comes in time, and
      its nonce was not accepted before; what was refused in between does not spoil it. */
  lemma SignedIsAccepted(s: Setup, attempts: seq<Attempt>, peer: Peer, nonce: string, expiresNs: int, now: int)
    ensures Judge(s, Used(s, attempts), Sign(s, peer, nonce, expiresNs), peer, now).Authenticated? <==>
            && peer.uid == s.allowedUid && peer.gid == s.allowedGid && now < expiresNs
            && forall i :: AcceptedAt(s, attempts, i) ==> attempts[i].message.payload.nonce != nonce
  {
    UsedNonces(s, attempts, nonce);
  }

  /** What a refusal says is the case, and what an earlier one would have said is not. */
  lemma RefusalsMean(s: Setup, attempts: seq<Attempt>, m: Message, peer: Peer, now: int)
    requires m.Message?
    ensures var verdict := Judge(s, Used(s, attempts), m, peer, now);
            && (verdict.PeerNotAllowlisted? <==> (peer.uid, peer.gid) != (s.allowedUid, s.allowedGid))
            && (verdict.PeerCredentialMismatch? ==> peer != Peer(m.payload.pid, m.payload.uid, m.payload.gid))
            && (verdict.PolicyRevisionMismatch? ==> m.payload.policyRevision != s.policyRevision)
            && (verdict.Expired? ==> m.payload.expiresNs <= now)
            && (verdict.Replay? ==> exists i :: AcceptedAt(s, attempts, i) && attempts[i].message.payload.nonce == m.payload.nonce)
            && (verdict.MacInvalid? ==> m != Sign(s, peer, m.payload.nonce, m.payload.expiresNs) && now < m.payload.expiresNs)
  {
    UsedNonces(s, attempts, m.payload.nonce);
  }
}
