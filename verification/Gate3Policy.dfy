/** The Gate 3 evaluator and the compilation of its denials into cacheable decisions. */
module Gate3Policy {
  import opened Wrappers
  import opened Text
  import opened Contracts

  const U64_MAX: nat := 0xFFFF_FFFF_FFFF_FFFF

  datatype Profile = Profile(policyRevision: string, minimumConfidence: real, ttlSeconds: nat)

  predicate ValidProfile(p: Profile) {
    && p.policyRevision != "" && ByteLen(p.policyRevision) <= 128
    && 0.0 <= p.minimumConfidence <= 1.0
    && 0 < p.ttlSeconds <= 3600
  }

  datatype CompiledDecision = CompiledDecision(
    cacheKey: string, decisionId: string, namespaceId: string, operation: Operation, resourceDigest: string,
    effect: Effect, policyRevision: string, stateRevision: nat, evidenceDigest: string, expiresEpoch: nat)

  predicate LowerHex(c: char) { IsDigit(c) || 'a' <= c <= 'f' }

  /** The text of a SHA-256 digest, as both runtimes print it. */
  predicate IsDigest(s: string) { |s| == 64 && forall i :: 0 <= i < 64 ==> LowerHex(s[i]) }

  /** What `CompiledDecision::validate` asks of a digest. */
  predicate DigestAccepted(s: string) {
    ByteLen(s) == 64 && forall i :: 0 <= i < |s| ==> LowerHex(s[i]) || 'A' <= s[i] <= 'F'
  }

  /** The digest functions, of which only the shape of the result is known. */
  datatype Digests = Digests(resource: Resource -> string, evidence: seq<string> -> string,
                             identity: string -> string)
  {
    ghost predicate Shaped() {
      && (forall r :: IsDigest(resource(r)))
      && (forall e :: IsDigest(evidence(e)))
      && (forall p :: IsDigest(identity(p)))
    }
  }

  predicate ValidCompiled(d: CompiledDecision) {
    && d.cacheKey != "" && ByteLen(d.cacheKey) <= 1024
    && HasPrefix(d.decisionId, "dec:") && ByteLen(d.decisionId) <= 128
    && d.namespaceId != "" && ByteLen(d.namespaceId) <= 512
    && !d.operation.OtherOperation?
    && DigestAccepted(d.resourceDigest) && DigestAccepted(d.evidenceDigest)
    && d.effect == DENY
    && d.policyRevision != "" && ByteLen(d.policyRevision) <= 128
    && d.stateRevision != 0
    && d.expiresEpoch != 0
  }

  datatype Verdict = Verdict(effect: Effect, reason: string, failClosed: bool)

  function Abstain(reason: string): Verdict { Verdict(ABSTAIN, reason, true) }

  function Judge(e: SecurityEvent, s: SecurityStateSummary, p: Profile): Verdict {
    if !ValidProfile(p) then Abstain("POLICY_CONFIGURATION_INVALID")
    else if !ValidEvent(e) then Abstain("EVENT_CONTRACT_INVALID")
    else if !ValidState(s) then Abstain("STATE_CONTRACT_INVALID")
    else if e.policyRevision != p.policyRevision then Abstain("POLICY_REVISION_MISMATCH")
    else if s.namespaceId != e.namespaceId then Abstain("NAMESPACE_MISMATCH")
    else if s.stateRevision != e.sequence then Abstain("STATE_REVISION_MISMATCH")
    else JudgeBand(s, p)
  }

  function JudgeBand(s: SecurityStateSummary, p: Profile): Verdict {
    if s.riskBand.Restricted? || s.riskBand.Quarantined? then Verdict(DENY, "STATIC_RESTRICTION_INVARIANT", false)
    else if s.riskBand.Elevated? then
      if s.evidenceIds == [] then Abstain("CAUSAL_EVIDENCE_MISSING")
      else if s.confidence.None? || s.confidence.value < p.minimumConfidence then
        Abstain("MODEL_CONFIDENCE_INSUFFICIENT")
      else if s.engine.AsmCm? && s.checkpointFingerprint.None? then Abstain("MODEL_REVISION_MISSING")
      else Verdict(DENY, "CAUSAL_RISK_ELEVATED", false)
    else if s.riskBand.Normal? || s.riskBand.Monitor? then Verdict(ALLOW, "NO_RESTRICTING_INVARIANT", false)
    else if !s.riskBand.Unknown? then Abstain("RISK_BAND_UNSUPPORTED")
    else Abstain("STATE_UNKNOWN")
  }

  function DecisionId(d: Digests, e: SecurityEvent, s: SecurityStateSummary, revision: string): string {
    "dec:" + d.identity(e.eventId + ['\0'] + e.namespaceId + ['\0'] + Decimal(s.stateRevision) + ['\0'] + revision)
  }

  function Evaluate(d: Digests, e: SecurityEvent, s: SecurityStateSummary, p: Profile): PolicyDecision {
    var v := Judge(e, s, p);
    PolicyDecision(SCHEMA_VERSION, DecisionId(d, e, s, p.policyRevision), e.namespaceId, p.policyRevision,
                   s.stateRevision, AuditMode, v.effect, OperationName(e.operation) + [':'] + e.resource.resourceType,
                   [v.reason], s.evidenceIds, v.failClosed, e.occurredAt)
  }

  function CacheKey(namespaceId: string, operation: Operation, resourceDigest: string): string {
    namespaceId + ['|'] + OperationName(operation) + ['|'] + resourceDigest
  }

  /** `u64::saturating_add` */
  function Expiry(now: nat, ttl: nat): nat {
    if now + ttl > U64_MAX then U64_MAX else now + ttl
  }

  function Compile(d: Digests, e: SecurityEvent, decision: PolicyDecision, p: Profile, now: nat)
    : Option<CompiledDecision>
  {
    if decision.effect != DENY || decision.policyRevision != p.policyRevision
       || decision.namespaceId != e.namespaceId || !ValidProfile(p) || !ValidEvent(e) || !ValidDecision(decision)
    then None
    else
      var digest := d.resource(e.resource);
      Some(CompiledDecision(CacheKey(e.namespaceId, e.operation, digest), decision.decisionId, e.namespaceId,
                            e.operation, digest, decision.effect, decision.policyRevision,
                            decision.stateRevision, d.evidence(decision.evidenceIds),
                            Expiry(now, p.ttlSeconds)))
  }

  // ---------------------------------------------------------------- lengths

  lemma DigestLength(s: string)
    requires IsDigest(s)
    ensures ByteLen(s) == 64 && DigestAccepted(s)
  {
    ByteLenAscii(s);
  }

  /** A short name of ASCII characters without a bar. */
  predicate Plain(s: string) {
    forall i :: 0 <= i < |s| ==> s[i] as int < 0x80 && s[i] != '|'
  }

  lemma PlainName(s: string)
    requires 0 < |s| <= 40 && Plain(s)
    ensures ByteLen(s) == |s| && '|' !in s
  {
    ByteLenAscii(s);
  }

  lemma OperationLength(op: Operation)
    requires !op.OtherOperation?
    ensures 0 < ByteLen(OperationName(op)) <= 15 && '|' !in OperationName(op)
  {
    PlainName(OperationName(op));
  }

  lemma OperationNameInjective(a: Operation, b: Operation)
    requires !a.OtherOperation? && !b.OtherOperation? && OperationName(a) == OperationName(b)
    ensures a == b
  {
    var s := OperationName(a);
    var t := OperationName(b);
    assert |s| == |t| && s[0] == t[0] && s[|s| - 1] == t[|s| - 1];
  }

  lemma CharLength(c: char)
    requires c as int < 0x80
    ensures ByteLen([c]) == 1
  {
    ByteLenAscii([c]);
  }

  lemma DecisionIdValid(d: Digests, e: SecurityEvent, s: SecurityStateSummary, revision: string)
    requires d.Shaped()
    ensures ValidPrefixedId(DecisionId(d, e, s, revision), "dec:", 128)
  {
    var payload := e.eventId + ['\0'] + e.namespaceId + ['\0'] + Decimal(s.stateRevision) + ['\0'] + revision;
    var digest := d.identity(payload);
    assert IsDigest(digest);
    DigestLength(digest);
    ByteLenAppend("dec:", digest);
    ByteLenAscii("dec:");
    assert DecisionId(d, e, s, revision)[..4] == "dec:";
  }

  lemma ScopeValid(e: SecurityEvent)
    requires ValidEvent(e)
    ensures var scope := OperationName(e.operation) + [':'] + e.resource.resourceType;
            scope != "" && ByteLen(scope) <= 128
  {
    OperationLength(e.operation);
    CharLength(':');
    ByteLenAppend(OperationName(e.operation) + [':'], e.resource.resourceType);
    ByteLenAppend(OperationName(e.operation), [':']);
  }

  lemma KeyLength(namespaceId: string, operation: Operation, digest: string)
    requires ByteLen(namespaceId) <= 512 && !operation.OtherOperation? && IsDigest(digest)
    ensures CacheKey(namespaceId, operation, digest) != "" && ByteLen(CacheKey(namespaceId, operation, digest)) <= 593
  {
    OperationLength(operation);
    CharLength('|');
    DigestLength(digest);
    var name := OperationName(operation);
    ByteLenAppend(namespaceId + ['|'] + name + ['|'], digest);
    ByteLenAppend(namespaceId + ['|'] + name, ['|']);
    ByteLenAppend(namespaceId + ['|'], name);
    ByteLenAppend(namespaceId, ['|']);
  }

  // ---------------------------------------------------------------- the validators compose

  /** A denial means that every contract held and the three identities agreed. */
  lemma DenyMeansChecked(e: SecurityEvent, s: SecurityStateSummary, p: Profile)
    requires Judge(e, s, p).effect == DENY
    ensures ValidProfile(p) && ValidEvent(e) && ValidState(s)
    ensures e.policyRevision == p.policyRevision && s.namespaceId == e.namespaceId && s.stateRevision == e.sequence
    ensures Judge(e, s, p).reason == "STATIC_RESTRICTION_INVARIANT" || Judge(e, s, p).reason == "CAUSAL_RISK_ELEVATED"
  {
  }

  lemma DenialReason(reason: string)
    requires reason == "STATIC_RESTRICTION_INVARIANT" || reason == "CAUSAL_RISK_ELEVATED"
    ensures ByteLen(reason) <= 128
  {
    if reason == "CAUSAL_RISK_ELEVATED" {
      PlainName("CAUSAL_RISK_ELEVATED");
    } else {
      PlainName("STATIC_RESTRICTION_INVARIANT");
    }
  }

  lemma DecisionFieldsValid(decision: PolicyDecision, reason: string)
    requires decision.schemaVersion == SCHEMA_VERSION && ValidPrefixedId(decision.decisionId, "dec:", 128)
    requires decision.namespaceId != "" && ByteLen(decision.namespaceId) <= 512
    requires decision.policyRevision != "" && ByteLen(decision.policyRevision) <= 128
    requires decision.mode.AuditMode? && decision.effect.DENY?
    requires decision.scope != "" && ByteLen(decision.scope) <= 128
    requires decision.reasonCodes == [reason] && ByteLen(reason) <= 128
    requires AllUnique(decision.evidenceIds) && EachAtMost(decision.evidenceIds, 128)
    ensures ValidDecision(decision)
  {
  }

  lemma NamespaceNonEmpty(s: Subject)
    ensures ProcessNamespace(s) != ""
  {
  }

  /** Whatever is evaluated to a denial passes the decision contract. */
  lemma DenyIsValidDecision(d: Digests, e: SecurityEvent, s: SecurityStateSummary, p: Profile)
    requires d.Shaped() && Evaluate(d, e, s, p).effect == DENY
    ensures ValidDecision(Evaluate(d, e, s, p))
  {
    var reason := Judge(e, s, p).reason;
    DenyMeansChecked(e, s, p);
    DecisionIdValid(d, e, s, p.policyRevision);
    ScopeValid(e);
    DenialReason(reason);
    NamespaceNonEmpty(e.subject);
    DecisionFieldsValid(Evaluate(d, e, s, p), reason);
  }

  /** Four validators in a row: a denial compiles, and the compiled decision is valid, carries the
      active revision, and lives from now for exactly the profile's time to live. Nothing but a
      denial compiles. */
  lemma DenyCompiles(d: Digests, e: SecurityEvent, s: SecurityStateSummary, p: Profile, now: nat)
    requires d.Shaped()
    ensures var decision := Evaluate(d, e, s, p);
            var compiled := Compile(d, e, decision, p, now);
            && (compiled.Some? <==> decision.effect == DENY)
            && (compiled.Some? ==>
                  && ValidCompiled(compiled.value)
                  && compiled.value.policyRevision == p.policyRevision
                  && compiled.value.decisionId == decision.decisionId
                  && compiled.value.namespaceId == e.namespaceId
                  && (now < U64_MAX ==> now < compiled.value.expiresEpoch <= now + p.ttlSeconds))
  {
    var decision := Evaluate(d, e, s, p);
    if decision.effect == DENY {
      DenyIsValidDecision(d, e, s, p);
      DenyMeansChecked(e, s, p);
      var digest := d.resource(e.resource);
      DigestLength(digest);
      DigestLength(d.evidence(decision.evidenceIds));
      KeyLength(e.namespaceId, e.operation, digest);
      assert ValidCompiled(Compile(d, e, decision, p, now).value);
    }
  }

  /** Every contract holds and the three identities agree. */
  predicate Checked(e: SecurityEvent, s: SecurityStateSummary, p: Profile) {
    && ValidProfile(p) && ValidEvent(e) && ValidState(s)
    && e.policyRevision == p.policyRevision && s.namespaceId == e.namespaceId && s.stateRevision == e.sequence
  }

  /** The model's finding is confident enough, has evidence, and names its checkpoint if it is the ASM-CM's. */
  predicate CausalEvidence(s: SecurityStateSummary, p: Profile) {
    && s.evidenceIds != [] && s.confidence.Some? && s.confidence.value >= p.minimumConfidence
    && (s.engine.AsmCm? ==> s.checkpointFingerprint.Some?)
  }

  lemma BandMeans(s: SecurityStateSummary, p: Profile)
    ensures var v := JudgeBand(s, p);
            && (v.effect == DENY <==> s.riskBand.Restricted? || s.riskBand.Quarantined? || (s.riskBand.Elevated? && CausalEvidence(s, p)))
            && (v.effect == ALLOW <==> s.riskBand.Normal? || s.riskBand.Monitor?)
            && (v.failClosed <==> v.effect != DENY && v.effect != ALLOW)
  {
  }

  lemma OnlyCheckedIsJudged(e: SecurityEvent, s: SecurityStateSummary, p: Profile)
    ensures Checked(e, s, p) ==> Judge(e, s, p) == JudgeBand(s, p)
    ensures !Checked(e, s, p) ==> Judge(e, s, p).effect == ABSTAIN && Judge(e, s, p).failClosed
  {
  }

  /** Model output restricts and never grants: a denial needs a restricted band, or an elevated one with
      causal evidence; a permission is only ever the answer to a normal or monitored state. Whatever
      else comes in is abstained from, and only that is fail-closed. */
  lemma EffectsMean(d: Digests, e: SecurityEvent, s: SecurityStateSummary, p: Profile)
    ensures var decision := Evaluate(d, e, s, p);
            && (decision.effect == DENY <==>
                  Checked(e, s, p) && (s.riskBand.Restricted? || s.riskBand.Quarantined? || (s.riskBand.Elevated? && CausalEvidence(s, p))))
            && (decision.effect == ALLOW <==> Checked(e, s, p) && (s.riskBand.Normal? || s.riskBand.Monitor?))
            && (decision.effect == ABSTAIN <==> decision.effect != DENY && decision.effect != ALLOW)
            && (decision.failClosed <==> decision.effect == ABSTAIN)
            && (decision.effect == ALLOW ==> decision.reasonCodes == ["NO_RESTRICTING_INVARIANT"])
            && (decision.reasonCodes == ["STATIC_RESTRICTION_INVARIANT"] <==>
                  Checked(e, s, p) && (s.riskBand.Restricted? || s.riskBand.Quarantined?))
            && (decision.reasonCodes == ["CAUSAL_RISK_ELEVATED"] <==> Checked(e, s, p) && s.riskBand.Elevated? && CausalEvidence(s, p))
  {
    BandMeans(s, p);
    OnlyCheckedIsJudged(e, s, p);
    ReasonsMean(e, s, p);
  }

  /** What an abstention's reason says about the inputs. */
  predicate FailsCheck(reason: string, e: SecurityEvent, s: SecurityStateSummary, p: Profile) {
    && (reason == "POLICY_CONFIGURATION_INVALID" ==> !ValidProfile(p))
    && (reason == "EVENT_CONTRACT_INVALID" ==> !ValidEvent(e))
    && (reason == "STATE_CONTRACT_INVALID" ==> !ValidState(s))
    && (reason == "POLICY_REVISION_MISMATCH" ==> e.policyRevision != p.policyRevision)
    && (reason == "NAMESPACE_MISMATCH" ==> s.namespaceId != e.namespaceId)
    && (reason == "STATE_REVISION_MISMATCH" ==> s.stateRevision != e.sequence)
  }

  predicate LacksCause(reason: string, s: SecurityStateSummary, p: Profile) {
    && (reason == "CAUSAL_EVIDENCE_MISSING" ==> s.riskBand.Elevated? && s.evidenceIds == [])
    && (reason == "MODEL_CONFIDENCE_INSUFFICIENT" ==>
          s.riskBand.Elevated? && !(s.confidence.Some? && s.confidence.value >= p.minimumConfidence))
    && (reason == "MODEL_REVISION_MISSING" ==> s.riskBand.Elevated? && s.checkpointFingerprint.None?)
    && (reason == "RISK_BAND_UNSUPPORTED" ==> !(s.riskBand.Elevated? || s.riskBand.Unknown?))
    && (reason == "STATE_UNKNOWN" ==> s.riskBand.Unknown?)
  }

  const CHECKS := ["POLICY_CONFIGURATION_INVALID", "EVENT_CONTRACT_INVALID", "STATE_CONTRACT_INVALID",
                   "POLICY_REVISION_MISMATCH", "NAMESPACE_MISMATCH", "STATE_REVISION_MISMATCH"]
  const CAUSES := ["CAUSAL_EVIDENCE_MISSING", "MODEL_CONFIDENCE_INSUFFICIENT", "MODEL_REVISION_MISSING",
                   "RISK_BAND_UNSUPPORTED", "STATE_UNKNOWN"]

  /** An abstention gives one reason, and what the reason says is the case: of the contracts and identities that
      fail, or, if none does, of the risk band and the evidence. */
  lemma AbstentionsName(d: Digests, e: SecurityEvent, s: SecurityStateSummary, p: Profile)
    requires Evaluate(d, e, s, p).effect == ABSTAIN
    ensures var reasons := Evaluate(d, e, s, p).reasonCodes;
            && |reasons| == 1
            && (if Checked(e, s, p) then reasons[0] in CAUSES && LacksCause(reasons[0], s, p)
                else reasons[0] in CHECKS && FailsCheck(reasons[0], e, s, p))
  {
    if Checked(e, s, p) {
      BandNames(s, p);
    } else {
      CheckNames(e, s, p);
    }
  }

  lemma BandNames(s: SecurityStateSummary, p: Profile)
    requires JudgeBand(s, p).effect == ABSTAIN
    ensures JudgeBand(s, p).reason in CAUSES && LacksCause(JudgeBand(s, p).reason, s, p)
  {
    var reason := JudgeBand(s, p).reason;
    assert |CAUSES[0]| == 23 && |CAUSES[1]| == 29 && |CAUSES[2]| == 22 && |CAUSES[3]| == 21 && |CAUSES[4]| == 13;
    assert reason == CAUSES[0] || reason == CAUSES[1] || reason == CAUSES[2] || reason == CAUSES[3] || reason == CAUSES[4];
  }

  lemma CheckNames(e: SecurityEvent, s: SecurityStateSummary, p: Profile)
    requires !Checked(e, s, p)
    ensures Judge(e, s, p).reason in CHECKS && FailsCheck(Judge(e, s, p).reason, e, s, p)
  {
    var reason := Judge(e, s, p).reason;
    assert |CHECKS[3]| == 24 && |CHECKS[4]| == 18 && |CHECKS[5]| == 23;
    assert |CHECKS[0]| == 28 && |CHECKS[1]| == |CHECKS[2]| == 22 && CHECKS[1][0] == 'E' && CHECKS[2][0] == 'S';
    assert reason == CHECKS[0] || reason == CHECKS[1] || reason == CHECKS[2] || reason == CHECKS[3] || reason == CHECKS[4]
           || reason == CHECKS[5];
  }

  predicate DenialReasonOf(reason: string, s: SecurityStateSummary, p: Profile, checked: bool) {
    && (reason == "STATIC_RESTRICTION_INVARIANT" <==> checked && (s.riskBand.Restricted? || s.riskBand.Quarantined?))
    && (reason == "CAUSAL_RISK_ELEVATED" <==> checked && s.riskBand.Elevated? && CausalEvidence(s, p))
  }

  lemma BandReasons(s: SecurityStateSummary, p: Profile)
    ensures DenialReasonOf(JudgeBand(s, p).reason, s, p, true)
  {
    var reason := JudgeBand(s, p).reason;
    assert |reason| == 28 <==> s.riskBand.Restricted? || s.riskBand.Quarantined?;
    assert |reason| == 20 <==> s.riskBand.Elevated? && CausalEvidence(s, p);
  }

  lemma UncheckedReasons(e: SecurityEvent, s: SecurityStateSummary, p: Profile)
    requires !Checked(e, s, p)
    ensures DenialReasonOf(Judge(e, s, p).reason, s, p, false)
  {
    var reason := Judge(e, s, p).reason;
    assert |reason| == 28 ==> reason[0] == 'P';
    assert |reason| != 20;
  }

  lemma ReasonsMean(e: SecurityEvent, s: SecurityStateSummary, p: Profile)
    ensures DenialReasonOf(Judge(e, s, p).reason, s, p, Checked(e, s, p))
  {
    if Checked(e, s, p) {
      BandReasons(s, p);
    } else {
      UncheckedReasons(e, s, p);
    }
  }

  // ---------------------------------------------------------------- the identity of a decision

  /** What a decision id is the digest of. */
  function IdentityPayload(eventId: string, namespaceId: string, stateRevision: nat, revision: string): string {
    eventId + ['\0'] + namespaceId + ['\0'] + Decimal(stateRevision) + ['\0'] + revision
  }

  /** The rest of one payload, after the event id, read as the rest of another: the other's namespace takes
      in namespace and state revision, and this policy revision hides the other's state revision. */
  ghost predicate Absorbed(n: string, k: nat, p: string, m: string, l: nat, q: string) {
    exists t: string :: m == n + ['\0'] + Decimal(k) + ['\0'] + t && p == t + ['\0'] + Decimal(l) + ['\0'] + q
  }

  lemma NoNul(s: string)
    requires AllDigits(s)
    ensures '\0' !in s
  {
  }

  lemma EventIdHasNoNul(e: SecurityEvent)
    requires ValidEvent(e)
    ensures '\0' !in e.eventId
  {
    assert e.eventId[..4] == "evt:";
    forall i | 0 <= i < |e.eventId| ensures e.eventId[i] != '\0' {
      if i < 4 {
        assert e.eventId[i] == "evt:"[i];
      }
    }
  }

  /** Digits after a colon are not digits after a NUL. */
  lemma TailsDiffer(a: string, x: string, b: string, y: string)
    requires AllDigits(x) && AllDigits(y)
    ensures a + [':'] + x != b + ['\0'] + y
  {
    var s, t := a + [':'] + x, b + ['\0'] + y;
    assert s[|a|] == ':' && t[|b|] == '\0';
    assert forall i :: |a| < i < |s| ==> s[i] == x[i - |a| - 1] && IsDigit(s[i]);
    assert forall i :: |b| < i < |t| ==> t[i] == y[i - |b| - 1] && IsDigit(t[i]);
  }

  lemma DecimalInjective(k: nat, l: nat)
    requires Decimal(k) == Decimal(l)
    ensures k == l
  {
    ParseOfDecimal(k);
    ParseOfDecimal(l);
  }

  lemma AbsorbedAgree(n: string, k: nat, p: string, m: string, l: nat, q: string)
    requires Absorbed(n, k, p, m, l, q)
    ensures n + ['\0'] + Decimal(k) + ['\0'] + p == m + ['\0'] + Decimal(l) + ['\0'] + q
  {
    var t: string :| m == n + ['\0'] + Decimal(k) + ['\0'] + t && p == t + ['\0'] + Decimal(l) + ['\0'] + q;
    assert (n + ['\0'] + Decimal(k) + ['\0'] + t) + ['\0'] + Decimal(l) + ['\0'] + q ==
           n + ['\0'] + Decimal(k) + ['\0'] + (t + ['\0'] + Decimal(l) + ['\0'] + q);
  }

  /** The case of the longer policy revision: what it has more than the other hides a state revision. */
  lemma LongerAbsorbs(n: string, k: nat, p: string, b: Subject, l: nat, q: string)
    requires |p| > |q|
    requires n + ['\0'] + Decimal(k) + ['\0'] + p == ProcessNamespace(b) + ['\0'] + Decimal(l) + ['\0'] + q
    ensures Absorbed(n, k, p, ProcessNamespace(b), l, q)
  {
    var m := ProcessNamespace(b);
    var x, y := n + ['\0'] + Decimal(k), m + ['\0'] + Decimal(l);
    var s := x + ['\0'] + p;
    var g := |p| - |q| - 1;
    var r := p[..g];
    assert |y| == |x| + 1 + g && y == s[..|y|] == x + ['\0'] + r;
    assert p == r + ['\0'] + q by {
      assert s[|y|] == '\0' && s[|y|] == p[g];
      assert q == s[|y| + 1..] == p[g + 1..];
    }
    NoNul(Decimal(l));
    if '\0' !in r {
      LastSeparator(m, Decimal(l), x, r, '\0');
      TailsDiffer("process:" + b.bootId + [':'] + Decimal(b.pid), Decimal(b.startTimeNs), n, Decimal(k));
      assert false;
    } else {
      var t, u := CutAtLast(r, '\0');
      assert x + ['\0'] + (t + ['\0'] + u) == (x + ['\0'] + t) + ['\0'] + u;
      LastSeparator(m, Decimal(l), x + ['\0'] + t, u, '\0');
    }
  }

  lemma TailsAgreeIff(a: Subject, k: nat, p: string, b: Subject, l: nat, q: string)
    ensures var n, m := ProcessNamespace(a), ProcessNamespace(b);
            n + ['\0'] + Decimal(k) + ['\0'] + p == m + ['\0'] + Decimal(l) + ['\0'] + q <==>
            (n == m && k == l && p == q) || Absorbed(n, k, p, m, l, q) || Absorbed(m, l, q, n, k, p)
  {
    var n, m := ProcessNamespace(a), ProcessNamespace(b);
    var x, y := n + ['\0'] + Decimal(k), m + ['\0'] + Decimal(l);
    if Absorbed(n, k, p, m, l, q) {
      AbsorbedAgree(n, k, p, m, l, q);
    }
    if Absorbed(m, l, q, n, k, p) {
      AbsorbedAgree(m, l, q, n, k, p);
    }
    if x + ['\0'] + p == y + ['\0'] + q {
      if |p| > |q| {
        LongerAbsorbs(n, k, p, b, l, q);
      } else if |q| > |p| {
        LongerAbsorbs(m, l, q, a, k, p);
      } else {
        assert p == (x + ['\0'] + p)[|x| + 1..] == q && x == (x + ['\0'] + p)[..|x|] == y;
        NoNul(Decimal(k));
        NoNul(Decimal(l));
        LastSeparator(n, Decimal(k), m, Decimal(l), '\0');
        DecimalInjective(k, l);
      }
    }
  }

  lemma AbsorbingIsLonger(n: string, k: nat, p: string, m: string, l: nat, q: string)
    requires Absorbed(n, k, p, m, l, q)
    ensures |p| > |q| && '\0' in p
  {
    var t: string :| m == n + ['\0'] + Decimal(k) + ['\0'] + t && p == t + ['\0'] + Decimal(l) + ['\0'] + q;
    assert p[|t|] == '\0';
  }

  /** Neither revision can hide a state revision. */
  lemma NothingAbsorbed(n: string, k: nat, p: string, m: string, l: nat, q: string)
    requires p == q || '\0' !in p
    ensures !Absorbed(n, k, p, m, l, q)
  {
    if Absorbed(n, k, p, m, l, q) {
      AbsorbingIsLonger(n, k, p, m, l, q);
    }
  }

  /** Two decisions on valid events have one id exactly if event, namespace, state revision and policy
      revision agree, or a policy revision with NUL characters makes up for a longer namespace. Under one
      revision, or under revisions without NUL, as an environment variable gives, the id names the four. */
  lemma DecisionIdIff(d: Digests, a: SecurityEvent, s: SecurityStateSummary, p: Profile,
                      b: SecurityEvent, t: SecurityStateSummary, q: Profile)
    requires ValidEvent(a) && ValidEvent(b)
    requires var x := IdentityPayload(a.eventId, a.namespaceId, s.stateRevision, p.policyRevision);
             var y := IdentityPayload(b.eventId, b.namespaceId, t.stateRevision, q.policyRevision);
             d.identity(x) == d.identity(y) ==> x == y
    ensures var same := a.eventId == b.eventId && a.namespaceId == b.namespaceId && s.stateRevision == t.stateRevision
                        && p.policyRevision == q.policyRevision;
            var absorbed := Absorbed(a.namespaceId, s.stateRevision, p.policyRevision, b.namespaceId, t.stateRevision, q.policyRevision)
                            || Absorbed(b.namespaceId, t.stateRevision, q.policyRevision, a.namespaceId, s.stateRevision, p.policyRevision);
            var agree := Evaluate(d, a, s, p).decisionId == Evaluate(d, b, t, q).decisionId;
            && (agree <==> same || (a.eventId == b.eventId && absorbed))
            && (p.policyRevision == q.policyRevision || ('\0' !in p.policyRevision && '\0' !in q.policyRevision) ==> (agree <==> same))
  {
    IdNamesPayload(d, a, s, p, b, t, q);
    PayloadsAgreeIff(a, s.stateRevision, p.policyRevision, b, t.stateRevision, q.policyRevision);
    if p.policyRevision == q.policyRevision || ('\0' !in p.policyRevision && '\0' !in q.policyRevision) {
      NothingAbsorbed(a.namespaceId, s.stateRevision, p.policyRevision, b.namespaceId, t.stateRevision, q.policyRevision);
      NothingAbsorbed(b.namespaceId, t.stateRevision, q.policyRevision, a.namespaceId, s.stateRevision, p.policyRevision);
    }
  }

  lemma PayloadsAgreeIff(a: SecurityEvent, k: nat, p: string, b: SecurityEvent, l: nat, q: string)
    requires ValidEvent(a) && ValidEvent(b)
    ensures IdentityPayload(a.eventId, a.namespaceId, k, p) == IdentityPayload(b.eventId, b.namespaceId, l, q) <==>
            a.eventId == b.eventId
            && ((a.namespaceId == b.namespaceId && k == l && p == q)
                || Absorbed(a.namespaceId, k, p, b.namespaceId, l, q) || Absorbed(b.namespaceId, l, q, a.namespaceId, k, p))
  {
    var u := a.namespaceId + ['\0'] + Decimal(k) + ['\0'] + p;
    var v := b.namespaceId + ['\0'] + Decimal(l) + ['\0'] + q;
    PayloadSplits(a.eventId, a.namespaceId, k, p);
    PayloadSplits(b.eventId, b.namespaceId, l, q);
    EventIdHasNoNul(a);
    EventIdHasNoNul(b);
    if a.eventId + ['\0'] + u == b.eventId + ['\0'] + v {
      FirstSeparator(a.eventId, u, b.eventId, v, '\0');
    }
    TailsAgreeIff(a.subject, k, p, b.subject, l, q);
  }

  lemma PayloadSplits(eventId: string, n: string, k: nat, p: string)
    ensures IdentityPayload(eventId, n, k, p) == eventId + ['\0'] + (n + ['\0'] + Decimal(k) + ['\0'] + p)
  {
  }

  lemma IdNamesPayload(d: Digests, a: SecurityEvent, s: SecurityStateSummary, p: Profile,
                       b: SecurityEvent, t: SecurityStateSummary, q: Profile)
    requires var x := IdentityPayload(a.eventId, a.namespaceId, s.stateRevision, p.policyRevision);
             var y := IdentityPayload(b.eventId, b.namespaceId, t.stateRevision, q.policyRevision);
             d.identity(x) == d.identity(y) ==> x == y
    ensures Evaluate(d, a, s, p).decisionId == Evaluate(d, b, t, q).decisionId <==>
            IdentityPayload(a.eventId, a.namespaceId, s.stateRevision, p.policyRevision) ==
            IdentityPayload(b.eventId, b.namespaceId, t.stateRevision, q.policyRevision)
  {
    var x := IdentityPayload(a.eventId, a.namespaceId, s.stateRevision, p.policyRevision);
    var y := IdentityPayload(b.eventId, b.namespaceId, t.stateRevision, q.policyRevision);
    assert ("dec:" + d.identity(x))[4..] == d.identity(x) && ("dec:" + d.identity(y))[4..] == d.identity(y);
  }

  /** Key, namespace, operation and resource digest determine each other. The namespace may itself
      contain the separator. */
  lemma CacheKeyInjective(n1: string, o1: Operation, d1: string, n2: string, o2: Operation, d2: string)
    requires !o1.OtherOperation? && !o2.OtherOperation? && IsDigest(d1) && IsDigest(d2)
    ensures CacheKey(n1, o1, d1) == CacheKey(n2, o2, d2) <==> n1 == n2 && o1 == o2 && d1 == d2
  {
    if CacheKey(n1, o1, d1) == CacheKey(n2, o2, d2) {
      OperationLength(o1);
      OperationLength(o2);
      assert '|' !in d1 && '|' !in d2;
      LastSeparator(n1 + ['|'] + OperationName(o1), d1, n2 + ['|'] + OperationName(o2), d2, '|');
      LastSeparator(n1, OperationName(o1), n2, OperationName(o2), '|');
      OperationNameInjective(o1, o2);
    }
  }

  /** Two valid events share a cache key only for the same process, operation and resource digest. */
  lemma CacheKeySeparatesProcesses(d: Digests, a: SecurityEvent, b: SecurityEvent)
    requires d.Shaped() && ValidEvent(a) && ValidEvent(b)
    ensures CacheKey(a.namespaceId, a.operation, d.resource(a.resource)) ==
            CacheKey(b.namespaceId, b.operation, d.resource(b.resource))
            <==>
            && a.subject.bootId == b.subject.bootId && a.subject.pid == b.subject.pid
            && a.subject.startTimeNs == b.subject.startTimeNs
            && a.operation == b.operation && d.resource(a.resource) == d.resource(b.resource)
  {
    CacheKeyInjective(a.namespaceId, a.operation, d.resource(a.resource),
                      b.namespaceId, b.operation, d.resource(b.resource));
    NamespaceIsIdentity(a.subject, b.subject);
  }
}
