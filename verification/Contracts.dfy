/** The versioned records and their validators. Fields that no modelled code reads are absent. */
module Contracts {
  import opened Wrappers
  import opened Text

  const SCHEMA_VERSION := "1.0"

  datatype Subject = Subject(pid: nat, bootId: string, startTimeNs: nat, exe: string,
                             cmdline: Option<seq<string>>, service: Option<string>,
                             containerId: Option<string>, agentId: Option<string>)

  datatype Resource = Resource(resourceType: string, attributes: map<string, string>)

  // The closed vocabularies of the wire format. The last constructor of each is any other text.

  datatype Operation = ProcessExec | ProcessExit | FileOpen | NetworkSocket | NetworkBind | NetworkConnect
                     | IdentityChange | OtherOperation(text: string)

  datatype Outcome = Requested | Awaiting | Allowed | Denied | Failed | OtherOutcome(text: string)

  datatype Source = Synthetic | Ptrace | Bpf | Audit | AgentBroker | OtherSource(text: string)

  datatype RiskBand = Unknown | Normal | Monitor | Elevated | Restricted | Quarantined | OtherBand(text: string)

  datatype Engine = FakeEngine | AsmCm | OtherEngine(text: string)

  datatype Mode = AuditMode | EnforceMode | OtherMode(text: string)

  datatype Effect = ALLOW | DENY | AUDIT | LIMIT | CHALLENGE | FREEZE | QUARANTINE | KILL | ABSTAIN
                  | OtherEffect(text: string)

  function OperationName(op: Operation): string {
    match op
    case ProcessExec => "process.exec"
    case ProcessExit => "process.exit"
    case FileOpen => "file.open"
    case NetworkSocket => "network.socket"
    case NetworkBind => "network.bind"
    case NetworkConnect => "network.connect"
    case IdentityChange => "identity.change"
    case OtherOperation(text) => text
  }

  datatype SecurityEvent = SecurityEvent(
    schemaVersion: string, eventId: string, sequence: nat, occurredAt: string, hostId: string,
    namespaceId: string, subject: Subject, operation: Operation, resource: Resource, result: Outcome,
    policyRevision: string, labels: seq<string>, source: Source)

  datatype SecurityStateSummary = SecurityStateSummary(
    schemaVersion: string, namespaceId: string, stateRevision: nat, riskBand: RiskBand,
    confidence: Option<real>, signals: seq<string>, evidenceIds: seq<string>, engine: Engine,
    checkpointFingerprint: Option<string>)

  datatype PolicyDecision = PolicyDecision(
    schemaVersion: string, decisionId: string, namespaceId: string, policyRevision: string,
    stateRevision: nat, mode: Mode, effect: Effect, scope: string, reasonCodes: seq<string>,
    evidenceIds: seq<string>, failClosed: bool, createdAt: string)

  predicate IsAlphanumeric(c: char) { IsDigit(c) || 'a' <= c <= 'z' || 'A' <= c <= 'Z' }

  predicate IdChar(c: char) { IsAlphanumeric(c) || c == '.' || c == '_' || c == '-' }

  predicate HasPrefix(value: string, prefix: string) {
    |prefix| <= |value| && value[..|prefix|] == prefix
  }

  predicate ValidPrefixedId(value: string, prefix: string, maxLen: nat) {
    && ByteLen(value) <= maxLen
    && HasPrefix(value, prefix)
    && |value| > |prefix|
    && forall i :: |prefix| <= i < |value| ==> IdChar(value[i])
  }

  predicate ValidSegmentedId(value: string, prefix: string, maxLen: nat) {
    && ByteLen(value) <= maxLen
    && HasPrefix(value, prefix)
    && |value| > |prefix|
    && value[|prefix|] != ':' && value[|value| - 1] != ':'
    && forall i :: |prefix| <= i < |value| ==> IdChar(value[i]) || value[i] == ':'
  }

  predicate AllUnique(values: seq<string>) {
    forall i, j :: 0 <= i < j < |values| ==> values[i] != values[j]
  }

  predicate EachAtMost(values: seq<string>, bound: nat) {
    forall i :: 0 <= i < |values| ==> ByteLen(values[i]) <= bound
  }

  predicate OptionAtMost(value: Option<string>, bound: nat) {
    value.Some? ==> ByteLen(value.value) <= bound
  }

  /** The stable identity of a process: boot, pid and start time. */
  function ProcessNamespace(s: Subject): string {
    "process:" + s.bootId + [':'] + Decimal(s.pid) + [':'] + Decimal(s.startTimeNs)
  }

  predicate ValidEvent(e: SecurityEvent) {
    && e.schemaVersion == SCHEMA_VERSION
    && ValidSegmentedId(e.eventId, "evt:", 128)
    && e.sequence != 0
    && e.subject.pid != 0 && e.subject.startTimeNs != 0
    && e.namespaceId == ProcessNamespace(e.subject)
    && ValidPrefixedId(e.hostId, "host:", 160)
    && ByteLen(e.namespaceId) <= 512
    && e.subject.bootId != "" && ByteLen(e.subject.bootId) <= 128
    && ByteLen(e.subject.exe) <= 4096
    && (e.subject.cmdline.Some? ==> |e.subject.cmdline.value| <= 256 && EachAtMost(e.subject.cmdline.value, 4096))
    && OptionAtMost(e.subject.service, 256)
    && OptionAtMost(e.subject.containerId, 256)
    && OptionAtMost(e.subject.agentId, 256)
    && e.policyRevision != "" && ByteLen(e.policyRevision) <= 128
    && !e.operation.OtherOperation?
    && !e.result.OtherOutcome?
    && !e.source.OtherSource?
    && e.resource.resourceType != "" && ByteLen(e.resource.resourceType) <= 64
    && e.subject.exe != ""
    && |e.labels| <= 32 && EachAtMost(e.labels, 64) && AllUnique(e.labels)
  }

  predicate ValidState(s: SecurityStateSummary) {
    && s.schemaVersion == SCHEMA_VERSION && s.namespaceId != ""
    && s.stateRevision != 0
    && !s.riskBand.OtherBand?
    && (s.confidence.Some? ==> 0.0 <= s.confidence.value <= 1.0)
    && !s.engine.OtherEngine?
    && AllUnique(s.signals) && AllUnique(s.evidenceIds)
    && EachAtMost(s.signals, 128) && EachAtMost(s.evidenceIds, 128)
  }

  predicate ValidDecision(d: PolicyDecision) {
    && d.schemaVersion == SCHEMA_VERSION
    && ValidPrefixedId(d.decisionId, "dec:", 128)
    && d.namespaceId != "" && ByteLen(d.namespaceId) <= 512
    && d.policyRevision != "" && ByteLen(d.policyRevision) <= 128
    && !d.mode.OtherMode?
    && !d.effect.OtherEffect?
    && d.scope != "" && ByteLen(d.scope) <= 128
    && d.reasonCodes != [] && AllUnique(d.reasonCodes) && AllUnique(d.evidenceIds)
    && EachAtMost(d.reasonCodes, 128) && EachAtMost(d.evidenceIds, 128)
  }

  lemma DigitsHaveNoColon(s: string)
    requires AllDigits(s)
    ensures ':' !in s
  {
  }

  /** Boot, pid and start time can be read back from the namespace, whatever the boot id contains:
      a reused pid never shares a namespace. */
  lemma NamespaceIsIdentity(a: Subject, b: Subject)
    ensures ProcessNamespace(a) == ProcessNamespace(b) <==>
            a.bootId == b.bootId && a.pid == b.pid && a.startTimeNs == b.startTimeNs
  {
    if ProcessNamespace(a) == ProcessNamespace(b) {
      DigitsHaveNoColon(Decimal(a.startTimeNs));
      DigitsHaveNoColon(Decimal(b.startTimeNs));
      DigitsHaveNoColon(Decimal(a.pid));
      DigitsHaveNoColon(Decimal(b.pid));
      var frontA := "process:" + a.bootId;
      var frontB := "process:" + b.bootId;
      LastSeparator(frontA + [':'] + Decimal(a.pid), Decimal(a.startTimeNs),
                    frontB + [':'] + Decimal(b.pid), Decimal(b.startTimeNs), ':');
      LastSeparator(frontA, Decimal(a.pid), frontB, Decimal(b.pid), ':');
      assert a.bootId == frontA[8..] && b.bootId == frontB[8..];
      ParseOfDecimal(a.pid);
      ParseOfDecimal(b.pid);
      ParseOfDecimal(a.startTimeNs);
      ParseOfDecimal(b.startTimeNs);
    }
  }
}
