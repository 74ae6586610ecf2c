/** The seccomp notification protocol between the kernel, one broker generation at a time,
    the broker's FIFO report channel, and the guardian that keeps the listener.

    The broker is a program counter over its loop; every place where another party can act
    between two of its system calls is a separate counter value. */
module BrokerProtocol {
  import opened Wrappers

  datatype Effect = DENY | ALLOW

  /** The kernel's view of one notification. */
  datatype Notification = Pending | Received | Answered(effect: Effect) | Gone

  /** One SEND ioctl that some process issued, successful or not. */
  datatype Send = Send(id: nat, effect: Effect, byGuardian: bool, accepted: bool)

  /** What the kernel knows of the notifying threads: the thread of a notification, and the
      process of a thread. Reading /proc may fail, but never gives another answer. */
  datatype World = World(targetPid: int, tid: nat -> int, tgid: int -> int)
  {
    predicate Targets(id: nat) { tgid(tid(id)) == targetPid }
  }

  datatype Message =
    | Lease(generation: int, id: nat, tid: int)
    | Decision(generation: int, target: bool, effect: Effect)
    | Invalid(generation: int)
    | CrashBeforeSend(generation: int, afterReceived: nat, id: nat)
    | Crash(generation: int, afterResponses: nat)

  /** The fault-injection part of a generation's configuration. */
  datatype Config = Config(crashAfter: Option<int>, crashBeforeSend: Option<int>,
                           crashBeforeLease: Option<int>, leaseReporting: bool)

  datatype Pc =
    | AtReceive
    | Checking(id: nat)
    | Classifying(id: nat)
    | Classified(id: nat, target: bool, effect: Effect)
    | Leased(id: nat, target: bool, effect: Effect)
    | CrashReported(id: nat)
    | Responding(id: nat, target: bool, effect: Effect)
    | Responded(target: bool, effect: Effect)
    | Reported
    | StopReported
    | Exited(code: int, held: Option<nat>, unreported: seq<Effect>)

  datatype Broker = Broker(generation: int, config: Config, pc: Pc, received: nat, processed: nat)

  const EXIT_STOP := 70
  const EXIT_BEFORE_SEND := 71
  const EXIT_BEFORE_LEASE := 72
  const EXIT_ERROR := 125
  const EXIT_KILLED := -9

  /** Which of the two guardians watches: the one that recovers leases, or the one that only
      replaces a stopped broker. */
  datatype Duty = RecoverLease | ReplaceOnly

  datatype Recovery = INVALID | UNRESOLVED | Resolved(effect: Effect)

  datatype Status = Watching | Failed

  datatype Guardian = Guardian(duty: Duty, generation: int, leases: map<nat, int>, decisions: seq<Message>,
                               invalidIds: nat, crashReport: Option<nat>, recovery: Option<Recovery>,
                               status: Status)

  datatype System = System(kernel: map<nat, Notification>, sends: seq<Send>, broker: Broker,
                           channel: seq<Message>, guardian: Guardian)

  // ---------------------------------------------------------------- guardian, one report

  /** The guardian's bookkeeping for one report read from the channel. */
  function Note(g: Guardian, m: Message): Guardian {
    match m
    case Lease(_, id, tid) => if g.duty.RecoverLease? then g.(leases := g.leases[id := tid]) else g
    case Decision(_, _, _) => g.(decisions := g.decisions + [m], leases := map[])
    case Invalid(_) => g.(invalidIds := g.invalidIds + 1)
    case CrashBeforeSend(_, _, id) => if g.duty.RecoverLease? then g.(crashReport := Some(id)) else g
    case Crash(_, _) => g
  }

  /** The guardian after it has read everything that is in the channel. */
  function Drain(g: Guardian, channel: seq<Message>): Guardian
    decreases |channel|
  {
    if channel == [] then g else Drain(Note(g, channel[0]), channel[1..])
  }

  // ---------------------------------------------------------------- classification

  datatype Identity = Verified | Changed

  /** How the broker's look at /proc went: it failed, or it found the thread's process and,
      for the target, compared the identity. */
  datatype Look = Unreadable | Found(identity: Identity)

  /** `enforcement_effect` without its time-out and overload inputs, which stay false here. */
  function EnforcementEffect(abstain: bool, policy: Effect, target: bool, adapterFailed: bool): Effect {
    if !target then ALLOW
    else if adapterFailed || abstain then DENY
    else policy
  }

  function Classify(w: World, id: nat, look: Look): (bool, Effect) {
    match look
    case Unreadable => (true, EnforcementEffect(true, DENY, true, true))
    case Found(identity) =>
      var target := w.Targets(id);
      (target, EnforcementEffect(false, if target then DENY else ALLOW, target, target && identity.Changed?))
  }

  // ---------------------------------------------------------------- kernel

  /** NOTIF_ID_VALID */
  predicate Alive(kernel: map<nat, Notification>, id: nat) {
    id in kernel && kernel[id] == Received
  }

  /** NOTIF_SEND: the kernel takes an answer only for a received, unanswered, living notification. */
  function KernelSend(s: System, id: nat, effect: Effect, byGuardian: bool): System {
    if Alive(s.kernel, id) then
      s.(kernel := s.kernel[id := Answered(effect)], sends := s.sends + [Send(id, effect, byGuardian, true)])
    else
      s.(sends := s.sends + [Send(id, effect, byGuardian, false)])
  }

  // ---------------------------------------------------------------- guardian, end of channel

  /** The environment's choices while the guardian handles an end of channel: whether the thread's
      process can be read, whether the notification vanishes between the check and the answer,
      and whether the replacement broker starts. */
  datatype Luck = Luck(readable: bool, vanishes: bool, starts: bool)

  const PLAIN := Config(None, None, None, true)

  function Vanish(kernel: map<nat, Notification>, id: nat): map<nat, Notification> {
    if id in kernel && (kernel[id] == Pending || kernel[id] == Received) then kernel[id := Gone] else kernel
  }

  /** `respond_to_lease`; no recovery in the result means that SEND raised. */
  function RespondToLease(w: World, s: System, id: nat, tid: int, luck: Luck): (System, Option<Recovery>) {
    if !Alive(s.kernel, id) then (s, Some(INVALID))
    else if !luck.readable then (s, Some(UNRESOLVED))
    else
      var effect := if w.tgid(tid) == w.targetPid then DENY else ALLOW;
      var s1 := if luck.vanishes then s.(kernel := Vanish(s.kernel, id)) else s;
      var s2 := KernelSend(s1, id, effect, true);
      (s2, if Alive(s1.kernel, id) then Some(Resolved(effect)) else None)
  }

  function Fail(s: System): System { s.(guardian := s.guardian.(status := Failed)) }

  /** After `waitpid`, the dead generation holds nothing any more. */
  function Reaped(b: Broker): Broker
    requires b.pc.Exited?
  {
    b.(pc := Exited(b.pc.code, None, []))
  }

  function Replace(s: System, starts: bool): System
    requires s.broker.pc.Exited?
  {
    var g := s.guardian.(generation := s.guardian.generation + 1);
    if starts then
      System(s.kernel, s.sends,
             Broker(g.generation, PLAIN.(leaseReporting := g.duty.RecoverLease?), AtReceive, 0, 0), [],
             g.(leases := map[]))
    else
      s.(guardian := g.(status := Failed), broker := Reaped(s.broker))
  }

  function AfterRecovery(s: System, recovery: Option<Recovery>, starts: bool): System
    requires s.broker.pc.Exited?
  {
    if recovery.None? then Fail(s).(broker := Reaped(s.broker))
    else Replace(s.(guardian := s.guardian.(recovery := recovery)), starts)
  }

  /** The guardian reads end-of-file: every report of the dead generation has been read. */
  function EndOfChannel(w: World, s: System, luck: Luck): System
    requires s.broker.pc.Exited?
  {
    var g := s.guardian;
    match g.duty
    case ReplaceOnly =>
      if s.broker.pc.code != EXIT_STOP || g.generation != 1 then Fail(s) else Replace(s, luck.starts)
    case RecoverLease =>
      if s.broker.pc.code != EXIT_BEFORE_SEND || g.generation != 1 || g.crashReport.None? then Fail(s)
      else
        var id := g.crashReport.value;
        if id !in g.leases then Fail(s)
        else
          var (s1, recovery) := RespondToLease(w, s, id, g.leases[id], luck);
          AfterRecovery(s1, recovery, luck.starts)
  }

  // ---------------------------------------------------------------- all steps

  datatype Action =
    | Arrive(id: nat)
    | Die(id: nat)
    | Receive(id: nat)
    | CheckId
    | ClassifyId(look: Look)
    | PublishLease
    | CrashOrRecheck
    | Answer
    | Report
    | StopOrLoop
    | Exit
    | Kill
    | Read
    | ReadEnd(luck: Luck)

  predicate Due(threshold: Option<int>, count: nat) {
    threshold.Some? && count >= threshold.value
  }

  function Held(pc: Pc): Option<nat> {
    match pc
    case Checking(id) => Some(id)
    case Classifying(id) => Some(id)
    case Classified(id, _, _) => Some(id)
    case Leased(id, _, _) => Some(id)
    case CrashReported(id) => Some(id)
    case Responding(id, _, _) => Some(id)
    case Exited(_, held, _) => held
    case _ => None
  }

  function Unreported(pc: Pc): seq<Effect> {
    match pc
    case Responded(_, effect) => [effect]
    case Exited(_, _, unreported) => unreported
    case _ => []
  }

  function Post(s: System, m: Message, pc: Pc): System {
    s.(channel := s.channel + [m], broker := s.broker.(pc := pc))
  }

  function Goto(s: System, pc: Pc): System { s.(broker := s.broker.(pc := pc)) }

  /** One step of the broker's loop, in the order of the loop's statements. */
  function BrokerStep(w: World, s: System, a: Action): Option<System> {
    var b := s.broker;
    var pc := b.pc;
    match a
    case Receive(id) =>
      if pc.AtReceive? && id in s.kernel && s.kernel[id] == Pending then
        Some(s.(kernel := s.kernel[id := Received], broker := b.(pc := Checking(id), received := b.received + 1)))
      else None
    case CheckId =>
      if !pc.Checking? then None
      else Some(if Alive(s.kernel, pc.id) then Goto(s, Classifying(pc.id))
                else Post(s, Invalid(b.generation), AtReceive))
    case ClassifyId(look) =>
      if !pc.Classifying? then None
      else
        var (target, effect) := Classify(w, pc.id, look);
        Some(Goto(s, Classified(pc.id, target, effect)))
    case PublishLease =>
      if !pc.Classified? then None
      else if Due(b.config.crashBeforeLease, b.received) then
        Some(Goto(s, Exited(EXIT_BEFORE_LEASE, Some(pc.id), [])))
      else
        var next := Leased(pc.id, pc.target, pc.effect);
        Some(if b.config.leaseReporting then Post(s, Lease(b.generation, pc.id, w.tid(pc.id)), next)
             else Goto(s, next))
    case CrashOrRecheck =>
      if !pc.Leased? then None
      else if Due(b.config.crashBeforeSend, b.received) then
        Some(Post(s, CrashBeforeSend(b.generation, b.received, pc.id), CrashReported(pc.id)))
      else
        Some(if Alive(s.kernel, pc.id) then Goto(s, Responding(pc.id, pc.target, pc.effect))
             else Post(s, Invalid(b.generation), AtReceive))
    case Answer =>
      if !pc.Responding? then None
      else
        var sent := KernelSend(s, pc.id, pc.effect, false);
        Some(if Alive(s.kernel, pc.id) then
               sent.(broker := b.(pc := Responded(pc.target, pc.effect), processed := b.processed + 1))
             else Goto(sent, Exited(EXIT_ERROR, None, [])))
    case Report =>
      if !pc.Responded? then None
      else Some(Post(s, Decision(b.generation, pc.target, pc.effect), Reported))
    case StopOrLoop =>
      if !pc.Reported? then None
      else Some(if Due(b.config.crashAfter, b.processed) then Post(s, Crash(b.generation, b.processed), StopReported)
                else Goto(s, AtReceive))
    case Exit =>
      if pc.CrashReported? then Some(Goto(s, Exited(EXIT_BEFORE_SEND, Some(pc.id), [])))
      else if pc.StopReported? then Some(Goto(s, Exited(EXIT_STOP, None, [])))
      else None
    case _ => None
  }

  /** One step of the whole system; none when the action is not enabled. */
  function Step(w: World, s: System, a: Action): Option<System> {
    match a
    case Arrive(id) => if id in s.kernel then None else Some(s.(kernel := s.kernel[id := Pending]))
    case Die(id) => Some(s.(kernel := Vanish(s.kernel, id)))
    case Kill =>
      if s.broker.pc.Exited? then None
      else Some(Goto(s, Exited(EXIT_KILLED, Held(s.broker.pc), Unreported(s.broker.pc))))
    case Read =>
      if s.guardian.status.Watching? && s.channel != [] then
        Some(s.(channel := s.channel[1..], guardian := Note(s.guardian, s.channel[0])))
      else None
    case ReadEnd(luck) =>
      if s.guardian.status.Watching? && s.channel == [] && s.broker.pc.Exited? then
        Some(EndOfChannel(w, s, luck))
      else None
    case _ => BrokerStep(w, s, a)
  }

  function Initial(duty: Duty, config: Config): System {
    System(map[], [], Broker(1, config, AtReceive, 0, 0), [],
           Guardian(duty, 1, map[], [], 0, None, None, Watching))
  }

  /** The system after a run of actions; none when some action was not enabled. */
  function Run(w: World, s: System, run: seq<Action>): Option<System>
    decreases |run|
  {
    if run == [] then Some(s)
    else
      var next := Step(w, s, run[0]);
      if next.None? then None else Run(w, next.value, run[1..])
  }

  // ---------------------------------------------------------------- the invariant

  predicate Unsent(sends: seq<Send>, id: nat) {
    forall i :: 0 <= i < |sends| ==> sends[i].id != id
  }

  predicate SentOnce(sends: seq<Send>) {
    forall i, j :: 0 <= i < j < |sends| ==> sends[i].id != sends[j].id
  }

  /** The effects of the answers a broker gave. */
  function BrokerAnswers(sends: seq<Send>): seq<Effect> {
    if sends == [] then []
    else
      var last := sends[|sends| - 1];
      BrokerAnswers(sends[..|sends| - 1]) + if last.byGuardian || !last.accepted then [] else [last.effect]
  }

  function Effects(decisions: seq<Message>): seq<Effect>
    requires forall m :: m in decisions ==> m.Decision?
  {
    seq(|decisions|, i requires 0 <= i < |decisions| => decisions[i].effect)
  }

  predicate KernelAgrees(s: System) {
    && SentOnce(s.sends)
    && (forall i :: 0 <= i < |s.sends| ==>
          s.sends[i].id in s.kernel
          && s.kernel[s.sends[i].id] == if s.sends[i].accepted then Answered(s.sends[i].effect) else Gone)
    && (forall id :: id in s.kernel && s.kernel[id].Answered? ==> !Unsent(s.sends, id))
  }

  predicate InScope(w: World, s: System) {
    && (forall i :: 0 <= i < |s.sends| ==> w.Targets(s.sends[i].id) ==> s.sends[i].effect == DENY)
    && (s.broker.pc.Classified? || s.broker.pc.Leased? || s.broker.pc.Responding? ==>
          && (w.Targets(s.broker.pc.id) ==> s.broker.pc.effect == DENY)
          && (s.broker.pc.target <==> s.broker.pc.effect == DENY))
    && (s.broker.pc.Responded? ==> (s.broker.pc.target <==> s.broker.pc.effect == DENY))
  }

  predicate HeldAgrees(s: System, g: Guardian) {
    && (Held(s.broker.pc).Some? ==>
          var id := Held(s.broker.pc).value;
          id in s.kernel && (s.kernel[id] == Received || s.kernel[id] == Gone) && Unsent(s.sends, id))
    && (forall id :: id in s.kernel && s.kernel[id] == Received ==>
          || Held(s.broker.pc) == Some(id)
          || (g.recovery == Some(UNRESOLVED) && g.crashReport == Some(id)))
  }

  /** The guardian still watches, or the broker still runs. */
  predicate Active(s: System) {
    s.guardian.status.Watching? || !s.broker.pc.Exited?
  }

  predicate Tracks(s: System) {
    s.broker.config.leaseReporting && s.guardian.duty.RecoverLease?
  }

  /** What the leases will be once the guardian has read everything. `g` is the drained guardian. */
  predicate LeasesAgree(w: World, s: System, g: Guardian) {
    var pc := s.broker.pc;
    && (forall id :: id in g.leases ==> id in s.kernel && s.kernel[id] != Pending && g.leases[id] == w.tid(id))
    && (!Tracks(s) ==> g.leases == map[])
    && (pc.Checking? || pc.Classifying? || pc.Classified? ==> pc.id !in g.leases)
    && (pc.Leased? || pc.CrashReported? || pc.Responding? ==> (pc.id in g.leases <==> Tracks(s)))
    && (pc.CrashReported? && g.duty.RecoverLease? ==> g.crashReport == Some(pc.id))
  }

  predicate ExitAgrees(s: System, g: Guardian) {
    var pc := s.broker.pc;
    && (pc.Exited? && pc.code == EXIT_STOP ==> pc.held.None? && pc.unreported == [])
    && (pc.Exited? && pc.code == EXIT_BEFORE_SEND && s.guardian.status.Watching? ==>
          && pc.held.Some? && pc.unreported == []
          && (pc.held.value in g.leases <==> Tracks(s))
          && (g.duty.RecoverLease? ==> g.crashReport == pc.held))
    && (pc.Exited? && pc.code == EXIT_BEFORE_LEASE ==>
          pc.held.Some? && pc.held.value !in g.leases && pc.unreported == [])
  }

  predicate GenerationsAgree(s: System) {
    && 1 <= s.guardian.generation <= 2
    && (Active(s) ==> s.broker.generation == s.guardian.generation)
    && (s.guardian.generation == 1 ==> s.guardian.recovery.None?)
    && (s.guardian.recovery.Some? && s.broker.generation == 1 ==>
          s.broker.pc.Exited? && s.broker.pc.code == EXIT_BEFORE_SEND)
    && (s.broker.generation == 2 ==>
          && s.broker.config.crashAfter.None? && s.broker.config.crashBeforeSend.None?
          && s.broker.config.crashBeforeLease.None?
          && !s.broker.pc.CrashReported? && !s.broker.pc.StopReported?
          && (s.broker.pc.Exited? ==> s.broker.pc.code == EXIT_ERROR || s.broker.pc.code == EXIT_KILLED))
  }

  predicate ReportsAgree(s: System, g: Guardian) {
    && (forall m :: m in g.decisions ==> m.Decision? && (m.target <==> m.effect == DENY))
    && Effects(g.decisions) + Unreported(s.broker.pc) == BrokerAnswers(s.sends)
  }

  predicate KernelSide(w: World, s: System, g: Guardian) {
    KernelAgrees(s) && InScope(w, s) && GenerationsAgree(s) && ReportsAgree(s, g)
  }

  predicate LeaseSide(w: World, s: System, g: Guardian) {
    HeldAgrees(s, g) && LeasesAgree(w, s, g) && ExitAgrees(s, g)
  }

  predicate Agrees(w: World, s: System, g: Guardian) {
    KernelSide(w, s, g) && LeaseSide(w, s, g)
  }

  /** The inductive invariant, stated about the guardian that has read all its reports. */
  predicate Invariant(w: World, s: System) {
    Agrees(w, s, Drain(s.guardian, s.channel))
  }

  // ---------------------------------------------------------------- proof

  lemma {:induction false} DrainAppend(g: Guardian, channel: seq<Message>, m: Message)
    ensures Drain(g, channel + [m]) == Note(Drain(g, channel), m)
    decreases |channel|
  {
    if channel == [] {
      assert [] + [m] == [m];
    } else {
      assert (channel + [m])[1..] == channel[1..] + [m];
      DrainAppend(Note(g, channel[0]), channel[1..], m);
    }
  }

  lemma {:induction false} DrainKeeps(g: Guardian, channel: seq<Message>)
    ensures var d := Drain(g, channel);
            d.duty == g.duty && d.generation == g.generation && d.recovery == g.recovery && d.status == g.status
    decreases |channel|
  {
    if channel != [] {
      DrainKeeps(Note(g, channel[0]), channel[1..]);
    }
  }

  lemma AnswersAppend(sends: seq<Send>, x: Send)
    ensures BrokerAnswers(sends + [x]) ==
            BrokerAnswers(sends) + if x.byGuardian || !x.accepted then [] else [x.effect]
  {
    assert (sends + [x])[..|sends|] == sends;
  }

  lemma InvariantInit(w: World, duty: Duty, config: Config)
    ensures Invariant(w, Initial(duty, config))
  {
  }

  // One lemma per kind of step, and for most of them one for each half of the invariant: kernel, scope,
  // generations and reports on one side, holdings, leases and exits on the other. Most bodies are empty;
  // the split keeps each proof obligation small.

  lemma KernelStepKeeps(w: World, s: System, g: Guardian, a: Action)
    requires Agrees(w, s, g) && (a.Arrive? || a.Die?) && Step(w, s, a).Some?
    ensures Agrees(w, Step(w, s, a).value, g)
  {
  }

  lemma KillKeeps(w: World, s: System, g: Guardian)
    requires Agrees(w, s, g) && g.duty == s.guardian.duty && !s.broker.pc.Exited?
    ensures Agrees(w, Step(w, s, Kill).value, g)
  {
  }

  /** The drained guardian after a step that left the channel alone or added one report to its end. */
  function NoteNew(g: Guardian, s: System, s': System): Guardian {
    if |s'.channel| == |s.channel| + 1 then Note(g, s'.channel[|s.channel|]) else g
  }

  ghost predicate Keeps(w: World, s: System, g: Guardian, a: Action)
    requires BrokerStep(w, s, a).Some?
  {
    var s' := BrokerStep(w, s, a).value;
    && s'.guardian == s.guardian
    && (s'.channel == s.channel || exists m :: s'.channel == s.channel + [m])
    && Agrees(w, s', NoteNew(g, s, s'))
  }

  ghost predicate GivenStep(w: World, s: System, g: Guardian, a: Action) {
    Agrees(w, s, g) && g.duty == s.guardian.duty && g.recovery == s.guardian.recovery && BrokerStep(w, s, a).Some?
  }

  lemma ReceiveKeeps(w: World, s: System, g: Guardian, id: nat)
    requires GivenStep(w, s, g, Receive(id))
    ensures Keeps(w, s, g, Receive(id))
  {
  }

  lemma CheckIdKeepsKernel(w: World, s: System, g: Guardian)
    requires GivenStep(w, s, g, CheckId)
    ensures KernelSide(w, BrokerStep(w, s, CheckId).value, NoteNew(g, s, BrokerStep(w, s, CheckId).value))
  {
  }

  lemma CheckIdKeepsLeases(w: World, s: System, g: Guardian)
    requires GivenStep(w, s, g, CheckId)
    ensures LeaseSide(w, BrokerStep(w, s, CheckId).value, NoteNew(g, s, BrokerStep(w, s, CheckId).value))
  {
  }

  lemma CheckIdKeeps(w: World, s: System, g: Guardian)
    requires GivenStep(w, s, g, CheckId)
    ensures Keeps(w, s, g, CheckId)
  {
    CheckIdKeepsKernel(w, s, g);
    CheckIdKeepsLeases(w, s, g);
  }

  lemma ClassifyIdKeeps(w: World, s: System, g: Guardian, look: Look)
    requires GivenStep(w, s, g, ClassifyId(look))
    ensures Keeps(w, s, g, ClassifyId(look))
  {
  }

  lemma PublishLeaseKeepsKernel(w: World, s: System, g: Guardian)
    requires GivenStep(w, s, g, PublishLease)
    ensures KernelSide(w, BrokerStep(w, s, PublishLease).value, NoteNew(g, s, BrokerStep(w, s, PublishLease).value))
  {
  }

  lemma PublishLeaseKeepsLeases(w: World, s: System, g: Guardian)
    requires GivenStep(w, s, g, PublishLease)
    ensures LeaseSide(w, BrokerStep(w, s, PublishLease).value, NoteNew(g, s, BrokerStep(w, s, PublishLease).value))
  {
  }

  lemma PublishLeaseKeeps(w: World, s: System, g: Guardian)
    requires GivenStep(w, s, g, PublishLease)
    ensures Keeps(w, s, g, PublishLease)
  {
    PublishLeaseKeepsKernel(w, s, g);
    PublishLeaseKeepsLeases(w, s, g);
  }

  lemma CrashOrRecheckKeepsKernel(w: World, s: System, g: Guardian)
    requires GivenStep(w, s, g, CrashOrRecheck)
    ensures KernelSide(w, BrokerStep(w, s, CrashOrRecheck).value, NoteNew(g, s, BrokerStep(w, s, CrashOrRecheck).value))
  {
  }

  lemma CrashOrRecheckKeepsLeases(w: World, s: System, g: Guardian)
    requires GivenStep(w, s, g, CrashOrRecheck)
    ensures LeaseSide(w, BrokerStep(w, s, CrashOrRecheck).value, NoteNew(g, s, BrokerStep(w, s, CrashOrRecheck).value))
  {
  }

  lemma CrashOrRecheckKeeps(w: World, s: System, g: Guardian)
    requires GivenStep(w, s, g, CrashOrRecheck)
    ensures Keeps(w, s, g, CrashOrRecheck)
  {
    CrashOrRecheckKeepsKernel(w, s, g);
    CrashOrRecheckKeepsLeases(w, s, g);
  }

  lemma KernelSendAnswers(s: System, id: nat, effect: Effect, byGuardian: bool)
    ensures BrokerAnswers(KernelSend(s, id, effect, byGuardian).sends) ==
            BrokerAnswers(s.sends) + if byGuardian || !Alive(s.kernel, id) then [] else [effect]
  {
    AnswersAppend(s.sends, Send(id, effect, byGuardian, Alive(s.kernel, id)));
  }

  lemma KernelSendUnsent(s: System, id: nat, effect: Effect, byGuardian: bool, k: nat)
    ensures Unsent(KernelSend(s, id, effect, byGuardian).sends, k) <==> k != id && Unsent(s.sends, k)
  {
    var sends := KernelSend(s, id, effect, byGuardian).sends;
    assert sends[|s.sends|].id == id;
    assert forall i :: 0 <= i < |s.sends| ==> sends[i] == s.sends[i];
  }

  lemma KernelSendKeeps(s: System, id: nat, effect: Effect, byGuardian: bool)
    requires KernelAgrees(s) && Unsent(s.sends, id)
    requires id in s.kernel && (s.kernel[id] == Received || s.kernel[id] == Gone)
    ensures KernelAgrees(KernelSend(s, id, effect, byGuardian))
  {
    var s' := KernelSend(s, id, effect, byGuardian);
    forall k | k in s'.kernel && s'.kernel[k].Answered? ensures !Unsent(s'.sends, k) {
      KernelSendUnsent(s, id, effect, byGuardian, k);
    }
  }

  lemma AnswerKeepsSends(w: World, s: System, g: Guardian)
    requires GivenStep(w, s, g, Answer)
    ensures KernelAgrees(BrokerStep(w, s, Answer).value)
  {
    KernelSendKeeps(s, s.broker.pc.id, s.broker.pc.effect, false);
  }

  lemma AnswerKeepsScope(w: World, s: System)
    requires InScope(w, s) && GenerationsAgree(s) && BrokerStep(w, s, Answer).Some?
    ensures InScope(w, BrokerStep(w, s, Answer).value) && GenerationsAgree(BrokerStep(w, s, Answer).value)
  {
  }

  lemma AnswerKeepsReports(w: World, s: System, g: Guardian)
    requires ReportsAgree(s, g) && BrokerStep(w, s, Answer).Some?
    ensures ReportsAgree(BrokerStep(w, s, Answer).value, g)
  {
    KernelSendAnswers(s, s.broker.pc.id, s.broker.pc.effect, false);
  }

  lemma AnswerKeepsKernel(w: World, s: System, g: Guardian)
    requires GivenStep(w, s, g, Answer)
    ensures KernelSide(w, BrokerStep(w, s, Answer).value, NoteNew(g, s, BrokerStep(w, s, Answer).value))
  {
    AnswerKeepsSends(w, s, g);
    AnswerKeepsScope(w, s);
    AnswerKeepsReports(w, s, g);
  }

  lemma AnswerKeepsLeases(w: World, s: System, g: Guardian)
    requires GivenStep(w, s, g, Answer)
    ensures LeaseSide(w, BrokerStep(w, s, Answer).value, NoteNew(g, s, BrokerStep(w, s, Answer).value))
  {
  }

  lemma AnswerKeeps(w: World, s: System, g: Guardian)
    requires GivenStep(w, s, g, Answer)
    ensures Keeps(w, s, g, Answer)
  {
    AnswerKeepsKernel(w, s, g);
    AnswerKeepsLeases(w, s, g);
  }

  lemma ReportKeepsKernel(w: World, s: System, g: Guardian)
    requires KernelSide(w, s, g) && s.broker.pc.Responded?
    ensures KernelSide(w, BrokerStep(w, s, Report).value, NoteNew(g, s, BrokerStep(w, s, Report).value))
  {
  }

  lemma ReportKeepsLeases(w: World, s: System, g: Guardian)
    requires GivenStep(w, s, g, Report)
    ensures LeaseSide(w, BrokerStep(w, s, Report).value, NoteNew(g, s, BrokerStep(w, s, Report).value))
  {
  }

  lemma ReportKeeps(w: World, s: System, g: Guardian)
    requires GivenStep(w, s, g, Report)
    ensures Keeps(w, s, g, Report)
  {
    ReportKeepsKernel(w, s, g);
    ReportKeepsLeases(w, s, g);
  }

  lemma StopOrLoopShape(w: World, s: System, g: Guardian)
    requires s.broker.pc.Reported?
    ensures var s' := BrokerStep(w, s, StopOrLoop).value;
            && NoteNew(g, s, s') == g && s'.kernel == s.kernel && s'.sends == s.sends && s'.guardian == s.guardian
            && (s'.broker == s.broker.(pc := AtReceive)
                || (s'.broker == s.broker.(pc := StopReported) && s.broker.config.crashAfter.Some?))
  {
  }

  lemma NothingAtHandKeepsKernel(w: World, s: System, s': System, g: Guardian)
    requires KernelSide(w, s, g) && s.broker.pc.Reported?
    requires s'.kernel == s.kernel && s'.sends == s.sends && s'.guardian == s.guardian
    requires s'.broker == s.broker.(pc := AtReceive)
             || (s'.broker == s.broker.(pc := StopReported) && s.broker.config.crashAfter.Some?)
    ensures KernelSide(w, s', g)
  {
  }

  lemma StopOrLoopKeepsKernel(w: World, s: System, g: Guardian)
    requires KernelSide(w, s, g) && s.broker.pc.Reported?
    ensures KernelSide(w, BrokerStep(w, s, StopOrLoop).value, NoteNew(g, s, BrokerStep(w, s, StopOrLoop).value))
  {
    StopOrLoopShape(w, s, g);
    NothingAtHandKeepsKernel(w, s, BrokerStep(w, s, StopOrLoop).value, g);
  }

  lemma StopOrLoopKeepsLeases(w: World, s: System, g: Guardian)
    requires GivenStep(w, s, g, StopOrLoop)
    ensures LeaseSide(w, BrokerStep(w, s, StopOrLoop).value, NoteNew(g, s, BrokerStep(w, s, StopOrLoop).value))
  {
  }

  lemma StopOrLoopKeeps(w: World, s: System, g: Guardian)
    requires GivenStep(w, s, g, StopOrLoop)
    ensures Keeps(w, s, g, StopOrLoop)
  {
    StopOrLoopKeepsKernel(w, s, g);
    StopOrLoopKeepsLeases(w, s, g);
  }

  lemma ExitKeepsKernel(w: World, s: System, g: Guardian)
    requires GivenStep(w, s, g, Exit)
    ensures KernelSide(w, BrokerStep(w, s, Exit).value, NoteNew(g, s, BrokerStep(w, s, Exit).value))
  {
  }

  lemma ExitKeepsLeases(w: World, s: System, g: Guardian)
    requires GivenStep(w, s, g, Exit)
    ensures LeaseSide(w, BrokerStep(w, s, Exit).value, NoteNew(g, s, BrokerStep(w, s, Exit).value))
  {
  }

  lemma ExitKeeps(w: World, s: System, g: Guardian)
    requires GivenStep(w, s, g, Exit)
    ensures Keeps(w, s, g, Exit)
  {
    ExitKeepsKernel(w, s, g);
    ExitKeepsLeases(w, s, g);
  }

  /** A system that differs in what its guardian has noted and not yet read only. */
  predicate SameButRead(s: System, s': System) {
    && s'.kernel == s.kernel && s'.sends == s.sends && s'.broker == s.broker
    && s'.guardian.duty == s.guardian.duty && s'.guardian.generation == s.guardian.generation
    && s'.guardian.recovery == s.guardian.recovery && s'.guardian.status == s.guardian.status
  }

  lemma SameKernelSide(w: World, s: System, s': System, g: Guardian)
    requires SameButRead(s, s') && KernelSide(w, s, g)
    ensures KernelSide(w, s', g)
  {
  }

  lemma SameLeaseSide(w: World, s: System, s': System, g: Guardian)
    requires SameButRead(s, s') && LeaseSide(w, s, g)
    ensures LeaseSide(w, s', g)
  {
  }

  lemma ReadKeeps(w: World, s: System)
    requires Invariant(w, s) && Step(w, s, Read).Some?
    ensures Invariant(w, Step(w, s, Read).value)
  {
    var s' := Step(w, s, Read).value;
    assert Drain(s'.guardian, s'.channel) == Drain(s.guardian, s.channel);
    SameKernelSide(w, s, s', Drain(s.guardian, s.channel));
    SameLeaseSide(w, s, s', Drain(s.guardian, s.channel));
  }

  /** What answering the lease `id` may have changed. */
  ghost predicate OnlyAnswered(w: World, s: System, s1: System, id: nat, recovery: Option<Recovery>) {
    && KernelAgrees(s1)
    && (forall i :: 0 <= i < |s1.sends| ==> w.Targets(s1.sends[i].id) ==> s1.sends[i].effect == DENY)
    && BrokerAnswers(s1.sends) == BrokerAnswers(s.sends)
    && s1 == s.(kernel := s1.kernel, sends := s1.sends)
    && s.kernel.Keys == s1.kernel.Keys
    && (forall k :: k in s.kernel && s1.kernel[k] == Pending ==> s.kernel[k] == Pending)
    && (forall k :: k in s1.kernel && s1.kernel[k] == Received ==> k == id && recovery == Some(UNRESOLVED))
  }

  /** The guardian can recover: generation 1 crashed before its answer and left a lease. */
  ghost predicate Recoverable(w: World, s: System) {
    && Agrees(w, s, s.guardian) && s.broker.pc.Exited? && s.broker.pc.code == EXIT_BEFORE_SEND
    && s.guardian.status.Watching? && s.guardian.duty.RecoverLease? && s.guardian.crashReport.Some?
    && s.guardian.crashReport.value in s.guardian.leases && s.guardian.generation == 1
  }

  lemma VanishKeeps(s: System, id: nat)
    requires KernelAgrees(s)
    ensures KernelAgrees(s.(kernel := Vanish(s.kernel, id)))
  {
  }

  predicate SendsInScope(w: World, sends: seq<Send>) {
    forall i :: 0 <= i < |sends| ==> w.Targets(sends[i].id) ==> sends[i].effect == DENY
  }

  /** What the leased notification is when the guardian recovers it. */
  ghost predicate LeaseReady(w: World, s: System, id: nat) {
    && KernelAgrees(s) && SendsInScope(w, s.sends) && Unsent(s.sends, id)
    && id in s.kernel && (s.kernel[id] == Received || s.kernel[id] == Gone)
    && (forall k :: k in s.kernel && s.kernel[k] == Received ==> k == id)
    && id in s.guardian.leases && s.guardian.leases[id] == w.tid(id)
  }

  lemma RecoverableIsReady(w: World, s: System, id: nat)
    requires Recoverable(w, s) && s.guardian.crashReport == Some(id)
    ensures LeaseReady(w, s, id)
  {
  }

  lemma AnswerLease(w: World, s: System, s1: System, id: nat, effect: Effect)
    requires LeaseReady(w, s, id) && effect == (if w.Targets(id) then DENY else ALLOW)
    requires s1 == s || s1 == s.(kernel := Vanish(s.kernel, id))
    ensures OnlyAnswered(w, s, KernelSend(s1, id, effect, true), id, None)
  {
    VanishKeeps(s, id);
    KernelSendKeeps(s1, id, effect, true);
    KernelSendAnswers(s1, id, effect, true);
  }

  lemma RespondKeeps(w: World, s: System, id: nat, luck: Luck)
    requires LeaseReady(w, s, id)
    ensures var (s1, recovery) := RespondToLease(w, s, id, s.guardian.leases[id], luck);
            OnlyAnswered(w, s, s1, id, recovery)
  {
    if Alive(s.kernel, id) && luck.readable {
      var s1 := if luck.vanishes then s.(kernel := Vanish(s.kernel, id)) else s;
      AnswerLease(w, s, s1, id, if w.tgid(s.guardian.leases[id]) == w.targetPid then DENY else ALLOW);
    }
  }

  lemma FailKeeps(w: World, s: System)
    requires Agrees(w, s, s.guardian) && s.broker.pc.Exited?
    ensures Agrees(w, Fail(s), Fail(s).guardian)
  {
  }

  /** The state in which a replacement may be started: the old generation is dead, everything is
      read, and what is still unanswered is an unresolved leased notification. */
  predicate Replaceable(w: World, s: System) {
    && KernelAgrees(s)
    && (forall i :: 0 <= i < |s.sends| ==> w.Targets(s.sends[i].id) ==> s.sends[i].effect == DENY)
    && s.broker.pc.Exited? && s.broker.pc.code != EXIT_BEFORE_LEASE
    && (s.guardian.recovery.Some? ==> s.broker.pc.code == EXIT_BEFORE_SEND)
    && s.guardian.generation == 1 && s.guardian.status.Watching?
    && (forall id :: id in s.guardian.leases ==>
          id in s.kernel && s.kernel[id] != Pending && s.guardian.leases[id] == w.tid(id))
    && (!Tracks(s) ==> s.guardian.leases == map[])
    && (forall id :: id in s.kernel && s.kernel[id] == Received ==>
          s.guardian.recovery == Some(UNRESOLVED) && s.guardian.crashReport == Some(id))
    && (forall m :: m in s.guardian.decisions ==> m.Decision? && (m.target <==> m.effect == DENY))
    && Effects(s.guardian.decisions) == BrokerAnswers(s.sends)
  }

  lemma ReplaceKeeps(w: World, s: System, starts: bool)
    requires Replaceable(w, s) && s.broker.generation == 1
    ensures Agrees(w, Replace(s, starts), Replace(s, starts).guardian)
  {
  }

  lemma EndKeeps(w: World, s: System, luck: Luck)
    requires Agrees(w, s, s.guardian)
    requires s.channel == [] && s.broker.pc.Exited? && s.guardian.status.Watching?
    ensures Agrees(w, EndOfChannel(w, s, luck), EndOfChannel(w, s, luck).guardian)
    ensures EndOfChannel(w, s, luck).channel == []
  {
    var g := s.guardian;
    if g.duty.ReplaceOnly? {
      if s.broker.pc.code != EXIT_STOP || g.generation != 1 {
        FailKeeps(w, s);
      } else {
        ReplaceKeeps(w, s, luck.starts);
      }
    } else if s.broker.pc.code != EXIT_BEFORE_SEND || g.generation != 1 || g.crashReport.None?
              || g.crashReport.value !in g.leases {
      FailKeeps(w, s);
    } else {
      RecoverKeeps(w, s, g.crashReport.value, luck);
    }
  }

  lemma AbandonKeepsKernel(w: World, s: System, s1: System, id: nat)
    requires Recoverable(w, s) && OnlyAnswered(w, s, s1, id, None)
    ensures KernelAgrees(AfterRecovery(s1, None, true)) && InScope(w, AfterRecovery(s1, None, true))
  {
  }

  lemma AbandonKeepsReports(s: System, s1: System)
    requires GenerationsAgree(s) && ReportsAgree(s, s.guardian) && s.broker.pc.Exited? && Unreported(s.broker.pc) == []
    requires s1 == s.(kernel := s1.kernel, sends := s1.sends) && BrokerAnswers(s1.sends) == BrokerAnswers(s.sends)
    ensures var s' := AfterRecovery(s1, None, true); GenerationsAgree(s') && ReportsAgree(s', s'.guardian)
  {
  }

  lemma AbandonKeepsLeases(w: World, s: System, s1: System)
    requires LeasesAgree(w, s, s.guardian) && s.broker.pc.Exited? && s.broker.pc.code == EXIT_BEFORE_SEND
    requires s1 == s.(kernel := s1.kernel, sends := s1.sends) && s.kernel.Keys == s1.kernel.Keys
    requires forall k :: k in s1.kernel ==> s1.kernel[k] != Received && (s1.kernel[k] == Pending ==> s.kernel[k] == Pending)
    ensures LeaseSide(w, AfterRecovery(s1, None, true), AfterRecovery(s1, None, true).guardian)
  {
  }

  lemma AbandonKeeps(w: World, s: System, s1: System, id: nat)
    requires Recoverable(w, s) && OnlyAnswered(w, s, s1, id, None)
    ensures Agrees(w, AfterRecovery(s1, None, true), AfterRecovery(s1, None, true).guardian)
  {
    AbandonKeepsKernel(w, s, s1, id);
    AbandonKeepsReports(s, s1);
    AbandonKeepsLeases(w, s, s1);
  }

  lemma ResumeReady(w: World, s: System, s1: System, id: nat, recovery: Option<Recovery>)
    requires Recoverable(w, s) && OnlyAnswered(w, s, s1, id, recovery)
    requires s.guardian.crashReport == Some(id) && recovery.Some?
    ensures Replaceable(w, s1.(guardian := s.guardian.(recovery := recovery))) && s1.broker.generation == 1
  {
  }

  lemma ResumeKeeps(w: World, s: System, s1: System, id: nat, recovery: Option<Recovery>, starts: bool)
    requires Recoverable(w, s) && OnlyAnswered(w, s, s1, id, recovery)
    requires s.guardian.crashReport == Some(id) && recovery.Some?
    ensures Agrees(w, AfterRecovery(s1, recovery, starts), AfterRecovery(s1, recovery, starts).guardian)
  {
    ResumeReady(w, s, s1, id, recovery);
    ReplaceKeeps(w, s1.(guardian := s.guardian.(recovery := recovery)), starts);
  }

  lemma RecoverKeeps(w: World, s: System, id: nat, luck: Luck)
    requires Recoverable(w, s) && s.guardian.crashReport == Some(id) && s.channel == []
    ensures Agrees(w, EndOfChannel(w, s, luck), EndOfChannel(w, s, luck).guardian)
  {
    var (s1, recovery) := RespondToLease(w, s, id, s.guardian.leases[id], luck);
    RecoverableIsReady(w, s, id);
    RespondKeeps(w, s, id, luck);
    if recovery.Some? {
      ResumeKeeps(w, s, s1, id, recovery, luck.starts);
    } else {
      AbandonKeeps(w, s, s1, id);
    }
  }

  lemma BrokerStepKeeps(w: World, s: System, g: Guardian, a: Action)
    requires GivenStep(w, s, g, a)
    ensures Keeps(w, s, g, a)
  {
    match a
    case Receive(id) => ReceiveKeeps(w, s, g, id);
    case CheckId => CheckIdKeeps(w, s, g);
    case ClassifyId(look) => ClassifyIdKeeps(w, s, g, look);
    case PublishLease => PublishLeaseKeeps(w, s, g);
    case CrashOrRecheck => CrashOrRecheckKeeps(w, s, g);
    case Answer => AnswerKeeps(w, s, g);
    case Report => ReportKeeps(w, s, g);
    case StopOrLoop => StopOrLoopKeeps(w, s, g);
    case Exit => ExitKeeps(w, s, g);
  }

  lemma PostedIsDrained(w: World, s: System, g: Guardian, a: Action)
    requires g == Drain(s.guardian, s.channel) && BrokerStep(w, s, a).Some? && Keeps(w, s, g, a)
    ensures Invariant(w, BrokerStep(w, s, a).value)
  {
    var s' := BrokerStep(w, s, a).value;
    if s'.channel != s.channel {
      var m :| s'.channel == s.channel + [m];
      DrainAppend(s.guardian, s.channel, m);
      assert NoteNew(g, s, s') == Note(g, m);
    }
  }

  lemma InvariantStep(w: World, s: System, a: Action)
    requires Invariant(w, s) && Step(w, s, a).Some?
    ensures Invariant(w, Step(w, s, a).value)
  {
    var g := Drain(s.guardian, s.channel);
    DrainKeeps(s.guardian, s.channel);
    match a
    case Arrive(_) => KernelStepKeeps(w, s, g, a);
    case Die(_) => KernelStepKeeps(w, s, g, a);
    case Kill => KillKeeps(w, s, g);
    case Read => ReadKeeps(w, s);
    case ReadEnd(luck) => EndKeeps(w, s, luck);
    case _ =>
      BrokerStepKeeps(w, s, g, a);
      PostedIsDrained(w, s, g, a);
  }

  // ---------------------------------------------------------------- the guardian's tally

  function CountOf(effects: seq<Effect>, e: Effect): nat {
    if effects == [] then 0
    else CountOf(effects[..|effects| - 1], e) + if effects[|effects| - 1] == e then 1 else 0
  }

  /** `target_denied` and `outsider_allowed`: reported decisions plus the guardian's own answer. */
  function Tally(g: Guardian, e: Effect): nat {
    TallyOf(g.decisions, e) + if g.recovery == Some(Resolved(e)) then 1 else 0
  }

  function TallyOf(decisions: seq<Message>, e: Effect): nat {
    if decisions == [] then 0
    else
      var last := decisions[|decisions| - 1];
      TallyOf(decisions[..|decisions| - 1], e) +
      if last.Decision? && last.target == (e == DENY) && last.effect == e then 1 else 0
  }

  /** How many notifications the kernel has answered with `e`, for all senders or the guardian alone. */
  function AnswersWith(sends: seq<Send>, e: Effect, guardianOnly: bool): nat {
    if sends == [] then 0
    else
      var last := sends[|sends| - 1];
      AnswersWith(sends[..|sends| - 1], e, guardianOnly) +
      if last.accepted && last.effect == e && (guardianOnly ==> last.byGuardian) then 1 else 0
  }

  predicate RecoveryAgrees(s: System) {
    forall e :: AnswersWith(s.sends, e, true) == if s.guardian.recovery == Some(Resolved(e)) then 1 else 0
  }

  lemma {:induction false} AnswersSplit(sends: seq<Send>, e: Effect)
    ensures AnswersWith(sends, e, false) == CountOf(BrokerAnswers(sends), e) + AnswersWith(sends, e, true)
  {
    if sends != [] {
      var init, last := sends[..|sends| - 1], sends[|sends| - 1];
      AnswersSplit(init, e);
      if !last.byGuardian && last.accepted {
        assert BrokerAnswers(sends)[..|BrokerAnswers(init)|] == BrokerAnswers(init);
      } else {
        assert BrokerAnswers(sends) == BrokerAnswers(init);
      }
    }
  }

  lemma {:induction false} TallyIsCount(decisions: seq<Message>, e: Effect)
    requires forall m :: m in decisions ==> m.Decision? && (m.target <==> m.effect == DENY)
    ensures TallyOf(decisions, e) == CountOf(Effects(decisions), e)
  {
    if decisions != [] {
      TallyIsCount(decisions[..|decisions| - 1], e);
      assert Effects(decisions)[..|decisions| - 1] == Effects(decisions[..|decisions| - 1]);
    }
  }

  lemma {:induction false} CountAppend(a: seq<Effect>, b: seq<Effect>, e: Effect)
    ensures CountOf(a + b, e) == CountOf(a, e) + CountOf(b, e)
  {
    if b == [] {
      assert a + b == a;
    } else {
      CountAppend(a, b[..|b| - 1], e);
      assert (a + b)[..|a + b| - 1] == a + b[..|b| - 1];
    }
  }

  lemma {:induction false} DrainTallies(g: Guardian, channel: seq<Message>, e: Effect)
    ensures TallyOf(g.decisions, e) <= TallyOf(Drain(g, channel).decisions, e)
    decreases |channel|
  {
    if channel != [] {
      var g' := Note(g, channel[0]);
      if channel[0].Decision? {
        assert g'.decisions[..|g.decisions|] == g.decisions;
      }
      DrainTallies(g', channel[1..], e);
    }
  }

  lemma AnswersWithAppend(sends: seq<Send>, x: Send, e: Effect)
    ensures AnswersWith(sends + [x], e, true) ==
            AnswersWith(sends, e, true) + if x.accepted && x.effect == e && x.byGuardian then 1 else 0
  {
    assert (sends + [x])[..|sends|] == sends;
  }

  lemma RecoveryAnswer(w: World, s: System)
    requires RecoveryAgrees(s) && Step(w, s, Answer).Some?
    ensures RecoveryAgrees(Step(w, s, Answer).value)
  {
    var pc := s.broker.pc;
    forall e {
      AnswersWithAppend(s.sends, Send(pc.id, pc.effect, false, Alive(s.kernel, pc.id)), e);
    }
  }

  lemma RecoveryLease(w: World, s: System, id: nat, luck: Luck)
    requires RecoveryAgrees(s) && s.guardian.recovery.None? && s.broker.pc.Exited? && id in s.guardian.leases
    ensures var (s1, recovery) := RespondToLease(w, s, id, s.guardian.leases[id], luck);
            s1.guardian == s.guardian && RecoveryAgrees(AfterRecovery(s1, recovery, luck.starts))
  {
    var s0 := if luck.vanishes then s.(kernel := Vanish(s.kernel, id)) else s;
    var effect := if w.tgid(s.guardian.leases[id]) == w.targetPid then DENY else ALLOW;
    forall e {
      AnswersWithAppend(s.sends, Send(id, effect, true, Alive(s0.kernel, id)), e);
    }
  }

  lemma RecoveryEnd(w: World, s: System, luck: Luck)
    requires RecoveryAgrees(s) && GenerationsAgree(s) && Step(w, s, ReadEnd(luck)).Some?
    ensures RecoveryAgrees(Step(w, s, ReadEnd(luck)).value)
  {
    var g := s.guardian;
    if g.crashReport.Some? && g.crashReport.value in g.leases && g.generation == 1 {
      RecoveryLease(w, s, g.crashReport.value, luck);
    }
  }

  lemma NothingSent(w: World, s: System, a: Action)
    requires !a.Answer? && !a.ReadEnd? && Step(w, s, a).Some?
    ensures Step(w, s, a).value.sends == s.sends && Step(w, s, a).value.guardian.recovery == s.guardian.recovery
  {
  }

  lemma RecoveryStep(w: World, s: System, a: Action)
    requires RecoveryAgrees(s) && GenerationsAgree(s) && Step(w, s, a).Some?
    ensures RecoveryAgrees(Step(w, s, a).value)
  {
    if a.Answer? {
      RecoveryAnswer(w, s);
    } else if a.ReadEnd? {
      RecoveryEnd(w, s, a.luck);
    } else {
      NothingSent(w, s, a);
    }
  }

  // ---------------------------------------------------------------- theorems about every run

  /** The states that a run from the start can reach. */
  ghost predicate Reachable(w: World, duty: Duty, config: Config, s: System) {
    exists run :: Run(w, Initial(duty, config), run) == Some(s)
  }

  ghost predicate Sound(w: World, duty: Duty, config: Config, s: System) {
    && Invariant(w, s)
    && RecoveryAgrees(s)
    && Configured(duty, config, s)
  }

  predicate Configured(duty: Duty, config: Config, s: System) {
    && s.guardian.duty == duty
    && 1 <= s.broker.generation <= 2
    && (s.broker.generation == 1 ==> s.broker.config == config)
  }

  lemma ConfiguredStep(w: World, duty: Duty, config: Config, s: System, a: Action)
    requires Configured(duty, config, s) && GenerationsAgree(s) && Step(w, s, a).Some?
    ensures Configured(duty, config, Step(w, s, a).value)
  {
  }

  lemma InvariantGenerations(w: World, s: System)
    requires Invariant(w, s)
    ensures GenerationsAgree(s)
  {
  }

  lemma SoundStep(w: World, duty: Duty, config: Config, s: System, a: Action)
    requires Sound(w, duty, config, s) && Step(w, s, a).Some?
    ensures Sound(w, duty, config, Step(w, s, a).value)
  {
    InvariantGenerations(w, s);
    RecoveryStep(w, s, a);
    ConfiguredStep(w, duty, config, s, a);
    var s' := Step(w, s, a).value;
    assert Invariant(w, s') by { InvariantStep(w, s, a); }
  }

  lemma {:induction false} RunIsSound(w: World, duty: Duty, config: Config, s: System, run: seq<Action>)
    requires Sound(w, duty, config, s) && Run(w, s, run).Some?
    ensures Sound(w, duty, config, Run(w, s, run).value)
    decreases |run|
  {
    if run != [] {
      SoundStep(w, duty, config, s, run[0]);
      RunIsSound(w, duty, config, Step(w, s, run[0]).value, run[1..]);
    }
  }

  lemma ReachableIsSound(w: World, duty: Duty, config: Config, s: System)
    requires Reachable(w, duty, config, s)
    ensures Sound(w, duty, config, s)
  {
    var run :| Run(w, Initial(duty, config), run) == Some(s);
    InvariantInit(w, duty, config);
    RunIsSound(w, duty, config, Initial(duty, config), run);
  }

  /** No notification is ever sent two answers, by whatever sender and whether or not the first was
      accepted; and no notification of the target is sent or holds a continue. */
  lemma AnsweredOnceNeverContinued(w: World, duty: Duty, config: Config, s: System)
    requires Reachable(w, duty, config, s)
    ensures forall i, j :: 0 <= i < j < |s.sends| ==> s.sends[i].id != s.sends[j].id
    ensures forall i :: 0 <= i < |s.sends| && w.Targets(s.sends[i].id) ==> s.sends[i].effect == DENY
    ensures forall id :: id in s.kernel && s.kernel[id].Answered? && w.Targets(id) ==> s.kernel[id].effect == DENY
  {
    ReachableIsSound(w, duty, config, s);
  }

  /** The notification that a broker held when it died is unanswered, and no other one is in flight. */
  predicate OnlyInFlight(s: System, id: nat) {
    && id in s.kernel && (s.kernel[id] == Received || s.kernel[id] == Gone) && Unsent(s.sends, id)
    && forall k :: k in s.kernel && s.kernel[k] == Received ==> k == id
  }

  /** Exit 71: when the watching guardian reaches the end of the channel, its lease map holds the one
      notification in flight exactly when the generation was configured to report leases. */
  lemma LeaseCoversCrashBeforeSend(w: World, config: Config, s: System)
    requires Reachable(w, RecoverLease, config, s)
    requires s.broker.pc.Exited? && s.broker.pc.code == EXIT_BEFORE_SEND
    requires s.channel == [] && s.guardian.status.Watching?
    ensures s.guardian.crashReport.Some? && OnlyInFlight(s, s.guardian.crashReport.value)
    ensures var id := s.guardian.crashReport.value;
            (id in s.guardian.leases <==> config.leaseReporting)
            && (id in s.guardian.leases ==> s.guardian.leases[id] == w.tid(id))
  {
    ReachableIsSound(w, RecoverLease, config, s);
  }

  /** The guardian watches generation 2, which waits for its first notification. */
  predicate Replaced(s: System) {
    s.broker.generation == 2 && s.broker.pc.AtReceive? && s.channel == [] && s.guardian.status.Watching?
  }

  /** What follows exit 71, whatever the environment does: without leases the guardian gives up and touches
      nothing. With leases it answers exactly that notification by its true process, unless the
      notification died first (nothing to answer) or its thread cannot be read (nothing is answered, and a
      replacement starts all the same). So nothing stays in flight exactly if the thread had died, or
      leases were reported and the thread could be read. */
  lemma RecoveryAnswersTheLease(w: World, config: Config, s: System, luck: Luck)
    requires Reachable(w, RecoverLease, config, s)
    requires s.broker.pc.Exited? && s.broker.pc.code == EXIT_BEFORE_SEND
    requires s.channel == [] && s.guardian.status.Watching?
    ensures s.guardian.crashReport.Some? && s.guardian.crashReport.value in s.kernel
    ensures var id := s.guardian.crashReport.value;
            var s' := EndOfChannel(w, s, luck);
            && ((forall k :: k in s'.kernel ==> s'.kernel[k] != Received) <==>
                s.kernel[id] != Received || (config.leaseReporting && luck.readable))
            && s'.kernel == (if !config.leaseReporting || s.kernel[id] != Received || !luck.readable then s.kernel
                             else if luck.vanishes then s.kernel[id := Gone]
                             else s.kernel[id := Answered(if w.Targets(id) then DENY else ALLOW)])
    ensures var id := s.guardian.crashReport.value;
            var s' := EndOfChannel(w, s, luck);
            && (!config.leaseReporting ==> s'.guardian.status.Failed?)
            && (config.leaseReporting && s.kernel[id] == Received && luck.readable && luck.vanishes ==> s'.guardian.status.Failed?)
            && (config.leaseReporting && (s.kernel[id] != Received || !luck.readable || !luck.vanishes) ==>
                  s'.guardian.recovery == Some(if s.kernel[id] != Received then INVALID
                                               else if !luck.readable then UNRESOLVED
                                               else Resolved(if w.Targets(id) then DENY else ALLOW))
                  && if luck.starts then Replaced(s') else s'.guardian.status.Failed?)
  {
    ReachableIsSound(w, RecoverLease, config, s);
    var id := s.guardian.crashReport.value;
    var s' := EndOfChannel(w, s, luck);
    assert s'.kernel == (if !config.leaseReporting || s.kernel[id] != Received || !luck.readable then s.kernel
                         else if luck.vanishes then s.kernel[id := Gone]
                         else s.kernel[id := Answered(if w.Targets(id) then DENY else ALLOW)]);
    assert id in s'.kernel;
  }

  predicate NothingReceived(s: System) { forall k :: k in s.kernel ==> s.kernel[k] != Received }

  /** After every death of a broker, of whatever code and in either generation: nothing is in flight once the
      guardian has handled it exactly if nothing was, or the broker left by exit 71 with leases reported
      and the thread can be read. After any other death, also a kill that leaves a lease behind, the
      guardian gives up and touches nothing. */
  lemma NothingInFlightIff(w: World, config: Config, s: System, luck: Luck)
    requires Reachable(w, RecoverLease, config, s)
    requires s.broker.pc.Exited? && s.channel == [] && s.guardian.status.Watching?
    ensures NothingReceived(EndOfChannel(w, s, luck)) <==>
            NothingReceived(s) || (s.broker.pc.code == EXIT_BEFORE_SEND && config.leaseReporting && luck.readable)
    ensures s.broker.pc.code != EXIT_BEFORE_SEND ==> EndOfChannel(w, s, luck) == Fail(s)
  {
    if s.broker.pc.code == EXIT_BEFORE_SEND {
      LeaseCoversCrashBeforeSend(w, config, s);
      RecoveryAnswersTheLease(w, config, s, luck);
      assert NothingReceived(s) <==> s.kernel[s.guardian.crashReport.value] != Received;
    } else {
      ReachableIsSound(w, RecoverLease, config, s);
    }
  }

  /** A received notification that no running broker holds, under a guardian that has given up or used up
      its recovery. */
  predicate Orphaned(s: System, id: nat) {
    && id in s.kernel && (s.kernel[id] == Received || s.kernel[id] == Gone)
    && (Held(s.broker.pc) != Some(id) || s.broker.pc.Exited?)
    && (s.guardian.generation == 2 || s.guardian.status.Failed?)
  }

  lemma OrphanedStep(w: World, s: System, id: nat, a: Action)
    requires Orphaned(s, id) && Step(w, s, a).Some?
    ensures Orphaned(Step(w, s, a).value, id)
  {
  }

  /** Such a notification is left waiting for good: no run from there on answers it. */
  lemma {:induction false} UnresolvedIsNeverAnswered(w: World, s: System, id: nat, run: seq<Action>)
    requires Orphaned(s, id) && Run(w, s, run).Some?
    ensures id in Run(w, s, run).value.kernel && !Run(w, s, run).value.kernel[id].Answered?
    decreases |run|
  {
    if run != [] {
      OrphanedStep(w, s, id, run[0]);
      UnresolvedIsNeverAnswered(w, Step(w, s, run[0]).value, id, run[1..]);
    }
  }

  /** Whatever is still in flight when the guardian has handled a death is such a notification. */
  lemma LeftInFlightIsOrphaned(w: World, config: Config, s: System, luck: Luck, id: nat)
    requires Reachable(w, RecoverLease, config, s)
    requires s.broker.pc.Exited? && s.channel == [] && s.guardian.status.Watching?
    requires var s' := EndOfChannel(w, s, luck); id in s'.kernel && s'.kernel[id] == Received
    ensures Orphaned(EndOfChannel(w, s, luck), id)
  {
    if s.broker.pc.code == EXIT_BEFORE_SEND {
      LeaseCoversCrashBeforeSend(w, config, s);
      RecoveryAnswersTheLease(w, config, s, luck);
    }
  }

  /** An unreadable thread leads there, also if it dies. */
  lemma UnreadableIsOrphaned(w: World, config: Config, s: System, luck: Luck)
    requires Reachable(w, RecoverLease, config, s) && config.leaseReporting
    requires s.broker.pc.Exited? && s.broker.pc.code == EXIT_BEFORE_SEND
    requires s.channel == [] && s.guardian.status.Watching? && !luck.readable
    ensures s.guardian.crashReport.Some? && Orphaned(EndOfChannel(w, s, luck), s.guardian.crashReport.value)
  {
    SoundAtCrash(w, config, s);
    UnreadableLeaves(w, s, s.guardian.crashReport.value, luck);
  }

  lemma SoundAtCrash(w: World, config: Config, s: System)
    requires Reachable(w, RecoverLease, config, s) && s.channel == [] && s.guardian.status.Watching?
    requires s.broker.pc.Exited? && s.broker.pc.code == EXIT_BEFORE_SEND && config.leaseReporting
    ensures s.guardian.duty.RecoverLease? && s.guardian.generation == 1 && s.guardian.crashReport.Some?
    ensures var id := s.guardian.crashReport.value;
            id in s.guardian.leases && id in s.kernel && (s.kernel[id] == Received || s.kernel[id] == Gone)
  {
    ReachableIsSound(w, RecoverLease, config, s);
  }

  lemma UnreadableLeaves(w: World, s: System, id: nat, luck: Luck)
    requires s.broker.pc.Exited? && s.broker.pc.code == EXIT_BEFORE_SEND && !luck.readable
    requires s.guardian.duty.RecoverLease? && s.guardian.generation == 1
    requires s.guardian.crashReport == Some(id) && id in s.guardian.leases
    requires id in s.kernel && (s.kernel[id] == Received || s.kernel[id] == Gone)
    ensures Orphaned(EndOfChannel(w, s, luck), id)
  {
  }

  /** Exit 70: no notification is in flight. */
  lemma NothingInFlightAfterStop(w: World, duty: Duty, config: Config, s: System)
    requires Reachable(w, duty, config, s)
    requires s.broker.pc.Exited? && s.broker.pc.code == EXIT_STOP
    ensures forall k :: k in s.kernel ==> s.kernel[k] != Received
  {
    ReachableIsSound(w, duty, config, s);
    DrainKeeps(s.guardian, s.channel);
  }

  /** Exit 72: one received notification is stranded, and no lease of it was or will be read. */
  lemma StrandedWithoutLease(w: World, duty: Duty, config: Config, s: System)
    requires Reachable(w, duty, config, s)
    requires s.broker.pc.Exited? && s.broker.pc.code == EXIT_BEFORE_LEASE
    ensures s.broker.pc.held.Some? && OnlyInFlight(s, s.broker.pc.held.value)
    ensures s.broker.pc.held.value !in Drain(s.guardian, s.channel).leases
  {
    ReachableIsSound(w, duty, config, s);
    DrainKeeps(s.guardian, s.channel);
  }

  /** The guardian's tally never runs ahead of the kernel: what it counts as answered with `e` was
      answered with `e`, notification by notification. Once everything is reported and read, it
      counts every answer. */
  lemma TallyIsReal(w: World, duty: Duty, config: Config, s: System, e: Effect)
    requires Reachable(w, duty, config, s)
    ensures Tally(s.guardian, e) <= AnswersWith(s.sends, e, false)
    ensures s.guardian.status.Watching? && s.channel == [] && Unreported(s.broker.pc) == [] ==>
              Tally(s.guardian, e) == AnswersWith(s.sends, e, false)
  {
    ReachableIsSound(w, duty, config, s);
    var g := Drain(s.guardian, s.channel);
    DrainTallies(s.guardian, s.channel, e);
    TallyIsCount(g.decisions, e);
    AnswersSplit(s.sends, e);
    CountAppend(Effects(g.decisions), Unreported(s.broker.pc), e);
    DrainKeeps(s.guardian, s.channel);
  }

  // ---------------------------------------------------------------- which processes are denied

  /** The notification that this action looks up in vain, if it does. */
  function Unread(s: System, a: Action): set<nat> {
    if a == ClassifyId(Unreadable) && s.broker.pc.Classifying? then {s.broker.pc.id} else {}
  }

  /** All notifications that a broker looked up in vain in a run. */
  function UnreadIds(w: World, s: System, run: seq<Action>): set<nat>
    decreases |run|
  {
    if run == [] then {}
    else
      var next := Step(w, s, run[0]);
      Unread(s, run[0]) + if next.None? then {} else UnreadIds(w, next.value, run[1..])
  }

  predicate DeniedRightly(w: World, id: nat, unread: set<nat>, effect: Effect, byGuardian: bool) {
    effect == DENY <==> w.Targets(id) || (!byGuardian && id in unread)
  }

  predicate SendsScoped(w: World, sends: seq<Send>, unread: set<nat>) {
    forall i :: 0 <= i < |sends| ==> DeniedRightly(w, sends[i].id, unread, sends[i].effect, sends[i].byGuardian)
  }

  /** What the broker is about to answer, and what it has yet to look up. */
  predicate PcScoped(w: World, pc: Pc, unread: set<nat>) {
    && (pc.Classified? || pc.Leased? || pc.Responding? ==> DeniedRightly(w, pc.id, unread, pc.effect, false))
    && (pc.Checking? || pc.Classifying? ==> pc.id !in unread)
  }

  /** Only received notifications are looked up. */
  predicate UnreadReceived(kernel: map<nat, Notification>, unread: set<nat>) {
    forall id :: id in unread ==> id in kernel && kernel[id] != Pending
  }

  predicate Scoped(w: World, s: System, unread: set<nat>) {
    SendsScoped(w, s.sends, unread) && PcScoped(w, s.broker.pc, unread) && UnreadReceived(s.kernel, unread)
  }

  lemma ClassifyScopes(w: World, s: System, look: Look, unread: set<nat>)
    requires Scoped(w, s, unread) && s.broker.pc.Classifying? && Unsent(s.sends, s.broker.pc.id)
    requires s.broker.pc.id in s.kernel && s.kernel[s.broker.pc.id] != Pending
    ensures Scoped(w, Step(w, s, ClassifyId(look)).value, unread + Unread(s, ClassifyId(look)))
  {
    var more := unread + Unread(s, ClassifyId(look));
    forall i | 0 <= i < |s.sends| ensures DeniedRightly(w, s.sends[i].id, more, s.sends[i].effect, s.sends[i].byGuardian) {
      assert s.sends[i].id != s.broker.pc.id;
    }
  }

  lemma EndScopes(w: World, s: System, luck: Luck, unread: set<nat>)
    requires Scoped(w, s, unread) && s.broker.pc.Exited?
    requires forall id :: id in s.guardian.leases ==> s.guardian.leases[id] == w.tid(id)
    ensures Scoped(w, EndOfChannel(w, s, luck), unread)
  {
  }

  lemma BrokerScopes(w: World, s: System, a: Action, unread: set<nat>)
    requires Scoped(w, s, unread) && BrokerStep(w, s, a).Some? && !a.ClassifyId?
    ensures Scoped(w, BrokerStep(w, s, a).value, unread)
  {
  }

  lemma OtherScopes(w: World, s: System, a: Action, unread: set<nat>)
    requires Scoped(w, s, unread) && Step(w, s, a).Some? && (a.Arrive? || a.Die? || a.Kill? || a.Read?)
    ensures Scoped(w, Step(w, s, a).value, unread)
  {
  }

  lemma ScopedStep(w: World, s: System, a: Action, unread: set<nat>)
    requires Invariant(w, s) && Scoped(w, s, unread) && Step(w, s, a).Some?
    ensures Scoped(w, Step(w, s, a).value, unread + Unread(s, a))
  {
    assert !a.ClassifyId? ==> unread + Unread(s, a) == unread;
    if a.ClassifyId? {
      assert Held(s.broker.pc) == Some(s.broker.pc.id);
      ClassifyScopes(w, s, a.look, unread);
    } else if a.ReadEnd? {
      EndScopes(w, s, a.luck, unread);
    } else if a.Arrive? || a.Die? || a.Kill? || a.Read? {
      OtherScopes(w, s, a, unread);
    } else {
      BrokerScopes(w, s, a, unread);
    }
  }

  lemma {:induction false} ScopedRun(w: World, s: System, run: seq<Action>, unread: set<nat>)
    requires Invariant(w, s) && Scoped(w, s, unread) && Run(w, s, run).Some?
    ensures Scoped(w, Run(w, s, run).value, unread + UnreadIds(w, s, run))
    decreases |run|
  {
    if run == [] {
      assert unread + UnreadIds(w, s, run) == unread;
    } else {
      var next := Step(w, s, run[0]).value;
      ScopedStep(w, s, run[0], unread);
      assert Invariant(w, next) by { InvariantStep(w, s, run[0]); }
      ScopedRun(w, next, run[1..], unread + Unread(s, run[0]));
      assert unread + UnreadIds(w, s, run) == unread + Unread(s, run[0]) + UnreadIds(w, next, run[1..]);
    }
  }

  /** The k-th action looks up this notification, and the thread cannot be read. */
  ghost predicate LooksInVain(w: World, s: System, run: seq<Action>, k: nat, id: nat) {
    && k < |run| && run[k] == ClassifyId(Unreadable)
    && Run(w, s, run[..k]).Some? && Run(w, s, run[..k]).value.broker.pc == Classifying(id)
  }

  lemma {:induction false} UnreadMeans(w: World, s: System, run: seq<Action>, id: nat)
    requires Run(w, s, run).Some?
    ensures id in UnreadIds(w, s, run) <==> exists k: nat :: LooksInVain(w, s, run, k, id)
    decreases |run|
  {
    if run != [] {
      var next, rest := Step(w, s, run[0]).value, run[1..];
      UnreadMeans(w, next, rest, id);
      assert run[..0] == [];
      forall k: nat | k < |rest| ensures LooksInVain(w, s, run, k + 1, id) <==> LooksInVain(w, next, rest, k, id) {
        assert run[..k + 1][0] == run[0] && run[..k + 1][1..] == rest[..k];
      }
      assert id in Unread(s, run[0]) <==> LooksInVain(w, s, run, 0, id);
      if k: nat :| LooksInVain(w, s, run, k, id) {
        assert k > 0 ==> LooksInVain(w, next, rest, k - 1, id);
      }
      if k: nat :| LooksInVain(w, next, rest, k, id) {
        assert LooksInVain(w, s, run, k + 1, id);
      }
    }
  }

  /** Who is denied, in every run: each notification of the target, and else only one that the answering
      broker looked up in vain. The guardian denies the target's only. So if every thread can be read, all
      other processes are let through. */
  lemma DeniedIffTarget(w: World, duty: Duty, config: Config, s: System, run: seq<Action>)
    requires Run(w, Initial(duty, config), run) == Some(s)
    ensures forall i :: 0 <= i < |s.sends| ==>
              (s.sends[i].effect == DENY <==>
               w.Targets(s.sends[i].id)
               || (!s.sends[i].byGuardian && exists k: nat :: LooksInVain(w, Initial(duty, config), run, k, s.sends[i].id)))
    ensures (forall k :: 0 <= k < |run| && run[k].ClassifyId? ==> run[k].look.Found?) ==>
              forall i :: 0 <= i < |s.sends| ==> (s.sends[i].effect == DENY <==> w.Targets(s.sends[i].id))
  {
    var s0 := Initial(duty, config);
    InvariantInit(w, duty, config);
    ScopedRun(w, s0, run, {});
    forall i | 0 <= i < |s.sends|
      ensures s.sends[i].effect == DENY <==>
              w.Targets(s.sends[i].id) || (!s.sends[i].byGuardian && exists k: nat :: LooksInVain(w, s0, run, k, s.sends[i].id))
    {
      UnreadMeans(w, s0, run, s.sends[i].id);
      assert DeniedRightly(w, s.sends[i].id, {} + UnreadIds(w, s0, run), s.sends[i].effect, s.sends[i].byGuardian);
    }
  }

  // ---------------------------------------------------------------- when a broker dies on purpose

  function Max(a: int, b: int): int { if a < b then b else a }

  function IsReceive(a: Action): nat { if a.Receive? then 1 else 0 }

  /** How many notifications were received in a run. */
  function Receives(run: seq<Action>): nat {
    if run == [] then 0 else IsReceive(run[0]) + Receives(run[1..])
  }

  /** The counters of generation 1, and what the thresholds have let pass. */
  predicate Counted(s: System, received: nat) {
    s.broker.generation == 1 ==>
      var b := s.broker;
      var answers := |BrokerAnswers(s.sends)|;
      && b.received == received && b.processed == answers
      && answers + (if Held(b.pc).Some? && !b.pc.Exited? then 1 else 0) <= received
      && AnswersWithin(b, answers) && DueNow(b, received, answers)
  }

  predicate AnswersWithin(b: Broker, answers: nat) {
    && (b.config.crashBeforeSend.Some? && answers > 0 ==> answers < b.config.crashBeforeSend.value)
    && (b.config.crashBeforeSend.Some? && b.pc.Responding? ==> b.received < b.config.crashBeforeSend.value)
    && (b.config.crashBeforeLease.Some? && answers > 0 ==> answers < b.config.crashBeforeLease.value)
    && (b.config.crashBeforeLease.Some? && (b.pc.Leased? || b.pc.Responding?) ==> b.received < b.config.crashBeforeLease.value)
    && (b.config.crashAfter.Some? && !b.pc.Exited? && !b.pc.StopReported? ==>
          answers <= (if b.pc.Responded? || b.pc.Reported? then Max(1, b.config.crashAfter.value)
                      else Max(1, b.config.crashAfter.value) - 1))
    && (b.config.crashAfter.Some? ==> answers <= Max(1, b.config.crashAfter.value))
    && (b.pc.Responded? || b.pc.Reported? || b.pc.StopReported? ==> answers >= 1)
  }

  predicate DueNow(b: Broker, received: nat, answers: nat) {
    && (b.pc.CrashReported? || (b.pc.Exited? && b.pc.code == EXIT_BEFORE_SEND) ==> Due(b.config.crashBeforeSend, received))
    && (b.pc.Exited? && b.pc.code == EXIT_BEFORE_LEASE ==> Due(b.config.crashBeforeLease, received))
    && (b.pc.StopReported? || (b.pc.Exited? && b.pc.code == EXIT_STOP) ==> Due(b.config.crashAfter, answers) && answers >= 1)
  }

  lemma LookCounts(w: World, s: System, a: Action, received: nat)
    requires Counted(s, received) && BrokerStep(w, s, a).Some?
    requires a.Receive? || a.CheckId? || a.ClassifyId? || a.PublishLease?
    ensures Counted(BrokerStep(w, s, a).value, received + IsReceive(a))
  {
  }

  lemma CrashCounts(w: World, s: System, a: Action, received: nat)
    requires Counted(s, received) && BrokerStep(w, s, a).Some?
    requires a.CrashOrRecheck? || a.Report? || a.StopOrLoop? || a.Exit?
    ensures Counted(BrokerStep(w, s, a).value, received)
  {
  }

  lemma AnswerCounts(w: World, s: System, received: nat)
    requires Counted(s, received) && BrokerStep(w, s, Answer).Some?
    ensures Counted(BrokerStep(w, s, Answer).value, received)
  {
    AnswersAppend(s.sends, Send(s.broker.pc.id, s.broker.pc.effect, false, Alive(s.kernel, s.broker.pc.id)));
  }

  lemma OtherCounts(w: World, s: System, a: Action, received: nat)
    requires Counted(s, received) && Step(w, s, a).Some? && (a.Arrive? || a.Die? || a.Kill? || a.Read?)
    ensures Counted(Step(w, s, a).value, received)
  {
  }

  lemma RespondCounts(w: World, s: System, id: nat, tid: int, luck: Luck)
    ensures var s1 := RespondToLease(w, s, id, tid, luck).0;
            s1.broker == s.broker && s1.guardian == s.guardian && BrokerAnswers(s1.sends) == BrokerAnswers(s.sends)
  {
    var effect := if w.tgid(tid) == w.targetPid then DENY else ALLOW;
    AnswersAppend(s.sends, Send(id, effect, true, true));
    AnswersAppend(s.sends, Send(id, effect, true, false));
  }

  lemma ReapedCounts(s: System, s': System, received: nat)
    requires Counted(s, received) && s.broker.pc.Exited?
    requires BrokerAnswers(s'.sends) == BrokerAnswers(s.sends)
    requires s'.broker == s.broker || s'.broker == Reaped(s.broker) || s'.broker.generation != 1
    ensures Counted(s', received)
  {
  }

  lemma EndCounts(w: World, s: System, luck: Luck, received: nat)
    requires Counted(s, received) && s.guardian.generation >= 1 && s.broker.pc.Exited?
    ensures Counted(EndOfChannel(w, s, luck), received)
  {
    var g := s.guardian;
    if g.crashReport.Some? && g.crashReport.value in g.leases {
      RespondCounts(w, s, g.crashReport.value, g.leases[g.crashReport.value], luck);
    }
    ReapedCounts(s, EndOfChannel(w, s, luck), received);
  }

  lemma CountStep(w: World, s: System, a: Action, received: nat)
    requires Counted(s, received) && GenerationsAgree(s) && Step(w, s, a).Some?
    ensures Counted(Step(w, s, a).value, received + IsReceive(a))
  {
    if a.ReadEnd? {
      EndCounts(w, s, a.luck, received);
    } else if a.Arrive? || a.Die? || a.Kill? || a.Read? {
      OtherCounts(w, s, a, received);
    } else if a.Answer? {
      AnswerCounts(w, s, received);
    } else if a.Receive? || a.CheckId? || a.ClassifyId? || a.PublishLease? {
      LookCounts(w, s, a, received);
    } else {
      CrashCounts(w, s, a, received);
    }
  }

  lemma {:induction false} CountRun(w: World, s: System, run: seq<Action>, received: nat)
    requires Invariant(w, s) && Counted(s, received) && Run(w, s, run).Some?
    ensures Counted(Run(w, s, run).value, received + Receives(run))
    decreases |run|
  {
    if run != [] {
      InvariantGenerations(w, s);
      CountStep(w, s, run[0], received);
      var next := Step(w, s, run[0]).value;
      assert Invariant(w, next) by { InvariantStep(w, s, run[0]); }
      CountRun(w, next, run[1..], received + IsReceive(run[0]));
    }
  }

  /** A broker ends itself exactly when it is told to: by exit 70 with the answer that makes the configured number
      (at least one), by exits 71 and 72 once the configured number has been received, and before it has given as
      many answers. */
  lemma DeathsAreDue(w: World, duty: Duty, config: Config, s: System, run: seq<Action>)
    requires Run(w, Initial(duty, config), run) == Some(s)
    requires s.broker.generation == 1 && s.broker.pc.Exited?
    ensures var answers := |BrokerAnswers(s.sends)|;
            && (s.broker.pc.code == EXIT_STOP ==> config.crashAfter.Some? && answers == Max(1, config.crashAfter.value))
            && (s.broker.pc.code == EXIT_BEFORE_SEND ==>
                  config.crashBeforeSend.Some? && config.crashBeforeSend.value <= Receives(run)
                  && answers < Max(1, config.crashBeforeSend.value))
            && (s.broker.pc.code == EXIT_BEFORE_LEASE ==>
                  config.crashBeforeLease.Some? && config.crashBeforeLease.value <= Receives(run)
                  && answers < Max(1, config.crashBeforeLease.value))
  {
    InvariantInit(w, duty, config);
    CountRun(w, Initial(duty, config), run, 0);
    assert Reachable(w, duty, config, s);
    ReachableIsSound(w, duty, config, s);
  }

  // ---------------------------------------------------------------- which answers come too late

  lemma {:induction false} RunInit(w: World, s: System, run: seq<Action>)
    requires run != [] && Run(w, s, run).Some?
    ensures Run(w, s, run[..|run| - 1]).Some?
    ensures Run(w, s, run) == Step(w, Run(w, s, run[..|run| - 1]).value, run[|run| - 1])
    decreases |run|
  {
    if |run| > 1 {
      var next := Step(w, s, run[0]).value;
      RunInit(w, next, run[1..]);
      assert run[..|run| - 1][0] == run[0] && run[..|run| - 1][1..] == run[1..][..|run| - 2];
    } else {
      assert run[1..] == [];
    }
  }

  /** The k-th action is the notification's death, after the broker last found it alive and before its answer. */
  ghost predicate DiesLate(w: World, s: System, run: seq<Action>, k: nat, id: nat) {
    && k < |run| && run[k] == Die(id) && Run(w, s, run[..k]).Some?
    && Run(w, s, run[..k]).value.broker.pc.Responding? && Run(w, s, run[..k]).value.broker.pc.id == id
  }

  ghost predicate DiedLate(w: World, s: System, run: seq<Action>, id: nat) {
    exists k: nat :: DiesLate(w, s, run, k, id)
  }

  lemma DiedLateStays(w: World, s: System, run: seq<Action>, id: nat)
    requires run != [] && DiedLate(w, s, run[..|run| - 1], id)
    ensures DiedLate(w, s, run, id)
  {
    var init := run[..|run| - 1];
    var k: nat :| DiesLate(w, s, init, k, id);
    assert init[..k] == run[..k];
    assert DiesLate(w, s, run, k, id);
  }

  /** Rejected answers of brokers, and a notification at hand that is no longer there. */
  ghost predicate LateOnes(w: World, s0: System, run: seq<Action>, s: System) {
    && (forall i :: 0 <= i < |s.sends| && !s.sends[i].byGuardian && !s.sends[i].accepted ==> DiedLate(w, s0, run, s.sends[i].id))
    && (s.broker.pc.Responding? && !Alive(s.kernel, s.broker.pc.id) ==> DiedLate(w, s0, run, s.broker.pc.id))
  }

  lemma LateStep(w: World, s0: System, run: seq<Action>, before: System)
    requires run != [] && Run(w, s0, run[..|run| - 1]) == Some(before) && Step(w, before, run[|run| - 1]).Some?
    requires LateOnes(w, s0, run[..|run| - 1], before)
    ensures LateOnes(w, s0, run, Step(w, before, run[|run| - 1]).value)
  {
    var a, s := run[|run| - 1], Step(w, before, run[|run| - 1]).value;
    forall id | DiedLate(w, s0, run[..|run| - 1], id) ensures DiedLate(w, s0, run, id) {
      DiedLateStays(w, s0, run, id);
    }
    if s.broker.pc.Responding? && !Alive(s.kernel, s.broker.pc.id) && Alive(before.kernel, s.broker.pc.id) {
      LateDeath(w, s0, run, before, s.broker.pc.id);
    }
    LateSends(w, before, a);
  }

  lemma LateDeath(w: World, s0: System, run: seq<Action>, before: System, id: nat)
    requires run != [] && Run(w, s0, run[..|run| - 1]) == Some(before)
    requires var a := run[|run| - 1];
             && Step(w, before, a).Some? && Alive(before.kernel, id) && !Alive(Step(w, before, a).value.kernel, id)
             && Step(w, before, a).value.broker.pc.Responding? && Step(w, before, a).value.broker.pc.id == id
    ensures DiedLate(w, s0, run, id)
  {
    assert run[|run| - 1] == Die(id);
    assert DiesLate(w, s0, run, |run| - 1, id);
  }

  /** A step adds no rejected answer but one to the notification at hand. */
  lemma LateSends(w: World, s: System, a: Action)
    requires Step(w, s, a).Some?
    ensures var s' := Step(w, s, a).value;
            && s.sends <= s'.sends && |s'.sends| <= |s.sends| + 1
            && (|s'.sends| > |s.sends| ==>
                  var sent := s'.sends[|s.sends|];
                  sent.byGuardian || (s.broker.pc.Responding? && sent.id == s.broker.pc.id && (sent.accepted <==> Alive(s.kernel, sent.id))))
            && (s'.broker.pc.Responding? && !s.broker.pc.Responding? ==> Alive(s'.kernel, s'.broker.pc.id))
            && (s'.broker.pc.Responding? && s.broker.pc.Responding? ==> s'.broker.pc.id == s.broker.pc.id)
  {
  }

  lemma {:induction false} LateRun(w: World, s0: System, run: seq<Action>)
    requires s0.sends == [] && !s0.broker.pc.Responding? && Run(w, s0, run).Some?
    ensures LateOnes(w, s0, run, Run(w, s0, run).value)
    decreases |run|
  {
    if run != [] {
      RunInit(w, s0, run);
      LateRun(w, s0, run[..|run| - 1]);
      LateStep(w, s0, run, Run(w, s0, run[..|run| - 1]).value);
    }
  }

  /** In every run an answer of a broker is rejected only if its notification died between the broker's last check
      and that answer. */
  lemma RejectedOnlyIfDiedLate(w: World, duty: Duty, config: Config, s: System, run: seq<Action>, i: nat)
    requires Run(w, Initial(duty, config), run) == Some(s)
    requires i < |s.sends| && !s.sends[i].byGuardian && !s.sends[i].accepted
    ensures exists k: nat :: DiesLate(w, Initial(duty, config), run, k, s.sends[i].id)
  {
    LateRun(w, Initial(duty, config), run);
    assert DiedLate(w, Initial(duty, config), run, s.sends[i].id);
  }

  // ---------------------------------------------------------------- leases of what is unanswered

  /** Under a guardian that watches, a lease of an answered notification is left only until the answer is reported. */
  predicate LeasesUnanswered(s: System, g: Guardian) {
    s.guardian.status.Watching? ==>
      forall i :: 0 <= i < |s.sends| && s.sends[i].accepted && s.sends[i].id in g.leases ==> Unreported(s.broker.pc) != []
  }

  lemma BrokerLeases(w: World, s: System, g: Guardian, a: Action)
    requires LeasesUnanswered(s, g) && HeldAgrees(s, g) && BrokerStep(w, s, a).Some?
    ensures var s' := BrokerStep(w, s, a).value; LeasesUnanswered(s', NoteNew(g, s, s'))
  {
  }

  /** A step of the broker leaves the guardian alone and posts at most one report. */
  lemma BrokerPosts(w: World, s: System, a: Action)
    requires BrokerStep(w, s, a).Some?
    ensures var s' := BrokerStep(w, s, a).value;
            && s'.guardian == s.guardian
            && Drain(s'.guardian, s'.channel) == NoteNew(Drain(s.guardian, s.channel), s, s')
  {
    var s' := BrokerStep(w, s, a).value;
    if s'.channel != s.channel {
      var m := s'.channel[|s.channel|];
      assert s'.channel == s.channel + [m];
      DrainAppend(s.guardian, s.channel, m);
    }
  }

  lemma LeasesStep(w: World, s: System, a: Action)
    requires HeldAgrees(s, Drain(s.guardian, s.channel)) && Step(w, s, a).Some?
    requires LeasesUnanswered(s, Drain(s.guardian, s.channel))
    ensures var s' := Step(w, s, a).value; LeasesUnanswered(s', Drain(s'.guardian, s'.channel))
  {
    if !(a.Arrive? || a.Die? || a.Kill? || a.Read? || a.ReadEnd?) {
      BrokerLeases(w, s, Drain(s.guardian, s.channel), a);
      BrokerPosts(w, s, a);
    }
  }

  lemma {:induction false} LeasesRun(w: World, s: System, run: seq<Action>)
    requires Invariant(w, s) && LeasesUnanswered(s, Drain(s.guardian, s.channel)) && Run(w, s, run).Some?
    ensures var s' := Run(w, s, run).value; LeasesUnanswered(s', Drain(s'.guardian, s'.channel))
    decreases |run|
  {
    if run != [] {
      LeasesStep(w, s, run[0]);
      InvariantStep(w, s, run[0]);
      LeasesRun(w, Step(w, s, run[0]).value, run[1..]);
    }
  }

  /** Once everything is reported and read, a guardian that watches holds no lease of an answered notification. */
  lemma LeasesAreUnanswered(w: World, duty: Duty, config: Config, s: System, id: nat)
    requires Reachable(w, duty, config, s)
    requires s.guardian.status.Watching? && s.channel == [] && Unreported(s.broker.pc) == [] && id in s.guardian.leases
    ensures id in s.kernel && (s.kernel[id] == Received || s.kernel[id] == Gone)
  {
    InvariantInit(w, duty, config);
    var run :| Run(w, Initial(duty, config), run) == Some(s);
    LeasesRun(w, Initial(duty, config), run);
    ReachableIsSound(w, duty, config, s);
  }

  // ---------------------------------------------------------------- every notification is accounted for

  function One(b: bool): nat { if b then 1 else 0 }

  /** Received is what a broker answered, what it reported as gone, what it holds, what its rejected answer was for,
      and what the guardian recovered. */
  predicate Accounted(s: System, g: Guardian, received: nat) {
    s.guardian.status.Watching? ==>
      received == |BrokerAnswers(s.sends)| + g.invalidIds + One(Held(s.broker.pc).Some?)
                  + One(s.broker.pc.Exited? && s.broker.pc.code == EXIT_ERROR) + One(s.guardian.recovery.Some?)
  }

  lemma BrokerAccounts(w: World, s: System, g: Guardian, a: Action, received: nat)
    requires Accounted(s, g, received) && BrokerStep(w, s, a).Some? && !a.Answer?
    ensures var s' := BrokerStep(w, s, a).value; Accounted(s', NoteNew(g, s, s'), received + IsReceive(a))
  {
  }

  lemma AnswerAccounts(w: World, s: System, g: Guardian, received: nat)
    requires Accounted(s, g, received) && BrokerStep(w, s, Answer).Some?
    ensures Accounted(BrokerStep(w, s, Answer).value, g, received)
  {
    AnswersAppend(s.sends, Send(s.broker.pc.id, s.broker.pc.effect, false, Alive(s.kernel, s.broker.pc.id)));
  }

  lemma EndAccounts(w: World, s: System, luck: Luck, received: nat)
    requires Accounted(s, s.guardian, received) && GenerationsAgree(s) && ExitAgrees(s, s.guardian)
    requires s.broker.pc.Exited? && s.channel == []
    ensures Accounted(EndOfChannel(w, s, luck), s.guardian, received)
  {
    var g := s.guardian;
    if g.crashReport.Some? && g.crashReport.value in g.leases {
      RespondCounts(w, s, g.crashReport.value, g.leases[g.crashReport.value], luck);
    }
  }

  lemma EndReads(w: World, s: System, luck: Luck)
    requires s.broker.pc.Exited? && s.channel == []
    ensures var s' := EndOfChannel(w, s, luck);
            s'.channel == [] && (s'.guardian.status.Watching? ==> s'.guardian.invalidIds == s.guardian.invalidIds)
  {
  }

  lemma OtherAccounts(w: World, s: System, g: Guardian, a: Action, received: nat)
    requires Accounted(s, g, received) && Step(w, s, a).Some? && (a.Arrive? || a.Die? || a.Kill? || a.Read?)
    ensures Accounted(Step(w, s, a).value, g, received)
  {
  }

  lemma AccountStep(w: World, s: System, g: Guardian, a: Action, received: nat)
    requires g == Drain(s.guardian, s.channel) && GenerationsAgree(s) && ExitAgrees(s, g)
    requires Accounted(s, g, received) && Step(w, s, a).Some?
    ensures var s' := Step(w, s, a).value; Accounted(s', Drain(s'.guardian, s'.channel), received + IsReceive(a))
  {
    if a.ReadEnd? {
      EndAccounts(w, s, a.luck, received);
      EndReads(w, s, a.luck);
    } else if a.Arrive? || a.Die? || a.Kill? || a.Read? {
      OtherAccounts(w, s, g, a, received);
    } else {
      BrokerPosts(w, s, a);
      if a.Answer? {
        AnswerAccounts(w, s, g, received);
      } else {
        BrokerAccounts(w, s, g, a, received);
      }
    }
  }

  lemma {:induction false} AccountRun(w: World, s: System, run: seq<Action>, received: nat)
    requires Invariant(w, s) && Accounted(s, Drain(s.guardian, s.channel), received) && Run(w, s, run).Some?
    ensures var s' := Run(w, s, run).value; Accounted(s', Drain(s'.guardian, s'.channel), received + Receives(run))
    decreases |run|
  {
    if run != [] {
      AccountStep(w, s, Drain(s.guardian, s.channel), run[0], received);
      InvariantStep(w, s, run[0]);
      AccountRun(w, Step(w, s, run[0]).value, run[1..], received + IsReceive(run[0]));
    }
  }

  /** Conservation: once everything is read, a guardian that watches accounts for every notification ever received,
      each once: answered by a broker, counted as gone, in the hands of the broker or of its rejected answer, or
      recovered. */
  lemma ReceivedAreAccounted(w: World, duty: Duty, config: Config, s: System, run: seq<Action>)
    requires Run(w, Initial(duty, config), run) == Some(s)
    requires s.guardian.status.Watching? && s.channel == []
    ensures Receives(run) == |BrokerAnswers(s.sends)| + s.guardian.invalidIds
                             + One(Held(s.broker.pc).Some?) + One(s.broker.pc.Exited? && s.broker.pc.code == EXIT_ERROR)
                             + One(s.guardian.recovery.Some?)
  {
    InvariantInit(w, duty, config);
    AccountRun(w, Initial(duty, config), run, 0);
  }

  // ---------------------------------------------------------------- the other guardian

  /** The guardian that only replaces: after exit 70 of generation 1 it starts generation 2, or fails if that
      does not start; after every other death it fails. It never answers. */
  lemma OnlyStopsAreReplaced(w: World, config: Config, s: System, luck: Luck)
    requires Reachable(w, ReplaceOnly, config, s)
    requires s.broker.pc.Exited? && s.channel == [] && s.guardian.status.Watching?
    ensures var s' := EndOfChannel(w, s, luck);
            && s'.kernel == s.kernel && s'.sends == s.sends
            && if s.broker.pc.code == EXIT_STOP && s.broker.generation == 1 && luck.starts
               then Replaced(s') && NothingReceived(s') && s'.broker.config == PLAIN.(leaseReporting := false)
               else s'.guardian.status.Failed?
  {
    ReachableIsSound(w, ReplaceOnly, config, s);
  }

  // ---------------------------------------------------------------- the exits happen

  lemma {:induction false} RunAppend(w: World, s: System, run: seq<Action>, a: Action)
    requires Run(w, s, run).Some?
    ensures Run(w, s, run + [a]) == Step(w, Run(w, s, run).value, a)
    decreases |run|
  {
    if run == [] {
      assert ([] + [a])[1..] == [];
    } else {
      assert (run + [a])[0] == run[0] && (run + [a])[1..] == run[1..] + [a];
      RunAppend(w, Step(w, s, run[0]).value, run[1..], a);
    }
  }

  lemma ReachableStep(w: World, duty: Duty, config: Config, s: System, a: Action)
    requires Reachable(w, duty, config, s) && Step(w, s, a).Some?
    ensures Reachable(w, duty, config, Step(w, s, a).value)
  {
    var run :| Run(w, Initial(duty, config), run) == Some(s);
    RunAppend(w, Initial(duty, config), run, a);
  }

  lemma ReachableStart(w: World, duty: Duty, config: Config)
    ensures Reachable(w, duty, config, Initial(duty, config))
  {
    assert Run(w, Initial(duty, config), []) == Some(Initial(duty, config));
  }

  /** The first notification, received and classified. */
  function FirstClassified(w: World, duty: Duty, config: Config): System {
    var (target, effect) := Classify(w, 0, Found(Verified));
    Initial(duty, config).(kernel := map[0 := Received], broker := Broker(1, config, Classified(0, target, effect), 1, 0))
  }

  lemma ReachFirstClassified(w: World, duty: Duty, config: Config)
    ensures Reachable(w, duty, config, FirstClassified(w, duty, config))
  {
    var s0 := Initial(duty, config);
    ReachableStart(w, duty, config);
    ReachableStep(w, duty, config, s0, Arrive(0));
    var s1 := Step(w, s0, Arrive(0)).value;
    ReachableStep(w, duty, config, s1, Receive(0));
    var s2 := Step(w, s1, Receive(0)).value;
    assert s2.kernel == map[0 := Received];
    ReachableStep(w, duty, config, s2, CheckId);
    var s3 := Step(w, s2, CheckId).value;
    ReachableStep(w, duty, config, s3, ClassifyId(Found(Verified)));
  }

  /** The first notification at a later point of the loop, everything else as it was. */
  function FirstAt(w: World, duty: Duty, config: Config, pc: Pc, channel: seq<Message>): System {
    FirstClassified(w, duty, config).(broker := Broker(1, config, pc, 1, 0), channel := channel)
  }

  /** Exit 72 is reached, on the first notification, with a guardian that watches. */
  lemma ExitBeforeLeaseHappens(w: World, duty: Duty)
    ensures exists s :: Reachable(w, duty, Config(None, None, Some(1), true), s) && s.guardian.status.Watching? && s.channel == []
                        && s.broker.pc.Exited? && s.broker.pc.code == EXIT_BEFORE_LEASE
  {
    var config := Config(None, None, Some(1), true);
    var s := FirstClassified(w, duty, config);
    ReachFirstClassified(w, duty, config);
    ReachableStep(w, duty, config, s, PublishLease);
    assert Step(w, s, PublishLease).value.broker.pc.code == EXIT_BEFORE_LEASE;
  }

  lemma ReachFirstLeased(w: World, duty: Duty, config: Config)
    requires config.crashBeforeLease.None?
    ensures var (target, effect) := Classify(w, 0, Found(Verified));
            Reachable(w, duty, config, FirstAt(w, duty, config, Leased(0, target, effect),
                                               if config.leaseReporting then [Lease(1, 0, w.tid(0))] else []))
  {
    var (target, effect) := Classify(w, 0, Found(Verified));
    var s := FirstClassified(w, duty, config);
    ReachFirstClassified(w, duty, config);
    ReachableStep(w, duty, config, s, PublishLease);
    assert s.channel + [Lease(1, 0, w.tid(0))] == [Lease(1, 0, w.tid(0))];
    assert Step(w, s, PublishLease).value == FirstAt(w, duty, config, Leased(0, target, effect),
                                                     if config.leaseReporting then [Lease(1, 0, w.tid(0))] else []);
  }

  /** Exit 71 is reached with the notification in flight, with or without its lease before it in the channel. */
  lemma ReachFirstCrashed(w: World, leaseReporting: bool)
    ensures var config := Config(None, Some(1), None, leaseReporting);
            Reachable(w, RecoverLease, config,
                      FirstAt(w, RecoverLease, config, Exited(EXIT_BEFORE_SEND, Some(0), []),
                              (if leaseReporting then [Lease(1, 0, w.tid(0))] else []) + [CrashBeforeSend(1, 1, 0)]))
  {
    var config := Config(None, Some(1), None, leaseReporting);
    var (target, effect) := Classify(w, 0, Found(Verified));
    var channel := if leaseReporting then [Lease(1, 0, w.tid(0))] else [];
    var s := FirstAt(w, RecoverLease, config, Leased(0, target, effect), channel);
    ReachFirstLeased(w, RecoverLease, config);
    ReachableStep(w, RecoverLease, config, s, CrashOrRecheck);
    var crashed := FirstAt(w, RecoverLease, config, CrashReported(0), channel + [CrashBeforeSend(1, 1, 0)]);
    assert Step(w, s, CrashOrRecheck) == Some(crashed);
    ReachableStep(w, RecoverLease, config, crashed, Exit);
  }

  lemma {:induction false} ReadAll(w: World, duty: Duty, config: Config, s: System)
    requires Reachable(w, duty, config, s) && s.guardian.status.Watching?
    ensures Reachable(w, duty, config, s.(channel := [], guardian := Drain(s.guardian, s.channel)))
    ensures Drain(s.guardian, s.channel).status.Watching?
    decreases |s.channel|
  {
    if s.channel == [] {
      assert s.(channel := [], guardian := Drain(s.guardian, s.channel)) == s;
    } else {
      var s' := Step(w, s, Read).value;
      ReachableStep(w, duty, config, s, Read);
      ReadAll(w, duty, config, s');
      assert s'.(channel := [], guardian := Drain(s'.guardian, s'.channel)) == s.(channel := [], guardian := Drain(s.guardian, s.channel));
    }
  }

  /** Exit 71 is reached, with or without leases, with everything read and the notification in flight. */
  lemma ExitBeforeSendHappens(w: World, leaseReporting: bool)
    ensures exists s :: Reachable(w, RecoverLease, Config(None, Some(1), None, leaseReporting), s)
                        && s.guardian.status.Watching? && s.channel == [] && s.kernel == map[0 := Received]
                        && s.broker.pc.Exited? && s.broker.pc.code == EXIT_BEFORE_SEND
  {
    var config := Config(None, Some(1), None, leaseReporting);
    var s := FirstAt(w, RecoverLease, config, Exited(EXIT_BEFORE_SEND, Some(0), []),
                     (if leaseReporting then [Lease(1, 0, w.tid(0))] else []) + [CrashBeforeSend(1, 1, 0)]);
    ReachFirstCrashed(w, leaseReporting);
    ReadAll(w, RecoverLease, config, s);
    assert s.(channel := [], guardian := Drain(s.guardian, s.channel)).kernel == map[0 := Received];
  }

  /** A broker can be killed after its lease was read: the notification stays in flight. */
  lemma KillAfterLeaseHappens(w: World)
    ensures exists s :: Reachable(w, RecoverLease, PLAIN, s) && s.guardian.status.Watching? && s.channel == []
                        && s.kernel == map[0 := Received] && 0 in s.guardian.leases
                        && s.broker.pc.Exited? && s.broker.pc.code == EXIT_KILLED
  {
    var (target, effect) := Classify(w, 0, Found(Verified));
    var leased := FirstAt(w, RecoverLease, PLAIN, Leased(0, target, effect), [Lease(1, 0, w.tid(0))]);
    ReachFirstLeased(w, RecoverLease, PLAIN);
    ReachableStep(w, RecoverLease, PLAIN, leased, Kill);
    var killed := FirstAt(w, RecoverLease, PLAIN, Exited(EXIT_KILLED, Some(0), []), [Lease(1, 0, w.tid(0))]);
    assert Step(w, leased, Kill) == Some(killed);
    ReachableStep(w, RecoverLease, PLAIN, killed, Read);
    assert killed.channel[1..] == [];
    assert Step(w, killed, Read).value.kernel == map[0 := Received];
  }

  /** The first notification answered and reported. */
  function FirstReported(w: World, duty: Duty, config: Config, pc: Pc, more: seq<Message>): System {
    var (target, effect) := Classify(w, 0, Found(Verified));
    System(map[0 := Answered(effect)], [Send(0, effect, false, true)], Broker(1, config, pc, 1, 1),
           [Decision(1, target, effect)] + more, Initial(duty, config).guardian)
  }

  lemma ReachFirstAnswered(w: World, duty: Duty, config: Config)
    requires config.crashBeforeLease.None? && config.crashBeforeSend.None? && !config.leaseReporting
    ensures var (target, effect) := Classify(w, 0, Found(Verified));
            Reachable(w, duty, config, FirstReported(w, duty, config, Responded(target, effect), []).(channel := []))
  {
    var (target, effect) := Classify(w, 0, Found(Verified));
    var s1 := FirstAt(w, duty, config, Leased(0, target, effect), []);
    ReachFirstLeased(w, duty, config);
    ReachableStep(w, duty, config, s1, CrashOrRecheck);
    var s2 := FirstAt(w, duty, config, Responding(0, target, effect), []);
    assert Step(w, s1, CrashOrRecheck) == Some(s2);
    ReachableStep(w, duty, config, s2, Answer);
    assert map[0 := Received][0 := Answered(effect)] == map[0 := Answered(effect)];
    assert [] + [Send(0, effect, false, true)] == [Send(0, effect, false, true)];
    assert Step(w, s2, Answer) == Some(FirstReported(w, duty, config, Responded(target, effect), []).(channel := []));
  }

  lemma ReachFirstReported(w: World, duty: Duty, config: Config)
    requires config.crashBeforeLease.None? && config.crashBeforeSend.None? && !config.leaseReporting
    ensures Reachable(w, duty, config, FirstReported(w, duty, config, Reported, []))
  {
    var (target, effect) := Classify(w, 0, Found(Verified));
    var s := FirstReported(w, duty, config, Responded(target, effect), []).(channel := []);
    ReachFirstAnswered(w, duty, config);
    ReachableStep(w, duty, config, s, Report);
    assert [] + [Decision(1, target, effect)] == [Decision(1, target, effect)] + [];
    assert Step(w, s, Report) == Some(FirstReported(w, duty, config, Reported, []));
  }

  /** Exit 70 is reached, with the first notification answered and an unfinished guardian. */
  lemma StopHappens(w: World, duty: Duty)
    ensures exists s :: Reachable(w, duty, Config(Some(1), None, None, false), s) && s.guardian.status.Watching?
                        && s.broker.pc.Exited? && s.broker.pc.code == EXIT_STOP && |s.sends| == 1
  {
    var config := Config(Some(1), None, None, false);
    var s := FirstReported(w, duty, config, Reported, []);
    ReachFirstReported(w, duty, config);
    ReachableStep(w, duty, config, s, StopOrLoop);
    var stopped := Step(w, s, StopOrLoop).value;
    assert stopped.broker.pc.StopReported?;
    ReachableStep(w, duty, config, stopped, Exit);
    assert Step(w, stopped, Exit).value.broker.pc.code == EXIT_STOP;
  }
}
