/** The lease-recovering guardian as the object its loop updates, checked against the protocol's
    guardian functions. */
module GuardianLoop {
  import opened Wrappers
  import opened BrokerProtocol

  /** The retained seccomp listener: the kernel's notifications and the log of SEND ioctls. */
  class Listener {
    var kernel: map<nat, Notification>
    var sends: seq<Send>

    constructor (kernel: map<nat, Notification>, sends: seq<Send>)
      ensures this.kernel == kernel && this.sends == sends
    {
      this.kernel := kernel;
      this.sends := sends;
    }

    method IsValid(id: nat) returns (valid: bool)
      ensures valid <==> id in kernel && kernel[id] == Received
    {
      valid := id in kernel && kernel[id] == Received;
    }

    /** The environment: the notifying thread dies. */
    method Perish(id: nat)
      modifies this`kernel
      ensures kernel == Vanish(old(kernel), id)
    {
      if id in kernel && (kernel[id] == Pending || kernel[id] == Received) {
        kernel := kernel[id := Gone];
      }
    }

    method Answer(id: nat, effect: Effect, byGuardian: bool) returns (accepted: bool)
      modifies this
      ensures accepted <==> id in old(kernel) && old(kernel)[id] == Received
      ensures sends == old(sends) + [Send(id, effect, byGuardian, accepted)]
      ensures kernel == if accepted then old(kernel)[id := Answered(effect)] else old(kernel)
    {
      accepted := id in kernel && kernel[id] == Received;
      if accepted {
        kernel := kernel[id := Answered(effect)];
      }
      sends := sends + [Send(id, effect, byGuardian, accepted)];
    }
  }

  /** The locals of the guardian's loop. */
  class LeaseGuardian {
    var generation: int
    var leases: map<nat, int>
    var decisions: seq<Message>
    var invalidIds: nat
    var crashReport: Option<nat>
    var recovery: Option<Recovery>
    var raised: bool

    ghost function View(): Guardian
      reads this
    {
      Guardian(RecoverLease, generation, leases, decisions, invalidIds, crashReport, recovery,
               if raised then Failed else Watching)
    }

    constructor ()
      ensures View() == Initial(RecoverLease, PLAIN).guardian
    {
      generation, leases, decisions, invalidIds := 1, map[], [], 0;
      crashReport, recovery, raised := None, None, false;
    }

    method HandleReport(m: Message)
      modifies this
      ensures View() == Note(old(View()), m)
    {
      if m.Lease? {
        leases := leases[m.id := m.tid];
      } else if m.Decision? {
        decisions := decisions + [m];
        leases := map[];
      } else if m.Invalid? {
        invalidIds := invalidIds + 1;
      } else if m.CrashBeforeSend? {
        crashReport := Some(m.id);
      }
    }

    /** `respond_to_lease`: an invalid notification or an unreadable thread is never answered. */
    method Respond(listener: Listener, w: World, id: nat, tid: int, luck: Luck, ghost s: System)
      returns (result: Option<Recovery>)
      requires s.kernel == listener.kernel && s.sends == listener.sends
      modifies listener
      ensures RespondToLease(w, s, id, tid, luck) ==
              (s.(kernel := listener.kernel, sends := listener.sends), result)
      ensures result == Some(INVALID) || result == Some(UNRESOLVED) ==> listener.sends == old(listener.sends)
    {
      var valid := listener.IsValid(id);
      if !valid {
        return Some(INVALID);
      }
      if !luck.readable {
        return Some(UNRESOLVED);
      }
      var deny := w.tgid(tid) == w.targetPid;
      if luck.vanishes {
        listener.Perish(id);
      }
      var accepted := listener.Answer(id, if deny then DENY else ALLOW, true);
      result := if accepted then Some(Resolved(if deny then DENY else ALLOW)) else None;
    }

    /** The end-of-channel branch of the loop. `s` is the whole system as the protocol sees it; the
        method leaves exactly the protocol's next kernel, answers and guardian. */
    method HandleEnd(listener: Listener, exitCode: int, w: World, luck: Luck, ghost s: System)
      returns (replacement: Option<Broker>)
      requires s.kernel == listener.kernel && s.sends == listener.sends && s.guardian == View()
      requires s.broker.pc.Exited? && s.broker.pc.code == exitCode
      modifies this, listener
      ensures var s' := EndOfChannel(w, s, luck);
              && listener.kernel == s'.kernel && listener.sends == s'.sends && View() == s'.guardian
              && (replacement.Some? ==> replacement.value == s'.broker && s'.channel == [])
              && (replacement.None? ==> raised)
    {
      replacement := None;
      if exitCode != EXIT_BEFORE_SEND || generation != 1 || crashReport.None? {
        raised := true;
        return;
      }
      var id := crashReport.value;
      if id !in leases {
        raised := true;
        return;
      }
      var result := Respond(listener, w, id, leases[id], luck, s);
      if result.None? {
        raised := true;
        return;
      }
      recovery := result;
      generation := generation + 1;
      if !luck.starts {
        raised := true;
        return;
      }
      replacement := Some(Broker(generation, PLAIN, AtReceive, 0, 0));
      leases := map[];
    }
  }
}
