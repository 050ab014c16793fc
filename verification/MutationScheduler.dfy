/**
 The scheduler's objects: the target, the control registry, the audit log and the server
 that runs one mutation through them. Every method is tied to the steps of MutationSteps.
 What other callers do between two steps of a running mutation is given as a schedule.
*/
module MutationScheduler {
  import opened Basics
  import opened MutationSteps
  import AuditLogs

  class Target {
    var generation: nat
    var unknown: bool

    constructor ()
      ensures generation == 1 && !unknown
    {
      generation, unknown := 1, false;
    }

    method MarkUnknown()
      modifies this
      ensures generation == old(generation) && unknown
    {
      unknown := true;
    }

    method ResynchronizeIfUnknown() returns (result: nat)
      modifies this
      ensures !unknown
      ensures generation == old(generation) + (if old(unknown) then 1 else 0)
      ensures result == if old(unknown) then generation else 0
    {
      if !unknown {
        return 0;
      }
      generation := generation + 1;
      unknown := false;
      return generation;
    }

    method Advance() returns (result: nat)
      modifies this
      ensures !unknown && generation == old(generation) + 1 && result == generation
    {
      generation := generation + 1;
      unknown := false;
      return generation;
    }
  }

  /** What happened to the lock, for the audit: whether it was dropped by this touch. */
  class ControlRegistry {
    var lock: Option<Lock>

    constructor ()
      ensures lock.None?
    {
      lock := None;
    }

    /** The live lock; one that has run out is dropped, which the caller hears of. */
    method Active(now: int) returns (live: Option<Lock>, dropped: bool)
      modifies this
      ensures live == lock && lock == (if Live(old(lock), now) then old(lock) else None)
      ensures dropped == (old(lock).Some? && lock.None?)
    {
      if lock.None? {
        return None, false;
      }
      if now > lock.value.expiresAt {
        lock := None;
        return None, true;
      }
      return lock, false;
    }

    method Acquire(id: string, ttl: int, now: int) returns (taken: bool, dropped: bool)
      modifies this
      ensures taken == !Live(old(lock), now) && dropped == (old(lock).Some? && taken)
      ensures lock == if taken then Some(Lock(id, now + Ttl(ttl))) else old(lock)
      ensures taken ==> lock.value.expiresAt <= now + MAX_CONTROL_TTL
    {
      var existing;
      existing, dropped := Active(now);
      if existing.Some? {
        return false, dropped;
      }
      lock := Some(Lock(id, now + Ttl(ttl)));
      return true, dropped;
    }

    method Renew(id: string, ttl: int, now: int) returns (renewed: bool, dropped: bool)
      modifies this
      ensures renewed == (Live(old(lock), now) && old(lock).value.id == id)
      ensures dropped == (old(lock).Some? && !Live(old(lock), now))
      ensures lock == if renewed then Some(Lock(id, now + Ttl(ttl))) else if dropped then None else old(lock)
    {
      var existing;
      existing, dropped := Active(now);
      if existing.None? || existing.value.id != id {
        return false, dropped;
      }
      lock := Some(Lock(id, now + Ttl(ttl)));
      return true, dropped;
    }

    method Release(id: string) returns (released: bool)
      modifies this
      ensures released == (old(lock).Some? && old(lock).value.id == id)
      ensures lock == if released then None else old(lock)
    {
      if lock.None? || lock.value.id != id {
        return false;
      }
      lock := None;
      return true;
    }
  }

  datatype Reply =
    | Done(before: nat, after: nat)
    | PartiallyDone(before: nat, after: nat)
    | ConflictReply
    | HeldReply
    | FailedReply
    | AmbiguousReply

  /** A reply about a native action says what the audit says of it. */
  predicate Reported(reply: Reply, audit: seq<Entry>) {
    match reply
    case Done(before, after) => audit != [] && audit[|audit| - 1] == Entry(OK, Some(before), Some(after))
    case PartiallyDone(before, after) =>
      audit != [] && audit[|audit| - 1] == Entry(PartialOutcome, Some(before), Some(after))
    case AmbiguousReply => audit != [] && audit[|audit| - 1].outcome.Ambiguous?
    case _ => true
  }

  predicate FromOthers(step: Step) {
    step.Observe? || step.Acquire? || step.Renew? || step.Release? || step.DropAny? || step.Note?
  }

  /** What other callers do between the five steps of a call, and what the clock says. */
  datatype Schedule = Schedule(
    afterBegin: seq<Step>, afterUnknown: seq<Step>, afterActive: seq<Step>, beforeNative: seq<Step>,
    activeAt: int, validAt: int)
  {
    ghost predicate Valid() {
      AllFromOthers(afterBegin) && AllFromOthers(afterUnknown) && AllFromOthers(afterActive) && AllFromOthers(beforeNative)
    }
  }

  ghost predicate AllFromOthers(steps: seq<Step>) {
    forall k :: 0 <= k < |steps| ==> FromOthers(steps[k])
  }

  lemma {:induction false} RunOne(s: State, steps: seq<Step>, step: Step)
    ensures Run(s, steps + [step]) == Next(Run(s, steps), step)
  {
    assert (steps + [step])[..|steps + [step]| - 1] == steps;
  }

  class Server {
    const target: Target
    const controls: ControlRegistry
    const log: AuditLogs.AuditLog
    ghost var phase: Phase
    ghost var facts: seq<Fact>
    ghost var calls: nat

    ghost predicate Valid()
      reads this, log
    {
      log.Valid()
    }

    ghost function View(): State
      reads this, target, controls, log
    {
      State(target.generation, target.unknown, controls.lock, phase, facts, log.stream, calls)
    }

    constructor ()
      ensures Valid() && View() == Init
      ensures fresh(target) && fresh(controls) && fresh(log)
    {
      target := new Target();
      controls := new ControlRegistry();
      log := new AuditLogs.AuditLog();
      phase, facts, calls := Idle, [], 0;
    }

    method RecordAudit(outcome: Outcome, before: Option<nat>, after: Option<nat>)
      requires Valid()
      modifies log
      ensures Valid() && View() == Append(old(View()), outcome, before, after)
    {
      var _ := log.Record(AuditLogs.AuditEntry(0, 0, "", "", "", Entry(outcome, before, after)), 0);
    }

    /** The control registry's lazy expiry, with its drop hook. */
    method TouchLock(now: int) returns (live: Option<Lock>)
      requires Valid()
      modifies controls, log
      ensures Valid() && View() == Touch(old(View()), now) && live == View().lock
    {
      var dropped;
      live, dropped := controls.Active(now);
      if dropped {
        RecordAudit(LockEvent, None, None);
      }
    }

    // ------------------------------------------------------------ other callers

    method ObserveTarget()
      requires Valid()
      modifies this, target
      ensures Valid() && View() == Next(old(View()), Observe)
    {
      ghost var was := target.unknown;
      var _ := target.ResynchronizeIfUnknown();
      if was {
        facts := facts + [Resynced];
      }
    }

    method AcquireControl(id: string, ttl: int, now: int) returns (taken: bool)
      requires Valid()
      modifies controls, log
      ensures Valid() && View() == Next(old(View()), Step.Acquire(id, ttl, now))
    {
      var dropped;
      taken, dropped := controls.Acquire(id, ttl, now);
      if dropped {
        RecordAudit(LockEvent, None, None);
      }
    }

    method RenewControl(id: string, ttl: int, now: int) returns (renewed: bool)
      requires Valid()
      modifies controls, log
      ensures Valid() && View() == Next(old(View()), Step.Renew(id, ttl, now))
    {
      var dropped;
      renewed, dropped := controls.Renew(id, ttl, now);
      if dropped {
        RecordAudit(LockEvent, None, None);
      }
    }

    method ReleaseControl(id: string) returns (released: bool)
      requires Valid()
      modifies controls, log
      ensures Valid() && View() == Next(old(View()), Step.Release(id))
    {
      released := controls.Release(id);
      if released {
        RecordAudit(LockEvent, None, None);
      }
    }

    method DropAnyControl(now: int)
      requires Valid()
      modifies controls, log
      ensures Valid() && View() == Next(old(View()), Step.DropAny(now))
    {
      var live := TouchLock(now);
      if live.Some? {
        var released := controls.Release(live.value.id);
        RecordAudit(LockEvent, None, None);
      }
    }

    method PerformOther(step: Step)
      requires Valid() && FromOthers(step)
      modifies this, target, controls, log
      ensures Valid() && View() == Next(old(View()), step) && phase == old(phase)
    {
      match step
      case Observe => ObserveTarget();
      case Acquire(id, ttl, now) => var _ := AcquireControl(id, ttl, now);
      case Renew(id, ttl, now) => var _ := RenewControl(id, ttl, now);
      case Release(id) => var _ := ReleaseControl(id);
      case DropAny(now) => DropAnyControl(now);
      case Note => RecordAudit(Noted, None, None);
    }

    /** The steps of others, after those that led here from the start. */
    method PerformOthers(steps: seq<Step>, ghost start: State, ghost before: seq<Step>)
      requires Valid() && AllFromOthers(steps) && View() == Run(start, before)
      modifies this, target, controls, log
      ensures Valid() && View() == Run(start, before + steps)
      ensures phase == old(phase)
    {
      var k := 0;
      assert before + steps[..0] == before;
      while k < |steps|
        invariant 0 <= k <= |steps|
        invariant Valid() && View() == Run(start, before + steps[..k]) && phase == old(phase)
      {
        PerformOther(steps[k]);
        RunOne(start, before + steps[..k], steps[k]);
        assert before + steps[..k] + [steps[k]] == before + steps[..k + 1];
        k := k + 1;
      }
      assert steps[..k] == steps;
    }

    // ------------------------------------------------------------ one mutation

    /** The guard on an unknown revision and on the expected generation. */
    method CheckGeneration(guard: Guard, current: nat) returns (ok: bool)
      requires Valid() && phase.Began? && phase.call.guard == guard && phase.current == current
      modifies this, log
      ensures Valid() && View() == Next(old(View()), CheckUnknown)
      ensures ok == !phase.Idle?
    {
      if target.unknown && guard.expected.Some? {
        RecordAudit(Conflict, None, None);
        phase := Idle;
        return false;
      }
      if guard.expected.Some? && guard.expected.value != current {
        RecordAudit(Conflict, None, None);
        phase := Idle;
        return false;
      }
      phase := Checked(phase.call, current, phase.readAt, |facts|);
      return true;
    }

    /** The server-local preconditions; past them the native action starts. */
    method Prepare(call: Call, current: nat) returns (ok: bool)
      requires Valid() && (phase.Checked? || phase.LockSeen?) && phase.call == call && phase.current == current
      modifies this, log
      ensures Valid() && View() == Admit(old(View()), call, current, old(phase).readAt, old(phase).checkedAt)
      ensures ok == call.prepareOk
    {
      if !call.prepareOk {
        RecordAudit(Failed, Some(current), Some(current));
        phase := Idle;
        return false;
      }
      facts := facts + [Reached(call.guard.controlId, call.guard.expected, phase.readAt, phase.checkedAt)];
      phase := Admitted(call, current, phase.readAt);
      return true;
    }

    /** The target changed: the generation advances and the call's interval is recorded. */
    method Land(current: nat, outcome: Outcome) returns (after: nat)
      requires Valid()
      modifies this, target, log
      ensures Valid() && after == old(target.generation) + 1
      ensures View() == EndCall(Advance(old(View()), Landed), outcome, Some(current), Some(after))
    {
      after := target.Advance();
      facts := facts + [Landed];
      RecordAudit(outcome, Some(current), Some(after));
      phase := Idle;
    }

    /** The native action has answered. */
    method Conclude(current: nat, outcome: NativeOutcome) returns (reply: Reply)
      requires Valid() && phase.Admitted? && phase.current == current
      modifies this, target, log
      ensures Valid() && View() == Finish(old(View()), current, outcome)
      ensures match outcome
              case Succeeded => reply == Done(current, target.generation)
              case Partial => reply == PartiallyDone(current, target.generation)
              case Refused => reply == FailedReply
              case Unclear => reply == AmbiguousReply
      ensures Reported(reply, View().audit)
    {
      match outcome
      case Partial =>
        var after := Land(current, PartialOutcome);
        reply := PartiallyDone(current, after);
      case Unclear =>
        target.MarkUnknown();
        facts := facts + [WentUnknown];
        RecordAudit(Ambiguous, Some(current), None);
        phase := Idle;
        reply := AmbiguousReply;
      case Refused =>
        RecordAudit(Failed, Some(current), Some(current));
        phase := Idle;
        reply := FailedReply;
      case Succeeded =>
        var after := Land(current, OK);
        reply := Done(current, after);
    }

    /** One call from taking the scheduler lock to releasing it, with others at work in between:
        what it does to the server is a run of the step machine that holds the call's own
        steps in order, as far as it got, and the scheduled steps of the others. */
    method ExecuteMutation(call: Call, outcome: NativeOutcome, schedule: Schedule)
        returns (reply: Reply, ghost trace: seq<Step>)
      requires Valid() && phase.Idle? && schedule.Valid()
      modifies this, target, controls, log
      ensures Valid() && phase.Idle? && View() == Run(old(View()), trace)
      ensures Scheduled(trace, call, outcome, schedule, reply) && Reported(reply, View().audit)
    {
      ghost var start := View();
      var current;
      current := BeginCall(call);
      RunOne(start, [], Begin(call));
      assert [] + [Begin(call)] == [Begin(call)];
      PerformOthers(schedule.afterBegin, start, [Begin(call)]);
      trace := [Begin(call)] + schedule.afterBegin;

      RunOne(start, trace, CheckUnknown);
      trace := trace + [CheckUnknown];
      var ok := CheckGeneration(call.guard, current);
      if !ok {
        return ConflictReply, trace;
      }
      ghost var checked := trace;
      PerformOthers(schedule.afterUnknown, start, checked);
      reply, trace := EnterUnderLock(call, current, outcome, schedule, start, checked + schedule.afterUnknown);
    }

    /** The scheduler lock is taken and the generation read. */
    method BeginCall(call: Call) returns (current: nat)
      requires Valid() && phase.Idle?
      modifies `phase, `calls
      ensures Valid() && View() == Next(old(View()), Begin(call))
      ensures phase.Began? && phase.call == call && phase.current == current
    {
      current := target.generation;
      phase, calls := Began(call, current, |facts|), calls + 1;
    }

    /** The call past its generation checks: the control lock, preparation, the native action. */
    method EnterUnderLock(call: Call, current: nat, outcome: NativeOutcome, schedule: Schedule,
                          ghost start: State, ghost before: seq<Step>)
        returns (reply: Reply, ghost trace: seq<Step>)
      requires Valid() && phase.Checked? && phase.call == call && phase.current == current
      requires schedule.Valid() && View() == Run(start, before)
      modifies this, target, controls, log
      ensures Valid() && phase.Idle? && View() == Run(start, trace)
      ensures ScheduledUnderLock(trace, before, outcome, schedule, reply) && Reported(reply, View().audit)
    {
      var admitted, ok;
      admitted, ok, trace := PassLock(call, current, schedule, start, before);
      if !admitted {
        return HeldReply, trace;
      }
      if !ok {
        return FailedReply, trace;
      }
      reply, trace := GoNative(current, outcome, schedule, start, trace);
    }

    method GoNative(current: nat, outcome: NativeOutcome, schedule: Schedule,
                    ghost start: State, ghost before: seq<Step>)
        returns (reply: Reply, ghost trace: seq<Step>)
      requires Valid() && phase.Admitted? && phase.current == current
      requires schedule.Valid() && View() == Run(start, before)
      modifies this, target, controls, log
      ensures Valid() && phase.Idle? && View() == Run(start, trace)
      ensures trace == before + schedule.beforeNative + [Native(outcome)]
      ensures match outcome
              case Succeeded => reply.Done?
              case Partial => reply.PartiallyDone?
              case Refused => reply.FailedReply?
              case Unclear => reply.AmbiguousReply?
      ensures Reported(reply, View().audit)
    {
      PerformOthers(schedule.beforeNative, start, before);
      RunOne(start, before + schedule.beforeNative, Native(outcome));
      trace := before + schedule.beforeNative + [Native(outcome)];
      reply := Conclude(current, outcome);
    }

    /** The control lock and, when it lets the call in, preparation. */
    method PassLock(call: Call, current: nat, schedule: Schedule, ghost start: State, ghost before: seq<Step>)
        returns (admitted: bool, ok: bool, ghost trace: seq<Step>)
      requires Valid() && phase.Checked? && phase.call == call && phase.current == current
      requires schedule.Valid() && View() == Run(start, before)
      modifies this, target, controls, log
      ensures Valid() && View() == Run(start, trace)
      ensures if admitted && ok then phase.Admitted? && phase.current == current else phase.Idle?
      ensures (admitted && trace == Entered(before, schedule)) || trace == Owned(before, schedule)
    {
      RunOne(start, before, CheckActive(schedule.activeAt));
      trace := Entered(before, schedule);
      var live := TouchLock(schedule.activeAt);
      if live.Some? {
        phase := LockSeen(call, current, phase.readAt, phase.checkedAt);
        admitted, ok, trace := PassOwner(call, current, schedule, start, before);
      } else {
        ok := Prepare(call, current);
        admitted := true;
      }
    }

    /** A lock is held: only its owner gets past it. */
    method PassOwner(call: Call, current: nat, schedule: Schedule, ghost start: State, ghost before: seq<Step>)
        returns (admitted: bool, ok: bool, ghost trace: seq<Step>)
      requires Valid() && phase.LockSeen? && phase.call == call && phase.current == current
      requires schedule.Valid() && View() == Run(start, Entered(before, schedule))
      modifies this, target, controls, log
      ensures Valid() && View() == Run(start, trace) && trace == Owned(before, schedule)
      ensures if admitted && ok then phase.Admitted? && phase.current == current else phase.Idle?
    {
      PerformOthers(schedule.afterActive, start, Entered(before, schedule));
      RunOne(start, Entered(before, schedule) + schedule.afterActive, CheckValid(schedule.validAt));
      trace := Owned(before, schedule);
      var owner := TouchLock(schedule.validAt);
      if owner.None? || owner.value.id != call.guard.controlId {
        RecordAudit(Held, None, None);
        phase := Idle;
        return false, false, trace;
      }
      ok := Prepare(call, current);
      admitted := true;
    }
  }

  ghost function Entered(before: seq<Step>, schedule: Schedule): seq<Step> {
    before + [CheckActive(schedule.activeAt)]
  }

  ghost function Owned(before: seq<Step>, schedule: Schedule): seq<Step> {
    Entered(before, schedule) + schedule.afterActive + [CheckValid(schedule.validAt)]
  }

  /** The steps of a call that ended with the given reply, others' steps in their places. */
  ghost predicate Scheduled(trace: seq<Step>, call: Call, outcome: NativeOutcome, schedule: Schedule, reply: Reply) {
    var checked := [Begin(call)] + schedule.afterBegin + [CheckUnknown];
    if reply.ConflictReply? then trace == checked
    else ScheduledUnderLock(trace, checked + schedule.afterUnknown, outcome, schedule, reply)
  }

  ghost predicate ScheduledUnderLock(
    trace: seq<Step>, before: seq<Step>, outcome: NativeOutcome, schedule: Schedule, reply: Reply)
  {
    match reply
    case ConflictReply => false
    case HeldReply => trace == Owned(before, schedule)
    case Done(_, _) => outcome.Succeeded? && WentNative(trace, before, outcome, schedule)
    case PartiallyDone(_, _) => outcome.Partial? && WentNative(trace, before, outcome, schedule)
    case AmbiguousReply => outcome.Unclear? && WentNative(trace, before, outcome, schedule)
    case FailedReply =>
      || trace == Entered(before, schedule) || trace == Owned(before, schedule)
      || (outcome.Refused? && WentNative(trace, before, outcome, schedule))
  }

  ghost predicate WentNative(trace: seq<Step>, before: seq<Step>, outcome: NativeOutcome, schedule: Schedule) {
    || trace == Entered(before, schedule) + schedule.beforeNative + [Native(outcome)]
    || trace == Owned(before, schedule) + schedule.beforeNative + [Native(outcome)]
  }
}
