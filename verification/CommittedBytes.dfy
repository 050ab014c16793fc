/**
 No entry is lost: the files of both streams hold what the engine has committed since the
 start of the session, and the replies are a prefix of it.
*/
module CommittedBytes {
  import opened Basics
  import opened SegmentStreams
  import opened TraceSessions
  import opened AccessSwitch

  /** What a step makes the engine commit to the trace log, or to the access log. */
  function Committed(s: Session, step: Step, access: bool): seq<octet> {
    match step
    case EngineWrites(data, accessData) =>
      if access then if s.active && s.accessEnabled && s.engines.Of(s.cpu).accessLog then accessData else []
      else if s.active && GetFlags(s).file then data else []
    case DrainRequest(a) => if !access && a.seal && s.active && s.capturing then a.flushed else []
    case _ => []
  }

  lemma {:induction false} WrittenSeal(log: Log, caps: Caps)
    ensures Written(Evict(Seal(log), caps)) == Written(log)
    ensures Written(Evict(Open(Seal(TakeIndex(log))), caps)) == Written(log)
    ensures Written(TakeIndex(Seal(log))) == Written(log)
  {
    EvictFrame(Seal(log), caps);
    EvictFrame(Open(Seal(TakeIndex(log))), caps);
    if log.stream.open.Some? {
      var sealed := log.history.sealed + [log.stream.open.value];
      assert sealed[..|sealed| - 1] == log.history.sealed;
    }
  }

  lemma {:induction false} WrittenAppend(log: Log, data: seq<octet>)
    requires log.stream.open.Some?
    ensures Written(Append(log, data)) == Written(log) + data
  {
  }

  lemma {:induction false} WrittenRotateAccess(s: Session, pathOk: bool)
    ensures Written(RotateAccess(s, pathOk).access) == Written(s.access)
  {
    WrittenSeal(s.access, s.accessCaps);
    SealTakeCommute(s.access);
  }

  lemma {:induction false} WrittenRotate(s: Session, rotateAccess: bool, pathOk: bool, accessPathOk: bool)
    ensures Written(RotateTrace(s, rotateAccess, pathOk, accessPathOk).trace) == Written(s.trace)
    ensures Written(RotateTrace(s, rotateAccess, pathOk, accessPathOk).access) == Written(s.access)
  {
    WrittenSeal(s.trace, s.traceCaps);
    WrittenRotateAccess(RotateTrace(s, false, pathOk, accessPathOk), accessPathOk);
  }

  lemma {:induction false} WrittenSealTrace(s: Session)
    ensures Written(SealTrace(s).trace) == Written(s.trace)
    ensures Written(SealTrace(s).access) == Written(s.access)
  {
    WrittenSeal(s.trace, s.traceCaps);
    WrittenSeal(s.access, s.accessCaps);
  }

  lemma {:induction false} WrittenFinish(s: Session)
    ensures Written(Finish(s).trace) == Written(s.trace)
    ensures Written(Finish(s).access) == Written(s.access)
  {
    var s1 := SetEnabled(if s.accessEnabled then SealAccess(s) else s, false);
    WrittenSeal(s.access, s.accessCaps);
    WrittenSealTrace(s1);
  }

  /** What was written grows by exactly what the step commits. */
  ghost predicate Grows(s: Session, step: Step, t: Session) {
    && Written(t.trace) == Written(s.trace) + Committed(s, step, false)
    && Written(t.access) == Written(s.access) + Committed(s, step, true)
  }

  ghost predicate SameWritten(s: Session, t: Session) {
    Written(t.trace) == Written(s.trace) && Written(t.access) == Written(s.access)
  }

  lemma {:induction false} NothingCommitted(s: Session, step: Step, t: Session)
    requires !step.EngineWrites? && !step.DrainRequest? && SameWritten(s, t)
    ensures Grows(s, step, t)
  {
  }

  lemma {:induction false} GrowsThenSame(s: Session, step: Step, t: Session, u: Session)
    requires Grows(s, step, t) && SameWritten(t, u)
    ensures Grows(s, step, u)
  {
  }

  lemma {:induction false} WrittenSealForDrain(s: Session, a: DrainArgs)
    requires Armed(s)
    ensures Grows(s, DrainRequest(a), SealForDrain(s, a))
  {
    if a.seal && s.active && s.capturing {
      var gated := SetEnabled(s, false);
      var flushed := gated.(trace := Append(gated.trace, a.flushed));
      WrittenAppend(s.trace, a.flushed);
      if s.continuous {
        WrittenRotate(flushed, true, a.pathOk, a.accessPathOk);
      } else {
        WrittenSealTrace(flushed);
      }
    }
  }

  lemma {:induction false} WrittenDrain(log: Log, a: DrainArgs)
    ensures Written(Drain(log, a.maxBytes, a.readable).0) == Written(log)
  {
    DrainFrame(log, a.maxBytes, a.readable);
  }

  lemma {:induction false} WrittenRead(s: Session, a: DrainArgs)
    ensures SameWritten(s, ReadStep(s, a).0)
  {
    if a.access {
      WrittenDrain(s.access, a);
    } else {
      WrittenDrain(s.trace, a);
    }
  }

  lemma {:induction false} WrittenByMonitor(w: World, step: Step)
    requires step.MonitorSealWindow? || step.MonitorOpenWindow? || step.MonitorRotate?
    ensures SameWritten(w.session, Next(w, step).session)
  {
    match step
    case MonitorSealWindow => WrittenSealTrace(w.session);
    case MonitorOpenWindow(pathOk, accessPathOk) => WrittenRotate(w.session, true, pathOk, accessPathOk);
    case MonitorRotate(pathOk, accessPathOk) => WrittenRotate(w.session, true, pathOk, accessPathOk);
  }

  ghost predicate AccessArmed(s: Session) {
    s.active ==> if s.accessEnabled then s.engines.Of(s.cpu).accessLog == s.access.stream.open.Some?
                 else s.access.stream.open.None?
  }

  lemma {:induction false} WrittenByEngine(w: World, step: Step)
    requires Armed(w.session) && AccessArmed(w.session) && step.EngineWrites?
    ensures Grows(w.session, step, Next(w, step).session)
  {
    var s := w.session;
    if s.active && GetFlags(s).file { WrittenAppend(s.trace, step.data); }
    if s.active && s.accessEnabled && s.engines.Of(s.cpu).accessLog { WrittenAppend(s.access, step.accessData); }
  }

  lemma {:induction false} WrittenByDrain(w: World, step: Step)
    requires Armed(w.session) && step.DrainRequest?
    ensures Grows(w.session, step, Next(w, step).session)
  {
    var sealed := SealForDrain(w.session, step.drain);
    WrittenSealForDrain(w.session, step.drain);
    WrittenRead(sealed, step.drain);
    GrowsThenSame(w.session, step, sealed, Next(w, step).session);
  }

  lemma {:induction false} WrittenByEnding(w: World, step: Step)
    requires step.MonitorFinish? || (step.StopSession? && !step.deleteFiles)
    ensures SameWritten(w.session, Next(w, step).session)
  {
    WrittenFinish(w.session);
  }

  lemma {:induction false} WrittenByLoss(w: World, step: Step)
    requires step.ProcessorLost?
    ensures SameWritten(w.session, Next(w, step).session)
  {
    var s := w.session;
    assert s.active ==> Finish(s.(present := false)) == s.(present := false, active := false, capturing := false);
  }

  lemma {:induction false} WrittenBySwitches(w: World, step: Step)
    requires step.MonitorCloseGate? || step.UserSets?
    ensures SameWritten(w.session, Next(w, step).session)
  {
  }

  predicate DropsFiles(step: Step) {
    step.StartSession? || (step.StopSession? && step.deleteFiles)
  }

  /** Between a start and the deletion of its files, no step changes what was written
      except by appending what the engine commits: rotations, seals, evictions and drains
      drop and reorder nothing. */
  lemma {:induction false} NoEntryLost(w: World, step: Step)
    requires Armed(w.session) && AccessArmed(w.session) && !DropsFiles(step)
    ensures Grows(w.session, step, Next(w, step).session)
  {
    match step {
      case EngineWrites(_, _) => WrittenByEngine(w, step);
      case DrainRequest(_) => WrittenByDrain(w, step);
      case MonitorCloseGate => WrittenBySwitches(w, step);
      case UserSets(_, _) => WrittenBySwitches(w, step);
      case MonitorFinish => WrittenByEnding(w, step);
      case StopSession(_) => WrittenByEnding(w, step);
      case ProcessorLost(_) => WrittenByLoss(w, step);
      case _ => WrittenByMonitor(w, step);
    }
    if !step.EngineWrites? && !step.DrainRequest? { NothingCommitted(w.session, step, Next(w, step).session); }
  }

  /** Everything the engine committed to one of the logs since the last start. */
  function CommittedSince(engines: Engines, steps: seq<Step>, access: bool): seq<octet> {
    if steps == [] then []
    else
      var init, step := steps[..|steps| - 1], steps[|steps| - 1];
      if DropsFiles(step) then []
      else CommittedSince(engines, init, access) + Committed(FromIdle(engines, init).session, step, access)
  }

  lemma {:induction false} NothingWrittenYet(s: Session, step: Step, user: Engines)
    requires DropsFiles(step)
    ensures var t := Next(World(s, user), step).session; Written(t.trace) == [] && Written(t.access) == []
  {
    if step.StartSession? { StartsEmpty(DeleteFiles(Finish(s)), step.start); }
  }

  lemma {:induction false} StartsEmpty(cleared: Session, a: StartArgs)
    requires Written(cleared.trace) == [] && Written(cleared.access) == []
    ensures var t := StartCleared(cleared, a).0; Written(t.trace) == [] && Written(t.access) == []
  {
    if !cleared.engines.Of(a.cpu).flags.file && a.dirOk {
      var armed := Armable(cleared, a);
      ArmedEmpty(cleared, a);
      if armed.trace.stream.open.Some? && a.fileOk && !a.threadOk { WrittenFinish(armed); }
    }
  }

  lemma {:induction false} ArmedEmpty(cleared: Session, a: StartArgs)
    ensures var t := Armable(cleared, a); Written(t.trace) == [] && Written(t.access) == []
  {
    var begun := Begin(cleared, a);
    var switched := SetFlags(begun, GetFlags(begun).(disassemble := a.disassemble));
    AccessEmpty(switched, a);
    WrittenRotate(StartAccess(switched, a), false, a.pathOk, false);
  }

  lemma {:induction false} AccessEmpty(s: Session, a: StartArgs)
    requires s.trace == EmptyLog && s.access == EmptyLog
    ensures StartAccess(s, a).trace == EmptyLog && Written(StartAccess(s, a).access) == []
  {
    WrittenRotateAccess(s, a.accessPathOk);
  }

  /** Over every run the files of either stream hold exactly what was committed since the start. */
  lemma {:induction false} WrittenOverRuns(engines: Engines, steps: seq<Step>, access: bool)
    ensures var s := FromIdle(engines, steps).session;
            Written(if access then s.access else s.trace) == CommittedSince(engines, steps, access)
  {
    if steps != [] {
      var init, step := steps[..|steps| - 1], steps[|steps| - 1];
      var before := FromIdle(engines, init);
      if DropsFiles(step) {
        NothingWrittenYet(before.session, step, before.user);
      } else {
        WrittenOverRuns(engines, init, access);
        AllRunsGood(engines, init);
        SwitchOverRuns(engines, init, before.session.cpu);
        NoEntryLost(before, step);
      }
    }
  }

  /** No entry lost, over any run and for either stream: while no unread eviction is counted, the
      bytes of all replies are a prefix of what the engine committed since the start, and
      all of it once nothing is pending or open. */
  lemma {:induction false} RepliesAreCommitted(engines: Engines, steps: seq<Step>, access: bool)
    requires var s := FromIdle(engines, steps).session;
             s.hasDir && (if access then s.access else s.trace).stream.evictedUnread == 0
    ensures var s := FromIdle(engines, steps).session;
            var log := if access then s.access else s.trace;
            var replied := Bytes(Output(log.history.replies));
            && replied <= CommittedSince(engines, steps, access)
            && (Position(log.stream.sealed, log.stream.drainSegment) == |log.stream.sealed| && log.stream.open.None? ==>
                  replied == CommittedSince(engines, steps, access))
  {
    AllRunsGood(engines, steps);
    WrittenOverRuns(engines, steps, access);
    var s := FromIdle(engines, steps).session;
    RepliesArePrefix(if access then s.access else s.trace);
  }
}
