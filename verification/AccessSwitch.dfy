/**
 The access-log switch of the engine, which a session does not put back: what every step
 does to it, and what a processor without a session is left with.
*/
module AccessSwitch {
  import opened Basics
  import opened SegmentStreams
  import opened TraceSessions

  /** A start that gets as far as arming the access log of the processor. */
  predicate ArmsAccess(w: World, a: StartArgs, cpu: Cpu) {
    a.cpu == cpu && a.wantAccess && a.accessPathOk && a.dirOk && !w.user.Of(cpu).flags.file
  }

  function LeftOnAfter(w: World, step: Step, cpu: Cpu, on: bool): bool {
    match step
    case StartSession(a) => if ArmsAccess(w, a, cpu) then !a.accessFileOk else on
    case ProcessorLost(engine) => if w.session.active && w.session.cpu == cpu then engine.accessLog else on
    case _ => on
  }

  /** The last one decides: a start that armed the access log leaves it on exactly when the file
      could not be opened; a processor loaded again brings its own switch. */
  function LeftOn(engines: Engines, steps: seq<Step>, cpu: Cpu): bool {
    if steps == [] then engines.Of(cpu).accessLog
    else
      var init := steps[..|steps| - 1];
      LeftOnAfter(FromIdle(engines, init), steps[|steps| - 1], cpu, LeftOn(engines, init, cpu))
  }

  /** A session that keeps an access log has it on exactly while a segment is open; every other
      processor has the switch as it was left. */
  ghost predicate AccessSwitch(s: Session, cpu: Cpu, left: bool) {
    if s.active && s.cpu == cpu && s.accessEnabled
    then !left && s.engines.Of(cpu).accessLog == s.access.stream.open.Some?
    else s.engines.Of(cpu).accessLog == left
  }

  ghost predicate NoAccessOpen(s: Session) {
    s.active && !s.accessEnabled ==> s.access.stream.open.None?
  }

  /** What the operations on an active session with its processor do to the access log. */
  ghost predicate KeepsAccess(s: Session, t: Session) {
    && t.active == s.active && t.cpu == s.cpu && t.present == s.present && t.accessEnabled == s.accessEnabled
    && t.engines.Of(Other(s.cpu)) == s.engines.Of(Other(s.cpu))
    && (s.accessEnabled && s.engines.Of(s.cpu).accessLog == s.access.stream.open.Some? ==>
          t.engines.Of(s.cpu).accessLog == t.access.stream.open.Some?)
    && (!s.accessEnabled ==> t.engines.Of(s.cpu).accessLog == s.engines.Of(s.cpu).accessLog && t.access == s.access)
  }

  lemma {:induction false} KeepsSwitch(s: Session, t: Session, cpu: Cpu, left: bool)
    requires s.active && KeepsAccess(s, t) && AccessSwitch(s, cpu, left) && NoAccessOpen(s)
    ensures AccessSwitch(t, cpu, left) && NoAccessOpen(t)
  {
    assert cpu == s.cpu || cpu == Other(s.cpu);
  }

  lemma {:induction false} SealAccessSwitch(s: Session)
    requires s.present && s.accessEnabled
    ensures var t := SealAccess(s);
            && KeepsAccess(s, t) && !t.engines.Of(s.cpu).accessLog && t.access.stream.open.None?
  {
    EvictFrame(Seal(s.access), s.accessCaps);
  }

  lemma {:induction false} SealTraceSwitch(s: Session)
    requires s.present
    ensures var t := SealTrace(s);
            KeepsAccess(s, t) && (s.accessEnabled ==> !t.engines.Of(s.cpu).accessLog && t.access.stream.open.None?)
  {
    EvictFrame(Seal(s.access), s.accessCaps);
  }

  lemma {:induction false} RotateAccessSwitch(s: Session, pathOk: bool)
    requires s.present && s.hasDir && s.accessEnabled
    ensures KeepsAccess(s, RotateAccess(s, pathOk))
  {
    EvictFrame(Open(TakeIndex(Seal(s.access))), s.accessCaps);
  }

  lemma {:induction false} RotateTraceSwitch(s: Session, rotateAccess: bool, pathOk: bool, accessPathOk: bool)
    requires s.present && s.hasDir
    ensures KeepsAccess(s, RotateTrace(s, rotateAccess, pathOk, accessPathOk))
  {
    var rotated := RotateTrace(s, false, pathOk, accessPathOk);
    assert KeepsAccess(s, rotated) && rotated.access == s.access
        && rotated.engines.Of(s.cpu).accessLog == s.engines.Of(s.cpu).accessLog;
    if pathOk && rotateAccess && s.accessEnabled { RotateAccessSwitch(rotated, accessPathOk); }
  }

  /** A session that kept an access log leaves it off; any other leaves it as it was. */
  lemma {:induction false} FinishSwitch(s: Session)
    requires s.active && s.present
    ensures var t := Finish(s);
            && !t.active && t.engines.Of(Other(s.cpu)) == s.engines.Of(Other(s.cpu))
            && (t.engines.Of(s.cpu).accessLog <==> !s.accessEnabled && s.engines.Of(s.cpu).accessLog)
  {
    if s.accessEnabled { SealAccessSwitch(s); }
    var s1 := SetEnabled(if s.accessEnabled then SealAccess(s) else s, false);
    SealTraceSwitch(s1);
  }

  lemma {:induction false} FinishLeaves(s: Session, cpu: Cpu, left: bool)
    requires (s.active ==> s.present) && AccessSwitch(s, cpu, left)
    ensures Finish(s).engines.Of(cpu).accessLog == left && !Finish(s).active
  {
    if s.active { FinishSwitch(s); }
  }

  lemma {:induction false} SealForDrainSwitch(s: Session, a: DrainArgs)
    requires a.seal && s.active && s.capturing && s.present && s.hasDir
    ensures KeepsAccess(s, SealForDrain(s, a))
  {
    var gated := SetEnabled(s, false);
    var flushed := gated.(trace := Append(gated.trace, a.flushed));
    if s.continuous {
      RotateTraceSwitch(flushed, true, a.pathOk, a.accessPathOk);
    } else {
      SealTraceSwitch(flushed);
    }
  }

  /** Arming in a start: afterwards the log is on with a file, on without one, or as before. */
  lemma {:induction false} StartAccessSwitch(s: Session, a: StartArgs, cpu: Cpu, left: bool)
    requires s.active && s.present && s.hasDir && s.cpu == a.cpu && s.access == EmptyLog && !s.accessEnabled
    requires s.engines.Of(cpu).accessLog == left
    ensures var t, arms := StartAccess(s, a), a.cpu == cpu && a.wantAccess && a.accessPathOk;
            AccessSwitch(t, cpu, if arms then !a.accessFileOk else left) && NoAccessOpen(t)
    ensures SameSession(s, StartAccess(s, a).(accessEnabled := s.accessEnabled))
  {
    if a.wantAccess { EvictFrame(Open(TakeIndex(Seal(s.access))), s.accessCaps); }
  }

  lemma {:induction false} ArmableSwitch(cleared: Session, a: StartArgs, cpu: Cpu, left: bool)
    requires cleared.engines.Of(cpu).accessLog == left
    ensures var t, arms := Armable(cleared, a), a.cpu == cpu && a.wantAccess && a.accessPathOk;
            && t.active && t.present && AccessSwitch(t, cpu, if arms then !a.accessFileOk else left) && NoAccessOpen(t)
  {
    var begun := Begin(cleared, a);
    var switched := SetFlags(begun, GetFlags(begun).(disassemble := a.disassemble));
    StartAccessSwitch(switched, a, cpu, left);
    var arms := a.cpu == cpu && a.wantAccess && a.accessPathOk;
    ReadySwitch(StartAccess(switched, a), a.pathOk, cpu, if arms then !a.accessFileOk else left);
  }

  lemma {:induction false} ReadySwitch(ready: Session, pathOk: bool, cpu: Cpu, left: bool)
    requires ready.active && ready.present && ready.hasDir && AccessSwitch(ready, cpu, left) && NoAccessOpen(ready)
    ensures var t := SetEnabled(RotateTrace(ready, false, pathOk, false), true);
            t.active && t.present && AccessSwitch(t, cpu, left) && NoAccessOpen(t)
  {
    var rotated := RotateTrace(ready, false, pathOk, false);
    RotateTraceSwitch(ready, false, pathOk, false);
    KeepsSwitch(ready, rotated, cpu, left);
    EnabledSwitch(rotated, true, cpu, left);
  }

  lemma {:induction false} EnabledSwitch(s: Session, on: bool, cpu: Cpu, left: bool)
    requires AccessSwitch(s, cpu, left) && NoAccessOpen(s)
    ensures AccessSwitch(SetEnabled(s, on), cpu, left) && NoAccessOpen(SetEnabled(s, on))
  {
  }

  lemma {:induction false} EndSwitch(s: Session, cpu: Cpu, left: bool)
    requires s.active && s.present && AccessSwitch(s, cpu, left)
    ensures var t := Finish(s); AccessSwitch(t, cpu, left) && NoAccessOpen(t)
    ensures var t := DeleteFiles(Finish(s)); AccessSwitch(t, cpu, left) && NoAccessOpen(t)
  {
    FinishLeaves(s, cpu, left);
  }

  lemma {:induction false} AbortSwitch(s: Session, cpu: Cpu, left: bool)
    requires s.active && s.present && AccessSwitch(s, cpu, left) && NoAccessOpen(s)
    ensures var t := DeleteFiles(Finish(SetEnabled(s, false))); AccessSwitch(t, cpu, left) && NoAccessOpen(t)
  {
    EnabledSwitch(s, false, cpu, left);
    EndSwitch(SetEnabled(s, false), cpu, left);
  }

  lemma {:induction false} StartClearedSwitch(cleared: Session, a: StartArgs, cpu: Cpu, left: bool)
    requires !cleared.active && cleared.engines.Of(cpu).accessLog == left
    ensures var t := StartCleared(cleared, a).0;
            var arms := a.cpu == cpu && a.wantAccess && a.accessPathOk && a.dirOk && !cleared.engines.Of(cpu).flags.file;
            AccessSwitch(t, cpu, if arms then !a.accessFileOk else left) && NoAccessOpen(t)
  {
    if !cleared.engines.Of(a.cpu).flags.file && a.dirOk {
      var armed, arms := Armable(cleared, a), a.cpu == cpu && a.wantAccess && a.accessPathOk;
      var after := if arms then !a.accessFileOk else left;
      ArmableSwitch(cleared, a, cpu, left);
      if armed.trace.stream.open.None? || !a.fileOk {
        AbortSwitch(armed, cpu, after);
      } else if !a.threadOk {
        EndSwitch(armed, cpu, after);
      }
    }
  }

  lemma {:induction false} StartSwitch(w: World, a: StartArgs, cpu: Cpu, left: bool)
    requires Armed(w.session) && Restored(w.session, w.user) && AccessSwitch(w.session, cpu, left)
    ensures var t := Start(w.session, a).0;
            AccessSwitch(t, cpu, LeftOnAfter(w, StartSession(a), cpu, left)) && NoAccessOpen(t)
  {
    FinishLeaves(w.session, cpu, left);
    FinishRestores(w.session, w.user, cpu);
    StartClearedSwitch(DeleteFiles(Finish(w.session)), a, cpu, left);
  }

  lemma {:induction false} FinishRestores(s: Session, user: Engines, cpu: Cpu)
    requires Armed(s) && Restored(s, user)
    ensures Finish(s).engines.Of(cpu).flags == user.Of(cpu).flags
  {
    if s.active { FinishFlags(s); }
    assert cpu == s.cpu || cpu == Other(s.cpu);
  }

  lemma {:induction false} LostSwitch(w: World, engine: Engine, cpu: Cpu, left: bool)
    requires AccessSwitch(w.session, cpu, left) && NoAccessOpen(w.session)
    ensures var t, step := Next(w, ProcessorLost(engine)).session, ProcessorLost(engine);
            AccessSwitch(t, cpu, LeftOnAfter(w, step, cpu, left)) && NoAccessOpen(t)
  {
  }

  lemma {:induction false} WritesSwitch(w: World, data: seq<octet>, accessData: seq<octet>, cpu: Cpu, left: bool)
    requires AccessSwitch(w.session, cpu, left) && NoAccessOpen(w.session)
    ensures var t := Next(w, EngineWrites(data, accessData)).session; AccessSwitch(t, cpu, left) && NoAccessOpen(t)
  {
  }

  lemma {:induction false} UserSwitch(w: World, step: Step, cpu: Cpu, left: bool)
    requires step.UserSets? && AccessSwitch(w.session, cpu, left) && NoAccessOpen(w.session)
    ensures AccessSwitch(Next(w, step).session, cpu, left) && NoAccessOpen(Next(w, step).session)
  {
  }

  lemma {:induction false} MonitorSwitch(w: World, step: Step, cpu: Cpu, left: bool)
    requires Armed(w.session) && AccessSwitch(w.session, cpu, left) && NoAccessOpen(w.session)
    requires step.MonitorCloseGate? || step.MonitorSealWindow? || step.MonitorOpenWindow? || step.MonitorRotate?
    ensures AccessSwitch(Next(w, step).session, cpu, left) && NoAccessOpen(Next(w, step).session)
  {
    var s := w.session;
    if s.active {
      match step
      case MonitorCloseGate => EnabledSwitch(s, false, cpu, left);
      case MonitorSealWindow =>
        SealTraceSwitch(s);
        KeepsSwitch(s, SealTrace(s), cpu, left);
      case MonitorOpenWindow(pathOk, accessPathOk) =>
        RotateSwitch(s, pathOk, accessPathOk, cpu, left);
        EnabledSwitch(RotateTrace(s, true, pathOk, accessPathOk), true, cpu, left);
      case MonitorRotate(pathOk, accessPathOk) =>
        RotateSwitch(s, pathOk, accessPathOk, cpu, left);
        EnabledSwitch(RotateTrace(s, true, pathOk, accessPathOk), true, cpu, left);
    }
  }

  lemma {:induction false} StepSwitch(w: World, step: Step, cpu: Cpu, left: bool)
    requires Armed(w.session) && Restored(w.session, w.user)
    requires AccessSwitch(w.session, cpu, left) && NoAccessOpen(w.session)
    ensures AccessSwitch(Next(w, step).session, cpu, LeftOnAfter(w, step, cpu, left)) && NoAccessOpen(Next(w, step).session)
  {
    match step
    case EngineWrites(data, accessData) => WritesSwitch(w, data, accessData, cpu, left);
    case UserSets(_, _) => UserSwitch(w, step, cpu, left);
    case MonitorFinish => FinishLeaves(w.session, cpu, left);
    case ProcessorLost(engine) => LostSwitch(w, engine, cpu, left);
    case StartSession(a) => StartSwitch(w, a, cpu, left);
    case DrainRequest(a) => DrainSwitch(w.session, a, cpu, left);
    case StopSession(_) => FinishLeaves(w.session, cpu, left);
    case _ => MonitorSwitch(w, step, cpu, left);
  }

  lemma {:induction false} RotateSwitch(s: Session, pathOk: bool, accessPathOk: bool, cpu: Cpu, left: bool)
    requires s.active && s.present && s.hasDir && AccessSwitch(s, cpu, left) && NoAccessOpen(s)
    ensures var t := RotateTrace(s, true, pathOk, accessPathOk); AccessSwitch(t, cpu, left) && NoAccessOpen(t)
  {
    RotateTraceSwitch(s, true, pathOk, accessPathOk);
    KeepsSwitch(s, RotateTrace(s, true, pathOk, accessPathOk), cpu, left);
  }

  lemma {:induction false} DrainSwitch(s: Session, a: DrainArgs, cpu: Cpu, left: bool)
    requires (s.active ==> s.present && s.hasDir) && AccessSwitch(s, cpu, left) && NoAccessOpen(s)
    ensures var t := DrainStep(s, a).0; AccessSwitch(t, cpu, left) && NoAccessOpen(t)
  {
    if a.seal && s.active && s.capturing {
      SealForDrainSwitch(s, a);
      KeepsSwitch(s, SealForDrain(s, a), cpu, left);
    }
    ReadSwitch(SealForDrain(s, a), a, cpu, left);
  }

  lemma {:induction false} ReadSwitch(s: Session, a: DrainArgs, cpu: Cpu, left: bool)
    requires AccessSwitch(s, cpu, left) && NoAccessOpen(s)
    ensures var t := ReadStep(s, a).0; AccessSwitch(t, cpu, left) && NoAccessOpen(t)
  {
    DrainFrame(s.access, a.maxBytes, a.readable);
  }

  lemma {:induction false} SwitchOverRuns(engines: Engines, steps: seq<Step>, cpu: Cpu)
    ensures var s := FromIdle(engines, steps).session; AccessSwitch(s, cpu, LeftOn(engines, steps, cpu)) && NoAccessOpen(s)
  {
    if steps != [] {
      var init := steps[..|steps| - 1];
      SwitchOverRuns(engines, init, cpu);
      AllRunsGood(engines, init);
      StepSwitch(FromIdle(engines, init), steps[|steps| - 1], cpu, LeftOn(engines, init, cpu));
    }
  }

  /** Unlike the trace switches the access-log switch is not put back. Without a session on it a
      processor has it on exactly when the last step that decides left it on: a session that
      recorded leaves it off, one whose access file could not be opened leaves it on. */
  lemma {:induction false} AccessSwitchExactly(engines: Engines, steps: seq<Step>, cpu: Cpu)
    requires var s := FromIdle(engines, steps).session; !(s.active && s.cpu == cpu)
    ensures FromIdle(engines, steps).session.engines.Of(cpu).accessLog <==> LeftOn(engines, steps, cpu)
  {
    SwitchOverRuns(engines, steps, cpu);
  }

  /** A run that leaves the access log on: a start whose access file cannot be opened, and a stop. */
  lemma {:induction false} AccessLogLeftOn(engines: Engines)
    requires !engines.m68k.flags.file
    ensures var s := FromIdle(engines, [NO_ACCESS_FILE, StopSession(true)]).session;
            !s.active && s.engines.m68k.accessLog
  {
    RunOn(World(Idle(engines), engines), [NO_ACCESS_FILE], StopSession(true));
    StopEnds(FromIdle(engines, [NO_ACCESS_FILE]));
    LeftOnByStart(engines);
    assert [NO_ACCESS_FILE] + [StopSession(true)] == [NO_ACCESS_FILE, StopSession(true)];
    AccessSwitchExactly(engines, [NO_ACCESS_FILE, StopSession(true)], M68K);
  }

  const NO_ACCESS_FILE := StartSession(CONTINUOUS_START.(accessFileOk := false))

  lemma {:induction false} StopEnds(w: World)
    ensures !Next(w, StopSession(true)).session.active
  {
  }

  lemma {:induction false} LeftOnByStart(engines: Engines)
    requires !engines.m68k.flags.file
    ensures LeftOn(engines, [NO_ACCESS_FILE, StopSession(true)], M68K)
  {
    var steps := [NO_ACCESS_FILE, StopSession(true)];
    assert steps[..1] == [NO_ACCESS_FILE] && [NO_ACCESS_FILE][..0] == [];
    assert FromIdle(engines, []) == World(Idle(engines), engines);
    assert LeftOn(engines, [NO_ACCESS_FILE], M68K);
  }
}
