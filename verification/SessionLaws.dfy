/**
 What the steps of a trace session mean to their callers: whose stream a drain request reads,
 the parameters a session runs under, and what rotating, sealing and stopping leave behind.
*/
module SessionLaws {
  import opened Basics
  import opened SegmentStreams
  import opened TraceSessions
  import opened CommittedBytes

  // ------------------------------------------------------------------ drain requests

  /** The stream a request asks for. */
  function Asked(s: Session, access: bool): Log {
    if access then s.access else s.trace
  }

  /** Nothing sealed is left at or behind the cursor. */
  ghost predicate Drained(log: Log) {
    forall i :: 0 <= i < |log.stream.sealed| ==> log.stream.sealed[i].index < log.stream.drainSegment
  }

  /** Only the cursor of the stream has moved. */
  ghost predicate OnlyCursor(was: Stream, now: Stream) {
    now == was.(drainSegment := now.drainSegment, drainOffset := now.drainOffset)
  }

  /** A data reply hands out the next chunk of the stream, at most maxBytes, and says whether it
      was the last; any other reply changes nothing; and nothing is answered exactly when
      nothing is pending. */
  ghost predicate Reads(was: Log, now: Log, reply: Reply, maxBytes: nat, readable: bool) {
    && OnlyCursor(was.stream, now.stream) && now.history.sealed == was.history.sealed
    && (reply.Data? ==>
          && now.history.replies == was.history.replies + [reply.chunk]
          && |reply.chunk.data| <= maxBytes && (reply.done <==> Drained(now)))
    && (!reply.Data? ==> now == was)
    && (reply.Nothing? <==> Drained(was))
    && (if readable then !reply.Unreadable? else !reply.Data?)
    && (reply.Unreadable? ==> FirstPending(was, reply.index))
  }

  /** The segment of the index is the first one at or behind the cursor. */
  ghost predicate FirstPending(log: Log, index: nat) {
    var s := log.stream;
    exists k :: 0 <= k < |s.sealed| && s.sealed[k].index == index >= s.drainSegment
                && forall j :: 0 <= j < k ==> s.sealed[j].index < s.drainSegment
  }

  /** The request reads the stream it asks for; nothing else of the session changes. */
  ghost predicate Serves(half: Session, after: Session, reply: Reply, a: DrainArgs) {
    var was, now := Asked(half, a.access), Asked(after, a.access);
    && after == (if a.access then half.(access := now) else half.(trace := now))
    && Reads(was, now, reply, a.maxBytes, a.readable)
  }

  lemma {:induction false} DrainedIs(log: Log)
    ensures Drained(log) <==> Position(log.stream.sealed, log.stream.drainSegment) == |log.stream.sealed|
  {
    var k := Position(log.stream.sealed, log.stream.drainSegment);
    assert k < |log.stream.sealed| ==> log.stream.sealed[k].index >= log.stream.drainSegment;
  }

  lemma {:induction false} NothingPending(log: Log, maxBytes: nat, readable: bool)
    requires Drained(log)
    ensures Reads(log, Drain(log, maxBytes, readable).0, Drain(log, maxBytes, readable).1, maxBytes, readable)
  {
    DrainedIs(log);
  }

  lemma {:induction false} CannotRead(log: Log, maxBytes: nat)
    requires !Drained(log)
    ensures Reads(log, Drain(log, maxBytes, false).0, Drain(log, maxBytes, false).1, maxBytes, false)
  {
    DrainedIs(log);
    var k := Position(log.stream.sealed, log.stream.drainSegment);
    assert FirstPending(log, log.stream.sealed[k].index);
  }

  lemma {:induction false} ReadsOn(log: Log, maxBytes: nat)
    requires Inv(log) && !Drained(log)
    ensures Reads(log, Drain(log, maxBytes, true).0, Drain(log, maxBytes, true).1, maxBytes, true)
  {
    DrainedIs(log);
    OffsetFits(log);
    ReadsAt(log, maxBytes);
  }

  lemma {:induction false} OffsetFits(log: Log)
    requires Inv(log)
    ensures var s, k := log.stream, Position(log.stream.sealed, log.stream.drainSegment);
            k < |s.sealed| ==> s.drainOffset <= |s.sealed[k].file|
  {
    PendingExactly(log);
    FatesFit(log);
    if |log.history.fates| < |log.history.sealed| { CurrentSegment(log); }
  }

  lemma {:induction false} FatesFit(log: Log)
    requires Inv(log)
    ensures |log.history.fates| <= |log.history.sealed|
  {
  }

  lemma {:induction false} ReadsAt(log: Log, maxBytes: nat)
    requires var s, k := log.stream, Position(log.stream.sealed, log.stream.drainSegment);
             k < |s.sealed| && s.drainOffset <= |s.sealed[k].file|
    ensures Reads(log, Drain(log, maxBytes, true).0, Drain(log, maxBytes, true).1, maxBytes, true)
  {
    DrainedIs(log);
    ReadsDone(log, maxBytes);
  }

  lemma {:induction false} ReadsDone(log: Log, maxBytes: nat)
    requires var s, k := log.stream, Position(log.stream.sealed, log.stream.drainSegment);
             k < |s.sealed| && s.drainOffset <= |s.sealed[k].file|
    ensures var (after, reply) := Drain(log, maxBytes, true); reply.Data? && (reply.done <==> Drained(after))
  {
    DrainedIs(Drain(log, maxBytes, true).0);
  }

  lemma {:induction false} DrainServes(log: Log, maxBytes: nat, readable: bool)
    requires Inv(log) || log == Deleted(log)
    ensures Reads(log, Drain(log, maxBytes, readable).0, Drain(log, maxBytes, readable).1, maxBytes, readable)
  {
    if Drained(log) {
      NothingPending(log, maxBytes, readable);
    } else if readable {
      ReadsOn(log, maxBytes);
    } else {
      CannotRead(log, maxBytes);
    }
  }

  /** Whatever the session and the request: the sealing half first, and then one read. */
  lemma {:induction false} RequestServes(s: Session, user: Engines, a: DrainArgs)
    requires Good(World(s, user))
    ensures Serves(SealForDrain(s, a), DrainStep(s, a).0, DrainStep(s, a).1, a)
  {
    SealForDrainGood(s, user, a);
    StreamsSound(SealForDrain(s, a));
    DrainServes(Asked(SealForDrain(s, a), a.access), a.maxBytes, a.readable);
  }

  lemma {:induction false} StreamsSound(s: Session)
    requires Streams(s)
    ensures Inv(s.trace) || s.trace == Deleted(s.trace)
    ensures Inv(s.access) || s.access == Deleted(s.access)
  {
  }

  // ------------------------------------------------------------- what a client is answered

  /** The chunks a client has been answered on its requests for one stream since the start. */
  ghost function Answers(engines: Engines, steps: seq<Step>, access: bool): seq<Chunk> {
    if steps == [] then []
    else
      var init, step := steps[..|steps| - 1], steps[|steps| - 1];
      if DropsFiles(step) then []
      else Answers(engines, init, access) + Answered(FromIdle(engines, init).session, step, access)
  }

  ghost function Answered(s: Session, step: Step, access: bool): seq<Chunk> {
    if step.DrainRequest? && step.drain.access == access && DrainStep(s, step.drain).1.Data?
    then [DrainStep(s, step.drain).1.chunk] else []
  }

  ghost predicate SameReplies(s: Session, t: Session) {
    t.trace.history.replies == s.trace.history.replies && t.access.history.replies == s.access.history.replies
  }

  lemma {:induction false} EvictReplies(log: Log, caps: Caps)
    ensures Evict(log, caps).history.replies == log.history.replies
    decreases |log.stream.sealed|
  {
    if !WithinCaps(log.stream.sealed, caps) { EvictReplies(EvictOldest(log), caps); }
  }

  lemma {:induction false} SealedReplies(log: Log, caps: Caps)
    ensures Evict(Seal(log), caps).history.replies == log.history.replies
    ensures Evict(Open(TakeIndex(Seal(log))), caps).history.replies == log.history.replies
    ensures Evict(Open(Seal(TakeIndex(log))), caps).history.replies == log.history.replies
    ensures TakeIndex(Seal(log)).history.replies == log.history.replies
  {
    EvictReplies(Seal(log), caps);
    EvictReplies(Open(TakeIndex(Seal(log))), caps);
    EvictReplies(Open(Seal(TakeIndex(log))), caps);
  }

  lemma {:induction false} RotateReplies(s: Session, rotateAccess: bool, pathOk: bool, accessPathOk: bool)
    ensures SameReplies(s, RotateTrace(s, rotateAccess, pathOk, accessPathOk))
  {
    SealedReplies(s.trace, s.traceCaps);
    SealedReplies(s.access, s.accessCaps);
  }

  lemma {:induction false} SealTraceReplies(s: Session)
    ensures SameReplies(s, SealTrace(s))
  {
    SealedReplies(s.trace, s.traceCaps);
    SealedReplies(s.access, s.accessCaps);
  }

  lemma {:induction false} FinishReplies(s: Session)
    ensures SameReplies(s, Finish(s))
  {
    var s1 := SetEnabled(if s.accessEnabled then SealAccess(s) else s, false);
    SealedReplies(s.access, s.accessCaps);
    SealTraceReplies(s1);
  }

  lemma {:induction false} HalfReplies(s: Session, a: DrainArgs)
    ensures SameReplies(s, SealForDrain(s, a))
  {
    if a.seal && s.active && s.capturing {
      var gated := SetEnabled(s, false);
      var flushed := gated.(trace := Append(gated.trace, a.flushed));
      RotateReplies(flushed, true, a.pathOk, a.accessPathOk);
      SealTraceReplies(flushed);
    }
  }

  lemma {:induction false} MonitorReplies(w: World, step: Step)
    requires step.MonitorSealWindow? || step.MonitorOpenWindow? || step.MonitorRotate?
    ensures SameReplies(w.session, Next(w, step).session)
  {
    match step
    case MonitorSealWindow => SealTraceReplies(w.session);
    case MonitorOpenWindow(pathOk, accessPathOk) => RotateReplies(w.session, true, pathOk, accessPathOk);
    case MonitorRotate(pathOk, accessPathOk) => RotateReplies(w.session, true, pathOk, accessPathOk);
  }

  lemma {:induction false} EndingReplies(w: World, step: Step)
    requires step.MonitorFinish? || (step.StopSession? && !step.deleteFiles)
    ensures SameReplies(w.session, Next(w, step).session)
  {
    FinishReplies(w.session);
  }

  lemma {:induction false} WriteReplies(w: World, step: Step)
    requires step.EngineWrites?
    ensures SameReplies(w.session, Next(w, step).session)
  {
  }

  lemma {:induction false} LossReplies(w: World, step: Step)
    requires step.ProcessorLost?
    ensures SameReplies(w.session, Next(w, step).session)
  {
    var s := w.session;
    assert s.active ==> Finish(s.(present := false)) == s.(present := false, active := false, capturing := false);
  }

  lemma {:induction false} SwitchReplies(w: World, step: Step)
    requires step.MonitorCloseGate? || step.UserSets?
    ensures SameReplies(w.session, Next(w, step).session)
  {
  }

  ghost predicate NoReplies(s: Session) {
    s.trace.history.replies == [] && s.access.history.replies == []
  }

  lemma {:induction false} DroppedReplies(w: World, step: Step)
    requires DropsFiles(step)
    ensures NoReplies(Next(w, step).session)
  {
    if step.StartSession? { StartReplies(DeleteFiles(Finish(w.session)), step.start); }
  }

  lemma {:induction false} StartReplies(cleared: Session, a: StartArgs)
    requires NoReplies(cleared)
    ensures NoReplies(StartCleared(cleared, a).0)
  {
    if !cleared.engines.Of(a.cpu).flags.file && a.dirOk {
      ArmedReplies(cleared, a);
      FinishReplies(Armable(cleared, a));
    }
  }

  lemma {:induction false} ArmedReplies(cleared: Session, a: StartArgs)
    ensures NoReplies(Armable(cleared, a))
  {
    var begun := Begin(cleared, a);
    var switched := SetFlags(begun, GetFlags(begun).(disassemble := a.disassemble));
    AccessReplies(switched, a);
    ReadyReplies(StartAccess(switched, a), a.pathOk);
  }

  lemma {:induction false} ReadyReplies(ready: Session, pathOk: bool)
    requires NoReplies(ready)
    ensures NoReplies(SetEnabled(RotateTrace(ready, false, pathOk, false), true))
  {
    RotateReplies(ready, false, pathOk, false);
  }

  lemma {:induction false} AccessReplies(s: Session, a: StartArgs)
    requires s.trace == EmptyLog && s.access == EmptyLog
    ensures NoReplies(StartAccess(s, a))
  {
    SealedReplies(s.access, s.accessCaps);
  }

  lemma {:induction false} ServedReplies(s: Session, half: Session, after: Session, reply: Reply, a: DrainArgs, access: bool)
    requires SameReplies(s, half) && Serves(half, after, reply, a)
    ensures Asked(after, access).history.replies
            == Asked(s, access).history.replies + if a.access == access && reply.Data? then [reply.chunk] else []
  {
  }

  /** A request adds its answer to the replies of the stream it asks for. */
  lemma {:induction false} RequestReplies(s: Session, user: Engines, a: DrainArgs, access: bool)
    requires Good(World(s, user))
    ensures Asked(DrainStep(s, a).0, access).history.replies
            == Asked(s, access).history.replies + Answered(s, DrainRequest(a), access)
  {
    RequestServes(s, user, a);
    HalfReplies(s, a);
    ServedReplies(s, SealForDrain(s, a), DrainStep(s, a).0, DrainStep(s, a).1, a, access);
  }

  lemma {:induction false} StepReplies(w: World, step: Step, access: bool)
    requires Good(w) && !DropsFiles(step)
    ensures Asked(Next(w, step).session, access).history.replies
            == Asked(w.session, access).history.replies + Answered(w.session, step, access)
  {
    match step {
      case DrainRequest(a) => RequestReplies(w.session, w.user, a, access);
      case MonitorSealWindow => MonitorReplies(w, step);
      case MonitorOpenWindow(_, _) => MonitorReplies(w, step);
      case MonitorRotate(_, _) => MonitorReplies(w, step);
      case MonitorFinish => EndingReplies(w, step);
      case StopSession(_) => EndingReplies(w, step);
      case EngineWrites(_, _) => WriteReplies(w, step);
      case ProcessorLost(_) => LossReplies(w, step);
      case _ => SwitchReplies(w, step);
    }
    if !step.DrainRequest? { NoAnswer(w.session, step, Next(w, step).session, access); }
  }

  lemma {:induction false} NoAnswer(s: Session, step: Step, t: Session, access: bool)
    requires !step.DrainRequest? && SameReplies(s, t)
    ensures Asked(t, access).history.replies == Asked(s, access).history.replies + Answered(s, step, access)
  {
  }

  /** Over every run the replies of a stream are what requests for that stream were answered. */
  lemma {:induction false} AnswersOverRuns(engines: Engines, steps: seq<Step>, access: bool)
    ensures Asked(FromIdle(engines, steps).session, access).history.replies == Answers(engines, steps, access)
  {
    if steps != [] {
      var init, step := steps[..|steps| - 1], steps[|steps| - 1];
      AllRunsGood(engines, init);
      if DropsFiles(step) {
        DroppedReplies(FromIdle(engines, init), step);
      } else {
        AnswersOverRuns(engines, init, access);
        StepReplies(FromIdle(engines, init), step, access);
      }
    }
  }

  /** From the engine to the client, over every run and for either stream: while no unread
      eviction is counted, the answers to the requests for a stream are a prefix of what the
      engine committed to it since the start, and all of it once nothing is pending or open. */
  lemma {:induction false} ClientGetsCommitted(engines: Engines, steps: seq<Step>, access: bool)
    requires var s := FromIdle(engines, steps).session;
             s.hasDir && Asked(s, access).stream.evictedUnread == 0
    ensures var log := Asked(FromIdle(engines, steps).session, access);
            var got := Bytes(Output(Answers(engines, steps, access)));
            && got <= CommittedSince(engines, steps, access)
            && (Drained(log) && log.stream.open.None? ==> got == CommittedSince(engines, steps, access))
  {
    AnswersOverRuns(engines, steps, access);
    RepliesAreCommitted(engines, steps, access);
    DrainedIs(Asked(FromIdle(engines, steps).session, access));
  }

  // ---------------------------------------------------------- what a session runs under

  /** A running session as its start asked for it, with one empty segment open. */
  ghost predicate RunsUnder(t: Session, a: StartArgs) {
    && t.active && t.capturing && t.hasDir && t.present && t.windowsStarted == 1 && t.windowsCompleted == 0
    && t.cpu == a.cpu && t.continuous == a.continuous && t.traceCaps == a.traceCaps && t.accessCaps == a.accessCaps
    && GetFlags(t) == Flags(true, a.disassemble, true)
    && t.trace.stream == EmptyStream.(next := 1, open := Some(Segment(1, [])))
    && t.accessEnabled == (a.wantAccess && a.accessPathOk && a.accessFileOk)
    && (if t.accessEnabled
        then t.engines.Of(t.cpu).accessLog && t.access.stream == EmptyStream.(next := 1, open := Some(Segment(1, [])))
        else t.access == EmptyLog)
  }

  lemma {:induction false} FirstSegment(caps: Caps)
    ensures Evict(Open(Seal(TakeIndex(EmptyLog))), caps)
            == EmptyLog.(stream := EmptyStream.(next := 1, open := Some(Segment(1, []))))
    ensures Evict(Open(TakeIndex(Seal(EmptyLog))), caps)
            == EmptyLog.(stream := EmptyStream.(next := 1, open := Some(Segment(1, []))))
  {
  }

  lemma {:induction false} AccessStarts(s: Session, a: StartArgs)
    requires s.active && s.present && s.hasDir && s.access == EmptyLog && !s.accessEnabled
    ensures var t := StartAccess(s, a);
            && t == s.(access := t.access, accessEnabled := t.accessEnabled, engines := t.engines)
            && GetFlags(t) == GetFlags(s)
            && t.accessEnabled == (a.wantAccess && a.accessPathOk && a.accessFileOk)
            && (if t.accessEnabled
                then t.engines.Of(t.cpu).accessLog && t.access.stream == EmptyStream.(next := 1, open := Some(Segment(1, [])))
                else t.access == EmptyLog)
  {
    FirstSegment(s.accessCaps);
  }

  /** The first segment is opened exactly when its path is accepted. */
  lemma {:induction false} ArmedUnder(cleared: Session, a: StartArgs)
    ensures Armable(cleared, a).trace.stream.open.Some? <==> a.pathOk
    ensures a.pathOk ==> RunsUnder(Armable(cleared, a), a)
  {
    var begun := Begin(cleared, a);
    var switched := SetFlags(begun, GetFlags(begun).(disassemble := a.disassemble));
    AccessStarts(switched, a);
    FirstSegment(a.traceCaps);
  }

  /** A start succeeds exactly when the trace log was not in use and everything that it needs for
      the trace could be opened; the session then runs under its arguments. The access log
      may fail on its own. */
  lemma {:induction false} StartExactly(s: Session, user: Engines, a: StartArgs)
    requires Good(World(s, user))
    ensures Start(s, a).1
            <==> !user.Of(a.cpu).flags.file && a.dirOk && a.pathOk && a.fileOk && a.threadOk
    ensures Start(s, a).1 ==> RunsUnder(Start(s, a).0, a)
    ensures !Start(s, a).1 ==> !Start(s, a).0.active
  {
    FinishGood(s, user);
    StartGood(s, user, a);
    UserFlags(Finish(s), user, a.cpu);
    ArmedUnder(DeleteFiles(Finish(s)), a);
  }

  lemma {:induction false} UserFlags(s: Session, user: Engines, cpu: Cpu)
    requires Restored(s, user) && !s.active
    ensures s.engines.Of(cpu).flags == user.Of(cpu).flags
  {
  }

  /** The arguments of the last start there was. */
  function LastStart(steps: seq<Step>): Option<StartArgs> {
    if steps == [] then None
    else if steps[|steps| - 1].StartSession? then Some(steps[|steps| - 1].start)
    else LastStart(steps[..|steps| - 1])
  }

  /** A session that runs, or whose files are still there, has the parameters of its start. */
  ghost predicate Under(s: Session, start: Option<StartArgs>) {
    && (s.active || s.hasDir ==>
          && start.Some? && s.cpu == start.value.cpu && s.continuous == start.value.continuous
          && s.traceCaps == start.value.traceCaps && s.accessCaps == start.value.accessCaps)
    && (s.active ==>
          && GetFlags(s).disassemble == start.value.disassemble
          && s.accessEnabled == (start.value.wantAccess && start.value.accessPathOk && start.value.accessFileOk))
  }

  ghost predicate SameParams(s: Session, t: Session) {
    && t.cpu == s.cpu && t.continuous == s.continuous && t.traceCaps == s.traceCaps && t.accessCaps == s.accessCaps
    && (t.active ==> s.active && t.accessEnabled == s.accessEnabled && GetFlags(t).disassemble == GetFlags(s).disassemble)
    && (t.hasDir ==> s.hasDir)
  }

  lemma {:induction false} SameUnder(s: Session, t: Session, start: Option<StartArgs>)
    requires Under(s, start) && SameParams(s, t)
    ensures Under(t, start)
  {
  }

  lemma {:induction false} FinishParams(s: Session)
    ensures SameParams(s, Finish(s)) && !Finish(s).active
  {
  }

  lemma {:induction false} HalfParams(s: Session, a: DrainArgs)
    requires s.active ==> s.present && s.hasDir
    ensures SameParams(s, SealForDrain(s, a))
  {
    if a.seal && s.active && s.capturing {
      var gated := SetEnabled(s, false);
      var flushed := gated.(trace := Append(gated.trace, a.flushed));
      if s.continuous {
        RotateTraceFlags(flushed, true, a.pathOk, a.accessPathOk);
      } else {
        SealTraceFlags(flushed);
      }
    }
  }

  lemma {:induction false} MonitorParams(w: World, step: Step)
    requires Armed(w.session) && (step.MonitorSealWindow? || step.MonitorOpenWindow? || step.MonitorRotate?)
    ensures SameParams(w.session, Next(w, step).session)
  {
    var s := w.session;
    if s.active {
      match step
      case MonitorSealWindow => SealTraceFlags(s);
      case MonitorOpenWindow(pathOk, accessPathOk) => RotateTraceFlags(s, true, pathOk, accessPathOk);
      case MonitorRotate(pathOk, accessPathOk) => RotateTraceFlags(s, true, pathOk, accessPathOk);
    }
  }

  lemma {:induction false} SwitchParams(w: World, step: Step)
    requires step.MonitorCloseGate? || step.UserSets?
    ensures SameParams(w.session, Next(w, step).session)
  {
  }

  lemma {:induction false} WriteParams(w: World, step: Step)
    requires step.EngineWrites?
    ensures SameParams(w.session, Next(w, step).session)
  {
  }

  lemma {:induction false} LossParams(w: World, step: Step)
    requires step.ProcessorLost?
    ensures SameParams(w.session, Next(w, step).session)
  {
    FinishParams(w.session.(present := false));
  }

  lemma {:induction false} DrainParams(s: Session, a: DrainArgs)
    requires s.active ==> s.present && s.hasDir
    ensures SameParams(s, DrainStep(s, a).0)
  {
    HalfParams(s, a);
    ReadParams(SealForDrain(s, a), a);
  }

  lemma {:induction false} ReadParams(s: Session, a: DrainArgs)
    ensures var t := ReadStep(s, a).0; t == s.(trace := t.trace, access := t.access)
  {
  }

  /** Also a start that fails has given its parameters to whatever it leaves on disk. */
  lemma {:induction false} StartUnder(s: Session, user: Engines, a: StartArgs)
    requires Good(World(s, user))
    ensures Under(Start(s, a).0, Some(a))
  {
    StartExactly(s, user, a);
    if !Start(s, a).1 { FailedUnder(DeleteFiles(Finish(s)), a); }
  }

  lemma {:induction false} FailedUnder(cleared: Session, a: StartArgs)
    requires !cleared.hasDir && !StartCleared(cleared, a).1
    ensures var t := StartCleared(cleared, a).0;
            t.hasDir ==> t.cpu == a.cpu && t.continuous == a.continuous
                         && t.traceCaps == a.traceCaps && t.accessCaps == a.accessCaps
  {
    ArmedUnder(cleared, a);
    FinishParams(Armable(cleared, a));
  }

  lemma {:induction false} StepUnder(w: World, step: Step, start: Option<StartArgs>)
    requires Good(w) && Under(w.session, start)
    ensures Under(Next(w, step).session, if step.StartSession? then Some(step.start) else start)
  {
    var s, t := w.session, Next(w, step).session;
    match step {
      case StartSession(a) => StartUnder(s, w.user, a);
      case EngineWrites(_, _) => WriteParams(w, step);
      case ProcessorLost(_) => LossParams(w, step);
      case MonitorCloseGate => SwitchParams(w, step);
      case UserSets(_, _) => SwitchParams(w, step);
      case DrainRequest(a) => DrainParams(s, a);
      case MonitorFinish => FinishParams(s);
      case StopSession(_) => FinishParams(s);
      case _ => MonitorParams(w, step);
    }
    if !step.StartSession? { SameUnder(s, t, start); }
  }

  /** Over every run a session that runs, or whose files are still there, has the processor, the
      mode, the caps, the disassembly and the access log that its start asked for. */
  lemma {:induction false} ParametersOverRuns(engines: Engines, steps: seq<Step>)
    ensures Under(FromIdle(engines, steps).session, LastStart(steps))
  {
    if steps != [] {
      var init := steps[..|steps| - 1];
      ParametersOverRuns(engines, init);
      AllRunsGood(engines, init);
      StepUnder(FromIdle(engines, init), steps[|steps| - 1], LastStart(init));
    }
  }

  /** Until the files are deleted, windows and bytes balance, and each stream is held to the caps
      its start asked for: the trace stream within both, the access stream within both or over
      by one sealed segment with nothing open. */
  lemma {:induction false} AccountingOverRuns(engines: Engines, steps: seq<Step>)
    requires FromIdle(engines, steps).session.hasDir
    ensures LastStart(steps).Some?
    ensures var s, a := FromIdle(engines, steps).session, LastStart(steps).value;
            var t := s.trace.stream;
            var open := if t.open.Some? then 1 else 0;
            && s.windowsStarted == s.windowsCompleted + open == |t.sealed| + open + t.evictedSegments
            && Balanced(t) && WithinCaps(t.sealed, a.traceCaps)
    ensures var s, a := FromIdle(engines, steps).session, LastStart(steps).value;
            Balanced(s.access.stream) && AccessRetained(s.access.stream.sealed, s.access.stream.open, a.accessCaps)
  {
    AllRunsGood(engines, steps);
    ParametersOverRuns(engines, steps);
    var s := FromIdle(engines, steps).session;
    TableOfLog(s.trace);
    TableOfLog(s.access);
  }

  // ------------------------------------------------- what rotating and sealing leave behind

  function OpenPart(log: Log): seq<Segment> {
    if log.stream.open.Some? then [log.stream.open.value] else []
  }

  /** The open segment, if there was one, is sealed behind the others; nothing is open. */
  ghost predicate Closed(was: Log, now: Log) {
    now.history.sealed == was.history.sealed + OpenPart(was) && now.stream.open.None?
  }

  /** The same, and a new empty segment is open under the next index. */
  ghost predicate Rotated(was: Log, now: Log) {
    && now.history.sealed == was.history.sealed + OpenPart(was)
    && now.stream.next == was.stream.next + 1 && now.stream.open == Some(Segment(was.stream.next + 1, []))
  }

  /** The segment that is open stays open; at most an index is used up. */
  ghost predicate GoesOn(was: Log, now: Log) {
    now.history.sealed == was.history.sealed && now.stream.open == was.stream.open
  }

  /** An accepted rotation starts a new window in a new segment, and takes the access stream along
      if there is one: into a new segment with the log on, or, when its path is refused, into
      nothing with the log off. A refused one goes on as before. */
  ghost predicate RotatesTo(s: Session, t: Session, pathOk: bool, accessPathOk: bool) {
    && SameSession(s, t)
    && (if !pathOk then
          && GoesOn(s.trace, t.trace) && t.access == s.access && t.capturing == s.capturing
          && GetFlags(t).file == GetFlags(s).file && t.windowsStarted == s.windowsStarted
        else
          && Rotated(s.trace, t.trace) && t.capturing && GetFlags(t).file && t.windowsStarted == s.windowsStarted + 1
          && if !s.accessEnabled then t.access == s.access
             else if accessPathOk then Rotated(s.access, t.access) && t.engines.Of(t.cpu).accessLog
             else Closed(s.access, t.access) && (s.access.stream.open.Some? ==> !t.engines.Of(t.cpu).accessLog))
  }

  lemma {:induction false} RotatedLog(log: Log, caps: Caps)
    ensures Rotated(log, Evict(Open(Seal(TakeIndex(log))), caps))
    ensures Rotated(log, Evict(Open(TakeIndex(Seal(log))), caps))
    ensures Closed(log, Evict(Seal(log), caps))
    ensures Closed(log, TakeIndex(Seal(log)))
  {
    EvictFrame(Open(Seal(TakeIndex(log))), caps);
    EvictFrame(Open(TakeIndex(Seal(log))), caps);
    EvictFrame(Seal(log), caps);
    assert log.history.sealed + [] == log.history.sealed;
  }

  lemma {:induction false} AccessRotates(s: Session, pathOk: bool)
    requires s.present && s.hasDir
    ensures var t := RotateAccess(s, pathOk);
            if pathOk then Rotated(s.access, t.access) && t.engines.Of(t.cpu).accessLog
            else Closed(s.access, t.access) && (s.access.stream.open.Some? ==> !t.engines.Of(t.cpu).accessLog)
  {
    RotatedLog(s.access, s.accessCaps);
  }

  lemma {:induction false} TraceRotates(s: Session, pathOk: bool, accessPathOk: bool)
    requires s.present && s.hasDir
    ensures RotatesTo(s, RotateTrace(s, true, pathOk, accessPathOk), pathOk, accessPathOk)
  {
    RotateTraceFlags(s, true, pathOk, accessPathOk);
    RotatedLog(s.trace, s.traceCaps);
    if pathOk {
      var rotated := RotateTrace(s, false, true, accessPathOk);
      RotateAccessFlags(rotated, accessPathOk);
      AccessRotates(rotated, accessPathOk);
    }
  }

  lemma {:induction false} GateKeeps(s: Session, t: Session, on: bool, pathOk: bool, accessPathOk: bool)
    requires t.present && RotatesTo(s, t, pathOk, accessPathOk)
    ensures var u := SetEnabled(t, on); RotatesTo(s, u, pathOk, accessPathOk) && GetFlags(u).enabled == on
  {
  }

  lemma {:induction false} RotatesGateOn(s: Session, pathOk: bool, accessPathOk: bool)
    requires s.present && s.hasDir
    ensures var t := SetEnabled(RotateTrace(s, true, pathOk, accessPathOk), true);
            RotatesTo(s, t, pathOk, accessPathOk) && GetFlags(t).enabled
  {
    TraceRotates(s, pathOk, accessPathOk);
    GateKeeps(s, RotateTrace(s, true, pathOk, accessPathOk), true, pathOk, accessPathOk);
  }

  /** The monitor rotates a continuous session; its gate is on afterwards, refused path or not. */
  lemma {:induction false} MonitorRotates(w: World, pathOk: bool, accessPathOk: bool)
    requires Good(w) && w.session.active && w.session.continuous
    ensures var t := Next(w, MonitorRotate(pathOk, accessPathOk)).session;
            RotatesTo(w.session, t, pathOk, accessPathOk) && GetFlags(t).enabled
  {
    RotatesGateOn(w.session, pathOk, accessPathOk);
  }

  /** The monitor opens the next window of a sampled session, and turns the gate on. */
  lemma {:induction false} WindowOpens(w: World, pathOk: bool, accessPathOk: bool)
    requires Good(w) && w.session.active && !w.session.continuous && !w.session.capturing
    ensures var t := Next(w, MonitorOpenWindow(pathOk, accessPathOk)).session;
            RotatesTo(w.session, t, pathOk, accessPathOk) && GetFlags(t).enabled
  {
    RotatesGateOn(w.session, pathOk, accessPathOk);
  }

  /** Everything recorded is sealed, of both streams, and nothing more is recorded. */
  ghost predicate SealsAll(s: Session, t: Session) {
    && Closed(s.trace, t.trace) && !t.capturing
    && (if s.accessEnabled then Closed(s.access, t.access) && !t.engines.Of(t.cpu).accessLog else t.access == s.access)
  }

  lemma {:induction false} TraceSeals(s: Session)
    requires s.present
    ensures SealsAll(s, SealTrace(s)) && SameSession(s, SealTrace(s))
    ensures GetFlags(SealTrace(s)) == GetFlags(s).(file := false)
  {
    SealTraceFlags(s);
    RotatedLog(s.trace, s.traceCaps);
    RotatedLog(s.access, s.accessCaps);
  }

  /** A sampled window ends in two blocks: the gate first and, once the engine has flushed, the file. */
  lemma {:induction false} WindowCloses(w: World)
    requires Good(w) && w.session.active && !w.session.continuous
    ensures var t := Next(w, MonitorCloseGate).session;
            && t == w.session.(engines := t.engines) && GetFlags(t) == GetFlags(w.session).(enabled := false)
            && t.engines.Of(Other(t.cpu)) == w.session.engines.Of(Other(t.cpu))
    ensures w.session.capturing ==>
              var t := Next(w, MonitorSealWindow).session;
              SealsAll(w.session, t) && SameSession(w.session, t) && GetFlags(t) == GetFlags(w.session).(file := false)
  {
    TraceSeals(w.session);
  }

  /** What the sealing half of a request has to work on: the open file with what the engine flushes. */
  function Flushed(s: Session, data: seq<octet>): Session {
    s.(trace := Append(s.trace, data))
  }

  /** A sealing request rotates a continuous session, gate on, and seals a sampled one, gate off;
      the bytes flushed meanwhile are in the file that is closed. Any other request seals nothing. */
  lemma {:induction false} SealingSeals(s: Session, user: Engines, a: DrainArgs)
    requires Good(World(s, user))
    ensures var t := SealForDrain(s, a);
            if !(a.seal && s.active && s.capturing) then t == s
            else if s.continuous
            then RotatesTo(Flushed(s, a.flushed), t, a.pathOk, a.accessPathOk) && GetFlags(t).enabled
            else SealsAll(Flushed(s, a.flushed), t) && !GetFlags(t).enabled && !GetFlags(t).file
  {
    if a.seal && s.active && s.capturing {
      var flushed := SetEnabled(s, false).(trace := Append(s.trace, a.flushed));
      if s.continuous {
        TraceRotates(flushed, a.pathOk, a.accessPathOk);
        SameRotation(Flushed(s, a.flushed), flushed, RotateTrace(flushed, true, a.pathOk, a.accessPathOk), a);
      } else {
        TraceSeals(flushed);
      }
    }
  }

  /** Closing the gate before a rotation makes no difference once it is on again. */
  lemma {:induction false} SameRotation(s: Session, gated: Session, t: Session, a: DrainArgs)
    requires gated == SetEnabled(s, false) && s.present && RotatesTo(gated, t, a.pathOk, a.accessPathOk)
    ensures var u := SetEnabled(t, true); RotatesTo(s, u, a.pathOk, a.accessPathOk) && GetFlags(u).enabled
  {
  }

  lemma {:induction false} FinishSeals(s: Session)
    requires Armed(s) && s.active
    ensures var t := Finish(s);
            && !t.active && !t.capturing && Closed(s.trace, t.trace) && t.windowsStarted == s.windowsStarted
            && t.hasDir == s.hasDir && GetFlags(t) == s.prior
            && if s.accessEnabled then Closed(s.access, t.access) && !t.engines.Of(t.cpu).accessLog else t.access == s.access
  {
    FinishFlags(s);
    RotatedLog(s.access, s.accessCaps);
    var s1 := SetEnabled(if s.accessEnabled then SealAccess(s) else s, false);
    if s.capturing { TraceSeals(s1); }
    assert s.trace.history.sealed + [] == s.trace.history.sealed;
  }

  /** Ending a session seals what is open of both streams, so that it can still be drained, and puts
      the switches back; without a session it does nothing. Deleting empties both streams, and the
      counters of what was written and lost stay. */
  lemma {:induction false} StopSeals(w: World, deleteFiles: bool)
    requires Good(w)
    ensures var s, t := w.session, Next(w, StopSession(deleteFiles)).session;
            && !t.active && !t.capturing
            && (!s.active && !deleteFiles ==> t == s)
            && (s.active ==> GetFlags(t) == s.prior && t.cpu == s.cpu)
            && (s.active && !deleteFiles ==>
                  && Closed(s.trace, t.trace) && t.hasDir
                  && if s.accessEnabled then Closed(s.access, t.access) else t.access == s.access)
            && (deleteFiles ==>
                  && !t.hasDir && Drained(t.trace) && Drained(t.access)
                  && t.trace.history.sealed == [] && t.access.history.sealed == []
                  && t.trace.stream.open.None? && t.access.stream.open.None?)
    ensures deleteFiles ==>
              var kept, t := Next(w, StopSession(false)).session, Next(w, StopSession(true)).session;
              SameCounters(kept.trace.stream, t.trace.stream) && SameCounters(kept.access.stream, t.access.stream)
  {
    if w.session.active { FinishSeals(w.session); }
  }

  ghost predicate SameCounters(a: Stream, b: Stream) {
    && a.bytesWritten == b.bytesWritten && a.evictedSegments == b.evictedSegments
    && a.evictedBytes == b.evictedBytes && a.evictedUnread == b.evictedUnread
  }
}
