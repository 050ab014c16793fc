/**
 The trace session of the native plugin as a state machine. A step is one block run
 under the session lock, by the monitor thread or by the pipe thread, or something the
 engine or the user does in between. Runs are arbitrary interleavings of steps.
*/
module TraceSessions {
  import opened Basics
  import opened SegmentStreams

  datatype Cpu = M68K | Z80

  /** The engine's trace switches of one processor. */
  datatype Flags = Flags(enabled: bool, disassemble: bool, file: bool)

  datatype Engine = Engine(flags: Flags, accessLog: bool)

  datatype Engines = Engines(m68k: Engine, z80: Engine) {
    function Of(cpu: Cpu): Engine {
      if cpu == M68K then m68k else z80
    }

    function With(cpu: Cpu, engine: Engine): Engines {
      if cpu == M68K then this.(m68k := engine) else this.(z80 := engine)
    }
  }

  datatype Session = Session(
    active: bool,
    capturing: bool,
    continuous: bool,
    hasDir: bool,                // the segment files of this session are on disk
    cpu: Cpu,
    present: bool,               // the traced processor is still there
    prior: Flags,                // its switches when the session started
    accessEnabled: bool,
    traceCaps: Caps,
    accessCaps: Caps,
    windowsStarted: nat,
    windowsCompleted: nat,
    trace: Log,
    access: Log,
    engines: Engines)

  function Idle(engines: Engines): Session {
    Session(false, false, false, false, M68K, false, Flags(false, false, false), false,
            Caps(0, 0), Caps(0, 0), 0, 0, EmptyLog, EmptyLog, engines)
  }

  // ------------------------------------------------------------ the engine's switches

  function SetFlags(s: Session, flags: Flags): Session {
    s.(engines := s.engines.With(s.cpu, s.engines.Of(s.cpu).(flags := flags)))
  }

  function GetFlags(s: Session): Flags {
    s.engines.Of(s.cpu).flags
  }

  function SetEnabled(s: Session, on: bool): Session {
    if s.present then SetFlags(s, GetFlags(s).(enabled := on)) else s
  }

  function SetFile(s: Session, on: bool): Session {
    if s.present then SetFlags(s, GetFlags(s).(file := on)) else s
  }

  function SetAccessLog(s: Session, on: bool): Session {
    if s.present then s.(engines := s.engines.With(s.cpu, s.engines.Of(s.cpu).(accessLog := on))) else s
  }

  // ----------------------------------------------------------------- locked operations

  function SealAccess(s: Session): Session {
    SetAccessLog(s, false).(access := Evict(Seal(s.access), s.accessCaps))
  }

  /** The access stream closes its segment before it learns whether the next path is accepted. */
  function RotateAccess(s: Session, pathOk: bool): Session {
    if !s.present || !s.hasDir then s
    else
      var closed := (if s.access.stream.open.Some? || s.access.stream.sealed != [] then SetAccessLog(s, false) else s)
                    .(access := TakeIndex(Seal(s.access)));
      if !pathOk then closed
      else SetAccessLog(closed, true).(access := Evict(Open(closed.access), s.accessCaps))
  }

  function CompletedBy(s: Session): nat {
    if s.trace.stream.open.Some? then s.windowsCompleted + 1 else s.windowsCompleted
  }

  function SealTrace(s: Session): Session {
    var closed := SetFile(s, false).(
      trace := Evict(Seal(s.trace), s.traceCaps), windowsCompleted := CompletedBy(s), capturing := false);
    if s.accessEnabled then SealAccess(closed) else closed
  }

  /** The trace stream keeps its open segment when the new path is refused. */
  function RotateTrace(s: Session, rotateAccess: bool, pathOk: bool, accessPathOk: bool): Session {
    if !s.present || !s.hasDir then s
    else if !pathOk then s.(trace := TakeIndex(s.trace))
    else
      var rotated := SetFile(s, true).(
        trace := Evict(Open(Seal(TakeIndex(s.trace))), s.traceCaps),
        windowsCompleted := CompletedBy(s), windowsStarted := s.windowsStarted + 1, capturing := true);
      if rotateAccess && s.accessEnabled then RotateAccess(rotated, accessPathOk) else rotated
  }

  /** Every continuous rotation re-arms the gate it closed to flush the old file. */
  function Arm(s: Session): Session {
    if s.active && s.capturing && s.continuous then SetEnabled(s, true) else s
  }

  function Finish(s: Session): Session {
    if !s.active then s
    else
      var quiet :=
        if !s.present then s
        else
          var s1 := SetEnabled(if s.accessEnabled then SealAccess(s) else s, false);
          SetFlags(if s.capturing then SealTrace(s1) else s1, s.prior);
      quiet.(active := false, capturing := false)
  }

  function DeleteFiles(s: Session): Session {
    s.(trace := Deleted(s.trace), access := Deleted(s.access), hasDir := false)
  }

  datatype StartArgs = StartArgs(
    cpu: Cpu, continuous: bool, disassemble: bool, wantAccess: bool, traceCaps: Caps, accessCaps: Caps,
    dirOk: bool, pathOk: bool, fileOk: bool, accessPathOk: bool, accessFileOk: bool, threadOk: bool)

  /** Resets the session fields and captures the processor's switches. */
  function Begin(s: Session, a: StartArgs): Session {
    var flags := s.engines.Of(a.cpu).flags;
    Session(true, false, a.continuous, true, a.cpu, true, flags, false, a.traceCaps, a.accessCaps,
            0, 0, EmptyLog, EmptyLog, s.engines)
  }

  function StartAccess(s: Session, a: StartArgs): Session {
    if !a.wantAccess then s
    else
      var rotated := RotateAccess(s, a.accessPathOk);
      if rotated.access.stream.open.None? || !a.accessFileOk then rotated.(access := Deleted(rotated.access))
      else rotated.(accessEnabled := true)
  }

  /** Begins a session and opens its first segments. */
  function Armable(cleared: Session, a: StartArgs): Session {
    var begun := Begin(cleared, a);
    var switched := SetFlags(begun, GetFlags(begun).(disassemble := a.disassemble));
    SetEnabled(RotateTrace(StartAccess(switched, a), false, a.pathOk, false), true)
  }

  /** Any failure ends the session again. */
  function StartCleared(cleared: Session, a: StartArgs): (Session, bool) {
    if cleared.engines.Of(a.cpu).flags.file || !a.dirOk then (cleared, false)
    else
      var armed := Armable(cleared, a);
      if armed.trace.stream.open.None? || !a.fileOk then (DeleteFiles(Finish(SetEnabled(armed, false))), false)
      else if !a.threadOk then (Finish(armed), false)
      else (armed, true)
  }

  function Start(s: Session, a: StartArgs): (Session, bool) {
    StartCleared(DeleteFiles(Finish(s)), a)
  }

  datatype DrainArgs = DrainArgs(
    access: bool, seal: bool, flushed: seq<octet>, maxBytes: nat, readable: bool, pathOk: bool, accessPathOk: bool)

  /** What a sealing drain does before it reads. Bytes still held by the engine reach the
      open file while the gate is closed. */
  function SealForDrain(s: Session, a: DrainArgs): Session {
    if !(a.seal && s.active && s.capturing) then s
    else
      var gated := SetEnabled(s, false);
      var flushed := gated.(trace := Append(gated.trace, a.flushed));
      if s.continuous then Arm(RotateTrace(flushed, true, a.pathOk, a.accessPathOk)) else SealTrace(flushed)
  }

  function ReadStep(s: Session, a: DrainArgs): (Session, Reply) {
    if a.access then
      var (access, reply) := Drain(s.access, a.maxBytes, a.readable);
      (s.(access := access), reply)
    else
      var (trace, reply) := Drain(s.trace, a.maxBytes, a.readable);
      (s.(trace := trace), reply)
  }

  function DrainStep(s: Session, a: DrainArgs): (Session, Reply) {
    ReadStep(SealForDrain(s, a), a)
  }

  // ------------------------------------------------------------------------- steps

  datatype Step =
    | EngineWrites(data: seq<octet>, accessData: seq<octet>)
    | MonitorCloseGate
    | MonitorSealWindow
    | MonitorOpenWindow(pathOk: bool, accessPathOk: bool)
    | MonitorRotate(pathOk: bool, accessPathOk: bool)
    | MonitorFinish
    | ProcessorLost(engine: Engine)
    | UserSets(user: Cpu, flags: Flags)
    | StartSession(start: StartArgs)
    | DrainRequest(drain: DrainArgs)
    | StopSession(deleteFiles: bool)

  /** The session and the switches the user last left each processor with. */
  datatype World = World(session: Session, user: Engines)

  function Next(w: World, step: Step): World {
    var s := w.session;
    match step
    case EngineWrites(data, accessData) =>
      var traced := if s.active && GetFlags(s).file then s.(trace := Append(s.trace, data)) else s;
      w.(session := if s.active && s.engines.Of(s.cpu).accessLog
                    then traced.(access := Append(s.access, accessData)) else traced)
    case MonitorCloseGate =>
      if s.active && !s.continuous then w.(session := SetEnabled(s, false)) else w
    case MonitorSealWindow =>
      if s.active && !s.continuous && s.capturing then w.(session := SealTrace(s)) else w
    case MonitorOpenWindow(pathOk, accessPathOk) =>
      if s.active && !s.continuous && !s.capturing
      then w.(session := SetEnabled(RotateTrace(s, true, pathOk, accessPathOk), true)) else w
    case MonitorRotate(pathOk, accessPathOk) =>
      if s.active && s.continuous && s.capturing
      then w.(session := Arm(RotateTrace(s, true, pathOk, accessPathOk))) else w
    case MonitorFinish => w.(session := Finish(s))
    case ProcessorLost(engine) =>
      if s.active
      then World(Finish(s.(present := false)).(engines := s.engines.With(s.cpu, engine)), w.user.With(s.cpu, engine))
      else w
    case UserSets(cpu, flags) =>
      if s.active && s.cpu == cpu then w
      else World(s.(engines := s.engines.With(cpu, s.engines.Of(cpu).(flags := flags))),
                 w.user.With(cpu, w.user.Of(cpu).(flags := flags)))
    case StartSession(start) => w.(session := Start(s, start).0)
    case DrainRequest(drain) => w.(session := DrainStep(s, drain).0)
    case StopSession(deleteFiles) =>
      var finished := Finish(s);
      w.(session := if deleteFiles then DeleteFiles(finished) else finished)
  }

  function Run(w: World, steps: seq<Step>): World {
    if steps == [] then w else Next(Run(w, steps[..|steps| - 1]), steps[|steps| - 1])
  }

  // --------------------------------------------------------------------- invariants

  /** Windows and trace segments balance, and the trace stream satisfies both caps, until
      the files are deleted. */
  ghost predicate TraceOk(trace: Log, caps: Caps, started: nat, completed: nat) {
    var open := if trace.stream.open.Some? then 1 else 0;
    && Inv(trace)
    && started == completed + open
    && completed == |trace.history.sealed|
    && WithinCaps(trace.stream.sealed, caps)
  }

  /** An active session owns its switches: the file log is on exactly while a segment is
      open, and a continuous session captures with the gate on. */
  ghost predicate Armed(s: Session) {
    if !s.active then !s.capturing
    else
      && s.present && s.hasDir && !s.prior.file
      && (s.capturing <==> s.trace.stream.open.Some?)
      && (GetFlags(s).file <==> s.trace.stream.open.Some?)
      && (s.continuous ==> s.capturing && GetFlags(s).enabled)
  }

  /** The access stream satisfies its caps, or a refused path has left it with nothing open and
      one sealed segment too many: without the newest it satisfies them. */
  ghost predicate AccessRetained(sealed: seq<Segment>, open: Option<Segment>, caps: Caps) {
    || WithinCaps(sealed, caps)
    || (open.None? && sealed != [] && WithinCaps(sealed[..|sealed| - 1], caps))
  }

  ghost predicate AccessOk(access: Log, caps: Caps) {
    Inv(access) && AccessRetained(access.stream.sealed, access.stream.open, caps)
  }

  ghost predicate Streams(s: Session) {
    StreamsOk(s.active, s.hasDir, s.trace, s.access, s.traceCaps, s.accessCaps, s.windowsStarted, s.windowsCompleted)
  }

  ghost predicate StreamsOk(
    active: bool, hasDir: bool, trace: Log, access: Log, caps: Caps, accessCaps: Caps, started: nat, completed: nat) {
    if hasDir then TraceOk(trace, caps, started, completed) && AccessOk(access, accessCaps)
    else !active && trace == Deleted(trace) && access == Deleted(access)
  }

  /** Switches of processors without a session are the user's; the session remembers the
      user's switches of the one it traces. */
  ghost predicate Restored(s: Session, user: Engines) {
    && RestoredOn(s, user, M68K)
    && RestoredOn(s, user, Z80)
    && (s.active ==> s.prior == user.Of(s.cpu).flags)
  }

  ghost predicate RestoredOn(s: Session, user: Engines, cpu: Cpu) {
    !(s.active && s.cpu == cpu) ==> s.engines.Of(cpu).flags == user.Of(cpu).flags
  }

  function Other(cpu: Cpu): Cpu {
    if cpu == M68K then Z80 else M68K
  }

  ghost predicate Good(w: World) {
    Armed(w.session) && Streams(w.session) && Restored(w.session, w.user)
  }

  // ------------------------------------------------------- the streams under each operation

  lemma {:induction false} EvictFrame(log: Log, caps: Caps)
    ensures Evict(log, caps).history.sealed == log.history.sealed
    ensures Evict(log, caps).stream.open == log.stream.open
    ensures Evict(log, caps).stream.next == log.stream.next
    ensures WithinCaps(Evict(log, caps).stream.sealed, caps)
    decreases |log.stream.sealed|
  {
    if !WithinCaps(log.stream.sealed, caps) {
      EvictFrame(EvictOldest(log), caps);
    }
  }

  lemma {:induction false} EvictKeepsAll(log: Log, caps: Caps)
    requires Inv(log)
    ensures Inv(Evict(log, caps))
    ensures Evict(log, caps).history.sealed == log.history.sealed
    ensures Evict(log, caps).stream.open == log.stream.open
    ensures WithinCaps(Evict(log, caps).stream.sealed, caps)
  {
    EvictKeeps(log, caps);
    EvictFrame(log, caps);
  }

  lemma {:induction false} SealAccessKeeps(s: Session)
    requires Inv(s.access)
    ensures AccessOk(SealAccess(s).access, s.accessCaps)
    ensures WithinCaps(SealAccess(s).access.stream.sealed, s.accessCaps)
  {
    SealKeeps(s.access);
    EvictKeepsAll(Seal(s.access), s.accessCaps);
  }

  lemma {:induction false} RotateAccessKeeps(s: Session, pathOk: bool)
    requires AccessOk(s.access, s.accessCaps)
    ensures AccessOk(RotateAccess(s, pathOk).access, s.accessCaps)
  {
    ClosedAccess(s.access, s.accessCaps);
    OpenedAccess(s.access, s.accessCaps);
  }

  lemma {:induction false} ClosedAccess(access: Log, caps: Caps)
    requires AccessOk(access, caps)
    ensures AccessOk(TakeIndex(Seal(access)), caps)
  {
    SealKeeps(access);
    OpenKeeps(Seal(access));
    if access.stream.open.Some? {
      SealedBack(access.stream.sealed, access.stream.open.value);
    }
  }

  lemma {:induction false} SealedBack(sealed: seq<Segment>, open: Segment)
    ensures sealed + [open] != [] && (sealed + [open])[..|sealed + [open]| - 1] == sealed
  {
  }

  lemma {:induction false} OpenedAccess(access: Log, caps: Caps)
    requires Inv(access)
    ensures AccessOk(Evict(Open(TakeIndex(Seal(access))), caps), caps)
  {
    OpenInv(access);
    EvictKeepsAll(Open(TakeIndex(Seal(access))), caps);
  }

  lemma {:induction false} AccessWrites(access: Log, data: seq<octet>, caps: Caps)
    requires AccessOk(access, caps)
    ensures AccessOk(Append(access, data), caps)
  {
    AppendKeeps(access, data);
  }

  lemma {:induction false} AccessDrains(access: Log, a: DrainArgs, caps: Caps)
    requires AccessOk(access, caps)
    ensures AccessOk(Drain(access, a.maxBytes, a.readable).0, caps)
  {
    DrainKeeps(access, a.maxBytes, a.readable);
    DrainFrame(access, a.maxBytes, a.readable);
  }

  lemma {:induction false} SealedTrace(trace: Log, caps: Caps, started: nat, completed: nat)
    requires TraceOk(trace, caps, started, completed)
    ensures TraceOk(Evict(Seal(trace), caps), caps, started,
                    if trace.stream.open.Some? then completed + 1 else completed)
    ensures Evict(Seal(trace), caps).stream.open.None?
  {
    SealKeeps(trace);
    EvictKeepsAll(Seal(trace), caps);
  }

  lemma {:induction false} SealTakeCommute(log: Log)
    ensures Seal(TakeIndex(log)) == TakeIndex(Seal(log))
    ensures Open(Seal(TakeIndex(log))).history == Seal(log).history
    ensures Open(Seal(TakeIndex(log))).stream.open.Some?
  {
  }

  lemma {:induction false} OpenInv(log: Log)
    requires Inv(log)
    ensures Inv(Open(TakeIndex(Seal(log))))
  {
    SealKeeps(log);
    OpenKeeps(Seal(log));
  }

  lemma {:induction false} RotatedTrace(trace: Log, caps: Caps, started: nat, completed: nat)
    requires TraceOk(trace, caps, started, completed)
    ensures TraceOk(Evict(Open(Seal(TakeIndex(trace))), caps), caps, started + 1,
                    if trace.stream.open.Some? then completed + 1 else completed)
    ensures Evict(Open(Seal(TakeIndex(trace))), caps).stream.open.Some?
  {
    OpenInv(trace);
    SealTakeCommute(trace);
    EvictKeepsAll(Open(Seal(TakeIndex(trace))), caps);
  }

  lemma {:induction false} RefusedTrace(trace: Log, caps: Caps, started: nat, completed: nat)
    requires TraceOk(trace, caps, started, completed)
    ensures TraceOk(TakeIndex(trace), caps, started, completed)
  {
    OpenKeeps(trace);
  }

  lemma {:induction false} SealTraceStreams(s: Session)
    requires s.hasDir && Streams(s)
    ensures Streams(SealTrace(s))
  {
    SealedTrace(s.trace, s.traceCaps, s.windowsStarted, s.windowsCompleted);
    SealAccessKeeps(s);
  }

  lemma {:induction false} RotateTraceStreams(s: Session, rotateAccess: bool, pathOk: bool, accessPathOk: bool)
    requires s.hasDir && s.present && Streams(s)
    ensures Streams(RotateTrace(s, rotateAccess, pathOk, accessPathOk))
  {
    if pathOk {
      RotatedTrace(s.trace, s.traceCaps, s.windowsStarted, s.windowsCompleted);
      var rotated := RotateTrace(s, false, true, accessPathOk);
      assert Streams(rotated);
      RotateAccessKeeps(rotated, accessPathOk);
    } else {
      RefusedTrace(s.trace, s.traceCaps, s.windowsStarted, s.windowsCompleted);
    }
  }

  // --------------------------------------------------- the switches under each operation

  /** t differs from s only in streams, counters and the traced processor's switches. */
  ghost predicate SameSession(s: Session, t: Session) {
    && t.active == s.active && t.continuous == s.continuous && t.hasDir == s.hasDir && t.cpu == s.cpu
    && t.present == s.present && t.prior == s.prior && t.accessEnabled == s.accessEnabled
    && t.traceCaps == s.traceCaps && t.accessCaps == s.accessCaps
    && t.engines.Of(Other(s.cpu)) == s.engines.Of(Other(s.cpu))
  }

  lemma {:induction false} SealTraceFlags(s: Session)
    requires s.present
    ensures var after := SealTrace(s);
            && SameSession(s, after) && !after.capturing && after.trace.stream.open.None?
            && GetFlags(after) == GetFlags(s).(file := false)
  {
    EvictFrame(Seal(s.trace), s.traceCaps);
  }

  lemma {:induction false} RotateAccessFlags(s: Session, pathOk: bool)
    requires s.present
    ensures var after := RotateAccess(s, pathOk);
            SameSession(s, after) && after.capturing == s.capturing && after.trace == s.trace && GetFlags(after) == GetFlags(s)
  {
    if s.hasDir {
      AccessLogFlags(s, false);
      var closed := if s.access.stream.open.Some? || s.access.stream.sealed != [] then SetAccessLog(s, false) else s;
      AccessLogFlags(closed.(access := TakeIndex(Seal(s.access))), true);
    }
  }

  lemma {:induction false} AccessLogFlags(s: Session, on: bool)
    ensures var after := SetAccessLog(s, on);
            && SameSession(s, after) && after.capturing == s.capturing && GetFlags(after) == GetFlags(s)
            && after.trace == s.trace && after.access == s.access
  {
  }

  lemma {:induction false} RotateTraceFlags(s: Session, rotateAccess: bool, pathOk: bool, accessPathOk: bool)
    requires s.present && s.hasDir
    ensures var after := RotateTrace(s, rotateAccess, pathOk, accessPathOk);
            && SameSession(s, after) && after.capturing == (s.capturing || pathOk)
            && after.trace.stream.open.Some? == (s.trace.stream.open.Some? || pathOk)
            && GetFlags(after) == GetFlags(s).(file := GetFlags(s).file || pathOk)
  {
    EvictFrame(Open(Seal(TakeIndex(s.trace))), s.traceCaps);
    var rotated := RotateTrace(s, false, pathOk, accessPathOk);
    RotateAccessFlags(rotated, accessPathOk);
  }

  /** However a session ends, the switches are back at their values from its start,
      provided its processor is still there. */
  lemma {:induction false} FinishFlags(s: Session)
    requires s.active
    ensures var after := Finish(s);
            && !after.active && !after.capturing && after.hasDir == s.hasDir
            && after.engines.Of(Other(s.cpu)) == s.engines.Of(Other(s.cpu))
            && after.engines.Of(s.cpu).flags == (if s.present then s.prior else s.engines.Of(s.cpu).flags)
  {
    if s.present {
      var s1 := SetEnabled(if s.accessEnabled then SealAccess(s) else s, false);
      SealTraceFlags(s1);
    }
  }

  lemma {:induction false} FinishStreams(s: Session)
    requires Streams(s) && s.hasDir
    ensures Streams(Finish(s))
  {
    if s.active && s.present {
      SealAccessKeeps(s);
      var s1 := SetEnabled(if s.accessEnabled then SealAccess(s) else s, false);
      assert Streams(s1);
      SealTraceStreams(s1);
    }
  }

  // ------------------------------------------------------------ every step keeps it all

  lemma {:induction false} AppendTraceOk(trace: Log, data: seq<octet>, caps: Caps, started: nat, completed: nat)
    requires TraceOk(trace, caps, started, completed)
    ensures TraceOk(Append(trace, data), caps, started, completed)
    ensures Append(trace, data).stream.open.Some? == trace.stream.open.Some?
  {
    AppendKeeps(trace, data);
  }

  lemma {:induction false} WritesKeep(w: World, data: seq<octet>, accessData: seq<octet>)
    requires Good(w)
    ensures Good(Next(w, EngineWrites(data, accessData)))
  {
    WritesStreams(w, data, accessData);
    WritesArmed(w, data, accessData);
  }

  lemma {:induction false} WritesStreams(w: World, data: seq<octet>, accessData: seq<octet>)
    requires Streams(w.session)
    ensures Streams(Next(w, EngineWrites(data, accessData)).session)
  {
    var s, t := w.session, Next(w, EngineWrites(data, accessData)).session;
    if s.active {
      AppendTraceOk(s.trace, data, s.traceCaps, s.windowsStarted, s.windowsCompleted);
      AccessWrites(s.access, accessData, s.accessCaps);
      assert t.trace == s.trace || t.trace == Append(s.trace, data);
      assert t.access == s.access || t.access == Append(s.access, accessData);
      assert TraceOk(t.trace, t.traceCaps, t.windowsStarted, t.windowsCompleted);
      assert AccessOk(t.access, t.accessCaps);
    }
  }

  lemma {:induction false} WritesArmed(w: World, data: seq<octet>, accessData: seq<octet>)
    requires Armed(w.session)
    ensures Armed(Next(w, EngineWrites(data, accessData)).session)
  {
  }

  lemma {:induction false} RotateGood(s: Session, user: Engines, pathOk: bool, accessPathOk: bool)
    requires Good(World(s, user)) && s.active
    ensures var after := RotateTrace(s, true, pathOk, accessPathOk);
            Good(World(after, user)) && SameSession(s, after)
  {
    RotateTraceStreams(s, true, pathOk, accessPathOk);
    RotateTraceFlags(s, true, pathOk, accessPathOk);
  }

  lemma {:induction false} SealGood(s: Session, user: Engines)
    requires Good(World(s, user)) && s.active && !s.continuous
    ensures Good(World(SealTrace(s), user))
  {
    SealTraceStreams(s);
    SealTraceFlags(s);
  }

  lemma {:induction false} FinishGood(s: Session, user: Engines)
    requires Good(World(s, user))
    ensures Good(World(Finish(s), user)) && !Finish(s).active
  {
    if s.active {
      FinishStreams(s);
      FinishFlags(s);
    }
  }

  lemma {:induction false} LostGood(w: World, engine: Engine)
    requires Good(w)
    ensures Good(Next(w, ProcessorLost(engine)))
  {
    var s, t := w.session, Next(w, ProcessorLost(engine)).session;
    if s.active {
      assert !t.active && !t.capturing && t.hasDir && t.trace == s.trace && t.access == s.access;
      LostRestored(w, engine);
    }
  }

  lemma {:induction false} LostRestored(w: World, engine: Engine)
    requires w.session.active && Restored(w.session, w.user)
    ensures var t := Next(w, ProcessorLost(engine)); Restored(t.session, t.user)
  {
    assert w.session.cpu == M68K || w.session.cpu == Z80;
  }

  lemma {:induction false} SealForDrainGood(s: Session, user: Engines, a: DrainArgs)
    requires Good(World(s, user))
    ensures Good(World(SealForDrain(s, a), user))
  {
    if a.seal && s.active && s.capturing {
      var gated := SetEnabled(s, false);
      var flushed := gated.(trace := Append(gated.trace, a.flushed));
      AppendTraceOk(s.trace, a.flushed, s.traceCaps, s.windowsStarted, s.windowsCompleted);
      assert Streams(flushed);
      if s.continuous {
        RotateTraceStreams(flushed, true, a.pathOk, a.accessPathOk);
        RotateTraceFlags(flushed, true, a.pathOk, a.accessPathOk);
      } else {
        SealGood(flushed, user);
      }
    }
  }

  lemma {:induction false} DrainTraceOk(trace: Log, a: DrainArgs, caps: Caps, started: nat, completed: nat)
    requires TraceOk(trace, caps, started, completed)
    ensures TraceOk(Drain(trace, a.maxBytes, a.readable).0, caps, started, completed)
    ensures Drain(trace, a.maxBytes, a.readable).0.stream.open == trace.stream.open
  {
    DrainKeeps(trace, a.maxBytes, a.readable);
    DrainFrame(trace, a.maxBytes, a.readable);
  }

  lemma {:induction false} ReadGood(s: Session, user: Engines, a: DrainArgs)
    requires Good(World(s, user))
    ensures Good(World(ReadStep(s, a).0, user))
  {
    ReadStreams(s, a);
    ReadArmed(s, a);
  }

  lemma {:induction false} ReadArmed(s: Session, a: DrainArgs)
    requires Armed(s)
    ensures Armed(ReadStep(s, a).0)
  {
    DrainFrame(s.trace, a.maxBytes, a.readable);
  }

  lemma {:induction false} ReadStreams(s: Session, a: DrainArgs)
    requires Streams(s)
    ensures Streams(ReadStep(s, a).0)
  {
    if !s.hasDir {
      NothingToRead(if a.access then s.access else s.trace, a);
    } else if a.access {
      AccessDrains(s.access, a, s.accessCaps);
    } else {
      DrainTraceOk(s.trace, a, s.traceCaps, s.windowsStarted, s.windowsCompleted);
    }
  }

  lemma {:induction false} NothingToRead(log: Log, a: DrainArgs)
    requires log == Deleted(log)
    ensures Drain(log, a.maxBytes, a.readable).0 == log
  {
  }

  lemma {:induction false} EmptyInv()
    ensures Inv(EmptyLog)
  {
  }

  /** Up to arming, a start only touches the chosen processor's switches. */
  lemma {:induction false} StartAccessGood(s: Session, a: StartArgs)
    requires s.active && s.present && s.hasDir && Streams(s) && s.access == EmptyLog && !s.accessEnabled
    ensures var after := StartAccess(s, a);
            && Streams(after) && after.trace == s.trace && after.capturing == s.capturing
            && SameSession(s, after.(accessEnabled := s.accessEnabled)) && GetFlags(after) == GetFlags(s)
  {
    if a.wantAccess {
      EmptyInv();
      RotateAccessKeeps(s, a.accessPathOk);
      RotateAccessFlags(s, a.accessPathOk);
      FirstDeleted(s, a.accessPathOk);
    }
  }

  lemma {:induction false} FirstDeleted(s: Session, pathOk: bool)
    requires s.access == EmptyLog
    ensures Deleted(RotateAccess(s, pathOk).access) == EmptyLog
  {
  }

  /** A start that got as far as its first segment: everything holds except that, when the
      segment path was refused, nothing is being captured. */
  lemma {:induction false} ArmableGood(cleared: Session, user: Engines, a: StartArgs)
    requires Restored(cleared, user) && !cleared.active && !cleared.engines.Of(a.cpu).flags.file
    ensures var armed := Armable(cleared, a);
            && armed.active && armed.present && armed.hasDir && Streams(armed) && Restored(armed, user)
            && (armed.trace.stream.open.Some? ==> Armed(armed) && armed.capturing)
  {
    EmptyInv();
    var begun := Begin(cleared, a);
    var switched := SetFlags(begun, GetFlags(begun).(disassemble := a.disassemble));
    assert Streams(switched) && Restored(switched, user);
    StartAccessGood(switched, a);
    var ready := StartAccess(switched, a);
    RotateTraceStreams(ready, false, a.pathOk, false);
    RotateTraceFlags(ready, false, a.pathOk, false);
  }

  lemma {:induction false} EndGood(s: Session, user: Engines)
    requires s.active && s.present && s.hasDir && Streams(s) && Restored(s, user)
    ensures Good(World(Finish(s), user)) && !Finish(s).active && !Finish(s).capturing
    ensures Good(World(DeleteFiles(Finish(s)), user))
  {
    FinishFlags(s);
    FinishStreams(s);
  }

  lemma {:induction false} AbortGood(s: Session, user: Engines)
    requires s.active && s.present && s.hasDir && Streams(s) && Restored(s, user)
    ensures var after := DeleteFiles(Finish(SetEnabled(s, false)));
            Good(World(after, user)) && !after.active && !after.capturing
  {
    EndGood(SetEnabled(s, false), user);
  }

  lemma {:induction false} StartClearedGood(cleared: Session, user: Engines, a: StartArgs)
    requires Good(World(cleared, user)) && !cleared.active
    ensures var (after, ok) := StartCleared(cleared, a);
            Good(World(after, user)) && after.active == ok && after.capturing == ok
  {
    if !cleared.engines.Of(a.cpu).flags.file && a.dirOk {
      var armed := Armable(cleared, a);
      ArmableGood(cleared, user, a);
      if armed.trace.stream.open.None? || !a.fileOk {
        AbortGood(armed, user);
      } else if !a.threadOk {
        EndGood(armed, user);
      }
    }
  }

  lemma {:induction false} StartGood(s: Session, user: Engines, a: StartArgs)
    requires Good(World(s, user))
    ensures var (after, ok) := Start(s, a);
            Good(World(after, user)) && after.active == ok && after.capturing == ok
  {
    FinishGood(s, user);
    StartClearedGood(DeleteFiles(Finish(s)), user, a);
  }

  lemma {:induction false} UserGood(w: World, cpu: Cpu, flags: Flags)
    requires Good(w)
    ensures Good(Next(w, UserSets(cpu, flags)))
  {
    if !(w.session.active && w.session.cpu == cpu) {
      UserRestored(w.session, w.user, cpu, flags);
    }
    assert Streams(Next(w, UserSets(cpu, flags)).session);
  }

  lemma {:induction false} UserRestored(s: Session, user: Engines, cpu: Cpu, flags: Flags)
    requires Restored(s, user) && !(s.active && s.cpu == cpu)
    ensures Restored(s.(engines := s.engines.With(cpu, s.engines.Of(cpu).(flags := flags))),
                     user.With(cpu, user.Of(cpu).(flags := flags)))
    ensures s.active ==> s.engines.With(cpu, s.engines.Of(cpu).(flags := flags)).Of(s.cpu) == s.engines.Of(s.cpu)
  {
  }

  lemma {:induction false} MonitorKeeps(w: World, step: Step)
    requires Good(w)
    requires step.MonitorCloseGate? || step.MonitorSealWindow? || step.MonitorOpenWindow? || step.MonitorRotate?
    ensures Good(Next(w, step))
  {
    var s, user := w.session, w.user;
    match step
    case MonitorSealWindow =>
      if s.active && !s.continuous && s.capturing { SealGood(s, user); }
    case MonitorOpenWindow(pathOk, accessPathOk) =>
      if s.active && !s.continuous && !s.capturing { RotateGood(s, user, pathOk, accessPathOk); }
    case MonitorRotate(pathOk, accessPathOk) =>
      if s.active && s.continuous && s.capturing { RotateGood(s, user, pathOk, accessPathOk); }
    case _ =>
  }

  lemma {:induction false} StepKeeps(w: World, step: Step)
    requires Good(w)
    ensures Good(Next(w, step))
  {
    var s, user := w.session, w.user;
    match step
    case EngineWrites(data, accessData) => WritesKeep(w, data, accessData);
    case MonitorFinish => FinishGood(s, user);
    case ProcessorLost(engine) => LostGood(w, engine);
    case UserSets(cpu, flags) => UserGood(w, cpu, flags);
    case StartSession(start) => StartGood(s, user, start);
    case DrainRequest(drain) =>
      SealForDrainGood(s, user, drain);
      ReadGood(SealForDrain(s, drain), user, drain);
    case StopSession(deleteFiles) => FinishGood(s, user);
    case _ => MonitorKeeps(w, step);
  }

  lemma {:induction false} RunKeeps(w: World, steps: seq<Step>)
    requires Good(w)
    ensures Good(Run(w, steps))
  {
    if steps != [] {
      RunKeeps(w, steps[..|steps| - 1]);
      StepKeeps(Run(w, steps[..|steps| - 1]), steps[|steps| - 1]);
    }
  }

  // ------------------------------------------------------------- what holds over every run

  function FromIdle(engines: Engines, steps: seq<Step>): World {
    Run(World(Idle(engines), engines), steps)
  }

  lemma {:induction false} AllRunsGood(engines: Engines, steps: seq<Step>)
    ensures Good(FromIdle(engines, steps))
  {
    EmptyInv();
    RunKeeps(World(Idle(engines), engines), steps);
  }

  /** Trace delivery, for either stream, over any interleaving: replies go strictly forward
      through the sealed segments, every byte handed out is the byte of the file it is
      labelled with, and when nothing is pending and no unread eviction was counted the
      replies are all the files that were ever sealed, whole and in order. Every segment the
      cursor has passed was delivered whole or evicted before, and the latter are counted. */
  lemma {:induction false} DeliveryOverRuns(engines: Engines, steps: seq<Step>, access: bool)
    requires FromIdle(engines, steps).session.hasDir
    ensures var s := FromIdle(engines, steps).session;
            var log := if access then s.access else s.trace;
            && StrictlyForward(Output(log.history.replies))
            && Genuine(Output(log.history.replies), log.history.sealed)
            && (log.stream.evictedUnread == 0 && Position(log.stream.sealed, log.stream.drainSegment) == |log.stream.sealed|
                ==> Output(log.history.replies) == WholeFiles(log.history.sealed))
            && PassedOrLost(log)
  {
    AllRunsGood(engines, steps);
    var s := FromIdle(engines, steps).session;
    var log := if access then s.access else s.trace;
    NothingTwice(log);
    EverySegmentPassed(log);
    if log.stream.evictedUnread == 0 && Position(log.stream.sealed, log.stream.drainSegment) == |log.stream.sealed| {
      NothingMissing(log);
    }
  }

  /** Bytes balance, indices increase, and the open segment is the newest. */
  ghost predicate Balanced(t: Stream) {
    && t.bytesWritten == TotalBytes(t.sealed) + t.evictedBytes
    && Increasing(t.sealed)
    && (t.open.Some? && t.sealed != [] ==> t.sealed[|t.sealed| - 1].index < t.open.value.index)
  }

  lemma {:induction false} TableOfLog(log: Log)
    requires Inv(log)
    ensures |log.stream.sealed| + log.stream.evictedSegments == |log.history.sealed|
    ensures Balanced(log.stream)
  {
    var s := log.stream;
    RetainedOrder(log.history.sealed, s.sealed, s.evictedSegments, s.open, s.next, s.drainSegment);
  }

  lemma {:induction false} RetainedOrder(
    all: seq<Segment>, sealed: seq<Segment>, evicted: nat, open: Option<Segment>, next: nat, cursor: nat)
    requires Ordered(all, open, next, cursor) && evicted <= |all| && sealed == all[evicted..]
    ensures Increasing(sealed)
    ensures open.Some? && sealed != [] ==> sealed[|sealed| - 1].index < open.value.index
  {
    assert sealed != [] ==> sealed[|sealed| - 1] == all[|all| - 1];
  }

  /** A continuous session that is active is capturing, with the gate and the file log on. */
  lemma {:induction false} ContinuousNeverStops(engines: Engines, steps: seq<Step>)
    requires var s := FromIdle(engines, steps).session; s.active && s.continuous
    ensures var s := FromIdle(engines, steps).session;
            s.capturing && GetFlags(s).enabled && GetFlags(s).file && s.trace.stream.open.Some?
  {
    AllRunsGood(engines, steps);
  }

  /** Without a session on it, a processor has the trace switches the user last gave it, however
      many sessions were started, replaced, failed or stopped before. */
  lemma {:induction false} SwitchesRestored(engines: Engines, steps: seq<Step>, cpu: Cpu)
    requires var s := FromIdle(engines, steps).session; !(s.active && s.cpu == cpu)
    ensures var w := FromIdle(engines, steps); w.session.engines.Of(cpu).flags == w.user.Of(cpu).flags
  {
    AllRunsGood(engines, steps);
  }

  // --------------------------------------------------------- refused segment paths differ

  /** When a new path is refused the trace stream goes on in its open segment, having used
      up an index. The access stream has already sealed its segment and switched its log
      off by then, so it records nothing, and it has not been evicted down to its caps. */
  lemma {:induction false} RefusedPaths(s: Session)
    requires s.active && Good(World(s, s.engines.With(s.cpu, s.engines.Of(s.cpu).(flags := s.prior))))
    ensures var after := RotateTrace(s, true, false, false);
            after.trace == TakeIndex(s.trace) && GetFlags(after) == GetFlags(s) && after.access == s.access
    ensures var after := RotateAccess(s, false);
            && after.access == TakeIndex(Seal(s.access)) && after.access.stream.open.None?
            && (s.access.stream.open.Some? ==> !after.engines.Of(s.cpu).accessLog)
            && forall data :: Append(after.access, data) == after.access
    ensures var after := RotateAccess(s, true);
            && after.access.stream.open.Some? && after.engines.Of(s.cpu).accessLog
            && WithinCaps(after.access.stream.sealed, s.accessCaps)
  {
    EvictFrame(Open(TakeIndex(Seal(s.access))), s.accessCaps);
  }

  /** A rotation leaves the access stream within its caps exactly when its path is accepted or
      what is sealed by then already fits: a refusal does not evict. */
  lemma {:induction false} AccessWithinCapsExactly(s: Session, pathOk: bool)
    requires s.present && s.hasDir
    ensures WithinCaps(RotateAccess(s, pathOk).access.stream.sealed, s.accessCaps)
            <==> pathOk || WithinCaps(Seal(s.access).stream.sealed, s.accessCaps)
  {
    EvictFrame(Open(TakeIndex(Seal(s.access))), s.accessCaps);
  }

  /** The least caps a start accepts. */
  const LEAST_CAPS := Caps(2, 1048576)

  const CONTINUOUS_START := StartArgs(
    M68K, true, false, true, LEAST_CAPS, LEAST_CAPS, true, true, true, true, true, true)

  /** Capturing with an empty access segment open behind n empty sealed ones. */
  ghost predicate Recording(s: Session, n: nat) {
    && s.active && s.continuous && s.capturing && s.present && s.hasDir && s.accessEnabled
    && s.accessCaps == LEAST_CAPS
    && s.access.stream.open.Some? && s.access.stream.open.value.file == []
    && |s.access.stream.sealed| == n && TotalBytes(s.access.stream.sealed) == 0
  }

  lemma {:induction false} SealsEmpty(s: Session, n: nat)
    requires Recording(s, n)
    ensures var sealed := Seal(s.access).stream.sealed;
            |sealed| == n + 1 && TotalBytes(sealed) == 0
  {
    var sealed := s.access.stream.sealed + [s.access.stream.open.value];
    TotalSplit(sealed, n);
    assert sealed[..n] == s.access.stream.sealed && sealed[n..] == [s.access.stream.open.value];
  }

  lemma {:induction false} RotatesTo(w: World, n: nat)
    requires Recording(w.session, n) && n < 2
    ensures Recording(Next(w, MonitorRotate(true, true)).session, n + 1)
  {
    SealsEmpty(w.session, n);
  }

  lemma {:induction false} RefusedAt(w: World, n: nat)
    requires Recording(w.session, n)
    ensures var s := Next(w, MonitorRotate(true, false)).session;
            s.active && s.accessCaps == LEAST_CAPS && |s.access.stream.sealed| == n + 1
  {
    SealsEmpty(w.session, n);
  }

  lemma {:induction false} StartsRecording(engines: Engines)
    requires !engines.m68k.flags.file
    ensures Recording(Next(World(Idle(engines), engines), StartSession(CONTINUOUS_START)).session, 0)
  {
  }

  /** A run that gets there: a start with the least caps, two rotations, and one whose access
      path is refused leave three sealed access segments where two are allowed. */
  lemma {:induction false} RefusedAccessOverCaps(engines: Engines)
    requires !engines.m68k.flags.file
    ensures var rotate := MonitorRotate(true, true);
            var s := FromIdle(engines, [StartSession(CONTINUOUS_START), rotate, rotate, MonitorRotate(true, false)]).session;
            s.active && s.accessCaps.maxSegments == 2 && |s.access.stream.sealed| == 3
  {
    var idle, rotate := World(Idle(engines), engines), MonitorRotate(true, true);
    var one := [] + [StartSession(CONTINUOUS_START)];
    StartsRecording(engines);
    RunOn(idle, [], StartSession(CONTINUOUS_START));
    RunOn(idle, one, rotate);
    RunOn(idle, one + [rotate], rotate);
    RunOn(idle, one + [rotate] + [rotate], MonitorRotate(true, false));
    RotatesTo(Run(idle, one), 0);
    RotatesTo(Run(idle, one + [rotate]), 1);
    RefusedAt(Run(idle, one + [rotate] + [rotate]), 2);
    assert one + [rotate] + [rotate] + [MonitorRotate(true, false)]
        == [StartSession(CONTINUOUS_START), rotate, rotate, MonitorRotate(true, false)];
  }

  lemma {:induction false} RunOn(w: World, steps: seq<Step>, step: Step)
    ensures Run(w, steps + [step]) == Next(Run(w, steps), step)
  {
    assert (steps + [step])[..|steps|] == steps;
  }
}
