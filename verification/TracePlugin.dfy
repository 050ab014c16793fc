/**
 The trace session fields of the plugin and the blocks that update them while the
 session lock is held. View() is the session value; every method is one operation of
 TraceSessions, so everything proved there about runs holds of these fields.
*/
module TracePlugin {
  import opened Basics
  import opened SegmentStreams
  import opened TraceSessions
  import opened SegmentTables

  class TraceSession {
    var active: bool
    var capturing: bool
    var continuous: bool
    var hasDir: bool
    var cpu: Cpu
    var present: bool
    var prior: Flags
    var accessEnabled: bool
    var traceCaps: Caps
    var accessCaps: Caps
    var windowsStarted: nat
    var windowsCompleted: nat
    var engines: Engines
    const trace: SegmentTable
    const access: SegmentTable

    ghost predicate Valid()
      reads this, trace, access
    {
      trace != access && trace.Valid() && access.Valid()
    }

    ghost function View(): Session
      reads this, trace, access
    {
      Session(active, capturing, continuous, hasDir, cpu, present, prior, accessEnabled, traceCaps, accessCaps,
              windowsStarted, windowsCompleted, trace.View(), access.View(), engines)
    }

    constructor (engines: Engines)
      ensures Valid() && View() == Idle(engines) && fresh(trace) && fresh(access)
    {
      active, capturing, continuous, hasDir, cpu, present := false, false, false, false, M68K, false;
      prior, accessEnabled := Flags(false, false, false), false;
      traceCaps, accessCaps := Caps(0, 0), Caps(0, 0);
      windowsStarted, windowsCompleted := 0, 0;
      this.engines := engines;
      var t := new SegmentTable();
      var a := new SegmentTable();
      trace, access := t, a;
    }

    method SetEnabled(on: bool)
      requires Valid()
      modifies `engines
      ensures Valid() && View() == TraceSessions.SetEnabled(old(View()), on)
    {
      if present {
        var engine := engines.Of(cpu);
        engines := engines.With(cpu, engine.(flags := engine.flags.(enabled := on)));
      }
    }

    method SetFile(on: bool)
      requires Valid()
      modifies `engines
      ensures Valid() && View() == TraceSessions.SetFile(old(View()), on)
    {
      if present {
        var engine := engines.Of(cpu);
        engines := engines.With(cpu, engine.(flags := engine.flags.(file := on)));
      }
    }

    method SetAccessLog(on: bool)
      requires Valid()
      modifies `engines
      ensures Valid() && View() == TraceSessions.SetAccessLog(old(View()), on)
    {
      if present {
        engines := engines.With(cpu, engines.Of(cpu).(accessLog := on));
      }
    }

    method SealAccess()
      requires Valid()
      modifies `engines, access
      ensures Valid() && View() == TraceSessions.SealAccess(old(View()))
    {
      SetAccessLog(false);
      access.Seal();
      access.Evict(accessCaps);
    }

    method RotateAccess(pathOk: bool)
      requires Valid()
      modifies `engines, access
      ensures Valid() && View() == TraceSessions.RotateAccess(old(View()), pathOk)
    {
      if !present || !hasDir {
        return;
      }
      if access.entries != [] {
        SetAccessLog(false);
        access.Seal();
      }
      access.TakeIndex();
      if !pathOk {
        return;
      }
      SetAccessLog(true);
      access.Open();
      access.Evict(accessCaps);
    }

    method SealTrace()
      requires Valid()
      modifies `engines, `windowsCompleted, `capturing, trace, access
      ensures Valid() && View() == TraceSessions.SealTrace(old(View()))
    {
      CloseTrace();
      if accessEnabled {
        SealAccess();
      }
    }

    method CloseTrace()
      requires Valid()
      modifies `engines, `windowsCompleted, `capturing, trace
      ensures Valid()
      ensures engines == TraceSessions.SetFile(old(View()), false).engines && !capturing
      ensures windowsCompleted == CompletedBy(old(View()))
      ensures trace.View() == SegmentStreams.Evict(SegmentStreams.Seal(old(trace.View())), traceCaps)
    {
      SetFile(false);
      if HasOpen(trace.entries) {
        windowsCompleted := windowsCompleted + 1;
      }
      trace.Seal();
      capturing := false;
      trace.Evict(traceCaps);
    }

    /** The engine accepted the new path: the previous file is complete. */
    method NextTraceSegment()
      requires Valid() && present && hasDir
      modifies `engines, `windowsCompleted, `windowsStarted, `capturing, trace
      ensures Valid() && View() == TraceSessions.RotateTrace(old(View()), false, true, false)
    {
      trace.TakeIndex();
      SetFile(true);
      if HasOpen(trace.entries) {
        windowsCompleted := windowsCompleted + 1;
      }
      trace.Rotate(traceCaps);
      capturing := true;
      windowsStarted := windowsStarted + 1;
    }

    method RotateTrace(rotateAccess: bool, pathOk: bool, accessPathOk: bool)
      requires Valid()
      modifies `engines, `windowsCompleted, `windowsStarted, `capturing, trace, access
      ensures Valid() && View() == TraceSessions.RotateTrace(old(View()), rotateAccess, pathOk, accessPathOk)
    {
      if !present || !hasDir {
        return;
      }
      if !pathOk {
        trace.TakeIndex();
        return;
      }
      NextTraceSegment();
      if rotateAccess && accessEnabled {
        RotateAccess(accessPathOk);
      }
    }

    method Arm()
      requires Valid()
      modifies `engines
      ensures Valid() && View() == TraceSessions.Arm(old(View()))
    {
      if !active || !capturing || !continuous || !present {
        return;
      }
      if !engines.Of(cpu).flags.enabled {
        SetEnabled(true);
      }
    }

    method RestoreFlags()
      requires Valid()
      modifies `engines
      ensures Valid() && View() == SetFlags(old(View()), prior)
    {
      engines := engines.With(cpu, engines.Of(cpu).(flags := prior));
    }

    method Finish()
      requires Valid()
      modifies `engines, `windowsCompleted, `active, `capturing, trace, access
      ensures Valid() && View() == TraceSessions.Finish(old(View()))
    {
      if !active {
        return;
      }
      if present {
        if accessEnabled {
          SealAccess();
        }
        SetEnabled(false);
        if capturing {
          SealTrace();
        }
        RestoreFlags();
      }
      active := false;
      capturing := false;
    }

    method DeleteFiles()
      requires Valid()
      modifies `hasDir, trace, access
      ensures Valid() && View() == TraceSessions.DeleteFiles(old(View()))
    {
      access.DeleteFiles();
      trace.DeleteFiles();
      hasDir := false;
    }

    method ResetStreams()
      requires Valid()
      modifies `windowsStarted, `windowsCompleted, `accessEnabled, trace, access
      ensures Valid()
      ensures View() == old(View()).(windowsStarted := 0, windowsCompleted := 0, accessEnabled := false,
                                     trace := EmptyLog, access := EmptyLog)
    {
      trace.Reset();
      access.Reset();
      windowsStarted, windowsCompleted, accessEnabled := 0, 0, false;
    }

    method Begin(a: StartArgs)
      requires Valid()
      modifies this, trace, access
      ensures Valid() && View() == TraceSessions.Begin(old(View()), a)
    {
      ResetStreams();
      TakeOver(a);
    }

    method TakeOver(a: StartArgs)
      requires Valid()
      modifies `active, `capturing, `continuous, `hasDir, `cpu, `present, `prior, `traceCaps, `accessCaps
      ensures Valid()
      ensures active && !capturing && hasDir && present && continuous == a.continuous && cpu == a.cpu
      ensures traceCaps == a.traceCaps && accessCaps == a.accessCaps && prior == engines.Of(a.cpu).flags
    {
      continuous, cpu, present, hasDir := a.continuous, a.cpu, true, true;
      traceCaps, accessCaps := a.traceCaps, a.accessCaps;
      active, capturing := true, false;
      prior := engines.Of(a.cpu).flags;
    }

    method StartAccess(a: StartArgs)
      requires Valid()
      modifies `engines, `accessEnabled, access
      ensures Valid() && View() == TraceSessions.StartAccess(old(View()), a)
    {
      if a.wantAccess {
        RotateAccess(a.accessPathOk);
        if !HasOpen(access.entries) || !a.accessFileOk {
          access.DeleteFiles();
        } else {
          accessEnabled := true;
        }
      }
    }

    /** Begins a session and opens its first segments. */
    method ArmFirst(a: StartArgs)
      requires Valid()
      modifies this, trace, access
      ensures Valid() && View() == Armable(old(View()), a)
    {
      Begin(a);
      var engine := engines.Of(cpu);
      engines := engines.With(cpu, engine.(flags := engine.flags.(disassemble := a.disassemble)));
      StartAccess(a);
      RotateTrace(false, a.pathOk, false);
      SetEnabled(true);
    }

    /** Starts a session, replacing an active one; reports whether it is running. */
    method Start(a: StartArgs) returns (ok: bool)
      requires Valid()
      modifies this, trace, access
      ensures Valid() && (View(), ok) == TraceSessions.Start(old(View()), a)
    {
      Finish();
      DeleteFiles();
      if engines.Of(a.cpu).flags.file || !a.dirOk {
        return false;
      }
      ArmFirst(a);
      if !HasOpen(trace.entries) || !a.fileOk {
        SetEnabled(false);
        Finish();
        DeleteFiles();
        return false;
      }
      if !a.threadOk {
        Finish();
        return false;
      }
      return true;
    }

    /** The first half of a sealing drain request. The engine commits `flushed` to the open
        file during the boundary sleep, with the lock held. */
    method SealForDrain(a: DrainArgs)
      requires Valid()
      modifies this, trace, access
      ensures Valid() && View() == TraceSessions.SealForDrain(old(View()), a)
    {
      if a.seal && active && capturing {
        SetEnabled(false);
        trace.Append(a.flushed);
        if continuous {
          RotateTrace(true, a.pathOk, a.accessPathOk);
          Arm();
        } else {
          SealTrace();
        }
      }
    }

    method ReadStep(a: DrainArgs) returns (reply: Reply)
      requires Valid()
      modifies trace, access
      ensures Valid() && (View(), reply) == TraceSessions.ReadStep(old(View()), a)
    {
      if a.access {
        reply := access.Drain(a.maxBytes, a.readable);
      } else {
        reply := trace.Drain(a.maxBytes, a.readable);
      }
    }

    /** A drain request. */
    method DrainRequest(a: DrainArgs) returns (reply: Reply)
      requires Valid()
      modifies this, trace, access
      ensures Valid() && (View(), reply) == DrainStep(old(View()), a)
    {
      SealForDrain(a);
      reply := ReadStep(a);
    }

    /** The monitor thread's rotation of a continuous session. */
    method MonitorRotate(pathOk: bool, accessPathOk: bool)
      requires Valid() && continuous
      modifies this, trace, access
      ensures Valid()
      ensures forall user :: World(View(), user) ==
                Next(World(old(View()), user), Step.MonitorRotate(pathOk, accessPathOk))
    {
      if active && capturing {
        RotateTrace(true, pathOk, accessPathOk);
        Arm();
      }
    }

    /** The monitor thread opens the next window of a sampled session. */
    method MonitorOpenWindow(pathOk: bool, accessPathOk: bool)
      requires Valid() && !continuous
      modifies this, trace, access
      ensures Valid()
      ensures forall user :: World(View(), user) ==
                Next(World(old(View()), user), Step.MonitorOpenWindow(pathOk, accessPathOk))
    {
      if active && !capturing {
        RotateTrace(true, pathOk, accessPathOk);
        SetEnabled(true);
      }
    }

    /** The monitor thread seals the window of a sampled session. */
    method MonitorSealWindow()
      requires Valid() && !continuous
      modifies this, trace, access
      ensures Valid()
      ensures forall user :: World(View(), user) == Next(World(old(View()), user), Step.MonitorSealWindow)
    {
      if active && capturing {
        SealTrace();
      }
    }

    /** The monitor thread finds the traced processor gone and ends the session without it. */
    method ProcessorLost(engine: Engine)
      requires Valid()
      modifies this, trace, access
      ensures Valid()
      ensures forall user :: View() == Next(World(old(View()), user), Step.ProcessorLost(engine)).session
    {
      if active {
        present := false;
        Finish();
        engines := engines.With(cpu, engine);
      }
    }

    method Stop(deleteFiles: bool)
      requires Valid()
      modifies this, trace, access
      ensures Valid()
      ensures forall user :: World(View(), user) == Next(World(old(View()), user), StopSession(deleteFiles))
    {
      Finish();
      if deleteFiles {
        DeleteFiles();
      }
    }
  }
}
