/** The capture guard: pause once, read, and put the run state back. */
module CaptureGuard {
  import opened Basics
  import opened RunState

  datatype Action = PauseIssued | ResumeIssued

  /** How a run-state command ends: without success, though it may have taken effect, or with
      an answer that may carry the resulting state. */
  datatype Reply = Refused(landed: bool) | Answered(echo: Option<bool>)

  /** How the status query ends. */
  datatype Status = NoStatus | StatusIs(running: Option<bool>)

  datatype World = World(running: bool, tracker: Tracking, actions: seq<Action>)

  datatype Script = Script(status: Status, pause: Reply, readOk: bool, resume: Reply)

  datatype RestoreCode = Restored | AlreadyPaused | SkippedUnknown | RestoreFailed | Unverified

  /** The book-keeping of one window; an unknown run state is None. */
  datatype Window = Window(
    initial: Option<bool>, pausedByTool: bool, resumed: bool, skipped: bool, restoreFailed: bool,
    restoreVerified: bool, final: Option<bool>)

  datatype Report =
    | PauseFailed
    | ReadFailed(window: Window, code: RestoreCode)
    | Sampled(window: Window, code: RestoreCode)

  // --------------------------------------------------------------------- the guard

  /** The tracker answers when it knows; otherwise one status query does. */
  function ObserveInitial(w: World, status: Status): (World, Option<bool>) {
    if w.tracker.observed.Some? then (w, w.tracker.observed)
    else if status.NoStatus? || status.running.None? then (w, None)
    else (w.(tracker := Next(w.tracker, Seen(status.running.value))), status.running)
  }

  /** A run-state command of the server. */
  function Command(w: World, run: bool, reply: Reply): World {
    var issued := w.(actions := w.actions + [if run then ResumeIssued else PauseIssued]);
    match reply
    case Refused(landed) => if landed then issued.(running := run) else issued
    case Answered(_) => issued.(running := run, tracker := Next(w.tracker, ByMcp(run)))
  }

  predicate NeedsPause(w: World) {
    w.tracker.observed != Some(false)
  }

  function Close(w: World, initial: Option<bool>, paused: bool, resume: Reply): (World, Window) {
    if !paused then (w, Window(initial, false, false, false, false, false, initial))
    else if initial.None? then (w, Window(initial, true, false, true, false, false, Some(false)))
    else
      var resumed := Command(w, true, resume);
      match resume
      case Refused(_) => (resumed, Window(initial, true, false, false, true, false, Some(false)))
      case Answered(echo) =>
        var verified := echo == Some(true);
        (resumed, Window(initial, true, true, false, false, verified, if verified then Some(true) else None))
  }

  function CodeOf(window: Window): RestoreCode {
    if window.restoreFailed then RestoreFailed
    else if window.skipped then SkippedUnknown
    else if !window.pausedByTool then AlreadyPaused
    else if window.resumed && !window.restoreVerified then Unverified
    else Restored
  }

  function Guarded(w: World, script: Script): (World, Report) {
    var (observed, initial) := ObserveInitial(w, script.status);
    if NeedsPause(observed) && script.pause.Refused? then (Command(observed, false, script.pause), PauseFailed)
    else
      var paused := NeedsPause(observed);
      var sampled := if paused then Command(observed, false, script.pause) else observed;
      var (closed, window) := Close(sampled, initial, paused, script.resume);
      (closed, if script.readOk then Sampled(window, CodeOf(window)) else ReadFailed(window, CodeOf(window)))
  }

  // --------------------------------------------------------------------- properties

  /** The actions this call added. */
  ghost function Added(w: World, script: Script): seq<Action>
  {
    var after := Guarded(w, script).0;
    if |w.actions| <= |after.actions| then after.actions[|w.actions|..] else []
  }

  lemma {:induction false} KnownOrNot(state: Option<bool>)
    ensures state == None || state == Some(true) || state == Some(false)
  {
    if state.Some? {
      var running: bool := state.value;
      assert state == Some(running);
      if !running {
        assert running == false;
      }
    }
  }

  /** A resume is issued exactly for a target that was observed running and then paused by this
      call, whether or not the read worked; otherwise at most the pause is issued. */
  lemma {:induction false} ResumeExactly(w: World, script: Script)
    ensures var (after, report) := Guarded(w, script);
            var initial := ObserveInitial(w, script.status).1;
            && w.actions <= after.actions
            && (Added(w, script) == [PauseIssued, ResumeIssued] <==> initial == Some(true) && script.pause.Answered?)
            && (Added(w, script) == [PauseIssued] <==>
                  initial == None || (initial == Some(true) && script.pause.Refused?))
            && (Added(w, script) == [] <==> initial == Some(false))
  {
    KnownOrNot(ObserveInitial(w, script.status).1);
    var a := w.actions;
    assert a[|a|..] == [];
    assert (a + [PauseIssued])[|a|..] == [PauseIssued];
    assert (a + [PauseIssued] + [ResumeIssued])[|a|..] == [PauseIssued, ResumeIssued];
  }

  /** The status query tells the truth. */
  predicate Truthful(w: World, status: Status) {
    status.StatusIs? && status.running.Some? ==> status.running.value == w.running
  }

  /** With truthful queries and native actions that succeed the run state ends as it began,
      except in two families: the tracker still says running although the target was paused
      from outside, and the state was unknown while the target ran. */
  lemma {:induction false} RunStateRestored(w: World, script: Script)
    requires script.pause.Answered? && script.resume.Answered? && Truthful(w, script.status)
    ensures var after := Guarded(w, script).0;
            var initial := ObserveInitial(w, script.status).1;
            after.running == w.running
            <==> !(w.tracker.observed == Some(true) && !w.running) && !(initial == None && w.running)
  {
    KnownOrNot(ObserveInitial(w, script.status).1);
    KnownOrNot(w.tracker.observed);
  }

  /** In particular nothing changes when the tracker, if it knows the state, is right about it
      and the status query answers; the tracker is then right afterwards. */
  lemma {:induction false} KnownStateRestored(w: World, script: Script)
    requires script.pause.Answered? && script.resume.Answered?
    requires w.tracker.observed.Some? ==> w.tracker.observed.value == w.running
    requires w.tracker.observed.None? ==> script.status == StatusIs(Some(w.running))
    ensures var after := Guarded(w, script).0;
            after.running == w.running && after.tracker.observed == Some(after.running)
  {
  }

  /** The target is known to run no more: the tracker says so, or, when it knows nothing, the status. */
  predicate KnownPaused(w: World, status: Status) {
    w.tracker.observed == Some(false) || (w.tracker.observed.None? && status == StatusIs(Some(false)))
  }

  /** The guard fails exactly when a pause was needed and refused, or the read failed inside the
      window; the window says what was known at first, and whether the guard paused. */
  lemma {:induction false} OutcomeExactly(w: World, script: Script)
    ensures var report := Guarded(w, script).1;
            var entered := KnownPaused(w, script.status) || script.pause.Answered?;
            && (report.PauseFailed? <==> !entered)
            && (report.ReadFailed? <==> entered && !script.readOk)
            && (report.Sampled? <==> entered && script.readOk)
            && (entered ==>
                  && report.window.pausedByTool == !KnownPaused(w, script.status)
                  && report.window.initial ==
                       if w.tracker.observed.Some? then w.tracker.observed
                       else if script.status.StatusIs? then script.status.running else None)
  {
    KnownOrNot(w.tracker.observed);
    if script.status.StatusIs? { KnownOrNot(script.status.running); }
  }

  /** The state reported at the end: the first one when nothing was done, running only when the resume was
      seen to work, unknown when it was not, and paused when there was no resume. */
  lemma {:induction false} FinalExactly(w: World, script: Script)
    requires !Guarded(w, script).1.PauseFailed?
    ensures var window := Guarded(w, script).1.window;
            var resumed := !KnownPaused(w, script.status) && window.initial.Some? && script.resume.Answered?;
            && window.resumed == resumed
            && window.final ==
                 if KnownPaused(w, script.status) then Some(false)
                 else if !resumed then Some(false)
                 else if script.resume.echo == Some(true) then Some(true) else None
  {
    OutcomeExactly(w, script);
    KnownOrNot(w.tracker.observed);
    if script.status.StatusIs? { KnownOrNot(script.status.running); }
  }

  /** One guarded read after another. */
  function AllReads(w: World, scripts: seq<Script>): World {
    if scripts == [] then w else Guarded(AllReads(w, scripts[..|scripts| - 1]), scripts[|scripts| - 1]).0
  }

  /** Under the conditions of RunStateRestored only the first of many reads can change the run
      state: it ends as it began exactly when the first read restored it. The tracker is right
      afterwards exactly when it did not at first say paused of a running target. */
  lemma {:induction false} AllReadsRestore(w: World, scripts: seq<Script>)
    requires scripts != [] && Truthful(w, scripts[0].status)
    requires forall k :: 0 <= k < |scripts| ==> scripts[k].pause.Answered? && scripts[k].resume.Answered?
    ensures var after := AllReads(w, scripts);
            var initial := ObserveInitial(w, scripts[0].status).1;
            && (after.running == w.running
                <==> !(w.tracker.observed == Some(true) && !w.running) && !(initial == None && w.running))
            && (after.tracker.observed == Some(after.running)
                <==> !(w.tracker.observed == Some(false) && w.running))
            && after.tracker.observed.Some? && (after.tracker.observed.value ==> after.running)
  {
    var init, last := scripts[..|scripts| - 1], scripts[|scripts| - 1];
    if init == [] {
      assert AllReads(w, init) == w;
      RunStateRestored(w, last);
      FirstRead(w, last);
    } else {
      AllReadsRestore(w, init);
      LaterRead(AllReads(w, init), last);
    }
  }

  lemma {:induction false} FirstRead(w: World, script: Script)
    requires script.pause.Answered? && script.resume.Answered? && Truthful(w, script.status)
    ensures var after := Guarded(w, script).0;
            && (after.tracker.observed == Some(after.running)
                <==> !(w.tracker.observed == Some(false) && w.running))
            && after.tracker.observed.Some? && (after.tracker.observed.value ==> after.running)
  {
    KnownOrNot(ObserveInitial(w, script.status).1);
    KnownOrNot(w.tracker.observed);
  }

  /** A read under a tracker that is not wrong about a running target changes nothing. */
  lemma {:induction false} LaterRead(w: World, script: Script)
    requires script.pause.Answered? && script.resume.Answered?
    requires w.tracker.observed.Some? && (w.tracker.observed.value ==> w.running)
    ensures var after := Guarded(w, script).0;
            after.running == w.running && after.tracker.observed == w.tracker.observed
  {
    KnownOrNot(w.tracker.observed);
  }

  /** Restored is claimed exactly when a resume was issued and its answer said running; and
      each other code names its case. */
  lemma {:induction false} CodesExactly(w: World, script: Script)
    requires !Guarded(w, script).1.PauseFailed?
    ensures var code, initial := Guarded(w, script).1.code, ObserveInitial(w, script.status).1;
            && (code == Restored <==> initial == Some(true) && script.resume == Answered(Some(true)))
            && (code == AlreadyPaused <==> initial == Some(false))
            && (code == SkippedUnknown <==> initial == None)
            && (code == RestoreFailed <==> initial == Some(true) && script.resume.Refused?)
            && (code == Unverified <==>
                  initial == Some(true) && script.resume.Answered? && script.resume.echo != Some(true))
  {
    KnownOrNot(ObserveInitial(w, script.status).1);
  }

  /** The final state that is reported is right or unknown, provided a resume that failed had no
      effect and, where nothing was done, the state taken from the tracker was right. */
  lemma {:induction false} FinalStateRight(w: World, script: Script)
    requires !Guarded(w, script).1.PauseFailed? && Truthful(w, script.status)
    requires script.resume.Refused? ==> !script.resume.landed
    requires w.tracker.observed == Some(false) ==> !w.running
    ensures var (after, report) := Guarded(w, script);
            report.window.final == None || report.window.final == Some(after.running)
  {
  }

  /** The guard leaves the tracker consistent, and after a window that issued an action the
      server holds itself responsible for the state it left. */
  lemma {:induction false} TrackerKept(w: World, script: Script)
    requires Consistent(w.tracker)
    ensures Consistent(Guarded(w, script).0.tracker)
    ensures var (after, report) := Guarded(w, script);
            !report.PauseFailed? && report.window.pausedByTool ==>
              after.tracker.mcpSet == Some(report.window.resumed) == after.tracker.observed
  {
  }

  // ------------------------------------------------------------------------ objects

  class Machine {
    var running: bool
    var actions: seq<Action>

    constructor (run: bool)
      ensures running == run && actions == []
    {
      running, actions := run, [];
    }

    method CpuControl(run: bool, reply: Reply)
      modifies this
      ensures actions == old(actions) + [if run then ResumeIssued else PauseIssued]
      ensures running == if reply.Answered? || reply.landed then run else old(running)
    {
      actions := actions + [if run then ResumeIssued else PauseIssued];
      if reply.Answered? || reply.landed {
        running := run;
      }
    }
  }

  ghost function WorldOf(machine: Machine, tracker: RunStateTracker): World
    reads machine, tracker
  {
    World(machine.running, tracker.View(), machine.actions)
  }

  class CaptureWindow {
    const machine: Machine
    const tracker: RunStateTracker
    var initial: Option<bool>
    var pausedByTool: bool
    var resumed: bool
    var skipped: bool
    var restoreFailed: bool
    var restoreVerified: bool
    var final: Option<bool>

    constructor (m: Machine, t: RunStateTracker)
      ensures machine == m && tracker == t
      ensures View() == Window(None, false, false, false, false, false, None)
    {
      machine, tracker := m, t;
      initial, pausedByTool, resumed, skipped := None, false, false, false;
      restoreFailed, restoreVerified, final := false, false, None;
    }

    ghost function View(): Window
      reads this
    {
      Window(initial, pausedByTool, resumed, skipped, restoreFailed, restoreVerified, final)
    }

    method Issue(run: bool, reply: Reply) returns (ok: bool)
      modifies machine, tracker
      ensures WorldOf(machine, tracker) == Command(old(WorldOf(machine, tracker)), run, reply)
      ensures ok == reply.Answered?
    {
      machine.CpuControl(run, reply);
      if reply.Answered? {
        tracker.SetByMcp(run);
      }
      ok := reply.Answered?;
    }

    method ObservedRunState(status: Status) returns (state: Option<bool>)
      modifies tracker
      ensures (WorldOf(machine, tracker), state) == ObserveInitial(old(WorldOf(machine, tracker)), status)
    {
      if tracker.observed.Some? {
        return tracker.observed;
      }
      if status.NoStatus? || status.running.None? {
        return None;
      }
      tracker.Observe(status.running.value);
      return status.running;
    }

    /** Observes the initial state and pauses, unless the target is known to be paused. */
    method Begin(status: Status, pause: Reply) returns (ok: bool)
      modifies this, machine, tracker
      ensures var (observed, state) := ObserveInitial(old(WorldOf(machine, tracker)), status);
              && initial == state && ok == !(NeedsPause(observed) && pause.Refused?)
              && pausedByTool == (NeedsPause(observed) && ok)
              && WorldOf(machine, tracker) == if NeedsPause(observed) then Command(observed, false, pause) else observed
      ensures View() == old(View()).(initial := initial, pausedByTool := pausedByTool)
    {
      initial := ObservedRunState(status);
      pausedByTool := false;
      if tracker.observed == Some(false) {
        return true;
      }
      ok := Issue(false, pause);
      pausedByTool := ok;
    }

    /** Puts the run state back, but only when it was known. */
    method CloseWindow(resume: Reply)
      requires !resumed && !skipped && !restoreFailed && !restoreVerified
      modifies this, machine, tracker
      ensures (WorldOf(machine, tracker), View())
              == Close(old(WorldOf(machine, tracker)), old(initial), old(pausedByTool), resume)
    {
      if pausedByTool {
        if initial.None? {
          skipped := true;
        } else {
          var ok := Issue(true, resume);
          if !ok {
            restoreFailed := true;
          } else {
            resumed := true;
            restoreVerified := resume.echo == Some(true);
          }
        }
      }
      if !pausedByTool {
        final := initial;
      } else if resumed && restoreVerified {
        final := Some(true);
      } else if resumed {
        final := None;
      } else {
        final := Some(false);
      }
    }

    method RestoreView() returns (code: RestoreCode)
      ensures code == CodeOf(View())
    {
      code := Restored;
      if restoreFailed {
        code := RestoreFailed;
      } else if skipped {
        code := SkippedUnknown;
      } else if !pausedByTool {
        code := AlreadyPaused;
      } else if resumed && !restoreVerified {
        code := Unverified;
      }
    }
  }

  /** The guard in paused mode; the window is closed before the outcome of the read is looked at. */
  method WithCaptureGuard(machine: Machine, tracker: RunStateTracker, script: Script)
      returns (ok: bool, code: RestoreCode, window: CaptureWindow)
    modifies machine, tracker
    ensures fresh(window)
    ensures var (world, report) := Guarded(old(WorldOf(machine, tracker)), script);
            && WorldOf(machine, tracker) == world
            && match report
               case PauseFailed => !ok
               case ReadFailed(w, c) => !ok && window.View() == w && code == c
               case Sampled(w, c) => ok && window.View() == w && code == c
  {
    window := new CaptureWindow(machine, tracker);
    code := Restored;
    ok := window.Begin(script.status, script.pause);
    if !ok {
      return;
    }
    window.CloseWindow(script.resume);
    code := window.RestoreView();
    ok := script.readOk;
  }
}
