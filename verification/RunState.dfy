/** What the server knows about the run state, and whom it holds responsible for it. */
module RunState {
  import opened Basics

  /** observed: the last known state; mcpSet: the state the last action of the server asked for,
      while it still explains the observed one; audited: external transitions written down. */
  datatype Tracking = Tracking(observed: Option<bool>, mcpSet: Option<bool>, stop: bool, audited: nat)

  const Fresh := Tracking(None, None, false, 0)

  datatype Change =
    | ByMcp(running: bool)
    | BreakpointStop
    | Seen(running: bool)

  datatype Source = Mcp | UiOrExternal | BreakpointOrWatchpoint | UnknownSource

  function Next(t: Tracking, c: Change): Tracking {
    match c
    case ByMcp(running) => Tracking(Some(running), Some(running), false, t.audited)
    case BreakpointStop => t.(stop := true)
    case Seen(running) =>
      var transition := t.observed.Some? && t.observed.value != running;
      var external := transition && (t.mcpSet.None? || t.mcpSet.value != running);
      Tracking(Some(running), if external then None else t.mcpSet, t.stop && !running,
               t.audited + if external then 1 else 0)
  }

  function Attribution(t: Tracking, running: bool): Source {
    if t.stop && !running then BreakpointOrWatchpoint
    else if t.mcpSet == Some(running) then Mcp
    else if t.observed.Some? then UiOrExternal
    else UnknownSource
  }

  function After(changes: seq<Change>): Tracking {
    if changes == [] then Fresh else Next(After(changes[..|changes| - 1]), changes[|changes| - 1])
  }

  predicate Consistent(t: Tracking) {
    t.mcpSet.Some? ==> t.mcpSet == t.observed
  }

  /** A recorded expectation of the server always equals the observed state. */
  lemma {:induction false} AlwaysConsistent(changes: seq<Change>)
    ensures Consistent(After(changes))
  {
    if changes != [] { AlwaysConsistent(changes[..|changes| - 1]); }
  }

  /** The server's action at k asked for the state, and nothing since has said otherwise. */
  ghost predicate Explains(changes: seq<Change>, k: nat, running: bool)
    requires k < |changes|
  {
    changes[k] == ByMcp(running) &&
    forall j :: k < j < |changes| ==> changes[j] == Seen(running) || changes[j].BreakpointStop?
  }

  /** The server takes responsibility for a state exactly when its last action asked for it and
      every observation since has agreed. */
  lemma {:induction false} McpExactly(changes: seq<Change>, running: bool)
    ensures After(changes).mcpSet == Some(running) <==> exists k :: 0 <= k < |changes| && Explains(changes, k, running)
  {
    if changes != [] {
      var init, last := changes[..|changes| - 1], changes[|changes| - 1];
      McpExactly(init, running);
      AlwaysConsistent(init);
      if k :| 0 <= k < |init| && Explains(init, k, running) {
        if last == Seen(running) || last.BreakpointStop? {
          assert Explains(changes, k, running);
        }
      }
      if last == ByMcp(running) {
        assert Explains(changes, |init|, running);
      }
      if k :| 0 <= k < |changes| && Explains(changes, k, running) {
        if k < |init| {
          assert Explains(init, k, running);
        }
      }
    }
  }

  predicate Transition(changes: seq<Change>, k: nat)
    requires k < |changes|
  {
    changes[k].Seen? && After(changes[..k]).observed == Some(!changes[k].running)
  }

  function Transitions(changes: seq<Change>): nat {
    if changes == [] then 0
    else Transitions(changes[..|changes| - 1]) + if Transition(changes, |changes| - 1) then 1 else 0
  }

  /** Every change of state that is seen rather than made is audited, exactly once. */
  lemma {:induction false} EveryTransitionAudited(changes: seq<Change>)
    ensures After(changes).audited == Transitions(changes)
  {
    if changes != [] {
      EveryTransitionAudited(changes[..|changes| - 1]);
      AlwaysConsistent(changes[..|changes| - 1]);
    }
  }

  /** An instrument was proven to have fired at k, and nothing since says the target moved on. */
  ghost predicate StopsFrom(changes: seq<Change>, k: nat)
    requires k < |changes|
  {
    changes[k].BreakpointStop? &&
    forall j :: k < j < |changes| ==> changes[j].BreakpointStop? || changes[j] == Seen(false)
  }

  ghost predicate StopStands(changes: seq<Change>) {
    exists k :: 0 <= k < |changes| && StopsFrom(changes, k)
  }

  ghost predicate McpStands(changes: seq<Change>, running: bool) {
    exists k :: 0 <= k < |changes| && Explains(changes, k, running)
  }

  lemma {:induction false} StopExactly(changes: seq<Change>)
    ensures After(changes).stop <==> StopStands(changes)
  {
    if changes != [] {
      var init, last := changes[..|changes| - 1], changes[|changes| - 1];
      StopExactly(init);
      if StopStands(init) && (last.BreakpointStop? || last == Seen(false)) {
        var k :| 0 <= k < |init| && StopsFrom(init, k);
        assert StopsFrom(changes, k);
      }
      if last.BreakpointStop? {
        assert StopsFrom(changes, |init|);
      }
      if StopStands(changes) {
        var k :| 0 <= k < |changes| && StopsFrom(changes, k);
        if k < |init| {
          assert StopsFrom(init, k);
        }
      }
    }
  }

  /** The change at k set or showed the state, and no later change says anything about it. */
  ghost predicate Tells(changes: seq<Change>, k: nat, running: bool)
    requires k < |changes|
  {
    && (changes[k] == ByMcp(running) || changes[k] == Seen(running))
    && forall j :: k < j < |changes| ==> changes[j].BreakpointStop?
  }

  /** The observed state is the last one that was set or seen. */
  lemma {:induction false} ObservedExactly(changes: seq<Change>, running: bool)
    ensures After(changes).observed == Some(running) <==> exists k :: 0 <= k < |changes| && Tells(changes, k, running)
  {
    if changes != [] {
      var init, last := changes[..|changes| - 1], changes[|changes| - 1];
      ObservedExactly(init, running);
      if last.BreakpointStop? {
        if k :| 0 <= k < |init| && Tells(init, k, running) { assert Tells(changes, k, running); }
        if k :| 0 <= k < |changes| && Tells(changes, k, running) { assert Tells(init, k, running); }
      } else if last.running == running {
        assert Tells(changes, |init|, running);
      }
    }
  }

  lemma {:induction false} NothingSeen(changes: seq<Change>)
    ensures After(changes).observed.None? <==> forall i :: 0 <= i < |changes| ==> changes[i].BreakpointStop?
  {
    if changes != [] { NothingSeen(changes[..|changes| - 1]); }
  }

  /** The source of an observed state, over any history: a debugger stop for a paused target
      while the stop stands; otherwise the server while its last action stands; otherwise
      someone else; and unknown exactly when the state was never seen or set. */
  lemma {:induction false} AttributionExactly(changes: seq<Change>, running: bool)
    ensures var source := Attribution(After(changes), running);
            var stopped := !running && StopStands(changes);
            && (source == BreakpointOrWatchpoint <==> stopped)
            && (source == Mcp <==> !stopped && McpStands(changes, running))
            && (source == UnknownSource <==>
                  !stopped && !McpStands(changes, running) && forall i :: 0 <= i < |changes| ==> changes[i].BreakpointStop?)
  {
    StopExactly(changes);
    McpExactly(changes, running);
    NothingSeen(changes);
  }

  class RunStateTracker {
    var observed: Option<bool>
    var mcpSet: Option<bool>
    var stopAttribution: bool
    var audited: nat

    ghost function View(): Tracking
      reads this
    {
      Tracking(observed, mcpSet, stopAttribution, audited)
    }

    constructor ()
      ensures View() == Fresh
    {
      observed, mcpSet, stopAttribution, audited := None, None, false, 0;
    }

    method SetByMcp(running: bool)
      modifies this
      ensures View() == Next(old(View()), ByMcp(running))
    {
      observed := Some(running);
      mcpSet := Some(running);
      stopAttribution := false;
    }

    method SetBreakpointStop()
      modifies this
      ensures View() == Next(old(View()), BreakpointStop)
    {
      stopAttribution := true;
    }

    method Observe(running: bool)
      modifies this
      ensures View() == Next(old(View()), Seen(running))
    {
      var transition := observed.Some? && observed.value != running;
      var external := transition && (mcpSet.None? || mcpSet.value != running);
      if running {
        stopAttribution := false;
      }
      if transition {
        if external {
          mcpSet := None;
        }
      }
      observed := Some(running);
      if external {
        audited := audited + 1;
      }
    }

    method Attribute(running: bool) returns (source: Source)
      ensures source == Attribution(View(), running)
    {
      if stopAttribution && !running {
        return BreakpointOrWatchpoint;
      }
      if mcpSet == Some(running) {
        return Mcp;
      }
      if observed.Some? {
        return UiOrExternal;
      }
      return UnknownSource;
    }
  }
}
