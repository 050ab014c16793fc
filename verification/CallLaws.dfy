/**
 What the steps of the mutation scheduler mean: how the target changes, what an ambiguous
 outcome forbids, which calls get through, and how long a control lock lasts.
*/
module CallLaws {
  import opened Basics
  import opened MutationSteps

  // ------------------------------------------------------------- the native outcome

  predicate Lands(s: State, step: Step) {
    s.phase.Admitted? && step.Native? && (step.outcome.Succeeded? || step.outcome.Partial?)
  }

  predicate TurnsAmbiguous(s: State, step: Step) {
    s.phase.Admitted? && step == Native(Unclear)
  }

  /** An ambiguous outcome makes the target unknown, whoever holds the control lock; the generation
      stays. An outcome that is a plain failure leaves the target as it was. */
  lemma {:induction false} OutcomeExactly(s: State)
    requires s.phase.Admitted?
    ensures var t := Next(s, Native(Unclear));
            && t.unknown && t.generation == s.generation && t.phase.Idle?
            && t.facts == s.facts + [WentUnknown] && t.lock == s.lock && t.calls == s.calls
            && t.audit == s.audit + [Entry(Ambiguous, Some(s.phase.current), None)]
    ensures var t := Next(s, Native(Refused));
            && t.unknown == s.unknown && t.generation == s.generation && t.phase.Idle?
            && t.facts == s.facts && t.lock == s.lock && t.calls == s.calls
            && t.audit == s.audit + [Entry(Failed, Some(s.phase.current), Some(s.phase.current))]
  {
  }

  /** The generation moves by a landing or by an observation of an unknown target, by one, and by
      nothing else; the target turns unknown by an ambiguous outcome only, and known again by a
      landing or an observation only. */
  lemma {:induction false} TargetMovesExactly(s: State, step: Step)
    ensures var t := Next(s, step);
            && t.generation == s.generation + (if Lands(s, step) || (step.Observe? && s.unknown) then 1 else 0)
            && (t.unknown <==>
                  if TurnsAmbiguous(s, step) then true else s.unknown && !Lands(s, step) && !step.Observe?)
  {
  }

  // ------------------------------------------------------------ after an ambiguous outcome

  /** A guarded call that has passed the check of the unknown flag. */
  predicate GuardedInside(s: State) {
    (s.phase.Checked? || s.phase.LockSeen? || s.phase.Admitted?) && s.phase.call.guard.expected.Some?
  }

  /** No landing and no observation among the steps. */
  ghost predicate Unobserved(s: State, steps: seq<Step>) {
    forall k :: 0 <= k < |steps| ==> !steps[k].Observe? && !Lands(Run(s, steps[..k]), steps[k])
  }

  lemma {:induction false} UnobservedInit(s: State, steps: seq<Step>)
    requires Unobserved(s, steps) && steps != []
    ensures var init := steps[..|steps| - 1];
            Unobserved(s, init) && !steps[|steps| - 1].Observe? && !Lands(Run(s, init), steps[|steps| - 1])
  {
    var init := steps[..|steps| - 1];
    forall k | 0 <= k < |init| ensures !init[k].Observe? && !Lands(Run(s, init[..k]), init[k]) {
      assert init[..k] == steps[..k];
    }
  }

  lemma {:induction false} NoGuardedEntry(s: State, step: Step)
    requires s.unknown && !GuardedInside(s)
    ensures !GuardedInside(Next(s, step))
  {
  }

  /** As long as an ambiguous outcome is followed by neither a landing nor an observation the target
      stays unknown and no guarded call passes the check, whatever it expects, whoever holds the
      control lock, and whatever else happens. */
  lemma {:induction false} NoGuardAfterAmbiguous(s: State, more: seq<Step>)
    requires s.phase.Admitted? && Unobserved(Next(s, Native(Unclear)), more)
    ensures var t := Run(Next(s, Native(Unclear)), more);
            t.unknown && t.generation == s.generation && !GuardedInside(t)
  {
    var start := Next(s, Native(Unclear));
    if more != [] {
      var init, step := more[..|more| - 1], more[|more| - 1];
      UnobservedInit(start, more);
      NoGuardAfterAmbiguous(s, init);
      TargetMovesExactly(Run(start, init), step);
      NoGuardedEntry(Run(start, init), step);
    }
  }

  // --------------------------------------------------------------- generation over steps

  /** The landings among the steps, and the observations that found the target unknown. */
  ghost function Moves(s: State, steps: seq<Step>): nat {
    if steps == [] then 0
    else
      var before, step := Run(s, steps[..|steps| - 1]), steps[|steps| - 1];
      Moves(s, steps[..|steps| - 1]) + if Lands(before, step) || (step.Observe? && before.unknown) then 1 else 0
  }

  /** Over every run, counted over what was done and not over what was noted of it. */
  lemma {:induction false} GenerationOverSteps(s: State, steps: seq<Step>)
    ensures Run(s, steps).generation == s.generation + Moves(s, steps)
  {
    if steps != [] {
      GenerationOverSteps(s, steps[..|steps| - 1]);
      TargetMovesExactly(Run(s, steps[..|steps| - 1]), steps[|steps| - 1]);
    }
  }

  // --------------------------------------------------------------- which calls get through

  predicate GuardPasses(s: State, call: Call) {
    call.guard.expected.None? || (!s.unknown && call.guard.expected.value == s.generation)
  }

  /** No live lock at the first look, or the caller's own at both. */
  predicate LockPasses(s: State, call: Call, now: int, later: int) {
    !Live(s.lock, now) || (Live(s.lock, later) && s.lock.value.id == call.guard.controlId)
  }

  /** The checks of one call with nobody else at work in between. */
  ghost function Alone(s: State, call: Call, now: int, later: int): State {
    Next(Next(Next(Next(s, Begin(call)), CheckUnknown), CheckActive(now)), CheckValid(later))
  }

  /** A call that is alone reaches its native action exactly when its guard, its control lock and its
      preconditions let it, and otherwise ends with the record of the first that did not, having
      touched nothing. */
  lemma {:induction false} CallExactly(s: State, call: Call, now: int, later: int)
    requires s.phase.Idle?
    ensures var t := Alone(s, call, now, later);
            && t.generation == s.generation && t.unknown == s.unknown && t.calls == s.calls + 1
            && (t.phase.Admitted? <==> GuardPasses(s, call) && LockPasses(s, call, now, later) && call.prepareOk)
            && (t.phase.Admitted? ==>
                  t.phase.call == call && t.phase.current == s.generation &&
                  t.facts == s.facts + [Reached(call.guard.controlId, call.guard.expected, |s.facts|, |s.facts|)])
            && (!t.phase.Admitted? ==>
                  t.phase.Idle? && t.facts == s.facts && t.audit != [] &&
                  t.audit[|t.audit| - 1] ==
                    if !GuardPasses(s, call) then Entry(Conflict, None, None)
                    else if !LockPasses(s, call, now, later) then Entry(Held, None, None)
                    else Entry(Failed, Some(s.generation), Some(s.generation)))
  {
    if GuardPasses(s, call) {
      GuardedAlone(s, call);
      LockedAlone(Next(Next(s, Begin(call)), CheckUnknown), now, later);
    } else {
      RefusedAlone(s, call, now, later);
    }
  }

  lemma {:induction false} GuardedAlone(s: State, call: Call)
    requires s.phase.Idle? && GuardPasses(s, call)
    ensures Next(Next(s, Begin(call)), CheckUnknown)
            == s.(phase := Checked(call, s.generation, |s.facts|, |s.facts|), calls := s.calls + 1)
  {
  }

  lemma {:induction false} RefusedAlone(s: State, call: Call, now: int, later: int)
    requires s.phase.Idle? && !GuardPasses(s, call)
    ensures Alone(s, call, now, later) == s.(audit := s.audit + [Entry(Conflict, None, None)], calls := s.calls + 1)
  {
  }

  lemma {:induction false} LockedAlone(s: State, now: int, later: int)
    requires s.phase.Checked?
    ensures var t, call := Next(Next(s, CheckActive(now)), CheckValid(later)), s.phase.call;
            && t.generation == s.generation && t.unknown == s.unknown && t.calls == s.calls
            && (t.phase.Admitted? <==> LockPasses(s, call, now, later) && call.prepareOk)
            && (t.phase.Admitted? ==>
                  t.phase == Admitted(call, s.phase.current, s.phase.readAt) &&
                  t.facts == s.facts + [Reached(call.guard.controlId, call.guard.expected, s.phase.readAt, s.phase.checkedAt)])
            && (!t.phase.Admitted? ==>
                  t.phase.Idle? && t.facts == s.facts && t.audit != [] &&
                  t.audit[|t.audit| - 1] ==
                    if !LockPasses(s, call, now, later) then Entry(Held, None, None)
                    else Entry(Failed, Some(s.phase.current), Some(s.phase.current)))
  {
  }

  /** The same with others at work in between, one check at a time: the guard by the flag as it is now
      and the generation as it was read; a live lock sends the call to the second look, where
      its owner and nobody else gets in. */
  lemma {:induction false} ChecksExactly(s: State, now: int)
    ensures s.phase.Began? ==>
              var guard := s.phase.call.guard;
              var passes := guard.expected.None? || (!s.unknown && guard.expected.value == s.phase.current);
              Next(s, CheckUnknown).phase.Checked? == passes && Next(s, CheckUnknown).phase.Idle? == !passes
    ensures s.phase.Checked? ==>
              var t := Next(s, CheckActive(now));
              && (t.phase.LockSeen? <==> Live(s.lock, now))
              && (t.phase.Admitted? <==> !Live(s.lock, now) && s.phase.call.prepareOk)
    ensures s.phase.LockSeen? ==>
              (Next(s, CheckValid(now)).phase.Admitted? <==>
                Live(s.lock, now) && s.lock.value.id == s.phase.call.guard.controlId && s.phase.call.prepareOk)
  {
  }

  // -------------------------------------------------------------------- the control lock

  /** How long a lock may be asked for: an hour at most, five minutes when nothing is said. */
  predicate Lasts(ttl: int, granted: int) {
    granted == if ttl <= 0 then 300_000_000_000 else if ttl < 3_600_000_000_000 then ttl else 3_600_000_000_000
  }

  /** The lock of an id that is live exactly until some time. */
  ghost predicate HeldUntil(lock: Option<Lock>, id: string, until: int) {
    lock.Some? && lock.value.id == id && forall time :: Live(lock, time) <==> time <= until
  }

  /** A lock is granted exactly when none is live, and lasts for what was asked for, in bounds; the live
      owner renews it from now on, another one changes nothing. */
  lemma {:induction false} LockLasts(s: State, id: string, ttl: int, now: int, granted: int)
    requires Lasts(ttl, granted)
    ensures var t := Next(s, Acquire(id, ttl, now));
            if Live(s.lock, now) then t == s else HeldUntil(t.lock, id, now + granted)
    ensures var t := Next(s, Renew(id, ttl, now));
            if Live(s.lock, now) && s.lock.value.id == id then HeldUntil(t.lock, id, now + granted)
            else if Live(s.lock, now) then t == s
            else t.lock.None?
  {
  }

  /** The owner gives the lock back, live or not; losing the bridge or the context ends it whoever holds it. Every
      lock that ends is written down once. */
  lemma {:induction false} LockEnds(s: State, id: string, now: int)
    ensures var t := Next(s, Release(id));
            if s.lock.Some? && s.lock.value.id == id
            then t == s.(lock := None, audit := s.audit + [Entry(LockEvent, None, None)]) else t == s
    ensures var t := Next(s, DropAny(now));
            t == if s.lock.Some? then s.(lock := None, audit := s.audit + [Entry(LockEvent, None, None)]) else s
  {
  }

  /** A lock ends, or changes hands, only with a record of its end. */
  lemma {:induction false} NoLockEndsUnseen(s: State, step: Step)
    requires s.lock.Some? && (Next(s, step).lock.None? || Next(s, step).lock.value.id != s.lock.value.id)
    ensures |s.audit| < |Next(s, step).audit| && Next(s, step).audit[|s.audit|] == Entry(LockEvent, None, None)
  {
  }
}
