/**
 The mutation scheduler of the MCP server as a state machine: one mutation at a time
 walks through its checks, while read-only commands may resynchronize the target and
 other callers may touch the control lock between any two of its steps.
*/
module MutationSteps {
  import opened Basics

  const MAX_CONTROL_TTL: nat := 3_600_000_000_000
  const DEFAULT_CONTROL_TTL: nat := 300_000_000_000

  datatype Lock = Lock(id: string, expiresAt: int)

  datatype Guard = Guard(controlId: string, expected: Option<nat>)

  /** prepareOk: the server-local preconditions hold. */
  datatype Call = Call(guard: Guard, prepareOk: bool)

  datatype NativeOutcome = Succeeded | Partial | Refused | Unclear

  /** LockEvent is the end of a control lock. Noted stands for the records other tools write, a
      lock taken or a state saved for instance: whatever they say, they name no generations. */
  datatype Outcome = OK | Failed | PartialOutcome | Conflict | Held | Ambiguous | LockEvent | Noted

  datatype Entry = Entry(outcome: Outcome, before: Option<nat>, after: Option<nat>)

  /** What happened to the target, in order. Reached records a native action being started:
      the caller's control id and expected generation, and how many facts there were when
      the scheduler read the generation and when it looked at the unknown flag. */
  datatype Fact =
    | Landed
    | WentUnknown
    | Resynced
    | Reached(controlId: string, expected: Option<nat>, readAt: nat, checkedAt: nat)

  /** Where the one scheduled mutation stands; current is the generation it read first. */
  datatype Phase =
    | Idle
    | Began(call: Call, current: nat, readAt: nat)
    | Checked(call: Call, current: nat, readAt: nat, checkedAt: nat)
    | LockSeen(call: Call, current: nat, readAt: nat, checkedAt: nat)
    | Admitted(call: Call, current: nat, readAt: nat)

  datatype State = State(
    generation: nat,
    unknown: bool,
    lock: Option<Lock>,
    phase: Phase,
    facts: seq<Fact>,
    audit: seq<Entry>,
    calls: nat)

  const Init := State(1, false, None, Idle, [], [], 0)

  datatype Step =
    | Begin(call: Call)                                   // take the scheduler lock, read the generation
    | CheckUnknown                                        // the unknown flag and the expected generation
    | CheckActive(now: int)                               // is any control lock live?
    | CheckValid(now: int)                                // is it the caller's? then prepare
    | Native(outcome: NativeOutcome)                      // the native action and its bookkeeping
    | Observe                                             // a read-only command succeeded
    | Acquire(newId: string, ttl: int, now: int)
    | Renew(id: string, ttl: int, now: int)
    | Release(id: string)
    | DropAny(now: int)                                   // bridge lost, context closed
    | Note                                                // another tool writes its record

  // ------------------------------------------------------------------ target and lock

  function Append(s: State, outcome: Outcome, before: Option<nat>, after: Option<nat>): State {
    s.(audit := s.audit + [Entry(outcome, before, after)])
  }

  function Advance(s: State, fact: Fact): State {
    s.(generation := s.generation + 1, unknown := false, facts := s.facts + [fact])
  }

  function MarkUnknown(s: State): State {
    s.(unknown := true, facts := s.facts + [WentUnknown])
  }

  function Resynchronize(s: State): State {
    if s.unknown then Advance(s, Resynced) else s
  }

  predicate Live(lock: Option<Lock>, now: int) {
    lock.Some? && now <= lock.value.expiresAt
  }

  /** Expiry is lazy: any touch drops a lock that has run out, and says so in the audit. */
  function Touch(s: State, now: int): State {
    if s.lock.Some? && !Live(s.lock, now) then Append(s.(lock := None), LockEvent, None, None) else s
  }

  function Ttl(ttl: int): int {
    if ttl <= 0 then DEFAULT_CONTROL_TTL else if ttl > MAX_CONTROL_TTL then MAX_CONTROL_TTL else ttl
  }

  // --------------------------------------------------------------------------- steps

  function EndCall(s: State, outcome: Outcome, before: Option<nat>, after: Option<nat>): State {
    Append(s, outcome, before, after).(phase := Idle)
  }

  function Admit(s: State, call: Call, current: nat, readAt: nat, checkedAt: nat): State {
    if !call.prepareOk then EndCall(s, Failed, Some(current), Some(current))
    else
      s.(phase := Admitted(call, current, readAt),
         facts := s.facts + [Reached(call.guard.controlId, call.guard.expected, readAt, checkedAt)])
  }

  function Finish(s: State, current: nat, outcome: NativeOutcome): State {
    match outcome
    case Succeeded => var a := Advance(s, Landed); EndCall(a, OK, Some(current), Some(a.generation))
    case Partial => var a := Advance(s, Landed); EndCall(a, PartialOutcome, Some(current), Some(a.generation))
    case Unclear => EndCall(MarkUnknown(s), Ambiguous, Some(current), None)
    case Refused => EndCall(s, Failed, Some(current), Some(current))
  }

  function Next(s: State, step: Step): State {
    match step
    case Begin(call) =>
      if s.phase.Idle? then s.(phase := Began(call, s.generation, |s.facts|), calls := s.calls + 1) else s
    case CheckUnknown =>
      if !s.phase.Began? then s
      else
        var Began(call, current, readAt) := s.phase;
        var expected := call.guard.expected;
        if expected.Some? && (s.unknown || expected.value != current) then EndCall(s, Conflict, None, None)
        else s.(phase := Checked(call, current, readAt, |s.facts|))
    case CheckActive(now) =>
      if !s.phase.Checked? then s
      else
        var Checked(call, current, readAt, checkedAt) := s.phase;
        var t := Touch(s, now);
        if t.lock.None? then Admit(t, call, current, readAt, checkedAt)
        else t.(phase := LockSeen(call, current, readAt, checkedAt))
    case CheckValid(now) =>
      if !s.phase.LockSeen? then s
      else
        var LockSeen(call, current, readAt, checkedAt) := s.phase;
        var t := Touch(s, now);
        if t.lock.Some? && t.lock.value.id == call.guard.controlId then Admit(t, call, current, readAt, checkedAt)
        else EndCall(t, Held, None, None)
    case Native(outcome) =>
      if s.phase.Admitted? then Finish(s, s.phase.current, outcome) else s
    case Observe => Resynchronize(s)
    case Acquire(id, ttl, now) =>
      var t := Touch(s, now);
      if t.lock.Some? then t else t.(lock := Some(Lock(id, now + Ttl(ttl))))
    case Renew(id, ttl, now) =>
      var t := Touch(s, now);
      if t.lock.Some? && t.lock.value.id == id then t.(lock := Some(Lock(id, now + Ttl(ttl)))) else t
    case Release(id) =>
      if s.lock.Some? && s.lock.value.id == id then Append(s.(lock := None), LockEvent, None, None) else s
    case DropAny(now) =>
      var t := Touch(s, now);
      if t.lock.Some? then Append(t.(lock := None), LockEvent, None, None) else t
    case Note => Append(s, Noted, None, None)
  }

  predicate OfMutation(entry: Entry) {
    !entry.outcome.LockEvent? && !entry.outcome.Noted?
  }

  function Run(s: State, steps: seq<Step>): State {
    if steps == [] then s else Next(Run(s, steps[..|steps| - 1]), steps[|steps| - 1])
  }

  // ------------------------------------------------- generation and knowledge from facts

  /** The generation after the given facts: one, plus one for each landing or resynchronization. */
  function GenerationOf(facts: seq<Fact>): nat {
    if facts == [] then 1
    else
      var last := facts[|facts| - 1];
      GenerationOf(facts[..|facts| - 1]) + if last.Landed? || last.Resynced? then 1 else 0
  }

  /** Whether an ambiguous failure has been neither overwritten by a landing nor observed since. */
  predicate UnknownAfter(facts: seq<Fact>) {
    facts != [] &&
    var last := facts[|facts| - 1];
    last.WentUnknown? || (last.Reached? && UnknownAfter(facts[..|facts| - 1]))
  }

  predicate TouchesTarget(fact: Fact) {
    fact.Landed? || fact.WentUnknown? || fact.Resynced?
  }

  /** If the generation is what it was and the target is known, nothing touched the target
      in between: no landing, no ambiguous failure, no resynchronization. */
  lemma {:induction false} QuietSince(facts: seq<Fact>, o: nat)
    requires o <= |facts| && GenerationOf(facts[..o]) == GenerationOf(facts) && !UnknownAfter(facts)
    ensures forall i :: o <= i < |facts| ==> !TouchesTarget(facts[i])
    ensures !UnknownAfter(facts[..o])
  {
    if o < |facts| {
      var init := facts[..|facts| - 1];
      assert init[..o] == facts[..o];
      GenerationGrows(init, o);
      QuietSince(init, o);
      assert forall i :: o <= i < |init| ==> facts[i] == init[i];
    } else {
      assert facts[..o] == facts;
    }
  }

  lemma {:induction false} GenerationGrows(facts: seq<Fact>, o: nat)
    requires o <= |facts|
    ensures GenerationOf(facts[..o]) <= GenerationOf(facts)
  {
    if o < |facts| {
      GenerationGrows(facts[..|facts| - 1], o);
      assert facts[..|facts| - 1][..o] == facts[..o];
    } else {
      assert facts[..o] == facts;
    }
  }

  // ------------------------------------------------------------------------ invariant

  /** Facts recorded since the running call read the generation: at most one
      resynchronization, which makes a target that was unknown known again. */
  ghost predicate SinceRead(
    generation: nat, unknown: bool, facts: seq<Fact>, current: nat, readAt: nat, reached: bool) {
    && readAt <= |facts|
    && GenerationOf(facts[..readAt]) == current
    && (forall i :: readAt <= i < |facts| ==> facts[i].Resynced? || (reached && facts[i].Reached?))
    && generation <= current + 1
    && (generation == current + 1 ==> !unknown)
  }

  /** A guarded call that passed the check at checkedAt, with `count` facts recorded by now. */
  ghost predicate PassedCheck(
    generation: nat, unknown: bool, count: nat, call: Call, current: nat, readAt: nat, checkedAt: nat) {
    && readAt <= checkedAt <= count
    && (call.guard.expected.Some? ==>
          && call.guard.expected.value == current
          && !unknown && checkedAt == count
          && generation == current + (if checkedAt == readAt then 0 else 1))
  }

  ghost predicate PhaseOk(phase: Phase, generation: nat, unknown: bool, facts: seq<Fact>) {
    match phase
    case Idle => true
    case Began(_, current, readAt) => SinceRead(generation, unknown, facts, current, readAt, false)
    case Checked(call, current, readAt, checkedAt) =>
      && SinceRead(generation, unknown, facts, current, readAt, false)
      && PassedCheck(generation, unknown, |facts|, call, current, readAt, checkedAt)
    case LockSeen(call, current, readAt, checkedAt) =>
      && SinceRead(generation, unknown, facts, current, readAt, false)
      && PassedCheck(generation, unknown, |facts|, call, current, readAt, checkedAt)
    case Admitted(call, current, readAt) =>
      SinceRead(generation, unknown, facts, current, readAt, true) && JustReached(unknown, facts, call, readAt)
  }

  /** An admitted guarded call is still the last thing that happened: with the target known,
      nothing can resynchronize. */
  ghost predicate JustReached(unknown: bool, facts: seq<Fact>, call: Call, readAt: nat) {
    call.guard.expected.Some? ==>
      !unknown && facts != [] &&
      var last := facts[|facts| - 1];
      last.Reached? && last.expected == call.guard.expected && last.readAt == readAt && last.checkedAt == |facts| - 1
  }

  /** What a guarded native action relied on when it started. */
  ghost predicate GuardedStart(facts: seq<Fact>, p: nat)
    requires p < |facts| && facts[p].Reached?
  {
    var f := facts[p];
    f.expected.Some? ==>
      && f.readAt <= f.checkedAt <= p
      && (forall i :: f.readAt <= i < f.checkedAt ==> facts[i].Resynced?)
      && GenerationOf(facts[..f.readAt]) == f.expected.value
      && !UnknownAfter(facts[..p])
      && GenerationOf(facts[..p]) == f.expected.value + (if f.readAt == f.checkedAt then 0 else 1)
  }

  predicate LandedEntry(e: Entry) {
    e.outcome.OK? || e.outcome.PartialOutcome?
  }

  ghost predicate IntervalOk(e: Entry, bound: nat) {
    LandedEntry(e) ==>
      && e.before.Some? && e.after.Some?
      && e.before.value < e.after.value <= e.before.value + 2 && e.after.value <= bound
  }

  ghost predicate Follows(a: Entry, b: Entry) {
    LandedEntry(a) && LandedEntry(b) ==> a.after.Some? && b.before.Some? && a.after.value <= b.before.value
  }

  /** Every landed entry names an interval, and the intervals follow each other. */
  ghost predicate AuditOk(audit: seq<Entry>, bound: nat) {
    && (forall i {:trigger IntervalOk(audit[i], bound)} :: 0 <= i < |audit| ==> IntervalOk(audit[i], bound))
    && forall i, j {:trigger Follows(audit[i], audit[j])} :: 0 <= i < j < |audit| ==> Follows(audit[i], audit[j])
  }

  function MutationEntries(audit: seq<Entry>): nat {
    if audit == [] then 0
    else MutationEntries(audit[..|audit| - 1]) + if OfMutation(audit[|audit| - 1]) then 1 else 0
  }

  function LandedFacts(facts: seq<Fact>): nat {
    if facts == [] then 0
    else LandedFacts(facts[..|facts| - 1]) + if facts[|facts| - 1].Landed? then 1 else 0
  }

  function LandedEntries(audit: seq<Entry>): nat {
    if audit == [] then 0
    else LandedEntries(audit[..|audit| - 1]) + if LandedEntry(audit[|audit| - 1]) then 1 else 0
  }

  function CurrentBound(phase: Phase, generation: nat): nat {
    if phase.Idle? then generation else phase.current
  }

  ghost predicate UnknownBefore(facts: seq<Fact>, p: nat)
    requires p <= |facts|
  {
    UnknownAfter(facts[..p])
  }

  /** The generation and the unknown flag say what the facts say, and every guarded start
      relied on what its record claims. */
  ghost predicate TargetOk(generation: nat, unknown: bool, facts: seq<Fact>) {
    && generation == GenerationOf(facts)
    && unknown == UnknownAfter(facts)
    && (forall p {:trigger GuardedStart(facts, p)} :: 0 <= p < |facts| && facts[p].Reached? ==> GuardedStart(facts, p))
    && forall p {:trigger UnknownBefore(facts, p)} :: 0 <= p < |facts| && facts[p].Resynced? ==> UnknownBefore(facts, p)
  }

  /** One mutation entry for each call that has ended, one landed entry for each landing. */
  ghost predicate Tallied(audit: seq<Entry>, landings: nat, ended: int) {
    MutationEntries(audit) == ended && LandedEntries(audit) == landings
  }

  ghost predicate Inv(s: State) {
    && TargetOk(s.generation, s.unknown, s.facts)
    && PhaseOk(s.phase, s.generation, s.unknown, s.facts)
    && AuditOk(s.audit, CurrentBound(s.phase, s.generation))
    && Tallied(s.audit, LandedFacts(s.facts), if s.phase.Idle? then s.calls else s.calls - 1)
  }

  // --------------------------------------------------------------- one more fact or entry

  lemma {:induction false} OneMoreFact(facts: seq<Fact>, fact: Fact)
    ensures GenerationOf(facts + [fact]) == GenerationOf(facts) + (if fact.Landed? || fact.Resynced? then 1 else 0)
    ensures UnknownAfter(facts + [fact]) == (fact.WentUnknown? || (fact.Reached? && UnknownAfter(facts)))
    ensures LandedFacts(facts + [fact]) == LandedFacts(facts) + (if fact.Landed? then 1 else 0)
  {
    assert (facts + [fact])[..|facts + [fact]| - 1] == facts;
  }

  lemma {:induction false} Recorded(generation: nat, unknown: bool, facts: seq<Fact>, fact: Fact)
    requires TargetOk(generation, unknown, facts)
    requires fact.Reached? ==> GuardedStart(facts + [fact], |facts|)
    requires fact.Resynced? ==> unknown
    ensures TargetOk(if fact.Landed? || fact.Resynced? then generation + 1 else generation,
                     if fact.Reached? then unknown else fact.WentUnknown?, facts + [fact])
    ensures LandedFacts(facts + [fact]) == LandedFacts(facts) + (if fact.Landed? then 1 else 0)
  {
    OneMoreFact(facts, fact);
    forall p | 0 <= p < |facts| && facts[p].Reached?
      ensures GuardedStart(facts + [fact], p)
    {
      assert GuardedStart(facts, p);
      assert (facts + [fact])[..p] == facts[..p];
      assert facts[p].readAt <= |facts| ==> (facts + [fact])[..facts[p].readAt] == facts[..facts[p].readAt];
    }
    forall p | 0 <= p <= |facts| && (facts + [fact])[p].Resynced?
      ensures UnknownBefore(facts + [fact], p)
    {
      assert (facts + [fact])[..p] == facts[..p];
      assert p < |facts| ==> UnknownBefore(facts, p);
      assert p == |facts| ==> facts[..p] == facts;
    }
  }

  lemma {:induction false} OneMoreEntry(audit: seq<Entry>, entry: Entry, bound: nat, newBound: nat)
    requires AuditOk(audit, bound) && bound <= newBound
    requires LandedEntry(entry) ==>
      entry.before.Some? && entry.after.Some? && bound <= entry.before.value < entry.after.value <= newBound &&
      entry.after.value <= entry.before.value + 2
    ensures AuditOk(audit, newBound)
    ensures AuditOk(audit + [entry], newBound)
    ensures MutationEntries(audit + [entry]) == MutationEntries(audit) + (if OfMutation(entry) then 1 else 0)
    ensures LandedEntries(audit + [entry]) == LandedEntries(audit) + (if LandedEntry(entry) then 1 else 0)
  {
    assert (audit + [entry])[..|audit + [entry]| - 1] == audit;
    AuditGrows(audit, bound, newBound);
    forall i | 0 <= i <= |audit| ensures IntervalOk((audit + [entry])[i], newBound) {
      assert i < |audit| ==> IntervalOk(audit[i], newBound);
    }
    forall i, j | 0 <= i < j <= |audit| ensures Follows((audit + [entry])[i], (audit + [entry])[j]) {
      assert IntervalOk(audit[i], bound);
      assert j < |audit| ==> Follows(audit[i], audit[j]);
    }
  }

  lemma {:induction false} TouchKeeps(s: State, now: int)
    requires Inv(s)
    ensures Inv(Touch(s, now))
    ensures var t := Touch(s, now);
            t == s.(lock := t.lock, audit := t.audit)
  {
    OneMoreEntry(s.audit, Entry(LockEvent, None, None), CurrentBound(s.phase, s.generation), CurrentBound(s.phase, s.generation));
  }

  lemma {:induction false} TakeKeeps(s: State, lock: Option<Lock>)
    requires Inv(s)
    ensures Inv(s.(lock := lock))
  {
  }

  lemma {:induction false} DropKeeps(s: State)
    requires Inv(s)
    ensures Inv(Append(s.(lock := None), LockEvent, None, None))
  {
    OneMoreEntry(s.audit, Entry(LockEvent, None, None), CurrentBound(s.phase, s.generation), CurrentBound(s.phase, s.generation));
  }

  lemma {:induction false} NoteKeeps(s: State)
    requires Inv(s)
    ensures Inv(Append(s, Noted, None, None))
  {
    OneMoreEntry(s.audit, Entry(Noted, None, None), CurrentBound(s.phase, s.generation), CurrentBound(s.phase, s.generation));
  }

  /** The running call ends without touching the target. */
  lemma {:induction false} EndKeeps(s: State, outcome: Outcome, before: Option<nat>, after: Option<nat>)
    requires Inv(s) && !s.phase.Idle?
    requires outcome.Conflict? || outcome.Held? || outcome.Failed?
    ensures Inv(EndCall(s, outcome, before, after))
  {
    EndEntryFits(s.phase, s.generation, s.unknown, s.facts, s.audit, Entry(outcome, before, after));
  }

  lemma {:induction false} EndEntryFits(
    phase: Phase, generation: nat, unknown: bool, facts: seq<Fact>, audit: seq<Entry>, entry: Entry)
    requires !phase.Idle? && PhaseOk(phase, generation, unknown, facts) && generation == GenerationOf(facts)
    requires AuditOk(audit, phase.current) && !LandedEntry(entry) && OfMutation(entry)
    ensures AuditOk(audit + [entry], generation)
    ensures MutationEntries(audit + [entry]) == MutationEntries(audit) + 1
    ensures LandedEntries(audit + [entry]) == LandedEntries(audit)
  {
    BoundBelow(phase, generation, unknown, facts);
    OneMoreEntry(audit, entry, phase.current, generation);
  }

  lemma {:induction false} BoundBelow(phase: Phase, generation: nat, unknown: bool, facts: seq<Fact>)
    requires PhaseOk(phase, generation, unknown, facts) && generation == GenerationOf(facts)
    ensures CurrentBound(phase, generation) <= generation
  {
    if !phase.Idle? { GenerationGrows(facts, phase.readAt); }
  }

  lemma {:induction false} ReachedOk(
    generation: nat, unknown: bool, facts: seq<Fact>, call: Call, current: nat, readAt: nat, checkedAt: nat)
    requires generation == GenerationOf(facts) && unknown == UnknownAfter(facts)
    requires SinceRead(generation, unknown, facts, current, readAt, false)
    requires PassedCheck(generation, unknown, |facts|, call, current, readAt, checkedAt)
    ensures var fact := Reached(call.guard.controlId, call.guard.expected, readAt, checkedAt);
            && GuardedStart(facts + [fact], |facts|)
            && PhaseOk(Admitted(call, current, readAt), generation, unknown, facts + [fact])
  {
    var fact := Reached(call.guard.controlId, call.guard.expected, readAt, checkedAt);
    assert (facts + [fact])[..|facts|] == facts;
    assert (facts + [fact])[..readAt] == facts[..readAt];
  }

  lemma {:induction false} AdmitKeeps(s: State)
    requires Inv(s) && (s.phase.Checked? || s.phase.LockSeen?)
    ensures Inv(Admit(s, s.phase.call, s.phase.current, s.phase.readAt, s.phase.checkedAt))
  {
    var call, current, readAt, checkedAt := s.phase.call, s.phase.current, s.phase.readAt, s.phase.checkedAt;
    if call.prepareOk {
      var fact := Reached(call.guard.controlId, call.guard.expected, readAt, checkedAt);
      ReachedOk(s.generation, s.unknown, s.facts, call, current, readAt, checkedAt);
      Recorded(s.generation, s.unknown, s.facts, fact);
    } else {
      EndKeeps(s, Failed, Some(current), Some(current));
    }
  }

  /** A landing: the generation advances and its interval is written to the audit. */
  lemma {:induction false} FinishLanded(s: State, entry: Entry)
    requires Inv(s) && s.phase.Admitted? && LandedEntry(entry)
    requires entry.before == Some(s.phase.current) && entry.after == Some(s.generation + 1)
    ensures Inv(State(s.generation + 1, false, s.lock, Idle, s.facts + [Landed], s.audit + [entry], s.calls))
  {
    BoundBelow(s.phase, s.generation, s.unknown, s.facts);
    LandedEntryFits(s.phase.current, s.generation, s.audit, entry);
    Recorded(s.generation, s.unknown, s.facts, Landed);
    assert TargetOk(s.generation + 1, false, s.facts + [Landed]);
  }

  lemma {:induction false} LandedEntryFits(current: nat, generation: nat, audit: seq<Entry>, entry: Entry)
    requires current <= generation <= current + 1 && AuditOk(audit, current) && LandedEntry(entry)
    requires entry.before == Some(current) && entry.after == Some(generation + 1)
    ensures AuditOk(audit + [entry], generation + 1)
    ensures MutationEntries(audit + [entry]) == MutationEntries(audit) + 1
    ensures LandedEntries(audit + [entry]) == LandedEntries(audit) + 1
  {
    OneMoreEntry(audit, entry, current, generation + 1);
  }

  lemma {:induction false} FinishUnclear(s: State)
    requires Inv(s) && s.phase.Admitted?
    ensures Inv(Finish(s, s.phase.current, Unclear))
  {
    Recorded(s.generation, s.unknown, s.facts, WentUnknown);
    EndEntryFits(s.phase, s.generation, s.unknown, s.facts, s.audit, Entry(Ambiguous, Some(s.phase.current), None));
  }

  lemma {:induction false} FinishKeeps(s: State, outcome: NativeOutcome)
    requires Inv(s) && s.phase.Admitted?
    ensures Inv(Finish(s, s.phase.current, outcome))
  {
    match outcome
    case Refused => EndKeeps(s, Failed, Some(s.phase.current), Some(s.phase.current));
    case Unclear => FinishUnclear(s);
    case Partial => FinishLanded(s, Entry(PartialOutcome, Some(s.phase.current), Some(s.generation + 1)));
    case Succeeded => FinishLanded(s, Entry(OK, Some(s.phase.current), Some(s.generation + 1)));
  }

  lemma {:induction false} ObserveKeeps(s: State)
    requires Inv(s)
    ensures Inv(Resynchronize(s))
  {
    if s.unknown {
      Recorded(s.generation, s.unknown, s.facts, Resynced);
      ObservePhase(s.phase, s.generation, s.facts);
      AuditGrows(s.audit, CurrentBound(s.phase, s.generation), CurrentBound(s.phase, s.generation + 1));
    }
  }

  lemma {:induction false} AuditGrows(audit: seq<Entry>, bound: nat, newBound: nat)
    requires AuditOk(audit, bound) && bound <= newBound
    ensures AuditOk(audit, newBound)
  {
    forall i | 0 <= i < |audit| ensures IntervalOk(audit[i], newBound) {
      assert IntervalOk(audit[i], bound);
    }
  }

  /** Resynchronizing while a call is running: it has happened once at most. */
  lemma {:induction false} ObservePhase(phase: Phase, generation: nat, facts: seq<Fact>)
    requires PhaseOk(phase, generation, true, facts)
    ensures PhaseOk(phase, generation + 1, false, facts + [Resynced])
  {
    if !phase.Idle? {
      assert (facts + [Resynced])[..phase.readAt] == facts[..phase.readAt];
    }
  }

  lemma {:induction false} BeginKeeps(s: State, call: Call)
    requires Inv(s) && s.phase.Idle?
    ensures Inv(Next(s, Begin(call)))
  {
    assert s.facts[..|s.facts|] == s.facts;
  }

  lemma {:induction false} CheckKeeps(s: State)
    requires Inv(s) && s.phase.Began?
    ensures Inv(Next(s, CheckUnknown))
  {
    var Began(call, current, readAt) := s.phase;
    var expected := call.guard.expected;
    if expected.Some? && (s.unknown || expected.value != current) {
      EndKeeps(s, Conflict, None, None);
    } else {
      SinceReadCount(s.facts, readAt);
    }
  }

  /** The facts since the read are resynchronizations, so they count the generation's steps. */
  lemma {:induction false} SinceReadCount(facts: seq<Fact>, readAt: nat)
    requires readAt <= |facts| && forall i :: readAt <= i < |facts| ==> facts[i].Resynced?
    ensures GenerationOf(facts) == GenerationOf(facts[..readAt]) + |facts| - readAt
  {
    if readAt < |facts| {
      var init := facts[..|facts| - 1];
      assert init[..readAt] == facts[..readAt];
      SinceReadCount(init, readAt);
    } else {
      assert facts[..readAt] == facts;
    }
  }

  lemma {:induction false} AcquireKeeps(s: State, id: string, ttl: int, now: int)
    requires Inv(s)
    ensures Inv(Next(s, Acquire(id, ttl, now)))
  {
    TouchKeeps(s, now);
    TakeKeeps(Touch(s, now), Next(s, Acquire(id, ttl, now)).lock);
  }

  lemma {:induction false} RenewKeeps(s: State, id: string, ttl: int, now: int)
    requires Inv(s)
    ensures Inv(Next(s, Renew(id, ttl, now)))
  {
    TouchKeeps(s, now);
    TakeKeeps(Touch(s, now), Next(s, Renew(id, ttl, now)).lock);
  }

  lemma {:induction false} DropAnyKeeps(s: State, now: int)
    requires Inv(s)
    ensures Inv(Next(s, DropAny(now)))
  {
    TouchKeeps(s, now);
    DropKeeps(Touch(s, now));
  }

  lemma {:induction false} OwnStepKeeps(s: State, step: Step)
    requires Inv(s)
    requires step.Begin? || step.CheckUnknown? || step.CheckActive? || step.CheckValid? || step.Native?
    ensures Inv(Next(s, step))
  {
    match step
    case Begin(call) => if s.phase.Idle? { BeginKeeps(s, call); }
    case CheckUnknown => if s.phase.Began? { CheckKeeps(s); }
    case CheckActive(now) =>
      if s.phase.Checked? {
        TouchKeeps(s, now);
        if Touch(s, now).lock.None? { AdmitKeeps(Touch(s, now)); }
      }
    case CheckValid(now) =>
      if s.phase.LockSeen? {
        TouchKeeps(s, now);
        AdmitKeeps(Touch(s, now));
        EndKeeps(Touch(s, now), Held, None, None);
      }
    case Native(outcome) => if s.phase.Admitted? { FinishKeeps(s, outcome); }
  }

  lemma {:induction false} StepKeeps(s: State, step: Step)
    requires Inv(s)
    ensures Inv(Next(s, step))
  {
    match step
    case Observe => ObserveKeeps(s);
    case Acquire(id, ttl, now) => AcquireKeeps(s, id, ttl, now);
    case Renew(id, ttl, now) => RenewKeeps(s, id, ttl, now);
    case Release(_) => DropKeeps(s);
    case DropAny(now) => DropAnyKeeps(s, now);
    case Note => NoteKeeps(s);
    case _ => OwnStepKeeps(s, step);
  }

  lemma {:induction false} RunKeeps(steps: seq<Step>)
    ensures Inv(Run(Init, steps))
  {
    if steps != [] {
      RunKeeps(steps[..|steps| - 1]);
      StepKeeps(Run(Init, steps[..|steps| - 1]), steps[|steps| - 1]);
    }
  }

  // -------------------------------------------------------- what holds over every run

  /** The generation is one plus the landings plus the resynchronizations. */
  lemma {:induction false} GenerationCounts(steps: seq<Step>)
    ensures var s := Run(Init, steps); s.generation == GenerationOf(s.facts) && s.unknown == UnknownAfter(s.facts)
  {
    RunKeeps(steps);
  }

  /** A resynchronization fell between reading the generation and looking at the unknown flag. */
  ghost predicate Raced(facts: seq<Fact>, p: nat)
    requires p < |facts| && facts[p].Reached?
  {
    exists i :: facts[p].readAt <= i < facts[p].checkedAt && i < p && facts[i].Resynced?
  }

  /** The target was unknown when the call that reached its native action at p read the generation. */
  predicate UnknownAtRead(facts: seq<Fact>, p: nat)
    requires p < |facts| && facts[p].Reached?
  {
    facts[p].readAt <= |facts| && UnknownAfter(facts[..facts[p].readAt])
  }

  /** A guarded call that gets through was raced exactly when it began on an unknown target:
      on a known one there is nothing to resynchronize. */
  lemma {:induction false} RacedExactly(facts: seq<Fact>, p: nat, generation: nat, unknown: bool)
    requires TargetOk(generation, unknown, facts)
    requires p < |facts| && facts[p].Reached? && facts[p].expected.Some?
    ensures Raced(facts, p) <==> UnknownAtRead(facts, p)
    ensures GenerationOf(facts[..p]) == facts[p].expected.value <==> !UnknownAtRead(facts, p)
  {
    var f := facts[p];
    assert GuardedStart(facts, p);
    if f.readAt < f.checkedAt {
      assert facts[f.readAt].Resynced? && UnknownBefore(facts, f.readAt);
    } else {
      assert facts[..p][..f.readAt] == facts[..f.readAt];
      QuietSince(facts[..p], f.readAt);
    }
  }

  /** When a guarded native action starts the target is known. Its generation is still the
      expected one, and nothing has touched the target since any moment at which it was
      that, exactly when the target was known as the call read the generation. */
  lemma {:induction false} GuardHolds(steps: seq<Step>, p: nat)
    requires var facts := Run(Init, steps).facts; p < |facts| && facts[p].Reached? && facts[p].expected.Some?
    ensures var facts, g := Run(Init, steps).facts, Run(Init, steps).facts[p].expected.value;
            && !UnknownAfter(facts[..p])
            && (GenerationOf(facts[..p]) == g <==> !UnknownAtRead(facts, p))
            && (!UnknownAtRead(facts, p) ==>
                  forall o, i :: 0 <= o <= i < p && GenerationOf(facts[..o]) == g ==> !TouchesTarget(facts[i]))
  {
    RunKeeps(steps);
    var s := Run(Init, steps);
    RacedExactly(s.facts, p, s.generation, s.unknown);
    GuardSince(s.facts, p, s.generation, s.unknown);
  }

  lemma {:induction false} GuardSince(facts: seq<Fact>, p: nat, generation: nat, unknown: bool)
    requires TargetOk(generation, unknown, facts)
    requires p < |facts| && facts[p].Reached? && facts[p].expected.Some?
    ensures !UnknownAfter(facts[..p])
    ensures GenerationOf(facts[..p]) == facts[p].expected.value ==>
              forall o, i :: 0 <= o <= i < p && GenerationOf(facts[..o]) == facts[p].expected.value ==> !TouchesTarget(facts[i])
  {
    assert GuardedStart(facts, p);
    if GenerationOf(facts[..p]) == facts[p].expected.value {
      forall o, i | 0 <= o <= i < p && GenerationOf(facts[..o]) == facts[p].expected.value
        ensures !TouchesTarget(facts[i])
      {
        assert facts[..p][..o] == facts[..o];
        QuietSince(facts[..p], o);
        assert facts[..p][i] == facts[i];
      }
    }
  }

  lemma {:induction false} FactsGrow(s: State, steps: seq<Step>)
    ensures s.facts <= Run(s, steps).facts
  {
    if steps != [] {
      FactsGrow(s, steps[..|steps| - 1]);
      OneStepGrows(Run(s, steps[..|steps| - 1]), steps[|steps| - 1]);
    }
  }

  lemma {:induction false} OneStepGrows(s: State, step: Step)
    ensures s.facts <= Next(s, step).facts
  {
  }

  /** The same as a condition on the state a call begins in: a guarded call begun at s0 that
      gets through finds its generation unchanged exactly when the target was known at s0. */
  lemma {:induction false} GuardFromState(before: seq<Step>, more: seq<Step>, s0: State, p: nat)
    requires s0 == Run(Init, before)
    requires var facts := Run(Init, before + more).facts;
             p < |facts| && facts[p].Reached? && facts[p].expected.Some? && facts[p].readAt == |s0.facts|
    ensures var facts := Run(Init, before + more).facts;
            GenerationOf(facts[..p]) == facts[p].expected.value <==> !s0.unknown
  {
    GuardHolds(before + more, p);
    RunSplit(Init, before, more);
    FactsGrow(s0, more);
    RunKeeps(before);
    var facts := Run(Init, before + more).facts;
    assert facts[..|s0.facts|] == s0.facts;
  }

  /** A guard taken before an ambiguous failure does get through when it is raced: the call
      reads generation 1 while the target is unknown, a read-only command resynchronizes,
      and the unknown check then finds a known target. */
  lemma {:induction false} RacedGuardGetsThrough()
    ensures exists steps: seq<Step>, p: nat ::
      var facts := Run(Init, steps).facts;
      && p < |facts| && facts[p].Reached? && facts[p].expected == Some(1)
      && GenerationOf(facts[..p]) == 2
      && exists i :: 0 <= i < p && facts[i].WentUnknown?
  {
    var plain, guarded := Call(Guard("", None), true), Call(Guard("", Some(1)), true);
    var first := [Begin(plain), CheckUnknown, CheckActive(0), Native(Unclear)];
    var second := [Begin(guarded), Observe, CheckUnknown, CheckActive(0)];
    AmbiguousFirst(plain);
    RacedSecond(guarded);
    RunSplit(Init, first, second);
    var after := Run(Init, first + second);
    ResyncCounts(after.facts);
    assert after.facts[1].WentUnknown?;
  }

  const AFTER_AMBIGUOUS := State(
    1, true, None, Idle, [Reached("", None, 0, 0), WentUnknown], [Entry(Ambiguous, Some(1), None)], 1)

  lemma {:induction false} AmbiguousFirst(plain: Call)
    requires plain == Call(Guard("", None), true)
    ensures Run(Init, [Begin(plain), CheckUnknown, CheckActive(0), Native(Unclear)]) == AFTER_AMBIGUOUS
  {
    var s := Run4(Init, Begin(plain), CheckUnknown, CheckActive(0), Native(Unclear));
    assert s.facts == [Reached("", None, 0, 0), WentUnknown];
    assert s.audit == [Entry(Ambiguous, Some(1), None)];
  }

  lemma {:induction false} RacedSecond(guarded: Call)
    requires guarded == Call(Guard("", Some(1)), true)
    ensures Run(AFTER_AMBIGUOUS, [Begin(guarded), Observe, CheckUnknown, CheckActive(0)]).facts
            == [Reached("", None, 0, 0), WentUnknown, Resynced, Reached("", Some(1), 2, 3)]
  {
    var s := Run4(AFTER_AMBIGUOUS, Begin(guarded), Observe, CheckUnknown, CheckActive(0));
    assert s.facts == [Reached("", None, 0, 0), WentUnknown, Resynced, Reached("", Some(1), 2, 3)];
  }

  lemma {:induction false} ResyncCounts(facts: seq<Fact>)
    requires |facts| >= 3 && facts[0].Reached? && facts[1].WentUnknown? && facts[2].Resynced?
    ensures GenerationOf(facts[..3]) == 2
  {
    assert facts[..3][..2] == facts[..2] && facts[..2][..1] == facts[..1] && facts[..1][..0] == [];
    assert GenerationOf(facts[..1]) == 1;
    assert GenerationOf(facts[..2]) == 1;
  }

  function Run4(s: State, a: Step, b: Step, c: Step, d: Step): (r: State)
    ensures r == Run(s, [a, b, c, d])
  {
    assert [a, b, c, d][..3] == [a, b, c] && [a, b, c][..2] == [a, b] && [a, b][..1] == [a] && [a][..0] == [];
    assert Run(s, [a]) == Next(s, a);
    assert Run(s, [a, b]) == Next(Next(s, a), b);
    assert Run(s, [a, b, c]) == Next(Next(Next(s, a), b), c);
    Next(Next(Next(Next(s, a), b), c), d)
  }

  lemma {:induction false} RunSplit(s: State, a: seq<Step>, b: seq<Step>)
    ensures Run(s, a + b) == Run(Run(s, a), b)
  {
    if b == [] {
      assert a + b == a;
    } else {
      RunSplit(s, a, b[..|b| - 1]);
      assert (a + b)[..|a + b| - 1] == a + b[..|b| - 1];
    }
  }

  /** Each call writes exactly one mutation entry, and each landing exactly one landed entry. */
  lemma {:induction false} AuditIsComplete(steps: seq<Step>)
    ensures var s := Run(Init, steps);
            && MutationEntries(s.audit) == (if s.phase.Idle? then s.calls else s.calls - 1)
            && LandedEntries(s.audit) == LandedFacts(s.facts)
  {
    RunKeeps(steps);
  }

  /** Landed entries describe disjoint generation intervals in audit order, one or two long. */
  lemma {:induction false} AuditIntervals(steps: seq<Step>, i: nat, j: nat)
    requires var audit := Run(Init, steps).audit; i < j < |audit| && LandedEntry(audit[i]) && LandedEntry(audit[j])
    ensures var audit := Run(Init, steps).audit;
            && audit[i].before.Some? && audit[i].after.Some? && audit[j].before.Some? && audit[j].after.Some?
            && audit[i].before.value < audit[i].after.value <= audit[j].before.value < audit[j].after.value
            && audit[i].after.value <= audit[i].before.value + 2
            && audit[j].after.value <= audit[j].before.value + 2
  {
    RunKeeps(steps);
    var s := Run(Init, steps);
    var bound := CurrentBound(s.phase, s.generation);
    assert IntervalOk(s.audit[i], bound) && IntervalOk(s.audit[j], bound) && Follows(s.audit[i], s.audit[j]);
  }

  /** A landing, whole or partial, advances the generation by exactly one from what its call read, unless a
      resynchronization came in between; then it is two. For a guarded call that is exactly
      when it began on an unknown target. */
  lemma {:induction false} LandingStep(steps: seq<Step>, s: State, outcome: NativeOutcome)
    requires s == Run(Init, steps) && s.phase.Admitted? && (outcome.Succeeded? || outcome.Partial?)
    ensures var after := Next(s, Native(outcome));
            var resynced := exists i :: s.phase.readAt <= i < |s.facts| && s.facts[i].Resynced?;
            var result := if outcome.Succeeded? then OK else PartialOutcome;
            && after.audit == s.audit + [Entry(result, Some(s.phase.current), Some(after.generation))]
            && after.facts == s.facts + [Landed] && !after.unknown && after.phase.Idle?
            && after.generation == s.phase.current + (if resynced then 2 else 1)
            && (s.phase.call.guard.expected.Some? ==>
                  s.facts != [] && s.facts[|s.facts| - 1].Reached? && resynced == UnknownAtRead(s.facts, |s.facts| - 1))
  {
    RunKeeps(steps);
    LandingInterval(s);
    if s.phase.call.guard.expected.Some? {
      LandingRaced(s);
    }
  }

  lemma {:induction false} LandingInterval(s: State)
    requires Inv(s) && s.phase.Admitted?
    ensures s.phase.readAt <= |s.facts|
    ensures var resynced := exists i :: s.phase.readAt <= i < |s.facts| && s.facts[i].Resynced?;
            s.generation == s.phase.current + (if resynced then 1 else 0)
  {
    TailResyncs(s.facts, s.phase.readAt);
    GenerationGrows(s.facts, s.phase.readAt);
  }

  lemma {:induction false} LandingRaced(s: State)
    requires Inv(s) && s.phase.Admitted? && s.phase.call.guard.expected.Some?
    ensures s.facts != [] && s.facts[|s.facts| - 1].Reached?
    ensures (exists i :: s.phase.readAt <= i < |s.facts| && s.facts[i].Resynced?) == UnknownAtRead(s.facts, |s.facts| - 1)
  {
    RacedExactly(s.facts, |s.facts| - 1, s.generation, s.unknown);
  }

  lemma {:induction false} TailResyncs(facts: seq<Fact>, readAt: nat)
    requires readAt <= |facts| && forall i :: readAt <= i < |facts| ==> facts[i].Resynced? || facts[i].Reached?
    ensures GenerationOf(facts) == GenerationOf(facts[..readAt]) <==>
            !exists i :: readAt <= i < |facts| && facts[i].Resynced?
  {
    if readAt < |facts| {
      var init := facts[..|facts| - 1];
      assert init[..readAt] == facts[..readAt];
      TailResyncs(init, readAt);
      GenerationGrows(init, readAt);
      assert forall i :: readAt <= i < |init| ==> facts[i] == init[i];
    } else {
      assert facts[..readAt] == facts;
    }
  }

  predicate NamesNoZero(e: Entry) {
    e.before != Some(0) && e.after != Some(0)
  }

  /** Generations start at one, so zero is free to mean none. */
  ghost predicate Positive(s: State) {
    && s.generation > 0
    && (!s.phase.Idle? ==> s.phase.current > 0)
    && forall i :: 0 <= i < |s.audit| ==> NamesNoZero(s.audit[i])
  }

  lemma {:induction false} PositiveStep(s: State, step: Step)
    requires Positive(s)
    ensures Positive(Next(s, step))
  {
    match step
    case Begin(_) =>
    case CheckUnknown =>
    case CheckActive(now) =>
      PositiveTouch(s, now);
      if s.phase.Checked? { PositiveAdmit(Touch(s, now), s.phase.call, s.phase.current, s.phase.readAt, s.phase.checkedAt); }
    case CheckValid(now) =>
      PositiveTouch(s, now);
      if s.phase.LockSeen? { PositiveAdmit(Touch(s, now), s.phase.call, s.phase.current, s.phase.readAt, s.phase.checkedAt); }
    case Native(_) =>
    case _ => PositiveOther(s, step);
  }

  lemma {:induction false} PositiveAdmit(s: State, call: Call, current: nat, readAt: nat, checkedAt: nat)
    requires Positive(s) && current > 0
    ensures Positive(Admit(s, call, current, readAt, checkedAt))
  {
  }

  lemma {:induction false} PositiveTouch(s: State, now: int)
    requires Positive(s)
    ensures Positive(Touch(s, now)) && Touch(s, now).phase == s.phase
  {
  }

  lemma {:induction false} PositiveOther(s: State, step: Step)
    requires Positive(s) && !step.Begin? && !step.CheckUnknown? && !step.CheckActive? && !step.CheckValid? && !step.Native?
    ensures Positive(Next(s, step))
  {
    match step
    case Acquire(_, _, now) => PositiveTouch(s, now);
    case Renew(_, _, now) => PositiveTouch(s, now);
    case DropAny(now) => PositiveTouch(s, now);
    case _ =>
  }

  lemma {:induction false} NoGenerationZero(steps: seq<Step>)
    ensures Positive(Run(Init, steps))
  {
    if steps != [] {
      NoGenerationZero(steps[..|steps| - 1]);
      PositiveStep(Run(Init, steps[..|steps| - 1]), steps[|steps| - 1]);
    }
  }

  // ------------------------------------------------------------- exclusive control

  /** Steps under which the lock stays: nobody releases or drops it, and no clock reading
      is past its current expiry. */
  ghost predicate KeepsLock(s: State, step: Step, id: string) {
    match step
    case CheckActive(now) => Live(s.lock, now)
    case CheckValid(now) => Live(s.lock, now)
    case Acquire(_, _, now) => Live(s.lock, now)
    case Renew(_, _, now) => Live(s.lock, now)
    case Release(other) => other != id
    case DropAny(_) => false
    case _ => true
  }

  ghost predicate KeepsLockThroughout(s: State, steps: seq<Step>, id: string) {
    forall k :: 0 <= k < |steps| ==> KeepsLock(Run(s, steps[..k]), steps[k], id)
  }

  /** While a lock is held, every native action that starts belongs to its owner. A call
      that had already been admitted when the lock was taken is the one exception, so the
      claim is about starts, which is when the lock is looked at. */
  lemma {:induction false} ExclusiveControl(s: State, steps: seq<Step>, id: string)
    requires s.lock.Some? && s.lock.value.id == id
    requires KeepsLockThroughout(s, steps, id)
    ensures var t := Run(s, steps);
            && t.lock.Some? && t.lock.value.id == id
            && |s.facts| <= |t.facts|
            && forall p :: |s.facts| <= p < |t.facts| && t.facts[p].Reached? ==> t.facts[p].controlId == id
  {
    if steps != [] {
      var init := steps[..|steps| - 1];
      KeptBefore(s, steps, id);
      ExclusiveControl(s, init, id);
      ExclusiveStep(Run(s, init), steps[|steps| - 1], id);
    }
  }

  lemma {:induction false} KeptBefore(s: State, steps: seq<Step>, id: string)
    requires KeepsLockThroughout(s, steps, id) && steps != []
    ensures KeepsLockThroughout(s, steps[..|steps| - 1], id)
    ensures KeepsLock(Run(s, steps[..|steps| - 1]), steps[|steps| - 1], id)
  {
    var init := steps[..|steps| - 1];
    forall k | 0 <= k < |init|
      ensures KeepsLock(Run(s, init[..k]), init[k], id)
    {
      assert init[..k] == steps[..k];
    }
  }

  lemma {:induction false} ExclusiveStep(s: State, step: Step, id: string)
    requires s.lock.Some? && s.lock.value.id == id && KeepsLock(s, step, id)
    ensures var t := Next(s, step);
            && t.lock.Some? && t.lock.value.id == id
            && |s.facts| <= |t.facts| <= |s.facts| + 1 && t.facts[..|s.facts|] == s.facts
            && (|t.facts| > |s.facts| && t.facts[|s.facts|].Reached? ==> t.facts[|s.facts|].controlId == id)
  {
  }
}
