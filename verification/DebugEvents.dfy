/** The ring of debugger stops: repeats of a stop fold into one record, old records drop out. */
module DebugEvents {
  import opened Basics

  const CAPACITY: nat := 100

  datatype Event = Event(
    kind: string, resourceId: nat, hitCount: nat, accessDirection: string, watchedAddress: nat,
    observed: Option<string>, contextId: string, cpu: string, id: nat, repeats: nat)

  /** The observed direction a configured access proves. */
  function ObservedDirection(access: string): Option<string> {
    if access == "read" || access == "write" || access == "execute" then Some(access) else None
  }

  /** An observation as it is compared and stored. */
  function Explicit(o: Event): Event {
    if o.observed.None? then o.(observed := ObservedDirection(o.accessDirection)) else o
  }

  predicate SameResource(a: Event, b: Event) {
    a.kind == b.kind && a.resourceId == b.resourceId
  }

  predicate SameStop(a: Event, b: Event) {
    && a.hitCount == b.hitCount && a.accessDirection == b.accessDirection
    && a.watchedAddress == b.watchedAddress && a.observed == b.observed
  }

  // ------------------------------------------------------------------------- history

  /** How many records of a history have dropped out of the ring. */
  function Dropped(history: seq<Event>): (n: nat)
    ensures n <= |history|
  {
    if |history| > CAPACITY then |history| - CAPACITY else 0
  }

  function Retained(history: seq<Event>): seq<Event> {
    history[Dropped(history)..]
  }

  /** The last index from start on that concerns the same resource, or -1. */
  function LastOf(events: seq<Event>, o: Event): (i: int)
    ensures -1 <= i < |events|
    ensures i >= 0 ==> SameResource(events[i], o)
    ensures forall j :: i < j < |events| ==> !SameResource(events[j], o)
  {
    if events == [] then -1
    else if SameResource(events[|events| - 1], o) then |events| - 1
    else LastOf(events[..|events| - 1], o)
  }

  /** The retained record an observation folds into, as an index of the whole history. */
  function FoldIndex(history: seq<Event>, o: Event): (i: int)
    ensures -1 <= i < |history|
  {
    var last := LastOf(Retained(history), o);
    if last >= 0 && SameStop(Retained(history)[last], o) then Dropped(history) + last else -1
  }

  /** The history of all records ever made, after one more observation. */
  function Observe(history: seq<Event>, observation: Event): (h: seq<Event>)
    ensures |h| >= |history|
  {
    var o := Explicit(observation);
    var i := FoldIndex(history, o);
    if i >= 0 then Recount(history, i) else Extend(history, o)
  }

  /** The record at i has been seen once more. */
  function Recount(history: seq<Event>, i: nat): (h: seq<Event>)
    requires i < |history|
    ensures |h| == |history|
  {
    history[i := history[i].(repeats := history[i].repeats + 1)]
  }

  /** A new record, numbered from one. */
  function Extend(history: seq<Event>, o: Event): (h: seq<Event>)
    ensures |h| == |history| + 1
  {
    history + [o.(id := |history| + 1, repeats := 0)]
  }

  function HistoryOf(observations: seq<Event>): seq<Event> {
    if observations == [] then []
    else Observe(HistoryOf(observations[..|observations| - 1]), observations[|observations| - 1])
  }

  ghost predicate Numbered(history: seq<Event>) {
    forall i :: 0 <= i < |history| ==> history[i].id == i + 1
  }

  /** i is the closest record of its resource before j, and close enough to be retained when
      j was made. */
  ghost predicate Neighbours(history: seq<Event>, i: nat, j: nat)
    requires j <= |history|
  {
    && i < j && j - i <= CAPACITY
    && (j < |history| ==> SameResource(history[i], history[j]))
    && forall k :: i < k < j ==> !SameResource(history[k], history[i])
  }

  /** No stop is recorded twice in a row while its record is still retained. */
  ghost predicate NoRepeats(history: seq<Event>) {
    forall i, j :: 0 <= i < j < |history| && Neighbours(history, i, j) ==> !SameStop(history[i], history[j])
  }

  function Observed(history: seq<Event>): nat {
    if history == [] then 0 else Observed(history[..|history| - 1]) + 1 + history[|history| - 1].repeats
  }

  lemma {:induction false} ObservedUpdate(history: seq<Event>, i: nat)
    requires i < |history|
    ensures Observed(Recount(history, i)) == Observed(history) + 1
  {
    var init := history[..|history| - 1];
    var t := Recount(history, i);
    if i < |init| {
      ObservedUpdate(init, i);
      assert t[..|t| - 1] == Recount(init, i);
    } else {
      assert t[..|t| - 1] == init;
    }
  }

  lemma {:induction false} FoldKeeps(history: seq<Event>, i: nat)
    requires i < |history| && Numbered(history) && NoRepeats(history)
    ensures var t := Recount(history, i);
            Numbered(t) && NoRepeats(t)
  {
    var t := Recount(history, i);
    forall a, b | 0 <= a < b < |t| && Neighbours(t, a, b) ensures !SameStop(t[a], t[b]) {
      forall k | a < k < b ensures !SameResource(history[k], history[a]) {
        assert !SameResource(t[k], t[a]);
      }
      assert Neighbours(history, a, b);
    }
  }

  lemma {:induction false} RecordKeeps(history: seq<Event>, o: Event)
    requires Numbered(history) && NoRepeats(history) && FoldIndex(history, o) < 0
    ensures var t := Extend(history, o);
            Numbered(t) && NoRepeats(t)
  {
    var t := Extend(history, o);
    forall a, b | 0 <= a < b < |t| && Neighbours(t, a, b) ensures !SameStop(t[a], t[b]) {
      forall k | a < k < b ensures !SameResource(history[k], history[a]) {
        assert !SameResource(t[k], t[a]);
      }
      if b < |history| {
        assert Neighbours(history, a, b);
      } else {
        NeighbourIsLast(history, a, o);
      }
    }
  }

  lemma {:induction false} NeighbourIsLast(history: seq<Event>, a: nat, o: Event)
    requires a < |history| && |history| - a <= CAPACITY && SameResource(history[a], o)
    requires forall k :: a < k < |history| ==> !SameResource(history[k], history[a])
    ensures LastOf(Retained(history), o) == a - Dropped(history) >= 0
  {
    var last := LastOf(Retained(history), o);
    assert Retained(history)[a - Dropped(history)] == history[a];
    assert forall k :: 0 <= k < |Retained(history)| ==> Retained(history)[k] == history[k + Dropped(history)];
  }

  /** Over any observations: ids are consecutive, no stop is recorded twice while retained, and
      every observation is counted in exactly one record. */
  lemma {:induction false} HistoryHolds(observations: seq<Event>)
    ensures var h := HistoryOf(observations);
            Numbered(h) && NoRepeats(h) && Observed(h) == |observations|
  {
    if observations != [] {
      var before := HistoryOf(observations[..|observations| - 1]);
      HistoryHolds(observations[..|observations| - 1]);
      ObserveKeeps(before, observations[|observations| - 1]);
    }
  }

  lemma {:induction false} ObserveKeeps(history: seq<Event>, observation: Event)
    requires Numbered(history) && NoRepeats(history)
    ensures var h := Observe(history, observation);
            Numbered(h) && NoRepeats(h) && Observed(h) == Observed(history) + 1
  {
    var o := Explicit(observation);
    var i := FoldIndex(history, o);
    if i >= 0 {
      ObservedUpdate(history, i);
      FoldKeeps(history, i);
    } else {
      RecordKeeps(history, o);
      assert Extend(history, o)[..|history|] == history;
    }
  }

  /** Seeing a stop again adds no record exactly while the last record of its resource is
      retained and is that stop: once a hundred others have come it is recorded anew. */
  lemma {:induction false} FoldsExactly(history: seq<Event>, observation: Event)
    ensures var o := Explicit(observation);
            |Observe(history, observation)| == |history|
            <==> exists i :: Dropped(history) <= i < |history| && IsLatest(history, i, o) && SameStop(history[i], o)
  {
    var o := Explicit(observation);
    var last := LastOf(Retained(history), o);
    if last >= 0 {
      LatestIsLast(history, last, o);
    }
    if i :| Dropped(history) <= i < |history| && IsLatest(history, i, o) && SameStop(history[i], o) {
      forall k | i < k < |history| ensures !SameResource(history[k], history[i]) {
        assert !SameResource(history[k], o);
      }
      NeighbourIsLast(history, i, o);
      assert Retained(history)[i - Dropped(history)] == history[i];
    }
  }

  ghost predicate IsLatest(history: seq<Event>, i: nat, o: Event)
    requires i < |history|
  {
    SameResource(history[i], o) && forall k :: i < k < |history| ==> !SameResource(history[k], o)
  }

  lemma {:induction false} LatestIsLast(history: seq<Event>, last: nat, o: Event)
    requires last == LastOf(Retained(history), o)
    ensures IsLatest(history, Dropped(history) + last, o)
  {
    var d := Dropped(history);
    assert Retained(history)[last] == history[d + last];
    forall k | d + last < k < |history| ensures !SameResource(history[k], o) {
      assert Retained(history)[k - d] == history[k];
    }
  }

  /** In particular a stop seen twice in a row is one record. */
  lemma {:induction false} SeenAgain(history: seq<Event>, observation: Event)
    ensures |Observe(Observe(history, observation), observation)| == |Observe(history, observation)|
  {
    var o := Explicit(observation);
    var h, i := Observe(history, observation), FoldIndex(history, o);
    if i >= 0 {
      LatestIsLast(history, i - Dropped(history), o);
      assert IsLatest(h, i, o) && SameStop(h[i], o);
    } else {
      assert IsLatest(h, |history|, o) && SameStop(h[|history|], o);
    }
    FoldsExactly(h, observation);
  }

  /** The direction that was seen, or else the one a single configured access proves. */
  predicate Direction(o: Event, observed: Option<string>) {
    observed ==
      if o.observed.Some? then o.observed
      else if o.accessDirection in {"read", "write", "execute"} then Some(o.accessDirection) else None
  }

  /** What one observation changes: it counts in the record it repeats, or makes a new record that holds
      what was observed; all other records stay as they are. */
  lemma {:induction false} ObservedExactly(history: seq<Event>, o: Event)
    ensures var h := Observe(history, o);
            if |h| == |history|
            then exists i :: 0 <= i < |history| && Repeats(history, h, o, i)
            else
              && |h| == |history| + 1 && h[..|history|] == history
              && var e := h[|history|];
                 && e == o.(observed := e.observed, id := |history| + 1, repeats := 0) && Direction(o, e.observed)
  {
    var i := FoldIndex(history, Explicit(o));
    if i >= 0 {
      assert Retained(history)[i - Dropped(history)] == history[i];
      assert Repeats(history, Observe(history, o), o, i);
    }
  }

  ghost predicate Repeats(history: seq<Event>, h: seq<Event>, o: Event, i: nat)
    requires i < |history| == |h|
  {
    && h == history[i := history[i].(repeats := history[i].repeats + 1)]
    && history[i].kind == o.kind && history[i].resourceId == o.resourceId && history[i].hitCount == o.hitCount
    && history[i].accessDirection == o.accessDirection && history[i].watchedAddress == o.watchedAddress
    && Direction(o, history[i].observed)
  }

  // ------------------------------------------------------------------------- queries

  /** Empty and zero fields are open; a direction never matches an unobserved one. */
  datatype Filter = Filter(
    kind: string, resourceId: nat, contextId: string, cpu: string, direction: string, idMin: nat, idMax: nat)

  predicate Matches(filter: Filter, e: Event) {
    && (filter.kind == "" || filter.kind == "any" || e.kind == filter.kind)
    && (filter.resourceId == 0 || e.resourceId == filter.resourceId)
    && (filter.contextId == "" || e.contextId == filter.contextId)
    && (filter.cpu == "" || e.cpu == filter.cpu)
    && (filter.direction == "" || filter.direction == "any" || e.observed == Some(filter.direction))
    && (filter.idMin == 0 || filter.idMin <= e.id)
    && (filter.idMax == 0 || e.id <= filter.idMax)
  }

  /** A text of a filter that says nothing. */
  predicate Open(text: string) {
    text == "" || text == "any"
  }

  /** A record is left out exactly when it differs in something the filter asks for; a direction is asked
      of what was observed, and the bounds of the ids count. */
  lemma {:induction false} FilterExactly(filter: Filter, e: Event)
    ensures !Matches(filter, e)
            <==> || (!Open(filter.kind) && filter.kind != e.kind)
                 || (filter.resourceId > 0 && filter.resourceId != e.resourceId)
                 || (filter.contextId != "" && filter.contextId != e.contextId)
                 || (filter.cpu != "" && filter.cpu != e.cpu)
                 || (!Open(filter.direction) && (e.observed.None? || e.observed.value != filter.direction))
                 || e.id < filter.idMin || 0 < filter.idMax < e.id
  {
  }

  function Matching(events: seq<Event>, filter: Filter): seq<Event> {
    if events == [] then []
    else
      var last := events[|events| - 1];
      Matching(events[..|events| - 1], filter) + if Matches(filter, last) then [last] else []
  }

  function ScopeOf(filter: Filter): Filter {
    Filter("", 0, filter.contextId, "", "", 0, 0)
  }

  datatype Summary = Summary(
    retained: nat, scopeRetained: nat, matching: nat, recorded: nat, dropped: nat, first: nat, last: nat, complete: bool)

  datatype Page = Page(events: seq<Event>, total: nat, truncated: bool)

  /** One page; a limit of zero or less means everything. */
  function PageAt(matched: seq<Event>, offset: int, limit: int): (page: Page) {
    var start := if offset < 0 then 0 else if offset > |matched| then |matched| else offset;
    var count := if limit <= 0 || limit > |matched| - start then |matched| - start else limit;
    Page(matched[start..start + count], |matched|, start + count < |matched|)
  }

  /** A page holds what lies behind the offset, up to the limit if there is one, and says that it is cut
      off exactly when something is left. */
  lemma {:induction false} PageExactly(matched: seq<Event>, offset: int, limit: int)
    ensures var page, from := PageAt(matched, offset, limit), if offset < 0 then 0 else offset;
            && page.total == |matched|
            && (page.truncated <==> limit > 0 && from + limit < |matched|)
            && |page.events| == (if from >= |matched| then 0 else if page.truncated then limit else |matched| - from)
            && forall i :: 0 <= i < |page.events| ==> page.events[i] == matched[from + i]
  {
  }

  /** Asking on from where the last page ended, until a page says it is the last. */
  function PagesFrom(matched: seq<Event>, offset: nat, limit: int): seq<Event>
    requires offset <= |matched|
    decreases |matched| - offset
  {
    var page := PageAt(matched, offset, limit);
    if page.truncated then page.events + PagesFrom(matched, offset + |page.events|, limit) else page.events
  }

  /** Paging any filter walks through exactly its matching records, each once and in order. */
  lemma {:induction false} PagesCover(matched: seq<Event>, offset: nat, limit: int)
    requires offset <= |matched|
    ensures PagesFrom(matched, offset, limit) == matched[offset..]
    decreases |matched| - offset
  {
    var page := PageAt(matched, offset, limit);
    if page.truncated {
      PagesCover(matched, offset + |page.events|, limit);
      assert matched[offset..] == matched[offset..offset + |page.events|] + matched[offset + |page.events|..];
    } else {
      assert page.events == matched[offset..];
    }
  }

  /** The record with the id is of the observed resource and stop. */
  ghost predicate Counts(history: seq<Event>, id: nat, observation: Event) {
    && 1 <= id <= |history|
    && SameResource(history[id - 1], observation) && SameStop(history[id - 1], Explicit(observation))
  }

  class EventRing {
    var events: seq<Event>
    var nextId: nat
    var total: nat
    var dropped: nat
    ghost var observations: seq<Event>

    ghost predicate Shows(history: seq<Event>)
      reads this
    {
      events == Retained(history) && nextId == total == |history| && dropped == Dropped(history)
    }

    /** The ring holds the last hundred records of the history and knows how many are gone. */
    ghost predicate Valid()
      reads this
    {
      Shows(HistoryOf(observations))
    }

    constructor ()
      ensures Valid() && observations == []
    {
      events, nextId, total, dropped, observations := [], 0, 0, 0, [];
    }

    /** The ghost observations grow by one; the id names the record that now counts it. */
    method Push(observation: Event) returns (id: nat)
      requires Valid()
      modifies this
      ensures Valid() && observations == old(observations) + [observation]
      ensures Counts(HistoryOf(observations), id, observation)
    {
      HistoryHolds(observations);
      id := PushOnto(HistoryOf(observations), observation);
      assert (observations + [observation])[..|observations|] == observations;
      observations := observations + [observation];
    }

    method PushOnto(ghost history: seq<Event>, observation: Event) returns (id: nat)
      requires Shows(history) && Numbered(history)
      modifies `events, `nextId, `total, `dropped
      ensures Shows(Observe(history, observation)) && Counts(Observe(history, observation), id, observation)
    {
      var event := Explicit(observation);
      var index := FindLast(event);
      if index >= 0 && SameStop(events[index], event) {
        FoldInto(history, event, index);
        id := events[index].id;
      } else {
        id := Record(history, event);
      }
    }

    method Record(ghost history: seq<Event>, event: Event) returns (id: nat)
      requires Shows(history)
      modifies `events, `nextId, `total, `dropped
      ensures Shows(Extend(history, event)) && id == |history| + 1
    {
      nextId := nextId + 1;
      id := nextId;
      total := total + 1;
      events := events + [event.(id := id, repeats := 0)];
      if |events| > CAPACITY {
        dropped := dropped + (|events| - CAPACITY);
        events := events[|events| - CAPACITY..];
      }
    }

    method FindLast(event: Event) returns (index: int)
      ensures index == LastOf(events, event)
    {
      index := |events| - 1;
      while index >= 0 && !SameResource(events[index], event)
        invariant -1 <= index < |events|
        invariant LastOf(events, event) == LastOf(events[..index + 1], event)
      {
        assert events[..index + 1][..index] == events[..index];
        index := index - 1;
      }
    }

    method FoldInto(ghost history: seq<Event>, event: Event, index: nat)
      requires Shows(history) && index == LastOf(events, event) && index < |events|
      requires SameStop(events[index], event)
      modifies `events
      ensures FoldIndex(history, event) == Dropped(history) + index
      ensures Shows(Recount(history, FoldIndex(history, event)))
      ensures |events| == |old(events)| && events[index] == history[FoldIndex(history, event)].(repeats := events[index].repeats)
    {
      assert events[index] == history[Dropped(history) + index];
      events := events[index := events[index].(repeats := events[index].repeats + 1)];
    }

    method List(filter: Filter, offset: int, limit: int) returns (page: Page)
      ensures page == PageAt(Matching(events, filter), offset, limit)
    {
      var matched := CollectMatching(filter);
      var total := |matched|;
      var start := if offset < 0 then 0 else if offset > total then total else offset;
      var count := if limit <= 0 || limit > total - start then total - start else limit;
      page := Page(matched[start..start + count], total, start + count < total);
    }

    method CollectMatching(filter: Filter) returns (matched: seq<Event>)
      ensures matched == Matching(events, filter)
    {
      matched := [];
      var k := 0;
      while k < |events|
        invariant 0 <= k <= |events|
        invariant matched == Matching(events[..k], filter)
      {
        assert events[..k + 1][..k] == events[..k];
        if Matches(filter, events[k]) {
          matched := matched + [events[k]];
        }
        k := k + 1;
      }
      assert events[..k] == events;
    }

    /** The completeness statement: recorded is retained plus dropped, matching is what paging
        the same filter yields, and it is complete exactly when nothing dropped out. */
    method Describe(filter: Filter) returns (summary: Summary)
      requires Valid()
      ensures summary.retained == |events| && summary.recorded == summary.retained + summary.dropped
      ensures summary.matching == |Matching(events, filter)|
      ensures summary.matching == |PagesFrom(Matching(events, filter), 0, 1)|
      ensures summary.scopeRetained == |Matching(events, ScopeOf(filter))|
      ensures summary.complete <==> summary.retained == summary.recorded
      ensures events != [] ==> summary.last == summary.recorded && summary.first == summary.dropped + 1
    {
      var matching, scoped := CountMatching(filter);
      PagesCover(Matching(events, filter), 0, 1);
      HistoryHolds(observations);
      var first, last := 0, 0;
      if |events| > 0 {
        first, last := events[0].id, events[|events| - 1].id;
      }
      summary := Summary(|events|, scoped, matching, total, dropped, first, last, dropped == 0);
    }

    method CountMatching(filter: Filter) returns (matching: nat, scoped: nat)
      ensures matching == |Matching(events, filter)| && scoped == |Matching(events, ScopeOf(filter))|
    {
      matching, scoped := 0, 0;
      var k := 0;
      while k < |events|
        invariant 0 <= k <= |events|
        invariant matching == |Matching(events[..k], filter)|
        invariant scoped == |Matching(events[..k], ScopeOf(filter))|
      {
        assert events[..k + 1][..k] == events[..k];
        if Matches(ScopeOf(filter), events[k]) {
          scoped := scoped + 1;
        }
        if Matches(filter, events[k]) {
          matching := matching + 1;
        }
        k := k + 1;
      }
      assert events[..k] == events;
    }
  }
}
