/**
 What each operation of the annotation store does to the record it is asked about, field by
 field, when it is refused, and what it leaves alone.
*/
module AnnotationLaws {
  import opened Basics
  import opened Annotations
  import opened KeysetWalk

  // ------------------------------------------------------------------------- trimming

  ghost predicate AllSpace(s: string) {
    forall i :: 0 <= i < |s| ==> Space(s[i])
  }

  lemma {:induction false} TrimLeftIs(s: string)
    ensures |TrimLeft(s)| <= |s|
    ensures var n := |s| - |TrimLeft(s)|; AllSpace(s[..n]) && TrimLeft(s) == s[n..]
    ensures TrimLeft(s) != "" ==> !Space(TrimLeft(s)[0])
  {
    if s != "" && Space(s[0]) {
      var rest := s[1..];
      TrimLeftIs(rest);
      var n := |rest| - |TrimLeft(rest)|;
      assert s[n + 1..] == rest[n..];
      var head := s[..n + 1];
      forall i | 0 <= i < |head| ensures Space(head[i]) {
        assert i > 0 ==> Space(rest[..n][i - 1]);
      }
    }
  }

  lemma {:induction false} TrimRightIs(s: string)
    ensures |TrimRight(s)| <= |s|
    ensures var n := |TrimRight(s)|; AllSpace(s[n..]) && TrimRight(s) == s[..n]
    ensures TrimRight(s) != "" ==> !Space(TrimRight(s)[|TrimRight(s)| - 1])
  {
    if s != "" && Space(s[|s| - 1]) {
      var init := s[..|s| - 1];
      TrimRightIs(init);
      var n := |TrimRight(init)|;
      assert s[..n] == init[..n];
      forall i | 0 <= i < |s[n..]| ensures Space(s[n..][i]) {
        assert i < |init| - n ==> Space(init[n..][i]);
      }
    }
  }

  /** Trimming takes white space from both ends, all of it and nothing else. */
  lemma {:induction false} TrimIs(s: string) returns (n: nat)
    ensures n + |Trim(s)| <= |s| && Trim(s) == s[n..n + |Trim(s)|]
    ensures AllSpace(s[..n]) && AllSpace(s[n + |Trim(s)|..])
    ensures Trim(s) != "" ==> !Space(Trim(s)[0]) && !Space(Trim(s)[|Trim(s)| - 1])
  {
    TrimLeftIs(s);
    TrimRightIs(TrimLeft(s));
    n := |s| - |TrimLeft(s)|;
    CutTwice(s, n, |Trim(s)|);
  }

  lemma {:induction false} CutTwice(s: string, n: nat, m: nat)
    requires n + m <= |s|
    ensures s[n..][..m] == s[n..n + m] && s[n..][m..] == s[n + m..]
  {
  }

  // -------------------------------------------------------------------------- updates

  /** The value given, or the stored one when none is given. */
  ghost predicate Given<T>(change: Option<T>, stored: T, now: T) {
    now == if change.Some? then change.value else stored
  }

  /** Clearing the address clears the range; otherwise what is given replaces what is stored. */
  function NewAddress(c: Content, u: Changes): Option<nat> {
    if u.clearAddress then None else if u.address.Some? then u.address else c.address
  }

  function NewEnd(c: Content, u: Changes): Option<nat> {
    if u.clearAddress || u.clearEndAddress then None else if u.endAddress.Some? then u.endAddress else c.endAddress
  }

  /** A range has the length that goes with it; without one a length that was stored stays, unless
      the address or the end is cleared. */
  function NewLength(c: Content, u: Changes): Option<nat> {
    var address, end := NewAddress(c, u), NewEnd(c, u);
    if address.Some? && end.Some? && address.value <= end.value
    then Some((end.value - address.value + 1) % UINT64)
    else if u.clearAddress || u.clearEndAddress then None
    else c.length
  }

  /** Every field is the given one, or else the stored one; what no update can change stays. */
  ghost predicate Applied(c: Content, u: Changes, d: Content) {
    && Given(u.text, c.text, d.text) && Given(u.tags, c.tags, d.tags) && Given(u.category, c.category, d.category)
    && Given(u.confidence, c.confidence, d.confidence) && Given(u.kind, c.kind, d.kind)
    && Given(u.addressSpace, c.addressSpace, d.addressSpace) && Given(u.links, c.links, d.links)
    && d.title == Trim(if u.title.Some? then u.title.value else c.title)
    && d.address == NewAddress(c, u) && d.endAddress == NewEnd(c, u) && d.length == NewLength(c, u)
    && d.romSha256 == c.romSha256 && d.targetGeneration == c.targetGeneration
  }

  /** What a record may hold: a title of one to two hundred characters, a text of at most 4096, known
      words for kind, category and confidence, the last two optional, and a range that is one. */
  predicate Storable(
    title: string, text: string, kind: string, category: string, confidence: string,
    address: Option<nat>, end: Option<nat>, length: Option<nat>) {
    && 1 <= |Trim(title)| <= 200 && |text| <= 4096
    && (kind == "observation" || kind == "hypothesis")
    && category in {"", "observation", "hypothesis", "note", "bug", "todo"}
    && confidence in {"", "low", "medium", "high", "unknown"}
    && (end.Some? ==> address.Some? && address.value <= end.value)
    && (length.Some? ==> address.Some?)
    && (end.Some? && length.Some? ==> length.value == (end.value - address.value + 1) % UINT64)
  }

  lemma {:induction false} StorableExactly(c: Content)
    ensures Validate(c).Some?
            <==> Storable(c.title, c.text, c.kind, c.category, c.confidence, c.address, c.endAddress, c.length)
    ensures Validate(c).Some? ==> Validate(c).value == c.(title := Trim(c.title))
  {
  }

  /** Whether a content may be updated in some way. */
  predicate Updatable(c: Content, u: Changes) {
    Storable(
      if u.title.Some? then u.title.value else c.title, if u.text.Some? then u.text.value else c.text,
      if u.kind.Some? then u.kind.value else c.kind, if u.category.Some? then u.category.value else c.category,
      if u.confidence.Some? then u.confidence.value else c.confidence,
      NewAddress(c, u), NewEnd(c, u), NewLength(c, u))
  }

  lemma {:induction false} DomainExactly(c: Content, u: Changes)
    ensures var merged, address, end := MergeDomain(c, u), NewAddress(c, u), NewEnd(c, u);
            && (merged.None? <==> address.Some? && end.Some? && end.value < address.value)
            && (merged.Some? ==>
                  merged.value == c.(address := address, endAddress := end, length := NewLength(c, u)))
  {
  }

  lemma {:induction false} MergeExactly(c: Content, u: Changes)
    ensures MergeAndValidate(c, u).Some? <==> Updatable(c, u)
    ensures MergeAndValidate(c, u).Some? ==> Applied(c, u, MergeAndValidate(c, u).value)
  {
    var words := c.(title := Or(u.title, c.title), text := Or(u.text, c.text), tags := Or(u.tags, c.tags),
                    category := Or(u.category, c.category), confidence := Or(u.confidence, c.confidence),
                    kind := Or(u.kind, c.kind), addressSpace := Or(u.addressSpace, c.addressSpace),
                    links := Or(u.links, c.links));
    assert Merge(c, u) == MergeDomain(words, u);
    DomainExactly(words, u);
    SameDomain(words, c, u);
    if Merge(c, u).Some? { StorableExactly(Merge(c, u).value); }
  }

  lemma {:induction false} SameDomain(a: Content, b: Content, u: Changes)
    requires a.address == b.address && a.endAddress == b.endAddress && a.length == b.length
    ensures NewAddress(a, u) == NewAddress(b, u) && NewEnd(a, u) == NewEnd(b, u) && NewLength(a, u) == NewLength(b, u)
  {
  }

  /** An update is refused exactly when there is no such record or the result could not be stored, and
      then changes nothing. Otherwise it applies what it is given, to that record and no other. */
  lemma {:induction false} UpdateExactly(s: Store, id: string, u: Changes, now: int)
    requires Covered(s)
    ensures var (t, failure) := Update(s, id, u, now);
            && (failure == Some(NotFound) <==> id !in s.byId)
            && (failure == Some(InvalidField) <==> id in s.byId && !Updatable(s.byId[id].content, u))
            && (failure.Some? ==> t == s && (failure.value == NotFound || failure.value == InvalidField))
            && (failure.None? ==>
                  && t.byId.Keys == s.byId.Keys && multiset(t.ids) == multiset(s.ids)
                  && (forall k :: k in s.byId && k != id ==> t.byId[k] == s.byId[k])
                  && Applied(s.byId[id].content, u, t.byId[id].content)
                  && t.byId[id].id == s.byId[id].id && t.byId[id].contextId == s.byId[id].contextId
                  && t.byId[id].createdAt == s.byId[id].createdAt
                  && t.byId[id].updatedAt == (if s.byId[id].updatedAt < now then now else s.byId[id].updatedAt + 1))
  {
    if id in s.byId { MergeExactly(s.byId[id].content, u); }
  }

  // ------------------------------------------------------------------ creates and deletes

  /** A create is refused exactly when the content could not be stored or five hundred records are there.
      Otherwise it adds one record, last in the list, with the content as given, its title
      trimmed, and leaves the others alone. */
  lemma {:induction false} CreateExactly(s: Store, contextId: string, c: Content, newId: string, now: int)
    requires newId !in s.byId
    ensures var (t, failure) := Create(s, contextId, c, newId, now);
            var storable := Storable(c.title, c.text, c.kind, c.category, c.confidence, c.address, c.endAddress, c.length);
            && (failure == Some(InvalidField) <==> !storable)
            && (failure == Some(LimitExceeded) <==> storable && |s.ids| >= 500)
            && (failure.Some? ==> t == s && (failure.value == InvalidField || failure.value == LimitExceeded))
            && (failure.None? ==>
                  && t.ids == s.ids + [newId] && t.byId.Keys == s.byId.Keys + {newId}
                  && (forall k :: k in s.byId ==> t.byId[k] == s.byId[k])
                  && t.byId[newId] == Annotation(newId, contextId, now, now, c.(title := Trim(c.title))))
  {
    StorableExactly(c);
  }

  /** Where the id is taken out. */
  function IndexOf(ids: seq<string>, id: string): (k: nat)
    requires id in ids
    ensures k < |ids| && ids[k] == id
  {
    if ids[0] == id then 0 else 1 + IndexOf(ids[1..], id)
  }

  /** The list without its entry at k, in order. */
  ghost predicate TakenOut(ids: seq<string>, k: nat, rest: seq<string>)
    requires k < |ids|
  {
    rest == ids[..k] + ids[k + 1..]
  }

  lemma {:induction false} WithoutOne(ids: seq<string>, id: string)
    requires id in ids
    ensures TakenOut(ids, IndexOf(ids, id), Without(ids, id))
  {
    if ids[0] == id {
      assert ids[..0] + ids[1..] == ids[1..];
    } else {
      WithoutOne(ids[1..], id);
      TakenOutLater(ids, IndexOf(ids[1..], id), Without(ids[1..], id));
    }
  }

  lemma {:induction false} TakenOutLater(ids: seq<string>, k: nat, rest: seq<string>)
    requires k + 1 < |ids| && TakenOut(ids[1..], k, rest)
    ensures TakenOut(ids, k + 1, [ids[0]] + rest)
  {
    assert ids[1..][k + 1..] == ids[k + 2..];
    assert [ids[0]] + ids[1..][..k] == ids[..k + 1];
  }

  /** A delete is refused exactly when there is no such record. Otherwise it takes out that record and
      nothing else, and the others keep their order. */
  lemma {:induction false} DeleteExactly(s: Store, contextId: string, id: string)
    requires Inv(s, contextId)
    ensures var (t, failure) := Delete(s, id);
            && (failure == Some(NotFound) <==> id !in s.byId)
            && (failure.Some? ==> failure == Some(NotFound) && t == s)
            && (failure.None? ==>
                  && id !in t.byId && t.byId.Keys == s.byId.Keys - {id}
                  && (forall k :: k in t.byId ==> t.byId[k] == s.byId[k])
                  && id in s.ids && TakenOut(s.ids, IndexOf(s.ids, id), t.ids))
  {
    if id in s.byId { WithoutOne(s.ids, id); }
  }

  // -------------------------------------------------------------------------- imports

  /** The entries that found their id taken, in the order of the document. */
  function Taken(s: Store, document: seq<Annotation>): seq<string> {
    if document == [] then []
    else
      var init, id := document[..|document| - 1], document[|document| - 1].id;
      Taken(s, init) + if id in s.byId || id in IdsOf(init) then [id] else []
  }

  lemma {:induction false} EachConflicts(s: Store, contextId: string, document: seq<Annotation>, overwrite: bool)
    ensures var m := ImportEach(s, contextId, document, overwrite);
            && m.conflicts == (if overwrite then [] else Taken(s, document))
            && m.store.byId.Keys == s.byId.Keys + IdsOf(document)
  {
    if document != [] {
      var init, last := document[..|document| - 1], document[|document| - 1];
      EachConflicts(s, contextId, init, overwrite);
      IdsOfMore(init, last);
      assert init + [last] == document;
    }
  }

  predicate Admissible(entry: Annotation) {
    var c := entry.content;
    ID_PREFIX <= entry.id && Storable(c.title, c.text, c.kind, c.category, c.confidence, c.address, c.endAddress, c.length)
  }

  lemma {:induction false} AdmissibleExactly(document: seq<Annotation>)
    ensures FirstRejection(document).None? <==> forall i :: 0 <= i < |document| ==> Admissible(document[i])
  {
    if document != [] {
      StorableExactly(document[0].content);
      AdmissibleExactly(document[1..]);
      assert forall i :: 0 < i < |document| ==> document[i] == document[1..][i - 1];
      assert Rejects(document[0]).Some? <==> !Admissible(document[0]);
      if FirstRejection(document).None? {
        forall i | 0 <= i < |document| ensures Admissible(document[i]) {
          assert i > 0 ==> Admissible(document[1..][i - 1]);
        }
      } else if forall i :: 0 <= i < |document| ==> Admissible(document[i]) {
        forall i | 0 <= i < |document| - 1 ensures Admissible(document[1..][i]) {
          assert document[1..][i] == document[i + 1];
        }
      }
    }
  }

  /** An import is accepted exactly when every entry has the id and the content of a record and the
      result has at most five hundred. A refused one changes nothing. An accepted one writes
      what it brings, over stored records only when asked to, and names the entries it skipped. */
  lemma {:induction false} ImportExactly(s: Store, contextId: string, document: seq<Annotation>, overwrite: bool)
    requires Inv(s, contextId)
    ensures var (m, failure) := Import(s, contextId, document, overwrite);
            && (failure.None? <==>
                  (forall i :: 0 <= i < |document| ==> Admissible(document[i])) &&
                  |s.byId.Keys + IdsOf(document)| <= 500)
            && (failure.Some? ==> m == Imported(s, 0, []))
            && (failure.None? ==>
                  && (forall id :: ImportedAs(s, contextId, document, overwrite, id, m.store))
                  && m.conflicts == (if overwrite then [] else Taken(s, document))
                  && m.count == |document| - |m.conflicts|
                  && NewestFirst(m.store.ids, m.store.byId))
  {
    AdmissibleExactly(document);
    CapExactly(s, contextId, document);
    if FirstRejection(document).None? && !OverCap(s, document) {
      AcceptedWrites(s, contextId, document, overwrite);
    }
  }

  lemma {:induction false} CapExactly(s: Store, contextId: string, document: seq<Annotation>)
    requires Inv(s, contextId)
    ensures OverCap(s, document) <==> |s.byId.Keys + IdsOf(document)| > 500
  {
    var existing, added := (set id | id in s.ids), IdsOf(document);
    DistinctSize(s.ids);
    assert existing == s.byId.Keys;
    UnionSize(existing, added);
  }

  lemma {:induction false} AcceptedWrites(s: Store, contextId: string, document: seq<Annotation>, overwrite: bool)
    requires Inv(s, contextId) && FirstRejection(document).None? && !OverCap(s, document)
    ensures var m := Import(s, contextId, document, overwrite).0;
            && (forall id :: ImportedAs(s, contextId, document, overwrite, id, m.store))
            && m.conflicts == (if overwrite then [] else Taken(s, document))
            && m.count == |document| - |m.conflicts| && NewestFirst(m.store.ids, m.store.byId)
  {
    var each := ImportEach(s, contextId, document, overwrite);
    AcceptedImport(s, contextId, document, overwrite);
    EachConflicts(s, contextId, document, overwrite);
    ImportKeeps(s, contextId, document, overwrite);
    forall id ensures ImportedAs(s, contextId, document, overwrite, id, Import(s, contextId, document, overwrite).0.store) {
      EachImported(s, contextId, document, overwrite, id);
    }
    ImportEachCovered(s, contextId, document, overwrite);
    SortedNewest(each.store.ids, each.store.byId);
  }

  // --------------------------------------------------------------------------- order

  /** The ids last updated at the given time, in their order. */
  function UpdatedAt(ids: seq<string>, byId: map<string, Annotation>, time: int): seq<string>
    requires forall k :: k in ids ==> k in byId
  {
    if ids == [] then []
    else
      var init, last := ids[..|ids| - 1], ids[|ids| - 1];
      UpdatedAt(init, byId, time) + if byId[last].updatedAt == time then [last] else []
  }

  lemma {:induction false} InsertStable(id: string, ids: seq<string>, byId: map<string, Annotation>, time: int)
    requires id in byId && forall k :: k in ids ==> k in byId
    ensures forall k :: k in Insert(id, ids, byId) ==> k in byId
    ensures UpdatedAt(Insert(id, ids, byId), byId, time)
            == UpdatedAt(ids, byId, time) + if byId[id].updatedAt == time then [id] else []
  {
    InsertedIds(id, ids, byId);
    if ids != [] {
      var init, last := ids[..|ids| - 1], ids[|ids| - 1];
      if byId[last].updatedAt < byId[id].updatedAt {
        InsertStable(id, init, byId, time);
        UpdatedMore(Insert(id, init, byId), last, byId, time);
      } else {
        UpdatedMore(ids, id, byId, time);
      }
    } else {
      UpdatedMore([], id, byId, time);
      assert [] + [id] == [id];
    }
  }

  lemma {:induction false} UpdatedMore(ids: seq<string>, id: string, byId: map<string, Annotation>, time: int)
    requires id in byId && forall k :: k in ids ==> k in byId
    ensures UpdatedAt(ids + [id], byId, time) == UpdatedAt(ids, byId, time) + if byId[id].updatedAt == time then [id] else []
  {
    assert (ids + [id])[..|ids|] == ids;
  }

  /** Sorting newest first is stable: records of one update time keep their order. */
  lemma {:induction false} SortStable(ids: seq<string>, byId: map<string, Annotation>, time: int)
    requires forall k :: k in ids ==> k in byId
    ensures forall k :: k in SortNewest(ids, byId) ==> k in byId
    ensures UpdatedAt(SortNewest(ids, byId), byId, time) == UpdatedAt(ids, byId, time)
  {
    if ids != [] {
      var init, last := ids[..|ids| - 1], ids[|ids| - 1];
      SortStable(init, byId, time);
      InsertStable(last, SortNewest(init, byId), byId, time);
    }
  }

  lemma {:induction false} LessFrom(a: string, b: string, n: nat)
    requires n <= |a| && ComesFirst(a, b, n)
    ensures Less(a, b)
  {
    if n > 0 {
      assert a[0] == a[..n][0] == b[..n][0] == b[0];
      assert a[1..][..n - 1] == a[..n][1..] && b[1..][..n - 1] == b[..n][1..];
      LessFrom(a[1..], b[1..], n - 1);
    }
  }

  lemma {:induction false} WhereLess(a: string, b: string) returns (n: nat)
    requires Less(a, b)
    ensures n <= |a| && ComesFirst(a, b, n)
  {
    n := 0;
    if a != "" && a[0] == b[0] {
      var m := WhereLess(a[1..], b[1..]);
      n := m + 1;
      assert a[..n] == [a[0]] + a[1..][..m] && b[..n] == [b[0]] + b[1..][..m];
    }
  }

  /** One text comes before another exactly when, behind what they have in common, it ends first or
      has the smaller character. */
  lemma {:induction false} LessExactly(a: string, b: string)
    ensures Less(a, b) <==> exists n: nat :: n <= |a| && ComesFirst(a, b, n)
  {
    if Less(a, b) { var n := WhereLess(a, b); }
    if n: nat :| n <= |a| && ComesFirst(a, b, n) { LessFrom(a, b, n); }
  }

  ghost predicate ComesFirst(a: string, b: string, n: nat)
    requires n <= |a|
  {
    && n < |b| && a[..n] == b[..n]
    && (n == |a| || a[n] < b[n])
  }

  /** A listing goes from the last created to the first, and within one time from the greater id to
      the smaller. */
  lemma {:induction false} ListingOrder(s: Store, contextId: string, wanted: Annotation -> bool, i: nat, j: nat)
    requires Inv(s, contextId) && i < j < |Listing(s, wanted)|
    ensures var a, b := Listing(s, wanted)[i], Listing(s, wanted)[j];
            b.createdAt < a.createdAt || (a.createdAt == b.createdAt && Less(b.id, a.id))
  {
    ListingIs(s, contextId, wanted);
  }

  // --------------------------------------------------------------------------- pages

  /** A page asked for by offset: what lies behind the offset, twenty records when no limit is given and a
      hundred at most; more follows exactly when something is left. */
  lemma {:induction false} OffsetPage(listing: seq<Annotation>, offset: nat, limit: nat, size: nat)
    requires size == if limit == 0 then 20 else if limit < 100 then limit else 100
    ensures var page := PageOf(listing, None, offset, limit);
            && page.total == |listing| && (page.truncated <==> offset + size < |listing|)
            && |page.items| == (if offset >= |listing| then 0 else if page.truncated then size else |listing| - offset)
            && forall i :: 0 <= i < |page.items| ==> page.items[i] == listing[offset + i]
  {
  }
}
