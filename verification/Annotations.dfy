/** The annotation store of one analysis context. */
module Annotations {
  import opened Basics

  const MAX_PER_CONTEXT: nat := 500
  const MAX_TITLE: nat := 200
  const MAX_TEXT: nat := 4096
  const ID_PREFIX := "annotation_"
  const UINT64: nat := 0x1_0000_0000_0000_0000

  const CATEGORIES := {"observation", "hypothesis", "note", "bug", "todo"}
  const CONFIDENCES := {"low", "medium", "high", "unknown"}
  const KINDS := {"observation", "hypothesis"}

  datatype Content = Content(
    title: string, text: string, tags: seq<string>, category: string, confidence: string, kind: string,
    addressSpace: string, address: Option<nat>, endAddress: Option<nat>, length: Option<nat>,
    romSha256: string, targetGeneration: nat, links: seq<string>)

  /** Times are nanoseconds since the epoch. */
  datatype Annotation = Annotation(id: string, contextId: string, createdAt: int, updatedAt: int, content: Content)

  /** The fields an update may change; None keeps the value. */
  datatype Changes = Changes(
    title: Option<string>, text: Option<string>, tags: Option<seq<string>>, category: Option<string>,
    confidence: Option<string>, kind: Option<string>, addressSpace: Option<string>,
    address: Option<nat>, clearAddress: bool, endAddress: Option<nat>, clearEndAddress: bool,
    links: Option<seq<string>>)

  datatype Store = Store(byId: map<string, Annotation>, ids: seq<string>)

  const EMPTY := Store(map[], [])

  datatype Failure = InvalidField | NotFound | LimitExceeded | InvalidId

  // ---------------------------------------------------------------------- validation

  predicate Space(c: char) {
    c == ' ' || c == '\t' || c == '\n' || c == '\r' || c == 11 as char || c == 12 as char
  }

  function TrimLeft(s: string): string {
    if s != "" && Space(s[0]) then TrimLeft(s[1..]) else s
  }

  function TrimRight(s: string): string {
    if s != "" && Space(s[|s| - 1]) then TrimRight(s[..|s| - 1]) else s
  }

  function Trim(s: string): string {
    TrimRight(TrimLeft(s))
  }

  function RangeLength(address: nat, end: nat): nat {
    (end - address + 1) % UINT64
  }

  predicate ValidDomain(address: Option<nat>, end: Option<nat>, length: Option<nat>) {
    && (address.Some? && end.Some? ==> address.value <= end.value)
    && (end.Some? ==> address.Some?)
    && (length.Some? ==> address.Some?)
    && (address.Some? && end.Some? && length.Some? ==> length.value == RangeLength(address.value, end.value))
  }

  /** The content with its title trimmed, or None when a field is invalid. */
  function Validate(c: Content): Option<Content> {
    var title := Trim(c.title);
    if title == "" || |title| > MAX_TITLE || |c.text| > MAX_TEXT then None
    else if c.kind !in KINDS then None
    else if c.category != "" && c.category !in CATEGORIES then None
    else if c.confidence != "" && c.confidence !in CONFIDENCES then None
    else if !ValidDomain(c.address, c.endAddress, c.length) then None
    else Some(c.(title := title))
  }

  function Or<T>(change: Option<T>, current: T): T {
    if change.Some? then change.value else current
  }

  /** The address domain after an update, or None when its ends are crossed. */
  function MergeDomain(c: Content, u: Changes): Option<Content> {
    if u.clearAddress then Some(c.(address := None, endAddress := None, length := None))
    else
      var address := if u.address.Some? then u.address else c.address;
      var end := if u.clearEndAddress then None else if u.endAddress.Some? then u.endAddress else c.endAddress;
      var length := if u.clearEndAddress then None else c.length;
      if address.Some? && end.Some? && end.value < address.value then None
      else
        Some(c.(address := address, endAddress := end,
                length := if address.Some? && end.Some? then Some(RangeLength(address.value, end.value)) else length))
  }

  function Merge(c: Content, u: Changes): Option<Content> {
    MergeDomain(
      c.(title := Or(u.title, c.title), text := Or(u.text, c.text), tags := Or(u.tags, c.tags),
         category := Or(u.category, c.category), confidence := Or(u.confidence, c.confidence),
         kind := Or(u.kind, c.kind), addressSpace := Or(u.addressSpace, c.addressSpace),
         links := Or(u.links, c.links)), u)
  }

  function MergeAndValidate(c: Content, u: Changes): Option<Content> {
    var merged := Merge(c, u);
    if merged.None? then None else Validate(merged.value)
  }

  lemma {:induction false} TrimRightFixed(s: string)
    ensures TrimRight(TrimRight(s)) == TrimRight(s)
    ensures TrimRight(s) != "" ==> s != "" && TrimRight(s)[0] == s[0]
  {
    if s != "" && Space(s[|s| - 1]) { TrimRightFixed(s[..|s| - 1]); }
  }

  lemma {:induction false} TrimLeftFixed(s: string)
    ensures TrimLeft(s) != "" ==> !Space(TrimLeft(s)[0])
  {
    if s != "" && Space(s[0]) { TrimLeftFixed(s[1..]); }
  }

  lemma {:induction false} TrimFixed(s: string)
    ensures Trim(Trim(s)) == Trim(s)
  {
    TrimLeftFixed(s);
    TrimRightFixed(TrimLeft(s));
    assert TrimLeft(Trim(s)) == Trim(s);
  }

  lemma {:induction false} ValidatedIsValid(c: Content)
    requires Validate(c).Some?
    ensures Validate(Validate(c).value) == Validate(c)
  {
    TrimFixed(c.title);
  }

  const NO_CHANGES := Changes(None, None, None, None, None, None, None, None, false, None, false, None)

  /** Applying an update twice is applying it once, and afterwards the address domain is
      coherent: cleared as a whole, or with the length that fits whenever both ends are known. */
  lemma {:induction false} UpdateLaws(c: Content, u: Changes)
    ensures var r := MergeAndValidate(c, u);
            r.Some? ==>
              && MergeAndValidate(r.value, u) == r
              && ValidDomain(r.value.address, r.value.endAddress, r.value.length)
              && (u.clearAddress ==> r.value.address.None? && r.value.endAddress.None? && r.value.length.None?)
              && (!u.clearAddress && r.value.address.Some? && r.value.endAddress.Some? ==>
                    r.value.length == Some(RangeLength(r.value.address.value, r.value.endAddress.value)))
  {
    var r := MergeAndValidate(c, u);
    if r.Some? {
      var merged := Merge(c, u).value;
      TrimFixed(merged.title);
      MergedAgain(c, u, r.value.title);
      assert r.value == merged.(title := Trim(merged.title));
    }
  }

  lemma {:induction false} MergedAgain(c: Content, u: Changes, title: string)
    requires Merge(c, u).Some?
    ensures var merged := Merge(c, u).value;
            Merge(merged.(title := title), u) == Some(merged.(title := Or(u.title, title)))
  {
  }

  /** An update without changes keeps stored content exactly when its title is trimmed and a
      range has its length; an import may have stored it otherwise. */
  lemma {:induction false} EmptyUpdate(c: Content)
    requires Validate(c).Some?
    ensures MergeAndValidate(c, NO_CHANGES) == Some(c)
            <==> Trim(c.title) == c.title && (c.address.Some? && c.endAddress.Some? ==> c.length.Some?)
  {
  }

  // ------------------------------------------------------------------------ ordering

  /** Puts id behind every id that is at least as recent. */
  function Insert(id: string, ids: seq<string>, byId: map<string, Annotation>): (r: seq<string>)
    requires id in byId && forall k :: k in ids ==> k in byId
    ensures multiset(r) == multiset(ids) + multiset{id}
  {
    if ids == [] then [id]
    else
      var last := ids[|ids| - 1];
      assert ids == ids[..|ids| - 1] + [last];
      if byId[last].updatedAt < byId[id].updatedAt then Insert(id, ids[..|ids| - 1], byId) + [last]
      else ids + [id]
  }

  /** Stable, newest update first. */
  function SortNewest(ids: seq<string>, byId: map<string, Annotation>): (r: seq<string>)
    requires forall k :: k in ids ==> k in byId
    ensures multiset(r) == multiset(ids)
  {
    if ids == [] then []
    else
      var init := ids[..|ids| - 1];
      assert ids == init + [ids[|ids| - 1]];
      var sorted := SortNewest(init, byId);
      assert forall k :: k in sorted ==> k in multiset(sorted);
      Insert(ids[|ids| - 1], sorted, byId)
  }

  ghost predicate NewestFirst(ids: seq<string>, byId: map<string, Annotation>) {
    && (forall k :: k in ids ==> k in byId)
    && forall i, j :: 0 <= i < j < |ids| ==> byId[ids[j]].updatedAt <= byId[ids[i]].updatedAt
  }

  lemma {:induction false} InsertSorted(id: string, ids: seq<string>, byId: map<string, Annotation>)
    requires id in byId && NewestFirst(ids, byId)
    ensures NewestFirst(Insert(id, ids, byId), byId)
  {
    if ids != [] {
      var init, last := ids[..|ids| - 1], ids[|ids| - 1];
      LastUpdate(ids, byId);
      if byId[last].updatedAt < byId[id].updatedAt {
        InsertSorted(id, init, byId);
        InsertedIds(id, init, byId);
        OneOlder(Insert(id, init, byId), last, byId);
      } else {
        OneOlder(ids, id, byId);
      }
    }
  }

  lemma {:induction false} LastUpdate(ids: seq<string>, byId: map<string, Annotation>)
    requires ids != [] && NewestFirst(ids, byId)
    ensures NewestFirst(ids[..|ids| - 1], byId)
    ensures forall k :: k in ids ==> byId[ids[|ids| - 1]].updatedAt <= byId[k].updatedAt
  {
  }

  lemma {:induction false} InsertedIds(id: string, ids: seq<string>, byId: map<string, Annotation>)
    requires id in byId && forall k :: k in ids ==> k in byId
    ensures forall k :: k in Insert(id, ids, byId) ==> k == id || k in ids
  {
    forall k | k in Insert(id, ids, byId) ensures k == id || k in ids {
      assert k in multiset(Insert(id, ids, byId));
    }
  }

  lemma {:induction false} OneOlder(ids: seq<string>, id: string, byId: map<string, Annotation>)
    requires id in byId && NewestFirst(ids, byId) && forall k :: k in ids ==> byId[id].updatedAt <= byId[k].updatedAt
    ensures NewestFirst(ids + [id], byId)
  {
  }

  lemma {:induction false} SortedNewest(ids: seq<string>, byId: map<string, Annotation>)
    requires forall k :: k in ids ==> k in byId
    ensures NewestFirst(SortNewest(ids, byId), byId)
  {
    if ids != [] {
      var init := ids[..|ids| - 1];
      SortedNewest(init, byId);
      InsertSorted(ids[|ids| - 1], SortNewest(init, byId), byId);
    }
  }

  ghost predicate Distinct(ids: seq<string>) {
    forall i, j :: 0 <= i < j < |ids| ==> ids[i] != ids[j]
  }

  lemma {:induction false} DistinctCounts(ids: seq<string>)
    ensures Distinct(ids) <==> forall k :: multiset(ids)[k] <= 1
  {
    if ids != [] {
      var init, last := ids[..|ids| - 1], ids[|ids| - 1];
      DistinctCounts(init);
      assert ids == init + [last];
      assert multiset(ids) == multiset(init) + multiset{last};
      if Distinct(ids) {
        assert last !in init;
      } else if Distinct(init) {
        assert last in init;
        assert multiset(ids)[last] >= 2;
      } else {
        var k :| multiset(init)[k] > 1;
        assert multiset(ids)[k] > 1;
      }
    }
  }

  lemma {:induction false} SortKeepsIds(ids: seq<string>, byId: map<string, Annotation>)
    requires forall k :: k in ids ==> k in byId
    ensures var r := SortNewest(ids, byId);
            |r| == |ids| && (Distinct(ids) ==> Distinct(r)) && forall k :: k in r <==> k in ids
  {
    var r := SortNewest(ids, byId);
    DistinctCounts(ids);
    DistinctCounts(r);
    assert |multiset(r)| == |multiset(ids)|;
    forall k ensures k in r <==> k in ids {
      assert k in r <==> k in multiset(r);
      assert k in ids <==> k in multiset(ids);
    }
  }

  // ---------------------------------------------------------------------- operations

  predicate Covered(s: Store) {
    forall k :: k in s.ids ==> k in s.byId
  }

  /** The id is a new one: it is drawn at random, and freshness is the caller's luck. */
  function Create(s: Store, contextId: string, content: Content, newId: string, now: int): (Store, Option<Failure>) {
    var valid := Validate(content);
    if valid.None? then (s, Some(InvalidField))
    else if |s.ids| >= MAX_PER_CONTEXT then (s, Some(LimitExceeded))
    else (Store(s.byId[newId := Annotation(newId, contextId, now, now, valid.value)], s.ids + [newId]), None)
  }

  function Touched(current: Annotation, content: Content, now: int): Annotation {
    current.(content := content, updatedAt := if now > current.updatedAt then now else current.updatedAt + 1)
  }

  function Update(s: Store, id: string, u: Changes, now: int): (Store, Option<Failure>)
    requires Covered(s)
  {
    if id !in s.byId then (s, Some(NotFound))
    else
      var content := MergeAndValidate(s.byId[id].content, u);
      if content.None? then (s, Some(InvalidField))
      else
        var byId := s.byId[id := Touched(s.byId[id], content.value, now)];
        (Store(byId, SortNewest(s.ids, byId)), None)
  }

  function Without(ids: seq<string>, id: string): seq<string> {
    if ids == [] then []
    else if ids[0] == id then ids[1..]
    else [ids[0]] + Without(ids[1..], id)
  }

  function Delete(s: Store, id: string): (Store, Option<Failure>) {
    if id !in s.byId then (s, Some(NotFound)) else (Store(s.byId - {id}, Without(s.ids, id)), None)
  }

  function Export(s: Store): seq<Annotation>
    requires Covered(s)
  {
    seq(|s.ids|, i requires 0 <= i < |s.ids| => s.byId[s.ids[i]])
  }

  datatype Imported = Imported(store: Store, count: nat, conflicts: seq<string>)

  function ImportOne(m: Imported, contextId: string, ann: Annotation, overwrite: bool): Imported {
    var rewritten := ann.(contextId := contextId);
    if ann.id in m.store.byId then
      if !overwrite then m.(conflicts := m.conflicts + [ann.id])
      else m.(store := m.store.(byId := m.store.byId[ann.id := rewritten]), count := m.count + 1)
    else
      m.(store := Store(m.store.byId[ann.id := rewritten], m.store.ids + [ann.id]), count := m.count + 1)
  }

  function ImportEach(s: Store, contextId: string, document: seq<Annotation>, overwrite: bool): Imported {
    if document == [] then Imported(s, 0, [])
    else ImportOne(ImportEach(s, contextId, document[..|document| - 1], overwrite), contextId,
                   document[|document| - 1], overwrite)
  }

  function IdsOf(document: seq<Annotation>): set<string> {
    set i | 0 <= i < |document| :: document[i].id
  }

  function Rejects(ann: Annotation): Option<Failure> {
    if !(ID_PREFIX <= ann.id) then Some(InvalidId)
    else if Validate(ann.content).None? then Some(InvalidField)
    else None
  }

  /** The first entry of the document that is refused decides. */
  function FirstRejection(document: seq<Annotation>): Option<Failure> {
    if document == [] then None
    else if Rejects(document[0]).Some? then Rejects(document[0])
    else FirstRejection(document[1..])
  }

  predicate OverCap(s: Store, document: seq<Annotation>) {
    var existing, added := (set id | id in s.ids), IdsOf(document);
    |s.ids| + |added| - |added * existing| > MAX_PER_CONTEXT
  }

  function Import(s: Store, contextId: string, document: seq<Annotation>, overwrite: bool): (Imported, Option<Failure>)
    requires Covered(s)
  {
    if FirstRejection(document).Some? then (Imported(s, 0, []), FirstRejection(document))
    else if OverCap(s, document) then (Imported(s, 0, []), Some(LimitExceeded))
    else
      var m := ImportEach(s, contextId, document, overwrite);
      ImportEachCovered(s, contextId, document, overwrite);
      (m.(store := m.store.(ids := SortNewest(m.store.ids, m.store.byId))), None)
  }

  lemma {:induction false} ImportOneCovered(m: Imported, contextId: string, ann: Annotation, overwrite: bool)
    requires Covered(m.store)
    ensures Covered(ImportOne(m, contextId, ann, overwrite).store)
  {
    assert Covered(Store(m.store.byId[ann.id := ann.(contextId := contextId)], m.store.ids));
  }

  lemma {:induction false} ImportEachCovered(s: Store, contextId: string, document: seq<Annotation>, overwrite: bool)
    requires Covered(s)
    ensures Covered(ImportEach(s, contextId, document, overwrite).store)
  {
    if document != [] {
      var init := document[..|document| - 1];
      ImportEachCovered(s, contextId, init, overwrite);
      ImportOneCovered(ImportEach(s, contextId, init, overwrite), contextId, document[|document| - 1], overwrite);
    }
  }

  lemma {:induction false} ImportEachMore(
    s: Store, contextId: string, document: seq<Annotation>, ann: Annotation, overwrite: bool)
    ensures ImportEach(s, contextId, document + [ann], overwrite)
            == ImportOne(ImportEach(s, contextId, document, overwrite), contextId, ann, overwrite)
  {
    assert (document + [ann])[..|document|] == document;
  }

  // ----------------------------------------------------------------------- invariant

  predicate Sound(ann: Annotation, id: string, contextId: string) {
    ann.id == id && ann.contextId == contextId && ID_PREFIX <= id && Validate(ann.content).Some?
  }

  /** The id list holds exactly the stored ids, once each, within the cap; every record is
      filed under its own id, belongs to the context and passes validation. */
  ghost predicate Inv(s: Store, contextId: string) {
    && Distinct(s.ids)
    && (forall k :: k in s.ids <==> k in s.byId)
    && |s.ids| <= MAX_PER_CONTEXT
    && forall k :: k in s.byId ==> Sound(s.byId[k], k, contextId)
  }

  lemma {:induction false} CreateKeeps(s: Store, contextId: string, content: Content, newId: string, now: int)
    requires Inv(s, contextId) && newId !in s.byId && ID_PREFIX <= newId
    ensures Inv(Create(s, contextId, content, newId, now).0, contextId)
  {
    if Validate(content).Some? {
      ValidatedIsValid(content);
    }
  }

  lemma {:induction false} UpdateKeeps(s: Store, contextId: string, id: string, u: Changes, now: int)
    requires Inv(s, contextId)
    ensures Inv(Update(s, id, u, now).0, contextId)
  {
    if id in s.byId {
      var content := MergeAndValidate(s.byId[id].content, u);
      if content.Some? {
        MergedIsValid(s.byId[id].content, u);
        Replaced(s, contextId, id, Touched(s.byId[id], content.value, now));
      }
    }
  }

  lemma {:induction false} MergedIsValid(c: Content, u: Changes)
    requires MergeAndValidate(c, u).Some?
    ensures Validate(MergeAndValidate(c, u).value).Some?
  {
    ValidatedIsValid(Merge(c, u).value);
  }

  lemma {:induction false} Replaced(s: Store, contextId: string, id: string, ann: Annotation)
    requires Inv(s, contextId) && id in s.byId && Sound(ann, id, contextId)
    ensures var byId := s.byId[id := ann];
            && (forall k :: k in s.ids ==> k in byId)
            && Inv(Store(byId, SortNewest(s.ids, byId)), contextId)
  {
    SortKeepsIds(s.ids, s.byId[id := ann]);
  }

  lemma {:induction false} WithoutIs(ids: seq<string>, id: string)
    requires Distinct(ids) && id in ids
    ensures var r := Without(ids, id);
            |r| == |ids| - 1 && Distinct(r) && forall k :: k in r <==> k in ids && k != id
  {
    if ids[0] != id {
      WithoutIs(ids[1..], id);
      assert ids == [ids[0]] + ids[1..];
      assert ids[0] !in ids[1..];
      assert ids[0] !in Without(ids[1..], id);
    } else {
      assert ids == [id] + ids[1..];
    }
  }

  lemma {:induction false} DeleteKeeps(s: Store, contextId: string, id: string)
    requires Inv(s, contextId)
    ensures Inv(Delete(s, id).0, contextId)
  {
    if id in s.byId { WithoutIs(s.ids, id); }
  }

  lemma {:induction false} FirstRejectionIs(document: seq<Annotation>)
    ensures FirstRejection(document).None? <==> forall i :: 0 <= i < |document| ==> Rejects(document[i]).None?
  {
    if document != [] { FirstRejectionIs(document[1..]); }
  }

  /** Everything of the invariant but the cap, and where the ids came from. */
  ghost predicate Filed(s: Store, contextId: string) {
    && Distinct(s.ids)
    && (forall k :: k in s.ids <==> k in s.byId)
    && forall k :: k in s.byId ==> Sound(s.byId[k], k, contextId)
  }

  lemma {:induction false} ImportEachKeeps(s: Store, contextId: string, document: seq<Annotation>, overwrite: bool)
    requires Filed(s, contextId) && forall i :: 0 <= i < |document| ==> Rejects(document[i]).None?
    ensures var m := ImportEach(s, contextId, document, overwrite);
            && Filed(m.store, contextId)
            && m.store.byId.Keys == s.byId.Keys + IdsOf(document)
            && m.count + |m.conflicts| == |document|
  {
    if document != [] {
      var init, last := document[..|document| - 1], document[|document| - 1];
      ImportEachKeeps(s, contextId, init, overwrite);
      IdsOfMore(init, last);
      ImportEachMore(s, contextId, init, last, overwrite);
      assert document == init + [last];
      ImportOneKeeps(ImportEach(s, contextId, init, overwrite), contextId, last, overwrite);
    }
  }

  lemma {:induction false} IdsOfMore(document: seq<Annotation>, ann: Annotation)
    ensures IdsOf(document + [ann]) == IdsOf(document) + {ann.id}
  {
    var more := document + [ann];
    forall id | id in IdsOf(more) ensures id in IdsOf(document) + {ann.id} {
      var i :| 0 <= i < |more| && more[i].id == id;
      assert i < |document| ==> document[i].id == id;
    }
    forall id | id in IdsOf(document) ensures id in IdsOf(more) {
      var i :| 0 <= i < |document| && document[i].id == id;
      assert more[i].id == id;
    }
    assert more[|document|].id == ann.id;
  }

  lemma {:induction false} ImportOneKeeps(m: Imported, contextId: string, ann: Annotation, overwrite: bool)
    requires Filed(m.store, contextId) && Rejects(ann).None?
    ensures var n := ImportOne(m, contextId, ann, overwrite);
            && Filed(n.store, contextId)
            && n.store.byId.Keys == m.store.byId.Keys + {ann.id}
            && n.count + |n.conflicts| == m.count + |m.conflicts| + 1
  {
  }

  lemma {:induction false} DistinctSize(ids: seq<string>)
    requires Distinct(ids)
    ensures |set id | id in ids| == |ids|
  {
    if ids != [] {
      var init, last := ids[..|ids| - 1], ids[|ids| - 1];
      DistinctSize(init);
      assert ids == init + [last];
      assert (set id | id in ids) == (set id | id in init) + {last};
      assert last !in init;
    }
  }

  /** An import keeps the invariant, the cap included: the growth it is judged by is the
      growth it causes. Every entry is counted once, as imported or as a conflict. */
  lemma {:induction false} ImportKeeps(s: Store, contextId: string, document: seq<Annotation>, overwrite: bool)
    requires Inv(s, contextId)
    ensures var (m, failure) := Import(s, contextId, document, overwrite);
            && Inv(m.store, contextId)
            && (failure.Some? ==> m.store == s && m.count == 0 && m.conflicts == [])
            && (failure.None? ==> m.count + |m.conflicts| == |document|)
            && (failure.None? ==> m.store.byId.Keys == s.byId.Keys + IdsOf(document))
  {
    if FirstRejection(document).None? && !OverCap(s, document) {
      var m := ImportEach(s, contextId, document, overwrite);
      FirstRejectionIs(document);
      ImportEachKeeps(s, contextId, document, overwrite);
      ImportedWithinCap(s, m.store, document);
      SortKeepsIds(m.store.ids, m.store.byId);
    }
  }

  lemma {:induction false} ImportedWithinCap(s: Store, t: Store, document: seq<Annotation>)
    requires Distinct(s.ids) && Distinct(t.ids)
    requires forall k :: k in s.ids <==> k in s.byId
    requires forall k :: k in t.ids <==> k in t.byId
    requires t.byId.Keys == s.byId.Keys + IdsOf(document)
    ensures |t.ids| > MAX_PER_CONTEXT <==> OverCap(s, document)
  {
    var existing, added := (set id | id in s.ids), IdsOf(document);
    DistinctSize(s.ids);
    DistinctSize(t.ids);
    assert existing == s.byId.Keys;
    assert (set id | id in t.ids) == existing + added;
    UnionSize(existing, added);
  }

  lemma {:induction false} UnionSize(a: set<string>, b: set<string>)
    ensures |a + b| == |a| + |b| - |b * a|
  {
    assert a + b == a + (b - a) && b == (b - a) + b * a;
  }

  // ------------------------------------------------------------ what an import brings

  /** The entry a document brings for an id: the last one when it overwrites, the first otherwise. */
  function Brought(document: seq<Annotation>, id: string, overwrite: bool): Option<Annotation> {
    if document == [] then None
    else if overwrite
    then if document[|document| - 1].id == id then Some(document[|document| - 1])
         else Brought(document[..|document| - 1], id, overwrite)
    else if document[0].id == id then Some(document[0]) else Brought(document[1..], id, overwrite)
  }

  lemma {:induction false} FirstBrought(document: seq<Annotation>, last: Annotation, id: string)
    ensures Brought(document + [last], id, false)
            == if Brought(document, id, false).Some? then Brought(document, id, false)
               else if last.id == id then Some(last) else None
  {
    if document == [] {
      assert ([] + [last])[1..] == [];
    } else {
      FirstBrought(document[1..], last, id);
      assert (document + [last])[1..] == document[1..] + [last];
    }
  }

  lemma {:induction false} BroughtMore(document: seq<Annotation>, last: Annotation, id: string, overwrite: bool)
    ensures Brought(document + [last], id, overwrite)
            == if overwrite && last.id == id then Some(last)
               else if Brought(document, id, overwrite).Some? then Brought(document, id, overwrite)
               else if last.id == id then Some(last) else None
  {
    assert (document + [last])[..|document|] == document;
    if !overwrite { FirstBrought(document, last, id); }
  }

  /** The record of an id after an import: the entry brought, rewritten to the context, where it may be
      written, and otherwise the stored one. */
  ghost predicate ImportedAs(
    s: Store, contextId: string, document: seq<Annotation>, overwrite: bool, id: string, t: Store) {
    var brought := Brought(document, id, overwrite);
    && (id in t.byId <==> id in s.byId || brought.Some?)
    && (id in t.byId ==>
          t.byId[id] == if brought.Some? && (overwrite || id !in s.byId) then brought.value.(contextId := contextId)
                        else s.byId[id])
  }

  lemma {:induction false} EachImported(
    s: Store, contextId: string, document: seq<Annotation>, overwrite: bool, id: string)
    ensures ImportedAs(s, contextId, document, overwrite, id, ImportEach(s, contextId, document, overwrite).store)
  {
    if document != [] {
      var init, last := document[..|document| - 1], document[|document| - 1];
      EachImported(s, contextId, init, overwrite, id);
      BroughtMore(init, last, id, overwrite);
      assert init + [last] == document;
    }
  }

  lemma {:induction false} BroughtFrom(document: seq<Annotation>, id: string, overwrite: bool)
    ensures var brought := Brought(document, id, overwrite);
            brought.Some? ==> brought.value in document && brought.value.id == id
  {
    if document != [] {
      BroughtFrom(if overwrite then document[..|document| - 1] else document[1..], id, overwrite);
    }
  }

  // ------------------------------------------------------------------- export, import

  /** Importing an export into an empty context gives back every record, owned by the new context. */
  lemma {:induction false} ExportImport(s: Store, contextId: string, other: string, overwrite: bool)
    requires Inv(s, contextId)
    ensures var (m, failure) := Import(EMPTY, other, Export(s), overwrite);
            && failure.None? && m.count == |s.ids| && m.conflicts == []
            && m.store.byId.Keys == s.byId.Keys
            && forall k :: k in s.byId ==> m.store.byId[k] == s.byId[k].(contextId := other)
  {
    ExportAccepted(s, contextId);
    ExportEachOf(s, contextId, other, overwrite);
    var each := ImportEach(EMPTY, other, Export(s), overwrite);
    ExportWithinCap(s, contextId, other, each.store);
    AcceptedImport(EMPTY, other, Export(s), overwrite);
    CopiedAll(s, contextId, each.store, other);
  }

  lemma {:induction false} ExportEachOf(s: Store, contextId: string, other: string, overwrite: bool)
    requires Inv(s, contextId)
    ensures var m := ImportEach(EMPTY, other, Export(s), overwrite);
            Copied(s, m.store, other, |s.ids|) && m.count == |s.ids| && m.conflicts == []
  {
    ExportEach(s, contextId, other, |s.ids|, overwrite);
    assert Export(s)[..|s.ids|] == Export(s);
  }

  lemma {:induction false} CopiedAll(s: Store, contextId: string, t: Store, other: string)
    requires Inv(s, contextId) && Copied(s, t, other, |s.ids|)
    ensures t.byId.Keys == s.byId.Keys && t.ids == s.ids
    ensures forall k :: k in s.byId ==> t.byId[k] == s.byId[k].(contextId := other)
  {
    assert s.ids[..|s.ids|] == s.ids;
  }

  lemma {:induction false} AcceptedImport(s: Store, contextId: string, document: seq<Annotation>, overwrite: bool)
    requires Covered(s) && FirstRejection(document).None? && !OverCap(s, document)
    ensures var (m, failure) := Import(s, contextId, document, overwrite);
            var each := ImportEach(s, contextId, document, overwrite);
            && failure.None? && m.count == each.count && m.conflicts == each.conflicts
            && m.store.byId == each.store.byId
  {
  }

  lemma {:induction false} ExportAccepted(s: Store, contextId: string)
    requires Inv(s, contextId)
    ensures FirstRejection(Export(s)).None?
  {
    forall i | 0 <= i < |s.ids| ensures Rejects(Export(s)[i]).None? {
      assert s.ids[i] in s.byId;
      assert Sound(s.byId[s.ids[i]], s.ids[i], contextId);
    }
    FirstRejectionIs(Export(s));
  }

  lemma {:induction false} ExportWithinCap(s: Store, contextId: string, other: string, t: Store)
    requires Inv(s, contextId) && Copied(s, t, other, |s.ids|)
    ensures !OverCap(EMPTY, Export(s))
  {
    CopiedAll(s, contextId, t, other);
    ExportedIds(s, contextId);
    ImportedWithinCap(EMPTY, t, Export(s));
  }

  lemma {:induction false} ExportedIds(s: Store, contextId: string)
    requires Inv(s, contextId)
    ensures IdsOf(Export(s)) == s.byId.Keys
  {
    forall i | 0 <= i < |s.ids| ensures Export(s)[i].id == s.ids[i] {
      assert s.ids[i] in s.byId;
      assert Sound(s.byId[s.ids[i]], s.ids[i], contextId);
    }
    forall id | id in s.byId ensures id in IdsOf(Export(s)) {
      assert id in s.ids;
      var i :| 0 <= i < |s.ids| && s.ids[i] == id;
      assert Export(s)[i].id == id;
    }
  }

  /** The first n exported records have arrived. */
  ghost predicate Copied(s: Store, t: Store, other: string, n: nat) {
    && n <= |s.ids| && t.ids == s.ids[..n]
    && (forall k :: k in t.byId <==> k in s.ids[..n])
    && forall k :: k in t.byId ==> k in s.byId && t.byId[k] == s.byId[k].(contextId := other)
  }

  lemma {:induction false} CopyOne(s: Store, contextId: string, m: Imported, other: string, n: nat, overwrite: bool)
    requires Inv(s, contextId) && n < |s.ids| && Copied(s, m.store, other, n)
    ensures s.ids[n] in s.byId
    ensures var r := ImportOne(m, other, s.byId[s.ids[n]], overwrite);
            Copied(s, r.store, other, n + 1) && r.count == m.count + 1 && r.conflicts == m.conflicts
  {
    var id := s.ids[n];
    assert Sound(s.byId[id], id, contextId);
    NotAmong(s.ids, n);
    CopiedMore(s, m.store, other, n);
  }

  lemma {:induction false} NotAmong(ids: seq<string>, n: nat)
    requires Distinct(ids) && n < |ids|
    ensures ids[n] !in ids[..n]
  {
  }

  lemma {:induction false} CopiedMore(s: Store, t: Store, other: string, n: nat)
    requires n < |s.ids| && Copied(s, t, other, n) && s.ids[n] in s.byId
    ensures Copied(s, Store(t.byId[s.ids[n] := s.byId[s.ids[n]].(contextId := other)], t.ids + [s.ids[n]]), other, n + 1)
  {
    assert s.ids[..n + 1] == s.ids[..n] + [s.ids[n]];
  }

  ghost predicate CopiedFirst(s: Store, other: string, n: nat, overwrite: bool)
    requires Covered(s)
  {
    n <= |s.ids| &&
    var m := ImportEach(EMPTY, other, Export(s)[..n], overwrite);
    Copied(s, m.store, other, n) && m.count == n && m.conflicts == []
  }

  lemma {:induction false} ExportEach(s: Store, contextId: string, other: string, n: nat, overwrite: bool)
    requires Inv(s, contextId) && n <= |s.ids|
    ensures CopiedFirst(s, other, n, overwrite)
  {
    if n == 0 {
      assert Export(s)[..0] == [] && s.ids[..0] == [];
    } else {
      ExportEach(s, contextId, other, n - 1, overwrite);
      ExportOne(s, contextId, other, n - 1, overwrite);
    }
  }

  lemma {:induction false} ExportOne(s: Store, contextId: string, other: string, n: nat, overwrite: bool)
    requires Inv(s, contextId) && n < |s.ids| && CopiedFirst(s, other, n, overwrite)
    ensures CopiedFirst(s, other, n + 1, overwrite)
  {
    var before := Export(s)[..n];
    ExportedPrefix(s, n);
    ImportEachMore(EMPTY, other, before, s.byId[s.ids[n]], overwrite);
    CopyOne(s, contextId, ImportEach(EMPTY, other, before, overwrite), other, n, overwrite);
  }

  lemma {:induction false} ExportedPrefix(s: Store, n: nat)
    requires Covered(s) && n < |s.ids|
    ensures Export(s)[..n + 1] == Export(s)[..n] + [s.byId[s.ids[n]]]
  {
  }

  /** The export is announced as newest first. It is after an update or an import, but a
      create appends: it is then exactly when it was before and nothing stored is older. */
  lemma {:induction false} ExportOrder(s: Store, contextId: string, content: Content, newId: string, now: int)
    requires Inv(s, contextId) && newId !in s.byId
    requires Create(s, contextId, content, newId, now).1.None?
    ensures var t := Create(s, contextId, content, newId, now).0;
            NewestFirst(t.ids, t.byId)
            <==> NewestFirst(s.ids, s.byId) && forall k :: k in s.byId ==> now <= s.byId[k].updatedAt
  {
    var ann := Annotation(newId, contextId, now, now, Validate(content).value);
    AppendedOrder(s.ids, s.byId, newId, ann);
    assert (forall k :: k in s.byId ==> now <= s.byId[k].updatedAt)
      <==> forall k :: k in s.ids ==> now <= s.byId[k].updatedAt;
  }

  lemma {:induction false} AppendedOrder(ids: seq<string>, byId: map<string, Annotation>, newId: string, ann: Annotation)
    requires newId !in byId && forall k :: k in ids ==> k in byId
    ensures NewestFirst(ids + [newId], byId[newId := ann])
            <==> NewestFirst(ids, byId) && forall k :: k in ids ==> ann.updatedAt <= byId[k].updatedAt
  {
    var more, all := byId[newId := ann], ids + [newId];
    assert forall i :: 0 <= i < |ids| ==> all[i] == ids[i] && more[all[i]] == byId[ids[i]];
    if NewestFirst(all, more) {
      forall k | k in ids ensures ann.updatedAt <= byId[k].updatedAt {
        var i :| 0 <= i < |ids| && ids[i] == k;
        assert all[i] == k && all[|ids|] == newId;
      }
      forall i, j | 0 <= i < j < |ids| ensures byId[ids[j]].updatedAt <= byId[ids[i]].updatedAt {
        assert more[all[j]].updatedAt <= more[all[i]].updatedAt;
      }
    }
  }

  lemma {:induction false} OrderAfterUpdate(s: Store, contextId: string, id: string, u: Changes, now: int)
    requires Inv(s, contextId) && Update(s, id, u, now).1.None?
    ensures var t := Update(s, id, u, now).0; NewestFirst(t.ids, t.byId)
  {
    var content := MergeAndValidate(s.byId[id].content, u);
    SortedNewest(s.ids, s.byId[id := Touched(s.byId[id], content.value, now)]);
  }

  /** An update moves the update time strictly forward and leaves the paging key alone. */
  lemma {:induction false} UpdateMovesForward(s: Store, id: string, u: Changes, now: int)
    requires Covered(s) && Update(s, id, u, now).1.None?
    ensures var t := Update(s, id, u, now).0;
            && t.byId.Keys == s.byId.Keys
            && t.byId[id].updatedAt > s.byId[id].updatedAt
            && t.byId[id].createdAt == s.byId[id].createdAt
            && forall k :: k in s.byId && k != id ==> t.byId[k] == s.byId[k]
  {
  }
}
