/** Listing annotations page by page: the sort key, one page, and walks over many pages. */
module KeysetWalk {
  import opened Basics
  import opened Annotations

  const DEFAULT_LIMIT: nat := 20
  const MAX_LIMIT: nat := 100

  datatype Key = Key(createdAt: int, id: string)

  function KeyOf(ann: Annotation): Key {
    Key(ann.createdAt, ann.id)
  }

  /** Go's order of strings. */
  predicate Less(a: string, b: string) {
    b != "" && (a == "" || a[0] < b[0] || (a[0] == b[0] && Less(a[1..], b[1..])))
  }

  lemma {:induction false} LessIsTotal(a: string, b: string)
    ensures a == b || Less(a, b) || Less(b, a)
    ensures !(Less(a, b) && Less(b, a)) && !Less(a, a)
  {
    if a != "" && b != "" {
      LessIsTotal(a[1..], b[1..]);
      LessIsTotal(a[1..], a[1..]);
      assert a == [a[0]] + a[1..] && b == [b[0]] + b[1..];
    } else if a != "" {
      LessIsTotal(a[1..], a[1..]);
    }
  }

  lemma {:induction false} LessIsTransitive(a: string, b: string, c: string)
    requires Less(a, b) && Less(b, c)
    ensures Less(a, c)
  {
    if a != "" && a[0] == b[0] == c[0] {
      LessIsTransitive(a[1..], b[1..], c[1..]);
    }
  }

  /** k sorts strictly behind the anchor in the newest-first order. */
  predicate Older(k: Key, anchor: Key) {
    k.createdAt < anchor.createdAt || (k.createdAt == anchor.createdAt && Less(k.id, anchor.id))
  }

  lemma {:induction false} OlderIsTotal(a: Key, b: Key)
    ensures a == b || Older(a, b) || Older(b, a)
    ensures !(Older(a, b) && Older(b, a)) && !Older(a, a)
  {
    LessIsTotal(a.id, b.id);
    LessIsTotal(a.id, a.id);
  }

  lemma {:induction false} OlderIsTransitive(a: Key, b: Key, c: Key)
    requires Older(a, b) && Older(b, c)
    ensures Older(a, c)
  {
    if a.createdAt == b.createdAt == c.createdAt { LessIsTransitive(a.id, b.id, c.id); }
  }

  ghost predicate Descending(anns: seq<Annotation>) {
    forall i, j :: 0 <= i < j < |anns| ==> Older(KeyOf(anns[j]), KeyOf(anns[i]))
  }

  // ------------------------------------------------------------------------- listing

  /** The wanted records, in the order of the id list. */
  function Matched(s: Store, ids: seq<string>, wanted: Annotation -> bool): seq<Annotation>
    requires forall k :: k in ids ==> k in s.byId
  {
    if ids == [] then []
    else
      var init, ann := ids[..|ids| - 1], s.byId[ids[|ids| - 1]];
      Matched(s, init, wanted) + if wanted(ann) then [ann] else []
  }

  lemma {:induction false} MatchedNext(s: Store, ids: seq<string>, k: nat, wanted: Annotation -> bool)
    requires k < |ids| && forall id :: id in ids ==> id in s.byId
    ensures var ann := s.byId[ids[k]];
            Matched(s, ids[..k + 1], wanted) == Matched(s, ids[..k], wanted) + if wanted(ann) then [ann] else []
  {
    assert ids[..k + 1][..k] == ids[..k];
  }

  function Place(ann: Annotation, sorted: seq<Annotation>): seq<Annotation> {
    if sorted == [] || Older(KeyOf(sorted[0]), KeyOf(ann)) then [ann] + sorted
    else [sorted[0]] + Place(ann, sorted[1..])
  }

  /** Newest first by creation, then by id. */
  function SortByKey(anns: seq<Annotation>): seq<Annotation> {
    if anns == [] then [] else Place(anns[|anns| - 1], SortByKey(anns[..|anns| - 1]))
  }

  function Listing(s: Store, wanted: Annotation -> bool): seq<Annotation>
    requires Covered(s)
  {
    SortByKey(Matched(s, s.ids, wanted))
  }

  lemma {:induction false} PlaceKeeps(ann: Annotation, sorted: seq<Annotation>)
    requires Descending(sorted) && forall i :: 0 <= i < |sorted| ==> KeyOf(sorted[i]) != KeyOf(ann)
    ensures Descending(Place(ann, sorted)) && |Place(ann, sorted)| == |sorted| + 1
    ensures forall a :: a in Place(ann, sorted) <==> a == ann || a in sorted
  {
    if sorted == [] {
    } else if Older(KeyOf(sorted[0]), KeyOf(ann)) {
      forall j | 1 <= j < |sorted| ensures Older(KeyOf(sorted[j]), KeyOf(ann)) {
        OlderIsTransitive(KeyOf(sorted[j]), KeyOf(sorted[0]), KeyOf(ann));
      }
    } else {
      var rest := Place(ann, sorted[1..]);
      PlaceKeeps(ann, sorted[1..]);
      OlderIsTotal(KeyOf(sorted[0]), KeyOf(ann));
      assert sorted == [sorted[0]] + sorted[1..];
      forall j | 0 <= j < |rest| ensures Older(KeyOf(rest[j]), KeyOf(sorted[0])) {
        assert rest[j] in rest;
        if rest[j] != ann {
          var i :| 0 <= i < |sorted[1..]| && sorted[1..][i] == rest[j];
          assert sorted[i + 1] == rest[j];
        }
      }
    }
  }

  lemma {:induction false} MatchedIs(s: Store, contextId: string, ids: seq<string>, wanted: Annotation -> bool)
    requires Inv(s, contextId) && Distinct(ids) && forall k :: k in ids ==> k in s.byId
    ensures var m := Matched(s, ids, wanted);
            && Descending(SortByKey(m)) && |SortByKey(m)| == |m|
            && forall a :: a in SortByKey(m) <==> a.id in ids && s.byId[a.id] == a && wanted(a)
  {
    if ids != [] {
      var init, id := ids[..|ids| - 1], ids[|ids| - 1];
      MatchedIs(s, contextId, init, wanted);
      MatchedMore(s, contextId, init, id, wanted);
      assert ids == init + [id];
    }
  }

  lemma {:induction false} MatchedMore(
    s: Store, contextId: string, init: seq<string>, id: string, wanted: Annotation -> bool)
    requires Inv(s, contextId) && id in s.byId && id !in init && forall k :: k in init ==> k in s.byId
    requires var m := Matched(s, init, wanted);
             && Descending(SortByKey(m)) && |SortByKey(m)| == |m|
             && forall a :: a in SortByKey(m) <==> a.id in init && s.byId[a.id] == a && wanted(a)
    ensures var m := Matched(s, init + [id], wanted);
            && Descending(SortByKey(m)) && |SortByKey(m)| == |m|
            && forall a :: a in SortByKey(m) <==> a.id in init + [id] && s.byId[a.id] == a && wanted(a)
  {
    var before, ann := Matched(s, init, wanted), s.byId[id];
    assert (init + [id])[..|init|] == init;
    assert Sound(ann, id, contextId);
    if wanted(ann) {
      PlaceNew(before, ann);
    } else {
      assert before + [] == before;
    }
  }

  lemma {:induction false} PlaceNew(before: seq<Annotation>, ann: Annotation)
    requires Descending(SortByKey(before)) && |SortByKey(before)| == |before|
    requires forall a :: a in SortByKey(before) ==> a.id != ann.id
    ensures Descending(SortByKey(before + [ann])) && |SortByKey(before + [ann])| == |before| + 1
    ensures forall a :: a in SortByKey(before + [ann]) <==> a == ann || a in SortByKey(before)
  {
    var sorted := SortByKey(before);
    forall i | 0 <= i < |sorted| ensures KeyOf(sorted[i]) != KeyOf(ann) {
      assert sorted[i] in sorted;
    }
    PlaceKeeps(ann, sorted);
    assert (before + [ann])[..|before|] == before;
  }

  /** A listing holds exactly the wanted records of the store, in strictly descending key order. */
  lemma {:induction false} ListingIs(s: Store, contextId: string, wanted: Annotation -> bool)
    requires Inv(s, contextId)
    ensures var l := Listing(s, wanted);
            && Descending(l) && |l| == |Matched(s, s.ids, wanted)|
            && forall a :: a in l <==> a.id in s.byId && s.byId[a.id] == a && wanted(a)
  {
    MatchedIs(s, contextId, s.ids, wanted);
  }

  // ---------------------------------------------------------------------------- page

  datatype Page = Page(items: seq<Annotation>, total: nat, truncated: bool)

  /** The first index behind the anchor. */
  function StartAfter(listing: seq<Annotation>, anchor: Key): (i: nat)
    ensures i <= |listing|
  {
    if listing == [] || Older(KeyOf(listing[0]), anchor) then 0 else StartAfter(listing[1..], anchor) + 1
  }

  function Start(listing: seq<Annotation>, anchor: Option<Key>, offset: nat): (i: nat)
    ensures i <= |listing|
  {
    if anchor.Some? then StartAfter(listing, anchor.value)
    else if offset >= |listing| then |listing| else offset
  }

  function Clamp(limit: nat): (l: nat)
    ensures 1 <= l <= MAX_LIMIT
  {
    if limit == 0 then DEFAULT_LIMIT else if limit > MAX_LIMIT then MAX_LIMIT else limit
  }

  function PageOf(listing: seq<Annotation>, anchor: Option<Key>, offset: nat, limit: nat): Page {
    var rest := listing[Start(listing, anchor, offset)..];
    if |rest| > Clamp(limit) then Page(rest[..Clamp(limit)], |listing|, true) else Page(rest, |listing|, false)
  }

  function PageAfter(listing: seq<Annotation>, anchor: Option<Key>, limit: nat): Page {
    PageOf(listing, anchor, 0, limit)
  }

  predicate Reaches(k: Key, anchor: Option<Key>) {
    anchor.None? || Older(k, anchor.value)
  }

  lemma {:induction false} StartIs(listing: seq<Annotation>, anchor: Key)
    requires Descending(listing)
    ensures var n := StartAfter(listing, anchor);
            && (forall i :: 0 <= i < n ==> !Older(KeyOf(listing[i]), anchor))
            && (forall i :: n <= i < |listing| ==> Older(KeyOf(listing[i]), anchor))
  {
    if listing != [] {
      if Older(KeyOf(listing[0]), anchor) {
        forall i | 0 < i < |listing| ensures Older(KeyOf(listing[i]), anchor) {
          OlderIsTransitive(KeyOf(listing[i]), KeyOf(listing[0]), anchor);
        }
      } else {
        StartIs(listing[1..], anchor);
        assert forall i :: 0 < i < |listing| ==> listing[i] == listing[1..][i - 1];
      }
    }
  }

  /** Where the next page starts. */
  function NextAnchor(page: Page): Option<Key> {
    if page.items == [] then None else Some(KeyOf(page.items[|page.items| - 1]))
  }

  /** A page shows nothing at or before the anchor, and of what lies behind the anchor it
      shows all that the next page would not. */
  lemma {:induction false} PageCovers(listing: seq<Annotation>, anchor: Option<Key>, limit: nat)
    requires Descending(listing)
    ensures var page := PageAfter(listing, anchor, limit);
            && Descending(page.items) && |page.items| <= Clamp(limit)
            && (page.truncated ==> |page.items| == Clamp(limit))
            && (forall a :: a in page.items ==> a in listing && Reaches(KeyOf(a), anchor))
            && (forall a :: a in listing && Reaches(KeyOf(a), anchor) ==>
                  a in page.items || (page.truncated && Reaches(KeyOf(a), NextAnchor(page))))
  {
    PageShape(listing, anchor, limit);
    PageShows(listing, anchor, limit);
    forall a | a in listing && Reaches(KeyOf(a), anchor)
      ensures a in PageAfter(listing, anchor, limit).items ||
              (PageAfter(listing, anchor, limit).truncated && Reaches(KeyOf(a), NextAnchor(PageAfter(listing, anchor, limit))))
    {
      ShownOrAhead(listing, anchor, limit, a);
    }
  }

  lemma {:induction false} PageShape(listing: seq<Annotation>, anchor: Option<Key>, limit: nat)
    requires Descending(listing)
    ensures var page, start := PageAfter(listing, anchor, limit), Start(listing, anchor, 0);
            && start + |page.items| <= |listing| && page.items == listing[start..start + |page.items|]
            && Descending(page.items) && |page.items| <= Clamp(limit)
            && (if page.truncated then |page.items| == Clamp(limit) else start + |page.items| == |listing|)
  {
  }

  lemma {:induction false} PageShows(listing: seq<Annotation>, anchor: Option<Key>, limit: nat)
    requires Descending(listing)
    ensures forall a :: a in PageAfter(listing, anchor, limit).items ==> a in listing && Reaches(KeyOf(a), anchor)
  {
    var page, start := PageAfter(listing, anchor, limit), Start(listing, anchor, 0);
    PageShape(listing, anchor, limit);
    if anchor.Some? { StartIs(listing, anchor.value); }
    forall a | a in page.items ensures a in listing && Reaches(KeyOf(a), anchor) {
      var i :| 0 <= i < |page.items| && page.items[i] == a;
      assert listing[start + i] == a;
    }
  }

  lemma {:induction false} ShownOrAhead(listing: seq<Annotation>, anchor: Option<Key>, limit: nat, a: Annotation)
    requires Descending(listing) && a in listing && Reaches(KeyOf(a), anchor)
    ensures var page := PageAfter(listing, anchor, limit);
            a in page.items || (page.truncated && Reaches(KeyOf(a), NextAnchor(page)))
  {
    var page, start := PageAfter(listing, anchor, limit), Start(listing, anchor, 0);
    PageShape(listing, anchor, limit);
    if anchor.Some? { StartIs(listing, anchor.value); }
    var i :| 0 <= i < |listing| && listing[i] == a;
    if i < start + |page.items| {
      assert page.items[i - start] == a;
    }
  }

  // ---------------------------------------------------------- walks of a fixed store

  lemma {:induction false} StartBehind(listing: seq<Annotation>, p: nat)
    requires Descending(listing) && p < |listing|
    ensures StartAfter(listing, KeyOf(listing[p])) == p + 1
  {
    StartIs(listing, KeyOf(listing[p]));
    OlderIsTotal(KeyOf(listing[p]), KeyOf(listing[p]));
    if p + 1 < |listing| {
      assert Older(KeyOf(listing[p + 1]), KeyOf(listing[p]));
    }
  }

  lemma {:induction false} PageMoves(listing: seq<Annotation>, anchor: Option<Key>, limit: nat)
    requires Descending(listing)
    ensures var page, start := PageAfter(listing, anchor, limit), Start(listing, anchor, 0);
            && page.items == listing[start..start + |page.items|]
            && (page.truncated ==> Start(listing, NextAnchor(page), 0) == start + |page.items| > start)
            && (!page.truncated ==> start + |page.items| == |listing|)
  {
    var page, start := PageAfter(listing, anchor, limit), Start(listing, anchor, 0);
    if page.truncated {
      StartBehind(listing, start + |page.items| - 1);
    }
  }

  /** All pages from an anchor on, following the next cursor. */
  function Walk(listing: seq<Annotation>, anchor: Option<Key>, limit: nat): (pages: seq<Page>)
    requires Descending(listing)
    decreases |listing| - Start(listing, anchor, 0)
  {
    var page := PageAfter(listing, anchor, limit);
    PageMoves(listing, anchor, limit);
    if page.truncated then [page] + Walk(listing, NextAnchor(page), limit) else [page]
  }

  // --------------------------------------------------- walks while the store changes

  /** The listing and the limit at the time of each page request. */
  datatype View = View(listing: seq<Annotation>, limit: nat)

  function AnchorAt(views: seq<View>, n: nat): Option<Key>
    requires n <= |views|
    decreases n, 0
  {
    if n == 0 then None else NextAnchor(PageAt(views, n - 1))
  }

  function PageAt(views: seq<View>, n: nat): Page
    requires n < |views|
    decreases n, 1
  {
    PageAfter(views[n].listing, AnchorAt(views, n), views[n].limit)
  }

  /** Every page but the last said that more follows, so the walk went on. */
  ghost predicate IsWalk(views: seq<View>) {
    && (forall k :: 0 <= k < |views| ==> Descending(views[k].listing))
    && forall k :: 0 <= k < |views| - 1 ==> PageAt(views, k).truncated
  }

  ghost predicate Finished(views: seq<View>) {
    IsWalk(views) && views != [] && !PageAt(views, |views| - 1).truncated
  }

  function LastOf(views: seq<View>, n: nat): Annotation
    requires n < |views| && PageAt(views, n).items != []
  {
    var items := PageAt(views, n).items;
    items[|items| - 1]
  }

  lemma {:induction false} NextPageIsOlder(views: seq<View>, n: nat, b: Annotation)
    requires IsWalk(views) && n + 1 < |views| && b in PageAt(views, n + 1).items
    ensures PageAt(views, n).items != [] && Older(KeyOf(b), KeyOf(LastOf(views, n)))
  {
    assert PageAt(views, n).truncated;
    PageCovers(views[n].listing, AnchorAt(views, n), views[n].limit);
    PageCovers(views[n + 1].listing, AnchorAt(views, n + 1), views[n + 1].limit);
  }

  lemma {:induction false} LastIsOldest(views: seq<View>, n: nat, a: Annotation)
    requires IsWalk(views) && n < |views| && a in PageAt(views, n).items
    ensures a == LastOf(views, n) || Older(KeyOf(LastOf(views, n)), KeyOf(a))
  {
    PageCovers(views[n].listing, AnchorAt(views, n), views[n].limit);
  }

  lemma {:induction false} LaterIsOlder(views: seq<View>, i: nat, j: nat, a: Annotation, b: Annotation)
    requires IsWalk(views) && i < j < |views|
    requires a in PageAt(views, i).items && b in PageAt(views, j).items
    ensures Older(KeyOf(b), KeyOf(a))
  {
    NextPageIsOlder(views, j - 1, b);
    var last := LastOf(views, j - 1);
    if i == j - 1 {
      LastIsOldest(views, i, a);
    } else {
      LaterIsOlder(views, i, j - 1, a, last);
    }
    OlderOrSame(KeyOf(b), KeyOf(last), KeyOf(a));
  }

  lemma {:induction false} OlderOrSame(a: Key, b: Key, c: Key)
    requires Older(a, b) && (b == c || Older(b, c))
    ensures Older(a, c)
  {
    if b != c { OlderIsTransitive(a, b, c); }
  }

  ghost predicate HasKey(anns: seq<Annotation>, key: Key) {
    exists a :: a in anns && KeyOf(a) == key
  }

  ghost predicate Ahead(views: seq<View>, n: nat, key: Key)
    requires n <= |views|
  {
    Reaches(key, AnchorAt(views, n)) && (n > 0 ==> PageAt(views, n - 1).truncated)
  }

  lemma {:induction false} AheadOnePage(views: seq<View>, n: nat, key: Key)
    requires n < |views| && Descending(views[n].listing)
    requires Reaches(key, AnchorAt(views, n)) && HasKey(views[n].listing, key)
    ensures HasKey(PageAt(views, n).items, key) || Ahead(views, n + 1, key)
  {
    PageCovers(views[n].listing, AnchorAt(views, n), views[n].limit);
    var a :| a in views[n].listing && KeyOf(a) == key;
    if a in PageAt(views, n).items {
      assert HasKey(PageAt(views, n).items, key);
    }
  }

  ghost predicate HasId(anns: seq<Annotation>, id: string) {
    exists a :: a in anns && a.id == id
  }

  // --------------------------------------------------------- edits between the pages

  datatype Edit =
    | CreateEdit(content: Content, newId: string, now: int)
    | UpdateEdit(id: string, changes: Changes, now: int)
    | DeleteEdit(id: string)
    | ImportEdit(document: seq<Annotation>, overwrite: bool)

  /** A store and, for every id it ever held, the last creation time. */
  datatype Ledger = Ledger(store: Store, last: map<string, int>)

  predicate Allowed(l: Ledger, e: Edit) {
    e.CreateEdit? ==> e.newId !in l.last && ID_PREFIX <= e.newId
  }

  function Edited(s: Store, contextId: string, e: Edit): Store
    requires Covered(s)
  {
    match e
    case CreateEdit(content, newId, now) => Create(s, contextId, content, newId, now).0
    case UpdateEdit(id, changes, now) => Update(s, id, changes, now).0
    case DeleteEdit(id) => Delete(s, id).0
    case ImportEdit(document, overwrite) => Import(s, contextId, document, overwrite).0.store
  }

  function Apply(l: Ledger, contextId: string, e: Edit): Ledger
    requires Covered(l.store)
  {
    var store := Edited(l.store, contextId, e);
    Ledger(store, map k | k in l.last.Keys + store.byId.Keys ::
                    if k in store.byId then store.byId[k].createdAt else l.last[k])
  }

  ghost predicate Kept(l: Ledger, contextId: string) {
    Inv(l.store, contextId) && forall k :: k in l.store.byId ==> k in l.last && l.store.byId[k].createdAt == l.last[k]
  }

  lemma {:induction false} ApplyKeeps(l: Ledger, contextId: string, e: Edit)
    requires Kept(l, contextId) && Allowed(l, e)
    ensures Kept(Apply(l, contextId, e), contextId)
  {
    match e
    case CreateEdit(content, newId, now) => CreateKeeps(l.store, contextId, content, newId, now);
    case UpdateEdit(id, changes, now) => UpdateKeeps(l.store, contextId, id, changes, now);
    case DeleteEdit(id) => DeleteKeeps(l.store, contextId, id);
    case ImportEdit(document, overwrite) => ImportKeeps(l.store, contextId, document, overwrite);
  }

  /** The edit gives the id a creation time before its last one. */
  predicate Lowers(l: Ledger, contextId: string, e: Edit, id: string)
    requires Covered(l.store)
  {
    var after := Edited(l.store, contextId, e);
    id in l.last && id in after.byId && after.byId[id].createdAt < l.last[id]
  }

  /** One edit at a time, every store kept: edits[k] leads from history[k] to history[k + 1]. */
  ghost predicate IsHistory(history: seq<Ledger>, edits: seq<Edit>, contextId: string) {
    && |history| == |edits| + 1 && Kept(history[0], contextId)
    && forall k :: 0 <= k < |edits| ==>
         Covered(history[k].store) && Allowed(history[k], edits[k]) &&
         history[k + 1] == Apply(history[k], contextId, edits[k])
  }

  /** No edit of the history lowers a creation time; what decides this before the edit is
      OnlyImportsLower and ImportLowersExactly. */
  ghost predicate NeverLowers(history: seq<Ledger>, edits: seq<Edit>, contextId: string)
    requires IsHistory(history, edits, contextId)
  {
    forall k, id :: 0 <= k < |edits| ==> !Lowers(history[k], contextId, edits[k], id)
  }

  lemma {:induction false} HistoryKept(history: seq<Ledger>, edits: seq<Edit>, contextId: string, i: nat)
    requires IsHistory(history, edits, contextId) && i < |history|
    ensures Kept(history[i], contextId)
  {
    if i > 0 {
      HistoryKept(history, edits, contextId, i - 1);
      ApplyKeeps(history[i - 1], contextId, edits[i - 1]);
    }
  }

  lemma {:induction false} TimesRise(
    history: seq<Ledger>, edits: seq<Edit>, contextId: string, i: nat, j: nat, id: string)
    requires IsHistory(history, edits, contextId) && NeverLowers(history, edits, contextId)
    requires i <= j < |history| && id in history[i].last
    ensures id in history[j].last && history[i].last[id] <= history[j].last[id]
  {
    if i < j {
      TimesRise(history, edits, contextId, i, j - 1, id);
      assert !Lowers(history[j - 1], contextId, edits[j - 1], id);
    }
  }

  // -------------------------------------------------------- which edits lower a time

  lemma {:induction false} OnlyImportsLower(l: Ledger, contextId: string, e: Edit, id: string)
    requires Kept(l, contextId) && Allowed(l, e) && Lowers(l, contextId, e, id)
    ensures e.ImportEdit?
  {
  }

  /** An import lowers a time exactly when it is accepted and brings a lower one, for an id that
      it may write: any when it overwrites, otherwise one that is not in the store. */
  lemma {:induction false} ImportLowersExactly(
    l: Ledger, contextId: string, document: seq<Annotation>, overwrite: bool, id: string)
    requires Kept(l, contextId)
    ensures var brought := Brought(document, id, overwrite);
            Lowers(l, contextId, ImportEdit(document, overwrite), id)
            <==> Import(l.store, contextId, document, overwrite).1.None? && id in l.last && brought.Some? &&
                 (overwrite || id !in l.store.byId) && brought.value.createdAt < l.last[id]
  {
    if Import(l.store, contextId, document, overwrite).1.None? {
      AcceptedAs(l.store, contextId, document, overwrite, id);
    } else {
      ImportKeeps(l.store, contextId, document, overwrite);
    }
  }

  lemma {:induction false} AcceptedAs(
    s: Store, contextId: string, document: seq<Annotation>, overwrite: bool, id: string)
    requires Covered(s) && Import(s, contextId, document, overwrite).1.None?
    ensures ImportedAs(s, contextId, document, overwrite, id, Edited(s, contextId, ImportEdit(document, overwrite)))
  {
    AcceptedImport(s, contextId, document, overwrite);
    EachImported(s, contextId, document, overwrite, id);
  }

  // ------------------------------------------------------- walks over a store's history

  /** A page request: after how many edits it came, what it wanted, and its limit. */
  datatype Request = Request(at: nat, wanted: Annotation -> bool, limit: nat)

  ghost predicate Ascending(requests: seq<Request>, n: nat) {
    && (forall k :: 0 <= k < |requests| ==> requests[k].at < n)
    && forall i, j :: 0 <= i < j < |requests| ==> requests[i].at <= requests[j].at
  }

  ghost predicate ViewsOf(views: seq<View>, requests: seq<Request>, history: seq<Ledger>) {
    && |views| == |requests| && Ascending(requests, |history|)
    && forall k :: 0 <= k < |views| ==>
         Covered(history[requests[k].at].store) &&
         views[k] == View(Listing(history[requests[k].at].store, requests[k].wanted), requests[k].limit)
  }

  lemma {:induction false} ListedRecord(
    views: seq<View>, requests: seq<Request>, history: seq<Ledger>, edits: seq<Edit>, contextId: string, i: nat, a: Annotation)
    requires IsHistory(history, edits, contextId) && ViewsOf(views, requests, history)
    requires i < |views| && a in views[i].listing
    ensures var s := history[requests[i].at].store; WantedAt(s, requests[i].wanted, a.id) && s.byId[a.id] == a
  {
    HistoryKept(history, edits, contextId, requests[i].at);
    ListingIs(history[requests[i].at].store, contextId, requests[i].wanted);
  }

  /** Over any edits and any walk: a record that is returned twice has become older in between. */
  lemma {:induction false} RepeatIsOlder(
    views: seq<View>, requests: seq<Request>, history: seq<Ledger>, edits: seq<Edit>, contextId: string,
    i: nat, p: nat, j: nat, q: nat)
    requires IsHistory(history, edits, contextId) && ViewsOf(views, requests, history) && IsWalk(views)
    requires i <= j < |views| && p < |PageAt(views, i).items| && q < |PageAt(views, j).items|
    requires i == j ==> p < q
    requires PageAt(views, i).items[p].id == PageAt(views, j).items[q].id
    ensures var a, b := PageAt(views, i).items[p], PageAt(views, j).items[q];
            && i < j && b.createdAt < a.createdAt
            && a in views[i].listing && b in views[j].listing
  {
    var a, b := PageAt(views, i).items[p], PageAt(views, j).items[q];
    PageCovers(views[i].listing, AnchorAt(views, i), views[i].limit);
    PageCovers(views[j].listing, AnchorAt(views, j), views[j].limit);
    LessIsTotal(a.id, b.id);
    if i < j {
      LaterIsOlder(views, i, j, a, b);
    } else {
      ListedRecord(views, requests, history, edits, contextId, i, a);
      ListedRecord(views, requests, history, edits, contextId, j, b);
    }
  }

  /** Whatever is created, updated, deleted or imported between the pages, and however the target
      and with it the staleness of records changes: if no import lowers the creation time of an
      id, no id is returned twice. */
  lemma {:induction false} NoIdTwice(
    views: seq<View>, requests: seq<Request>, history: seq<Ledger>, edits: seq<Edit>, contextId: string,
    i: nat, p: nat, j: nat, q: nat)
    requires IsHistory(history, edits, contextId) && ViewsOf(views, requests, history) && IsWalk(views)
    requires NeverLowers(history, edits, contextId)
    requires i <= j < |views| && p < |PageAt(views, i).items| && q < |PageAt(views, j).items|
    requires i == j ==> p < q
    ensures PageAt(views, i).items[p].id != PageAt(views, j).items[q].id
  {
    var a, b := PageAt(views, i).items[p], PageAt(views, j).items[q];
    if a.id == b.id {
      RepeatIsOlder(views, requests, history, edits, contextId, i, p, j, q);
      ListedRecord(views, requests, history, edits, contextId, i, a);
      ListedRecord(views, requests, history, edits, contextId, j, b);
      HistoryKept(history, edits, contextId, requests[i].at);
      HistoryKept(history, edits, contextId, requests[j].at);
      TimesRise(history, edits, contextId, requests[i].at, requests[j].at, a.id);
    }
  }

  ghost predicate WantedAt(s: Store, wanted: Annotation -> bool, id: string) {
    id in s.byId && wanted(s.byId[id])
  }

  /** The record x is there and wanted at every request. */
  ghost predicate AlwaysWanted(requests: seq<Request>, history: seq<Ledger>, x: string) {
    && Ascending(requests, |history|)
    && forall k :: 0 <= k < |requests| ==> WantedAt(history[requests[k].at].store, requests[k].wanted, x)
  }

  ghost predicate Missed(views: seq<View>, x: string) {
    forall k :: 0 <= k < |views| ==> !HasId(PageAt(views, k).items, x)
  }

  /** A record that is wanted at every request and still missed by a finished walk was behind the
      last record of some page, and at the next request before it. */
  lemma {:induction false} MissedOnlyNewer(
    views: seq<View>, requests: seq<Request>, history: seq<Ledger>, edits: seq<Edit>, contextId: string, x: string)
    returns (k: nat)
    requires IsHistory(history, edits, contextId) && ViewsOf(views, requests, history) && Finished(views)
    requires AlwaysWanted(requests, history, x) && Missed(views, x)
    ensures k + 1 < |views| && PageAt(views, k).items != []
    ensures var s, t, y := history[requests[k].at].store, history[requests[k + 1].at].store, LastOf(views, k);
            && y.id in s.byId && s.byId[y.id] == y && x in s.byId && x in t.byId
            && Older(KeyOf(s.byId[x]), KeyOf(y)) && Older(KeyOf(y), KeyOf(t.byId[x]))
  {
    k := OvertakenAt(views, requests, history, edits, contextId, x);
    LastIsThere(views, requests, history, edits, contextId, k);
    Overtakes(views, requests, history, edits, contextId, k, x);
    HistoryKept(history, edits, contextId, requests[k].at);
  }

  lemma {:induction false} OvertakenAt(
    views: seq<View>, requests: seq<Request>, history: seq<Ledger>, edits: seq<Edit>, contextId: string, x: string)
    returns (k: nat)
    requires IsHistory(history, edits, contextId) && ViewsOf(views, requests, history) && Finished(views)
    requires AlwaysWanted(requests, history, x) && Missed(views, x)
    ensures k + 1 < |views| && Ahead(views, k + 1, KeyOf(Record(requests, history, k, x)))
    ensures !Reaches(KeyOf(Record(requests, history, k + 1, x)), AnchorAt(views, k + 1))
  {
    AllStay(views, requests, history, edits, contextId, x);
    k := FirstOvertaken(views, KeysOf(requests, history, x));
  }

  lemma {:induction false} AllStay(
    views: seq<View>, requests: seq<Request>, history: seq<Ledger>, edits: seq<Edit>, contextId: string, x: string)
    requires IsHistory(history, edits, contextId) && ViewsOf(views, requests, history) && IsWalk(views)
    requires AlwaysWanted(requests, history, x) && Missed(views, x)
    ensures forall n :: 0 <= n < |views| ==> Stays(views, KeysOf(requests, history, x), n)
  {
    forall n | 0 <= n < |views| ensures Stays(views, KeysOf(requests, history, x), n) {
      StaysAhead(views, requests, history, edits, contextId, n, x);
    }
  }

  ghost function KeysOf(requests: seq<Request>, history: seq<Ledger>, x: string): (keys: seq<Key>)
    requires AlwaysWanted(requests, history, x)
    ensures |keys| == |requests| && forall n :: 0 <= n < |keys| ==> keys[n] == KeyOf(Record(requests, history, n, x))
  {
    seq(|requests|, n requires 0 <= n < |requests| => KeyOf(Record(requests, history, n, x)))
  }

  ghost predicate Stays(views: seq<View>, keys: seq<Key>, n: nat)
    requires n < |views| == |keys|
  {
    Reaches(keys[n], AnchorAt(views, n)) ==> Ahead(views, n + 1, keys[n])
  }

  /** Keys that stay ahead until the page before a request, but not all the way, are overtaken. */
  lemma {:induction false} FirstOvertaken(views: seq<View>, keys: seq<Key>) returns (k: nat)
    requires views != [] && |keys| == |views| && !PageAt(views, |views| - 1).truncated
    requires forall n :: 0 <= n < |views| ==> Stays(views, keys, n)
    ensures k + 1 < |views| && Ahead(views, k + 1, keys[k]) && !Reaches(keys[k + 1], AnchorAt(views, k + 1))
  {
    k := 0;
    assert Stays(views, keys, 0);
    while k + 1 < |views| && Reaches(keys[k + 1], AnchorAt(views, k + 1))
      invariant k < |views| && Ahead(views, k + 1, keys[k])
    {
      k := k + 1;
      assert Stays(views, keys, k);
    }
  }

  /** The record as the k-th request finds it. */
  ghost function Record(requests: seq<Request>, history: seq<Ledger>, k: nat, x: string): Annotation
    requires AlwaysWanted(requests, history, x) && k < |requests|
  {
    history[requests[k].at].store.byId[x]
  }

  lemma {:induction false} StaysAhead(
    views: seq<View>, requests: seq<Request>, history: seq<Ledger>, edits: seq<Edit>, contextId: string, k: nat, x: string)
    requires IsHistory(history, edits, contextId) && ViewsOf(views, requests, history) && IsWalk(views)
    requires AlwaysWanted(requests, history, x) && Missed(views, x) && k < |views|
    ensures Stays(views, KeysOf(requests, history, x), k)
  {
    var key := KeyOf(Record(requests, history, k, x));
    ViewedAt(views, requests, history, edits, contextId, k, x);
    KeyIsId(PageAt(views, k).items, key);
    if Reaches(key, AnchorAt(views, k)) { AheadOnePage(views, k, key); }
  }

  lemma {:induction false} KeyIsId(anns: seq<Annotation>, key: Key)
    ensures HasKey(anns, key) ==> HasId(anns, key.id)
  {
    if a :| a in anns && KeyOf(a) == key {
      assert a.id == key.id;
    }
  }

  lemma {:induction false} LastIsThere(
    views: seq<View>, requests: seq<Request>, history: seq<Ledger>, edits: seq<Edit>, contextId: string, k: nat)
    requires IsHistory(history, edits, contextId) && ViewsOf(views, requests, history) && IsWalk(views)
    requires k < |views| && PageAt(views, k).truncated
    ensures PageAt(views, k).items != []
    ensures var s, y := history[requests[k].at].store, LastOf(views, k); y.id in s.byId && s.byId[y.id] == y
  {
    PageCovers(views[k].listing, AnchorAt(views, k), views[k].limit);
    assert LastOf(views, k) in PageAt(views, k).items;
    ListedRecord(views, requests, history, edits, contextId, k, LastOf(views, k));
  }

  lemma {:induction false} Overtakes(
    views: seq<View>, requests: seq<Request>, history: seq<Ledger>, edits: seq<Edit>, contextId: string, k: nat, x: string)
    requires IsHistory(history, edits, contextId) && ViewsOf(views, requests, history) && IsWalk(views)
    requires AlwaysWanted(requests, history, x) && Missed(views, x) && k + 1 < |views| && PageAt(views, k).items != []
    requires !Reaches(KeyOf(Record(requests, history, k + 1, x)), AnchorAt(views, k + 1))
    ensures Older(KeyOf(LastOf(views, k)), KeyOf(Record(requests, history, k + 1, x)))
  {
    var y, later := LastOf(views, k), Record(requests, history, k + 1, x);
    HistoryKept(history, edits, contextId, requests[k + 1].at);
    assert Sound(later, x, contextId);
    assert HasId(PageAt(views, k).items, y.id);
    OlderIsTotal(KeyOf(y), KeyOf(later));
  }

  /** So a record that is there and wanted at every request of a finished walk, and has not become
      newer from one request to the next, is returned. Other records may do as they like. */
  lemma {:induction false} NothingSkipped(
    views: seq<View>, requests: seq<Request>, history: seq<Ledger>, edits: seq<Edit>, contextId: string, x: string)
    requires IsHistory(history, edits, contextId) && ViewsOf(views, requests, history) && Finished(views)
    requires AlwaysWanted(requests, history, x)
    requires forall k :: 0 <= k < |views| - 1 ==>
               NotNewer(history[requests[k].at].store, history[requests[k + 1].at].store, x)
    ensures !Missed(views, x)
  {
    if Missed(views, x) {
      var k := MissedOnlyNewer(views, requests, history, edits, contextId, x);
      var s, t, y := history[requests[k].at].store, history[requests[k + 1].at].store, LastOf(views, k);
      HistoryKept(history, edits, contextId, requests[k].at);
      HistoryKept(history, edits, contextId, requests[k + 1].at);
      assert Sound(s.byId[x], x, contextId) && Sound(t.byId[x], x, contextId);
      assert NotNewer(s, t, x);
      LessIsTotal(x, x);
      OlderIsTransitive(KeyOf(s.byId[x]), KeyOf(y), KeyOf(t.byId[x]));
    }
  }

  predicate NotNewer(s: Store, t: Store, id: string) {
    id in s.byId && id in t.byId ==> t.byId[id].createdAt <= s.byId[id].createdAt
  }

  lemma {:induction false} ViewedAt(
    views: seq<View>, requests: seq<Request>, history: seq<Ledger>, edits: seq<Edit>, contextId: string, k: nat, x: string)
    requires IsHistory(history, edits, contextId) && ViewsOf(views, requests, history) && k < |views|
    requires AlwaysWanted(requests, history, x)
    ensures HasKey(views[k].listing, KeyOf(Record(requests, history, k, x)))
    ensures Record(requests, history, k, x).id == x
  {
    HistoryKept(history, edits, contextId, requests[k].at);
    ListedAt(history[requests[k].at].store, contextId, requests[k].wanted, x);
  }

  lemma {:induction false} ListedAt(s: Store, contextId: string, wanted: Annotation -> bool, x: string)
    requires Inv(s, contextId) && WantedAt(s, wanted, x)
    ensures s.byId[x] in Listing(s, wanted) && s.byId[x].id == x
    ensures HasKey(Listing(s, wanted), KeyOf(s.byId[x]))
  {
    ListingIs(s, contextId, wanted);
    assert Sound(s.byId[x], x, contextId);
    assert s.byId[x] in Listing(s, wanted);
  }

  // ------------------------------------------- where the promises end: times that change

  ghost predicate AllCovered(history: seq<Ledger>) {
    forall k :: 0 <= k < |history| ==> Covered(history[k].store)
  }

  /** What the requests see: each the listing of the store it comes upon. */
  ghost function ViewsFor(requests: seq<Request>, history: seq<Ledger>): (views: seq<View>)
    requires Ascending(requests, |history|) && AllCovered(history)
    ensures ViewsOf(views, requests, history)
  {
    seq(|requests|, k requires 0 <= k < |requests| =>
      View(Listing(history[requests[k].at].store, requests[k].wanted), requests[k].limit))
  }

  /** One record at a time up to the one at `shown`, and then pages of the given limit. */
  ghost function OneByOne(
    i: nat, wanted: Annotation -> bool, shown: nat, j: nat, later: Annotation -> bool, limit: nat, rest: nat): seq<Request>
  {
    seq(shown + 1, _ => Request(i, wanted, 1)) + seq(rest, _ => Request(j, later, limit))
  }

  /** Pages of one record each walk down the listing. */
  lemma {:induction false} SinglePage(views: seq<View>, listing: seq<Annotation>, k: nat)
    requires Descending(listing) && k < |views| && k < |listing|
    requires forall m :: 0 <= m <= k ==> views[m] == View(listing, 1)
    ensures PageAt(views, k).items == [listing[k]]
    ensures PageAt(views, k).truncated <==> k + 1 < |listing|
    ensures AnchorAt(views, k + 1) == Some(KeyOf(listing[k]))
  {
    if k > 0 {
      SinglePage(views, listing, k - 1);
      StartBehind(listing, k - 1);
    }
    assert Start(listing, AnchorAt(views, k), 0) == k;
    assert listing[k..][..1] == [listing[k]];
    assert k + 1 == |listing| ==> listing[k..] == [listing[k]];
  }

  /** How many pages n records have from an index on. */
  function PagesFrom(n: nat, start: nat, limit: nat): (pages: nat)
    ensures pages > 0
    decreases n - start
  {
    if start + Clamp(limit) < n then 1 + PagesFrom(n, start + Clamp(limit), limit) else 1
  }

  /** A full page moves the start on by the limit, any other page ends the walk. */
  ghost predicate StartMoves(views: seq<View>, k: nat, listing: seq<Annotation>, limit: nat)
    requires k < |views|
  {
    var start := Start(listing, AnchorAt(views, k), 0);
    && (PageAt(views, k).truncated <==> start + Clamp(limit) < |listing|)
    && (PageAt(views, k).truncated ==> Start(listing, AnchorAt(views, k + 1), 0) == start + Clamp(limit))
  }

  lemma {:induction false} NextStart(views: seq<View>, k: nat, listing: seq<Annotation>, limit: nat)
    requires Descending(listing) && k < |views| && views[k] == View(listing, limit)
    ensures StartMoves(views, k, listing, limit)
  {
    PageMoves(listing, AnchorAt(views, k), limit);
  }

  /** As many requests of one listing as there are pages left end the walk. */
  lemma {:induction false} SameListing(views: seq<View>, from: nat, listing: seq<Annotation>, limit: nat, k: nat)
    requires from <= k < |views|
    requires forall m :: from <= m < |views| ==> StartMoves(views, m, listing, limit)
    requires |views| == from + PagesFrom(|listing|, Start(listing, AnchorAt(views, from), 0), limit)
    ensures |views| == k + PagesFrom(|listing|, Start(listing, AnchorAt(views, k), 0), limit)
    ensures PageAt(views, k).truncated <==> k + 1 < |views|
  {
    if k > from {
      SameListing(views, from, listing, limit, k - 1);
      assert StartMoves(views, k - 1, listing, limit);
    }
    assert StartMoves(views, k, listing, limit);
  }

  /** One record on each page up to the one at `shown`, then to the end. */
  ghost predicate OneEach(views: seq<View>, first: seq<Annotation>, shown: nat) {
    shown < |first| && shown < |views| && forall k :: 0 <= k <= shown ==> PageAt(views, k).items == [first[k]]
  }

  lemma {:induction false} SwitchedWalk(
    views: seq<View>, first: seq<Annotation>, shown: nat, second: seq<Annotation>, limit: nat)
    requires Descending(first) && Descending(second) && shown + 1 < |first|
    requires |views| == shown + 1 + PagesFrom(|second|, StartAfter(second, KeyOf(first[shown])), limit)
    requires forall k :: 0 <= k <= shown ==> views[k] == View(first, 1)
    requires forall k :: shown < k < |views| ==> views[k] == View(second, limit)
    ensures OneEach(views, first, shown) && Finished(views)
  {
    forall k | 0 <= k <= shown ensures PageAt(views, k).items == [first[k]] && PageAt(views, k).truncated {
      SinglePage(views, first, k);
    }
    SinglePage(views, first, shown);
    forall k | shown < k < |views| ensures StartMoves(views, k, second, limit) {
      NextStart(views, k, second, limit);
    }
    forall k | shown < k < |views| ensures PageAt(views, k).truncated <==> k + 1 < |views| {
      SameListing(views, shown + 1, second, limit, k);
    }
  }

  lemma {:induction false} HistoryCovered(history: seq<Ledger>, edits: seq<Edit>, contextId: string)
    requires IsHistory(history, edits, contextId)
    ensures AllCovered(history)
  {
    forall k | 0 <= k < |history| ensures Covered(history[k].store) {
      HistoryKept(history, edits, contextId, k);
    }
  }

  lemma {:induction false} ViewsOneByOne(
    history: seq<Ledger>, i: nat, wanted: Annotation -> bool, shown: nat, j: nat, later: Annotation -> bool,
    limit: nat, rest: nat)
    requires AllCovered(history) && i < j < |history|
    ensures var requests := OneByOne(i, wanted, shown, j, later, limit, rest);
            && Ascending(requests, |history|)
            && var views := ViewsFor(requests, history);
               && |views| == shown + 1 + rest
               && (forall k :: 0 <= k <= shown ==> views[k] == View(Listing(history[i].store, wanted), 1))
               && forall k :: shown < k < |views| ==> views[k] == View(Listing(history[j].store, later), limit)
  {
  }

  /** A walk through the store at i until y is shown, and from there through the store at j. */
  lemma {:induction false} Switch(
    history: seq<Ledger>, edits: seq<Edit>, contextId: string,
    i: nat, wanted: Annotation -> bool, y: string, z: string, j: nat, later: Annotation -> bool, limit: nat)
    returns (shown: nat, rest: nat)
    requires IsHistory(history, edits, contextId) && i < j < |history|
    requires WantedAt(history[i].store, wanted, y) && WantedAt(history[i].store, wanted, z)
    requires Older(KeyOf(history[i].store.byId[z]), KeyOf(history[i].store.byId[y]))
    ensures AllCovered(history) && Ascending(OneByOne(i, wanted, shown, j, later, limit, rest), |history|)
    ensures var views := ViewsFor(OneByOne(i, wanted, shown, j, later, limit, rest), history);
            var first := Listing(history[i].store, wanted);
            OneEach(views, first, shown) && Finished(views) && rest > 0 && first[shown] == history[i].store.byId[y]
  {
    HistoryCovered(history, edits, contextId);
    var first, second := Listing(history[i].store, wanted), Listing(history[j].store, later);
    ListedPair(history, edits, contextId, i, wanted, y, z);
    ListedPart(history, edits, contextId, j, later);
    shown := PositionBefore(first, history[i].store.byId[y], history[i].store.byId[z]);
    rest := PagesFrom(|second|, StartAfter(second, KeyOf(first[shown])), limit);
    ViewsOneByOne(history, i, wanted, shown, j, later, limit, rest);
    SwitchedWalk(ViewsFor(OneByOne(i, wanted, shown, j, later, limit, rest), history), first, shown, second, limit);
  }

  lemma {:induction false} ListedPart(
    history: seq<Ledger>, edits: seq<Edit>, contextId: string, i: nat, wanted: Annotation -> bool)
    requires IsHistory(history, edits, contextId) && i < |history|
    ensures Covered(history[i].store) && Descending(Listing(history[i].store, wanted))
  {
    HistoryKept(history, edits, contextId, i);
    ListingIs(history[i].store, contextId, wanted);
  }

  lemma {:induction false} ListedPair(
    history: seq<Ledger>, edits: seq<Edit>, contextId: string, i: nat, wanted: Annotation -> bool, y: string, z: string)
    requires IsHistory(history, edits, contextId) && i < |history|
    requires WantedAt(history[i].store, wanted, y) && WantedAt(history[i].store, wanted, z)
    ensures Covered(history[i].store)
    ensures var s, l := history[i].store, Listing(history[i].store, wanted);
            Descending(l) && s.byId[y] in l && s.byId[z] in l && s.byId[y].id == y && s.byId[z].id == z
  {
    HistoryKept(history, edits, contextId, i);
    ListingIs(history[i].store, contextId, wanted);
    ListedAt(history[i].store, contextId, wanted, y);
    ListedAt(history[i].store, contextId, wanted, z);
  }

  lemma {:induction false} PositionBefore(listing: seq<Annotation>, a: Annotation, b: Annotation) returns (p: nat)
    requires Descending(listing) && a in listing && b in listing && Older(KeyOf(b), KeyOf(a))
    ensures p + 1 < |listing| && listing[p] == a
  {
    p :| 0 <= p < |listing| && listing[p] == a;
    var q :| 0 <= q < |listing| && listing[q] == b;
    OlderIsTotal(KeyOf(a), KeyOf(b));
    OlderIsTotal(KeyOf(a), KeyOf(a));
    assert p < q;
  }

  /** What all remaining requests list behind the anchor, a finished walk shows. */
  lemma {:induction false} ShownByTheEnd(views: seq<View>, from: nat, key: Key) returns (k: nat)
    requires Finished(views) && from < |views| && Reaches(key, AnchorAt(views, from))
    requires forall m :: from <= m < |views| ==> HasKey(views[m].listing, key)
    ensures from <= k < |views| && HasKey(PageAt(views, k).items, key)
    decreases |views| - from
  {
    AheadOnePage(views, from, key);
    if HasKey(PageAt(views, from).items, key) {
      k := from;
    } else {
      k := ShownByTheEnd(views, from + 1, key);
    }
  }

  /** The walk of the requests comes to an end and returns x on two of its pages. */
  ghost predicate ReturnsTwice(requests: seq<Request>, history: seq<Ledger>, x: string) {
    && AllCovered(history) && Ascending(requests, |history|) && Finished(ViewsFor(requests, history))
    && OnTwoPages(ViewsFor(requests, history), x)
  }

  ghost predicate OnTwoPages(views: seq<View>, x: string) {
    exists k, m :: 0 <= k < m < |views| && HasId(PageAt(views, k).items, x) && HasId(PageAt(views, m).items, x)
  }

  /** The walk of the requests comes to an end without x, which is there and wanted all the time. */
  ghost predicate Misses(requests: seq<Request>, history: seq<Ledger>, x: string) {
    && AllCovered(history) && AlwaysWanted(requests, history, x)
    && Finished(ViewsFor(requests, history)) && Missed(ViewsFor(requests, history), x)
  }

  /** Over any history, and whatever else is wanted: a record that is older later on, and was not
      the oldest at first, is returned twice by some finished walk. */
  lemma {:induction false} OlderAgain(
    history: seq<Ledger>, edits: seq<Edit>, contextId: string,
    i: nat, wanted: Annotation -> bool, j: nat, later: Annotation -> bool, limit: nat, x: string, y: string)
    returns (shown: nat, rest: nat)
    requires IsHistory(history, edits, contextId) && i < j < |history|
    requires WantedAt(history[i].store, wanted, x) && WantedAt(history[i].store, wanted, y)
    requires WantedAt(history[j].store, later, x)
    requires Older(KeyOf(history[i].store.byId[y]), KeyOf(history[i].store.byId[x]))
    requires history[j].store.byId[x].createdAt < history[i].store.byId[x].createdAt
    ensures ReturnsTwice(OneByOne(i, wanted, shown, j, later, limit, rest), history, x)
  {
    shown, rest := Switch(history, edits, contextId, i, wanted, x, y, j, later, limit);
    var views := ViewsFor(OneByOne(i, wanted, shown, j, later, limit, rest), history);
    ListedPair(history, edits, contextId, i, wanted, x, y);
    ListedPair(history, edits, contextId, j, later, x, x);
    ViewsOneByOne(history, i, wanted, shown, j, later, limit, rest);
    ShownAgain(views, Listing(history[i].store, wanted), shown, Listing(history[j].store, later),
               history[j].store.byId[x]);
  }

  lemma {:induction false} ShownAgain(
    views: seq<View>, first: seq<Annotation>, shown: nat, second: seq<Annotation>, after: Annotation)
    requires OneEach(views, first, shown) && Finished(views) && after in second
    requires forall k :: shown < k < |views| ==> views[k].listing == second
    requires after.id == first[shown].id && after.createdAt < first[shown].createdAt && shown + 1 < |views|
    ensures OnTwoPages(views, after.id)
  {
    assert HasKey(second, KeyOf(after));
    var m := ShownByTheEnd(views, shown + 1, KeyOf(after));
    KeyIsId(PageAt(views, m).items, KeyOf(after));
    OneHasId(first[shown], PageAt(views, shown).items);
  }

  lemma {:induction false} OneHasId(a: Annotation, anns: seq<Annotation>)
    requires a in anns
    ensures HasId(anns, a.id)
  {
  }

  /** The converse, so the condition is exact: an id that some walk returns twice was in the
      store and wanted both times, older the second time, and not the oldest wanted one the first
      time. */
  lemma {:induction false} AgainOnlyOlder(
    views: seq<View>, requests: seq<Request>, history: seq<Ledger>, edits: seq<Edit>, contextId: string,
    i: nat, p: nat, j: nat, q: nat)
    requires IsHistory(history, edits, contextId) && ViewsOf(views, requests, history) && IsWalk(views)
    requires i <= j < |views| && p < |PageAt(views, i).items| && q < |PageAt(views, j).items|
    requires i == j ==> p < q
    requires PageAt(views, i).items[p].id == PageAt(views, j).items[q].id
    ensures var s, t, x := history[requests[i].at].store, history[requests[j].at].store, PageAt(views, i).items[p].id;
            && requests[i].at < requests[j].at
            && WantedAt(s, requests[i].wanted, x) && WantedAt(t, requests[j].wanted, x)
            && t.byId[x].createdAt < s.byId[x].createdAt
            && exists y :: WantedAt(s, requests[i].wanted, y) && Older(KeyOf(s.byId[y]), KeyOf(s.byId[x]))
  {
    var a, b := PageAt(views, i).items[p], PageAt(views, j).items[q];
    RepeatIsOlder(views, requests, history, edits, contextId, i, p, j, q);
    ListedRecord(views, requests, history, edits, contextId, i, a);
    ListedRecord(views, requests, history, edits, contextId, j, b);
    assert PageAt(views, i).truncated;
    var y := Following(views[i].listing, AnchorAt(views, i), views[i].limit, a);
    ListedRecord(views, requests, history, edits, contextId, i, y);
    assert Older(KeyOf(history[requests[i].at].store.byId[y.id]), KeyOf(a));
  }

  /** Behind a page that says more follows there is an older record. */
  lemma {:induction false} Following(listing: seq<Annotation>, anchor: Option<Key>, limit: nat, a: Annotation)
      returns (y: Annotation)
    requires Descending(listing) && PageAfter(listing, anchor, limit).truncated
    requires a in PageAfter(listing, anchor, limit).items
    ensures y in listing && Older(KeyOf(y), KeyOf(a))
  {
    var page, start := PageAfter(listing, anchor, limit), Start(listing, anchor, 0);
    y := listing[start + |page.items|];
    var k :| 0 <= k < |page.items| && page.items[k] == a;
    assert listing[start + k] == a;
  }

  /** The import of one record as it is, but created at another time. */
  function Redated(l: Ledger, x: string, time: int): Edit
    requires x in l.store.byId
  {
    ImportEdit([l.store.byId[x].(createdAt := time)], true)
  }

  /** An input: in any store with two records, importing the newer one again with a lower creation
      time and overwrite on is accepted, and some finished walk then returns it twice, whatever
      else it wants. */
  lemma {:induction false} OverwriteAgain(
    l: Ledger, contextId: string, wanted: Annotation -> bool, limit: nat, x: string, y: string, time: int)
    returns (history: seq<Ledger>, shown: nat, rest: nat)
    requires Kept(l, contextId) && WantedAt(l.store, wanted, x) && WantedAt(l.store, wanted, y)
    requires wanted(l.store.byId[x].(createdAt := time))
    requires Older(KeyOf(l.store.byId[y]), KeyOf(l.store.byId[x])) && time < l.store.byId[x].createdAt
    ensures history == [l, Apply(l, contextId, Redated(l, x, time))]
    ensures IsHistory(history, [Redated(l, x, time)], contextId) && Lowers(l, contextId, Redated(l, x, time), x)
    ensures ReturnsTwice(OneByOne(0, wanted, shown, 1, wanted, limit, rest), history, x)
  {
    history := RedatedHistory(l, contextId, x, time);
    shown, rest := OlderAgain(history, [Redated(l, x, time)], contextId, 0, wanted, 1, wanted, limit, x, y);
  }

  lemma {:induction false} RedatedHistory(l: Ledger, contextId: string, x: string, time: int)
    returns (history: seq<Ledger>)
    requires Kept(l, contextId) && x in l.store.byId && time < l.store.byId[x].createdAt
    ensures history == [l, Apply(l, contextId, Redated(l, x, time))]
    ensures IsHistory(history, [Redated(l, x, time)], contextId) && Lowers(l, contextId, Redated(l, x, time), x)
    ensures x in history[1].store.byId && history[1].store.byId[x] == l.store.byId[x].(createdAt := time)
  {
    var again := l.store.byId[x].(createdAt := time);
    assert Sound(l.store.byId[x], x, contextId);
    OneAccepted(l.store, contextId, again);
    OneImported(l.store, contextId, again);
    OneEdit(l, contextId, Redated(l, x, time));
    history := [l, Apply(l, contextId, Redated(l, x, time))];
  }

  lemma {:induction false} OneEdit(l: Ledger, contextId: string, e: Edit)
    requires Kept(l, contextId) && Allowed(l, e)
    ensures IsHistory([l, Apply(l, contextId, e)], [e], contextId)
  {
  }

  lemma {:induction false} OneAccepted(s: Store, contextId: string, ann: Annotation)
    requires Inv(s, contextId) && ann.id in s.byId && ID_PREFIX <= ann.id && Validate(ann.content).Some?
    ensures Import(s, contextId, [ann], true).1.None?
  {
    assert FirstRejection([ann][1..]).None?;
    assert [ann][0].id == ann.id;
    assert IdsOf([ann]) == {ann.id};
    var existing := set id | id in s.ids;
    assert {ann.id} * existing == {ann.id};
  }

  lemma {:induction false} OneImported(s: Store, contextId: string, ann: Annotation)
    requires Covered(s) && Import(s, contextId, [ann], true).1.None?
    requires ann.id in s.byId && ann.contextId == contextId
    ensures Import(s, contextId, [ann], true).0.store.byId == s.byId[ann.id := ann]
  {
    AcceptedImport(s, contextId, [ann], true);
    assert [ann][..|[ann]| - 1] == [];
    assert ImportEach(s, contextId, [ann], true) == ImportOne(Imported(s, 0, []), contextId, ann, true);
  }

  /** The other end: a record that becomes newer than one already returned is missed by some
      finished walk, although it is there and wanted at every request. */
  lemma {:induction false} NewerMissed(
    history: seq<Ledger>, edits: seq<Edit>, contextId: string,
    i: nat, wanted: Annotation -> bool, j: nat, later: Annotation -> bool, limit: nat, x: string, y: string)
    returns (shown: nat, rest: nat)
    requires IsHistory(history, edits, contextId) && i < j < |history|
    requires WantedAt(history[i].store, wanted, x) && WantedAt(history[i].store, wanted, y)
    requires WantedAt(history[j].store, later, x)
    requires Older(KeyOf(history[i].store.byId[x]), KeyOf(history[i].store.byId[y]))
    requires Older(KeyOf(history[i].store.byId[y]), KeyOf(history[j].store.byId[x]))
    ensures Misses(OneByOne(i, wanted, shown, j, later, limit, rest), history, x)
  {
    shown, rest := Switch(history, edits, contextId, i, wanted, y, x, j, later, limit);
    var requests := OneByOne(i, wanted, shown, j, later, limit, rest);
    WantedThroughout(history, i, wanted, shown, j, later, limit, rest, x);
    BothSides(history, i, wanted, shown, j, later, limit, rest, x, history[i].store.byId[y]);
    OnNoPage(ViewsFor(requests, history), requests, history, edits, contextId, shown, history[i].store.byId[y], x);
  }

  lemma {:induction false} WantedThroughout(
    history: seq<Ledger>, i: nat, wanted: Annotation -> bool, shown: nat, j: nat, later: Annotation -> bool,
    limit: nat, rest: nat, x: string)
    requires i < j < |history| && WantedAt(history[i].store, wanted, x) && WantedAt(history[j].store, later, x)
    ensures AlwaysWanted(OneByOne(i, wanted, shown, j, later, limit, rest), history, x)
  {
  }

  /** The record x is older than y up to the request that shows y, and newer from then on. */
  ghost predicate OnTheOtherSide(requests: seq<Request>, history: seq<Ledger>, shown: nat, y: Annotation, k: nat, x: string)
    requires k < |requests| && requests[k].at < |history|
  {
    var byId := history[requests[k].at].store.byId;
    x in byId && if k <= shown then Older(KeyOf(byId[x]), KeyOf(y)) else Older(KeyOf(y), KeyOf(byId[x]))
  }

  lemma {:induction false} BothSides(
    history: seq<Ledger>, i: nat, wanted: Annotation -> bool, shown: nat, j: nat, later: Annotation -> bool,
    limit: nat, rest: nat, x: string, y: Annotation)
    requires i < j < |history| && x in history[i].store.byId && x in history[j].store.byId
    requires Older(KeyOf(history[i].store.byId[x]), KeyOf(y)) && Older(KeyOf(y), KeyOf(history[j].store.byId[x]))
    ensures var requests := OneByOne(i, wanted, shown, j, later, limit, rest);
            forall k :: 0 <= k < |requests| ==> requests[k].at < |history| && OnTheOtherSide(requests, history, shown, y, k, x)
  {
  }

  lemma {:induction false} OnNoPage(
    views: seq<View>, requests: seq<Request>, history: seq<Ledger>, edits: seq<Edit>, contextId: string,
    shown: nat, y: Annotation, x: string)
    requires IsHistory(history, edits, contextId) && ViewsOf(views, requests, history) && IsWalk(views)
    requires shown < |views| && PageAt(views, shown).items == [y]
    requires forall k :: 0 <= k < |requests| ==> OnTheOtherSide(requests, history, shown, y, k, x)
    ensures Missed(views, x)
  {
    forall k, b | 0 <= k < |views| && b in PageAt(views, k).items ensures b.id != x {
      OnPage(views, requests, history, edits, contextId, k, b);
      Sides(views, shown, y, k, b);
      assert OnTheOtherSide(requests, history, shown, y, k, x);
    }
  }

  lemma {:induction false} OnPage(
    views: seq<View>, requests: seq<Request>, history: seq<Ledger>, edits: seq<Edit>, contextId: string, k: nat, b: Annotation)
    requires IsHistory(history, edits, contextId) && ViewsOf(views, requests, history) && IsWalk(views)
    requires k < |views| && b in PageAt(views, k).items
    ensures var s := history[requests[k].at].store; WantedAt(s, requests[k].wanted, b.id) && s.byId[b.id] == b
  {
    PageCovers(views[k].listing, AnchorAt(views, k), views[k].limit);
    ListedRecord(views, requests, history, edits, contextId, k, b);
  }

  /** On the pages before the one that holds y alone everything is newer, behind it older. */
  lemma {:induction false} Sides(views: seq<View>, shown: nat, y: Annotation, k: nat, b: Annotation)
    requires IsWalk(views) && shown < |views| && k < |views|
    requires PageAt(views, shown).items == [y] && b in PageAt(views, k).items
    ensures if k <= shown then !Older(KeyOf(b), KeyOf(y)) else !Older(KeyOf(y), KeyOf(b))
  {
    OlderIsTotal(KeyOf(b), KeyOf(y));
    if k < shown {
      LaterIsOlder(views, k, shown, b, y);
    } else if k > shown {
      LaterIsOlder(views, shown, k, y, b);
    }
  }

  // --------------------------------------------- all pages of a fixed store are its listing

  function Flatten(pages: seq<Page>): seq<Annotation> {
    if pages == [] then [] else pages[0].items + Flatten(pages[1..])
  }

  /** Following the cursors of an unchanging store ends, and the pages joined are the sorted
      listing, each record once. */
  lemma {:induction false} WalkIsListing(listing: seq<Annotation>, anchor: Option<Key>, limit: nat)
    requires Descending(listing)
    ensures Flatten(Walk(listing, anchor, limit)) == listing[Start(listing, anchor, 0)..]
    decreases |listing| - Start(listing, anchor, 0)
  {
    var page, start := PageAfter(listing, anchor, limit), Start(listing, anchor, 0);
    PageMoves(listing, anchor, limit);
    if page.truncated {
      var rest := Walk(listing, NextAnchor(page), limit);
      WalkIsListing(listing, NextAnchor(page), limit);
      FlattenMore(page, rest, listing, start, start + |page.items|);
    } else {
      FlattenLast(page, listing, start);
    }
  }

  lemma {:induction false} FlattenMore(page: Page, rest: seq<Page>, listing: seq<Annotation>, start: nat, next: nat)
    requires start <= next <= |listing|
    requires page.items == listing[start..next] && Flatten(rest) == listing[next..]
    ensures Flatten([page] + rest) == listing[start..]
  {
    assert ([page] + rest)[1..] == rest;
  }

  lemma {:induction false} FlattenLast(page: Page, listing: seq<Annotation>, start: nat)
    requires start <= |listing| && page.items == listing[start..|listing|]
    ensures Flatten([page]) == listing[start..]
  {
    assert Flatten([page]) == page.items + [];
  }

  lemma {:induction false} WalkFromTheStart(s: Store, contextId: string, wanted: Annotation -> bool, limit: nat)
    requires Inv(s, contextId)
    ensures Descending(Listing(s, wanted)) && Flatten(Walk(Listing(s, wanted), None, limit)) == Listing(s, wanted)
    ensures |Walk(Listing(s, wanted), None, limit)| <= |Listing(s, wanted)| + 1
  {
    ListingIs(s, contextId, wanted);
    WalkIsListing(Listing(s, wanted), None, limit);
    WalkLength(Listing(s, wanted), None, limit);
  }

  lemma {:induction false} WalkLength(listing: seq<Annotation>, anchor: Option<Key>, limit: nat)
    requires Descending(listing)
    ensures |Walk(listing, anchor, limit)| <= |listing| - Start(listing, anchor, 0) + 1
    decreases |listing| - Start(listing, anchor, 0)
  {
    PageMoves(listing, anchor, limit);
    if PageAfter(listing, anchor, limit).truncated {
      WalkLength(listing, NextAnchor(PageAfter(listing, anchor, limit)), limit);
    }
  }
}
