/** The cursor tokens of annotation pages, and how a request next to a cursor is judged. */
module AnnotationCursors {
  import opened Basics
  import opened Numerals
  import opened Annotations
  import opened KeysetWalk

  const SEPARATOR: char := 31 as char

  // -------------------------------------------------------------------------- tokens

  /** The query is an opaque field: text without separators. */
  datatype Cursor = Cursor(createdAt: int, id: string, query: string)

  function Join(fields: seq<string>): string {
    if fields == [] then "" else if |fields| == 1 then fields[0]
    else fields[0] + [SEPARATOR] + Join(fields[1..])
  }

  function Split(s: string): (parts: seq<string>)
    ensures parts != []
  {
    if s == "" then [""]
    else
      var rest := Split(s[1..]);
      if s[0] == SEPARATOR then [""] + rest else [[s[0]] + rest[0]] + rest[1..]
  }

  /** UnixNano overflows silently outside 1678 to 2262. */
  function Encode(c: Cursor): string {
    Join([FormatInt(Wrap64(c.createdAt)), c.id, c.query])
  }

  function Parse(token: string): Option<Cursor> {
    var parts := Split(token);
    if |parts| != 3 then None
    else
      var nanos := ParseInt64(parts[0]);
      if nanos.None? || parts[1] == "" then None else Some(Cursor(nanos.value, parts[1], parts[2]))
  }

  lemma {:induction false} SplitPlain(s: string)
    requires SEPARATOR !in s
    ensures Split(s) == [s]
  {
    if s != "" {
      assert forall c :: c in s[1..] ==> c in s;
      SplitPlain(s[1..]);
      assert [s[0]] + s[1..] == s;
    }
  }

  lemma {:induction false} SplitField(field: string, rest: string)
    requires SEPARATOR !in field
    ensures Split(field + [SEPARATOR] + rest) == [field] + Split(rest)
  {
    var s := field + [SEPARATOR] + rest;
    if field == "" {
      assert s[1..] == rest;
    } else {
      assert forall c :: c in field[1..] ==> c in field;
      SplitField(field[1..], rest);
      assert s[1..] == field[1..] + [SEPARATOR] + rest;
      assert [s[0]] + field[1..] == field;
    }
  }

  function Separators(s: string): nat {
    if s == "" then 0 else (if s[0] == SEPARATOR then 1 else 0) + Separators(s[1..])
  }

  lemma {:induction false} SplitCounts(s: string)
    ensures |Split(s)| == Separators(s) + 1
  {
    if s != "" { SplitCounts(s[1..]); }
  }

  lemma {:induction false} SeparatorsAdd(a: string, b: string)
    ensures Separators(a + b) == Separators(a) + Separators(b)
  {
    if a == "" {
      assert a + b == b;
    } else {
      SeparatorsAdd(a[1..], b);
      assert (a + b)[1..] == a[1..] + b;
    }
  }

  lemma {:induction false} SeparatorsNone(s: string)
    ensures Separators(s) == 0 <==> SEPARATOR !in s
  {
    if s != "" {
      SeparatorsNone(s[1..]);
      assert s == [s[0]] + s[1..];
    }
  }

  lemma {:induction false} PlainNumber(n: int)
    ensures SEPARATOR !in FormatInt(n)
  {
    var size := if n < 0 then -n else n;
    DecimalRoundTrip(size);
    forall i | 0 <= i < |FormatInt(n)| ensures FormatInt(n)[i] != SEPARATOR {
      assert n < 0 && i > 0 ==> IsDigit(Decimal(size)[i - 1]);
      assert n >= 0 ==> IsDigit(Decimal(size)[i]);
    }
  }

  /** A token gives its cursor back exactly when its time fits 64 bits and its id is not empty
      and free of the separator. Import checks neither the times nor the tail of an id. */
  lemma {:induction false} TokenRoundTrip(c: Cursor)
    requires SEPARATOR !in c.query
    ensures Parse(Encode(c)) == Some(c) <==> IsInt64(c.createdAt) && c.id != "" && SEPARATOR !in c.id
  {
    var number := FormatInt(Wrap64(c.createdAt));
    PlainNumber(Wrap64(c.createdAt));
    WrapIs(c.createdAt);
    FormatParse(Wrap64(c.createdAt));
    EncodeFields(c, number);
    SplitField(number, c.id + [SEPARATOR] + c.query);
    if SEPARATOR !in c.id {
      SplitField(c.id, c.query);
      SplitPlain(c.query);
    } else {
      SeparatedId(c);
    }
  }

  lemma {:induction false} EncodeFields(c: Cursor, number: string)
    requires number == FormatInt(Wrap64(c.createdAt))
    ensures Encode(c) == number + [SEPARATOR] + (c.id + [SEPARATOR] + c.query)
  {
    assert [number, c.id, c.query][1..] == [c.id, c.query] && [c.id, c.query][1..] == [c.query];
    assert Join([c.query]) == c.query;
    assert Join([c.id, c.query]) == c.id + [SEPARATOR] + c.query;
  }

  lemma {:induction false} SeparatedId(c: Cursor)
    requires SEPARATOR in c.id
    ensures |Split(c.id + [SEPARATOR] + c.query)| > 2
  {
    var tail := [SEPARATOR] + c.query;
    SplitCounts(c.id + tail);
    SeparatorsAdd(c.id, tail);
    SeparatorsNone(c.id);
    assert c.id + tail == c.id + [SEPARATOR] + c.query;
    assert tail[1..] == c.query;
  }

  // --------------------------------------------------------- walking by tokens alone

  /** The page a client gets for the token of an anchor. */
  function PageByToken(listing: seq<Annotation>, anchor: Key, query: string, limit: nat): Option<Page> {
    var cursor := Parse(Encode(Cursor(anchor.createdAt, anchor.id, query)));
    if cursor.None? then None
    else Some(PageAfter(listing, Some(Key(cursor.value.createdAt, cursor.value.id)), limit))
  }

  /** With times in range and plain ids, tokens page exactly like anchors. */
  lemma {:induction false} TokensPageAlike(listing: seq<Annotation>, anchor: Key, query: string, limit: nat)
    requires SEPARATOR !in query && IsInt64(anchor.createdAt) && anchor.id != "" && SEPARATOR !in anchor.id
    ensures PageByToken(listing, anchor, query, limit) == Some(PageAfter(listing, Some(anchor), limit))
  {
    TokenRoundTrip(Cursor(anchor.createdAt, anchor.id, query));
  }

  ghost predicate PagesAlike(listing: seq<Annotation>, anchor: Key, query: string, limit: nat) {
    PageByToken(listing, anchor, query, limit) == Some(PageAfter(listing, Some(anchor), limit))
  }

  predicate Anything(ann: Annotation) { true }

  /** A store of one record. */
  function OnlyOne(ann: Annotation): (s: Store)
    ensures Covered(s)
  {
    Store(map[ann.id := ann], [ann.id])
  }

  lemma {:induction false} OneListed(ann: Annotation, contextId: string)
    requires Sound(ann, ann.id, contextId)
    ensures Inv(OnlyOne(ann), contextId) && Listing(OnlyOne(ann), Anything) == [ann]
  {
    var s := OnlyOne(ann);
    assert s.ids[..0] == [];
    assert Matched(s, [], Anything) == [];
    assert Matched(s, s.ids, Anything) == [] + [ann];
    assert [ann][..0] == [] && [] + [ann] == [ann];
    assert SortByKey([]) == [];
  }

  /** And only then: for the position of any other record there is a store that pages differently. */
  lemma {:induction false} TokensExactly(ann: Annotation, contextId: string, query: string, limit: nat)
    requires Sound(ann, ann.id, contextId) && SEPARATOR !in query
    ensures (forall s :: Inv(s, contextId) ==> PagesAlike(Listing(s, Anything), KeyOf(ann), query, limit))
            <==> IsInt64(ann.createdAt) && SEPARATOR !in ann.id
  {
    if IsInt64(ann.createdAt) && SEPARATOR !in ann.id {
      TokenRoundTrip(Cursor(ann.createdAt, ann.id, query));
    } else {
      var s := Differing(ann, contextId, query, limit);
      assert Inv(s, contextId) && !PagesAlike(Listing(s, Anything), KeyOf(ann), query, limit);
    }
  }

  /** The store holds the record itself, or one like it at the wrapped time. */
  lemma {:induction false} Differing(ann: Annotation, contextId: string, query: string, limit: nat) returns (s: Store)
    requires Sound(ann, ann.id, contextId) && SEPARATOR !in query
    requires !(IsInt64(ann.createdAt) && SEPARATOR !in ann.id)
    ensures Inv(s, contextId) && !PagesAlike(Listing(s, Anything), KeyOf(ann), query, limit)
  {
    if SEPARATOR in ann.id {
      TokenRefused(Cursor(ann.createdAt, ann.id, query));
      s := OnlyOne(ann);
      OneListed(ann, contextId);
    } else {
      var wrapped := Wrap64(ann.createdAt);
      var held := if wrapped < ann.createdAt then ann.(createdAt := wrapped) else ann;
      s := OnlyOne(held);
      OneListed(held, contextId);
      WrapIs(ann.createdAt);
      WrappedDiffers(held, ann.createdAt, wrapped, query, limit);
    }
  }

  lemma {:induction false} WrappedDiffers(held: Annotation, time: int, wrapped: int, query: string, limit: nat)
    requires SEPARATOR !in query && held.id != "" && SEPARATOR !in held.id
    requires wrapped == Wrap64(time) && wrapped != time && held.createdAt == if wrapped < time then wrapped else time
    ensures !PagesAlike([held], Key(time, held.id), query, limit)
  {
    LessIsTotal(held.id, held.id);
    WrappedToken(time, held.id, query);
    OnlyRecord([held], Key(time, held.id), limit);
    OnlyRecord([held], Key(wrapped, held.id), limit);
  }

  lemma {:induction false} OnlyRecord(listing: seq<Annotation>, anchor: Key, limit: nat)
    requires |listing| == 1
    ensures PageAfter(listing, Some(anchor), limit).items == if Older(KeyOf(listing[0]), anchor) then listing else []
  {
    assert StartAfter(listing[1..], anchor) == 0;
    assert listing[0..] == listing && listing[1..] == [];
  }

  lemma {:induction false} TokenRefused(c: Cursor)
    requires SEPARATOR !in c.query && (c.id == "" || SEPARATOR in c.id)
    ensures Parse(Encode(c)).None?
  {
    var number := FormatInt(Wrap64(c.createdAt));
    PlainNumber(Wrap64(c.createdAt));
    EncodeFields(c, number);
    SplitField(number, c.id + [SEPARATOR] + c.query);
    if SEPARATOR in c.id {
      SeparatedId(c);
    } else {
      SplitField(c.id, c.query);
    }
  }

  /** The zero time, which an imported record without created_at has: 1 January of year one. */
  const ZERO_TIME: int := -62_135_596_800_000_000_000

  /** More follows the first page of the store, and its token gives the first page again. */
  ghost predicate FirstPageAgain(s: Store, query: string, limit: nat) {
    Covered(s) &&
    var first := PageAfter(Listing(s, Anything), None, limit);
    first.truncated && PageByToken(Listing(s, Anything), NextAnchor(first).value, query, limit) == Some(first)
  }

  /** An input: importing more records without a creation time than fit on a page. It is accepted,
      and a walk over them never ends: every token leads back to the first page. */
  lemma {:induction false} ZeroTimesRepeat(document: seq<Annotation>, contextId: string, query: string, limit: nat)
    requires Import(EMPTY, contextId, document, false).1.None? && |IdsOf(document)| > Clamp(limit)
    requires forall d :: d in document ==> d.createdAt == ZERO_TIME && SEPARATOR !in d.id
    requires SEPARATOR !in query
    ensures var s := Import(EMPTY, contextId, document, false).0.store;
            Inv(s, contextId) && s.byId.Keys == IdsOf(document) && FirstPageAgain(s, query, limit)
  {
    ImportedAll(document, contextId);
    ZeroImported(document, contextId);
    ZeroStoreRepeats(Import(EMPTY, contextId, document, false).0.store, contextId, query, limit);
  }

  lemma {:induction false} ImportedAll(document: seq<Annotation>, contextId: string)
    requires Import(EMPTY, contextId, document, false).1.None?
    ensures var s := Import(EMPTY, contextId, document, false).0.store;
            Inv(s, contextId) && s.byId.Keys == IdsOf(document) && |s.ids| == |IdsOf(document)|
  {
    assert Inv(EMPTY, contextId);
    ImportKeeps(EMPTY, contextId, document, false);
    IdCount(Import(EMPTY, contextId, document, false).0.store, contextId);
  }

  lemma {:induction false} IdCount(s: Store, contextId: string)
    requires Inv(s, contextId)
    ensures |s.ids| == |s.byId.Keys|
  {
    DistinctSize(s.ids);
    assert (set id | id in s.ids) == s.byId.Keys;
  }

  ghost predicate ZeroTimes(s: Store) {
    forall k :: k in s.byId ==> s.byId[k].createdAt == ZERO_TIME && SEPARATOR !in k
  }

  lemma {:induction false} ZeroStoreRepeats(s: Store, contextId: string, query: string, limit: nat)
    requires Inv(s, contextId) && ZeroTimes(s) && |s.ids| > Clamp(limit) && SEPARATOR !in query
    ensures FirstPageAgain(s, query, limit)
  {
    ListingIs(s, contextId, Anything);
    MatchedAll(s, s.ids);
    forall a | a in Listing(s, Anything) ensures a.createdAt == ZERO_TIME && a.id != "" && SEPARATOR !in a.id {
      assert Sound(a, a.id, contextId);
    }
    ZeroListingRepeats(Listing(s, Anything), query, limit);
  }

  lemma {:induction false} MatchedAll(s: Store, ids: seq<string>)
    requires forall k :: k in ids ==> k in s.byId
    ensures |Matched(s, ids, Anything)| == |ids|
  {
    if ids != [] { MatchedAll(s, ids[..|ids| - 1]); }
  }

  lemma {:induction false} ZeroImported(document: seq<Annotation>, contextId: string)
    requires Import(EMPTY, contextId, document, false).1.None?
    requires forall d :: d in document ==> d.createdAt == ZERO_TIME && SEPARATOR !in d.id
    ensures ZeroTimes(Import(EMPTY, contextId, document, false).0.store)
  {
    var each := ImportEach(EMPTY, contextId, document, false).store;
    forall id | id in each.byId ensures each.byId[id].createdAt == ZERO_TIME && SEPARATOR !in id {
      EachImported(EMPTY, contextId, document, false, id);
      BroughtFrom(document, id, false);
    }
    AcceptedImport(EMPTY, contextId, document, false);
    SameRecords(each, Import(EMPTY, contextId, document, false).0.store);
  }

  lemma {:induction false} SameRecords(s: Store, t: Store)
    requires ZeroTimes(s) && t.byId == s.byId
    ensures ZeroTimes(t)
  {
  }

  lemma {:induction false} ZeroListingRepeats(listing: seq<Annotation>, query: string, limit: nat)
    requires SEPARATOR !in query
    requires forall a :: a in listing ==> a.createdAt == ZERO_TIME && a.id != "" && SEPARATOR !in a.id
    requires PageAfter(listing, None, limit).truncated
    ensures var first := PageAfter(listing, None, limit);
            PageByToken(listing, NextAnchor(first).value, query, limit) == Some(first)
  {
    var first := PageAfter(listing, None, limit);
    var last := first.items[|first.items| - 1];
    assert last in listing && listing[0] in listing;
    ZeroTimeWraps();
    WrappedToken(ZERO_TIME, last.id, query);
    assert Older(KeyOf(listing[0]), Key(Wrap64(ZERO_TIME), last.id));
  }

  /** Year one becomes 1754, which is later. */
  lemma {:induction false} ZeroTimeWraps()
    ensures Wrap64(ZERO_TIME) == -6_795_364_578_871_345_152
  {
  }

  lemma {:induction false} WrappedToken(createdAt: int, id: string, query: string)
    requires SEPARATOR !in query && id != "" && SEPARATOR !in id
    ensures Parse(Encode(Cursor(createdAt, id, query))) == Some(Cursor(Wrap64(createdAt), id, query))
  {
    WrapIs(createdAt);
    WrapIs(Wrap64(createdAt));
    TokenRoundTrip(Cursor(Wrap64(createdAt), id, query));
  }

  // ------------------------------------------------------- arguments next to a cursor

  datatype Arguments = Arguments(
    filter: string, tags: seq<string>, category: string, kind: string, addressSpace: string,
    staleOnly: Option<bool>, includeStale: Option<bool>)

  datatype Query = Query(
    filter: string, tags: seq<string>, category: string, kind: string, addressSpace: string,
    staleOnly: bool, includeStale: bool)

  datatype Conflict = FilterConflict | TagsConflict | CategoryConflict | KindConflict | SpaceConflict
                    | StaleOnlyConflict | IncludeStaleConflict

  /** The query of a first page: the filter and the tags are taken as they come. */
  function QueryOf(args: Arguments): Query {
    Query(args.filter, args.tags, Trim(args.category), Trim(args.kind), Trim(args.addressSpace),
          Or(args.staleOnly, false), Or(args.includeStale, false))
  }

  predicate Contradicts(provided: string, carried: string) {
    Trim(provided) != "" && Trim(provided) != carried
  }

  function Reconcile(args: Arguments, query: Query): Option<Conflict> {
    if Contradicts(args.filter, query.filter) then Some(FilterConflict)
    else if |args.tags| > 0 && multiset(args.tags) != multiset(query.tags) then Some(TagsConflict)
    else if Contradicts(args.category, query.category) then Some(CategoryConflict)
    else if Contradicts(args.kind, query.kind) then Some(KindConflict)
    else if Contradicts(args.addressSpace, query.addressSpace) then Some(SpaceConflict)
    else if args.staleOnly.Some? && args.staleOnly.value != query.staleOnly then Some(StaleOnlyConflict)
    else if args.includeStale.Some? && args.includeStale.value != query.includeStale then Some(IncludeStaleConflict)
    else None
  }

  /** Counts one list up and the other down. Lists of one length agree exactly as multisets:
      the order does not matter, but repetitions do. */
  method SameTagSet(left: seq<string>, right: seq<string>) returns (same: bool)
    ensures same == (multiset(left) == multiset(right))
  {
    if |left| != |right| {
      assert |multiset(left)| == |left| && |multiset(right)| == |right|;
      return false;
    }
    var seen := Count(left);
    ghost var counted, taken := seen, multiset{};
    var k := 0;
    while k < |right|
      invariant 0 <= k <= |right| && taken == multiset(right[..k])
      invariant forall t :: CountIn(seen, t) == CountIn(counted, t) - taken[t]
      invariant forall t :: t in taken ==> taken[t] <= CountIn(counted, t)
    {
      var tag := right[k];
      var left_ := (if tag in seen then seen[tag] else 0) - 1;
      OneTaken(right, k);
      seen, taken := seen[tag := left_], taken + multiset{tag};
      if left_ < 0 {
        Overdrawn(left, right, k + 1, tag);
        return false;
      }
      k := k + 1;
    }
    assert right[..k] == right;
    AllTaken(left, right);
    same := true;
  }

  lemma {:induction false} OneTaken(tags: seq<string>, k: nat)
    requires k < |tags|
    ensures multiset(tags[..k + 1]) == multiset(tags[..k]) + multiset{tags[k]}
  {
    assert tags[..k + 1] == tags[..k] + [tags[k]];
  }

  ghost function CountIn(seen: map<string, int>, tag: string): int {
    if tag in seen then seen[tag] else 0
  }

  method Count(tags: seq<string>) returns (seen: map<string, int>)
    ensures forall t :: CountIn(seen, t) == multiset(tags)[t]
  {
    seen := map[];
    var k := 0;
    while k < |tags|
      invariant 0 <= k <= |tags|
      invariant forall t :: CountIn(seen, t) == multiset(tags[..k])[t]
    {
      assert tags[..k + 1] == tags[..k] + [tags[k]];
      seen := seen[tags[k] := (if tags[k] in seen then seen[tags[k]] else 0) + 1];
      k := k + 1;
    }
    assert tags[..k] == tags;
  }

  lemma {:induction false} Overdrawn(left: seq<string>, right: seq<string>, n: nat, tag: string)
    requires n <= |right| && multiset(right[..n])[tag] > multiset(left)[tag]
    ensures multiset(left) != multiset(right)
  {
    assert right == right[..n] + right[n..];
  }

  lemma {:induction false} AllTaken(left: seq<string>, right: seq<string>)
    requires |left| == |right|
    requires forall t :: t in multiset(right) ==> multiset(right)[t] <= multiset(left)[t]
    ensures multiset(left) == multiset(right)
  {
    SubsetOfSameSize(multiset(right), multiset(left));
  }

  lemma {:induction false} SubsetOfSameSize(a: multiset<string>, b: multiset<string>)
    requires a <= b && |a| == |b|
    ensures a == b
  {
    assert b == a + (b - a);
    assert |b - a| == 0;
  }

  method ReconcileQuery(args: Arguments, query: Query) returns (conflict: Option<Conflict>)
    ensures conflict == Reconcile(args, query)
  {
    if Contradicts(args.filter, query.filter) {
      return Some(FilterConflict);
    }
    if |args.tags| > 0 {
      var same := SameTagSet(args.tags, query.tags);
      if !same {
        return Some(TagsConflict);
      }
    }
    if Contradicts(args.category, query.category) {
      return Some(CategoryConflict);
    }
    if Contradicts(args.kind, query.kind) {
      return Some(KindConflict);
    }
    if Contradicts(args.addressSpace, query.addressSpace) {
      return Some(SpaceConflict);
    }
    if args.staleOnly.Some? && args.staleOnly.value != query.staleOnly {
      return Some(StaleOnlyConflict);
    }
    if args.includeStale.Some? && args.includeStale.value != query.includeStale {
      return Some(IncludeStaleConflict);
    }
    return None;
  }

  /** What a request says next to a cursor agrees with the query of the cursor: a blank text, an empty list
      and a flag left out say nothing. */
  predicate Says(provided: string, carried: string) {
    Trim(provided) == "" || Trim(provided) == carried
  }

  predicate Agrees(args: Arguments, query: Query, about: Conflict) {
    match about
    case FilterConflict => Says(args.filter, query.filter)
    case TagsConflict => args.tags == [] || multiset(args.tags) == multiset(query.tags)
    case CategoryConflict => Says(args.category, query.category)
    case KindConflict => Says(args.kind, query.kind)
    case SpaceConflict => Says(args.addressSpace, query.addressSpace)
    case StaleOnlyConflict => args.staleOnly != Some(!query.staleOnly)
    case IncludeStaleConflict => args.includeStale != Some(!query.includeStale)
  }

  /** A request next to a cursor is refused exactly when it disagrees with the query in something, and
      the refusal names something in which it does. */
  lemma {:induction false} RefusedExactly(args: Arguments, query: Query)
    ensures var conflict := Reconcile(args, query);
            && (conflict.None? <==> forall about :: Agrees(args, query, about))
            && (conflict.Some? ==> !Agrees(args, query, conflict.value))
  {
    SaysFlag(args.staleOnly, query.staleOnly);
    SaysFlag(args.includeStale, query.includeStale);
    if Reconcile(args, query).None? {
      forall about ensures Agrees(args, query, about) {
        match about
        case FilterConflict =>
        case TagsConflict =>
        case CategoryConflict =>
        case KindConflict =>
        case SpaceConflict =>
        case StaleOnlyConflict =>
        case IncludeStaleConflict =>
      }
    } else {
      assert !Agrees(args, query, Reconcile(args, query).value);
    }
  }

  lemma {:induction false} SaysFlag(given: Option<bool>, carried: bool)
    ensures given != Some(!carried) <==> given.None? || given.value == carried
  {
    if given.Some? { assert given == Some(given.value); }
  }

  /** Sending the original arguments again next to the cursor is documented as allowed. It is
      accepted exactly when the filter text is blank or has no blanks around it. */
  lemma {:induction false} ResendingAccepted(args: Arguments)
    ensures Reconcile(args, QueryOf(args)).None? <==> Trim(args.filter) == "" || Trim(args.filter) == args.filter
  {
    TrimFixed(args.category);
    TrimFixed(args.kind);
    TrimFixed(args.addressSpace);
  }

  /** The cursor alone always stands for its query. */
  lemma {:induction false} CursorAloneAccepted(query: Query)
    ensures Reconcile(Arguments("", [], "", "", "", None, None), query).None?
  {
    assert Trim("") == "";
  }

  /** Lists with the same tags select the same annotations. With a cursor one is accepted for the
      other exactly when it also repeats each tag as often. */
  lemma {:induction false} SameTagsAccepted(args: Arguments, tags: seq<string>)
    requires tags != [] && (set t | t in tags) == (set t | t in args.tags)
    requires Trim(args.filter) == "" || Trim(args.filter) == args.filter
    ensures Reconcile(args.(tags := tags), QueryOf(args)).None? <==> multiset(tags) == multiset(args.tags)
  {
    TrimFixed(args.category);
    TrimFixed(args.kind);
    TrimFixed(args.addressSpace);
  }

  /** Repeating a tag does not change what a filter selects, yet it counts as another filter. */
  lemma {:induction false} RepeatedTagRefused(args: Arguments, tag: string)
    requires args.tags == [tag]
    ensures Reconcile(args.(tags := [tag, tag]), QueryOf(args)).Some?
  {
    assert multiset([tag, tag])[tag] == 2 && multiset([tag])[tag] == 1;
  }
}
