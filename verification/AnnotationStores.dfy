/** The annotation store as an object, tied to the functions of Annotations and KeysetWalk. */
module AnnotationStores {
  import opened Basics
  import opened Annotations
  import KeysetWalk

  class AnnotationStore {
    const contextId: string
    var byId: map<string, Annotation>
    var ids: seq<string>

    ghost function View(): Store
      reads this
    {
      Store(byId, ids)
    }

    ghost predicate Valid()
      reads this
    {
      Inv(View(), contextId)
    }

    constructor (owner: string)
      ensures contextId == owner && Valid() && View() == EMPTY
    {
      contextId, byId, ids := owner, map[], [];
    }

    method Create(content: Content, newId: string, now: int) returns (failure: Option<Failure>)
      requires Valid() && newId !in byId && ID_PREFIX <= newId
      modifies this
      ensures Valid()
      ensures (View(), failure) == Annotations.Create(old(View()), contextId, content, newId, now)
    {
      CreateKeeps(View(), contextId, content, newId, now);
      var valid := Validate(content);
      if valid.None? {
        return Some(InvalidField);
      }
      if |ids| >= MAX_PER_CONTEXT {
        return Some(LimitExceeded);
      }
      byId := byId[newId := Annotation(newId, contextId, now, now, valid.value)];
      ids := ids + [newId];
      return None;
    }

    method Update(id: string, changes: Changes, now: int) returns (failure: Option<Failure>)
      requires Valid()
      modifies this
      ensures Valid()
      ensures (View(), failure) == Annotations.Update(old(View()), id, changes, now)
    {
      UpdateKeeps(View(), contextId, id, changes, now);
      failure := UpdateRecord(id, changes, now);
    }

    method UpdateRecord(id: string, changes: Changes, now: int) returns (failure: Option<Failure>)
      requires Covered(View())
      modifies this
      ensures (View(), failure) == Annotations.Update(old(View()), id, changes, now)
    {
      if id !in byId {
        return Some(NotFound);
      }
      var current := byId[id];
      var content := MergeAndValidate(current.content, changes);
      if content.None? {
        return Some(InvalidField);
      }
      var time := now;
      if now <= current.updatedAt {
        time := current.updatedAt + 1;
      }
      var updated := current.(content := content.value, updatedAt := time);
      assert updated == Touched(current, content.value, now);
      byId, ids := byId[id := updated], SortNewest(ids, byId[id := updated]);
      assert View() == Annotations.Update(old(View()), id, changes, now).0;
      return None;
    }

    method Delete(id: string) returns (failure: Option<Failure>)
      requires Valid()
      modifies this
      ensures Valid()
      ensures (View(), failure) == Annotations.Delete(old(View()), id)
    {
      DeleteKeeps(View(), contextId, id);
      if id !in byId {
        return Some(NotFound);
      }
      byId := byId - {id};
      ids := RemoveId(ids, id);
      return None;
    }

    static method RemoveId(ids: seq<string>, id: string) returns (rest: seq<string>)
      ensures rest == Without(ids, id)
    {
      var index := 0;
      while index < |ids| && ids[index] != id
        invariant 0 <= index <= |ids|
        invariant Without(ids, id) == ids[..index] + Without(ids[index..], id)
      {
        assert ids[index..][1..] == ids[index + 1..];
        index := index + 1;
      }
      if index == |ids| {
        return ids;
      }
      assert ids[index..][1..] == ids[index + 1..];
      rest := ids[..index] + ids[index + 1..];
    }

    method Export() returns (out: seq<Annotation>)
      requires Valid()
      ensures out == Annotations.Export(View())
    {
      out := [];
      var k := 0;
      while k < |ids|
        invariant 0 <= k <= |ids|
        invariant out == Annotations.Export(View())[..k]
      {
        out := out + [byId[ids[k]]];
        k := k + 1;
      }
    }

    method ImportDocument(document: seq<Annotation>, overwrite: bool)
        returns (count: nat, conflicts: seq<string>, failure: Option<Failure>)
      requires Valid()
      modifies this
      ensures Valid()
      ensures (Imported(View(), count, conflicts), failure) == Import(old(View()), contextId, document, overwrite)
    {
      ImportKeeps(View(), contextId, document, overwrite);
      count, conflicts, failure := ImportChecked(document, overwrite);
    }

    /** The document is checked as a whole before anything is written. */
    method ImportChecked(document: seq<Annotation>, overwrite: bool)
        returns (count: nat, conflicts: seq<string>, failure: Option<Failure>)
      requires Covered(View())
      modifies this
      ensures (Imported(View(), count, conflicts), failure) == Import(old(View()), contextId, document, overwrite)
    {
      failure := CheckDocument(document);
      if failure.Some? {
        return 0, [], failure;
      }
      var existing := set id | id in ids;
      var added := IdsOf(document);
      if |ids| + |added| - |added * existing| > MAX_PER_CONTEXT {
        return 0, [], Some(LimitExceeded);
      }
      count, conflicts := ImportEntries(document, overwrite);
      ids := SortNewest(ids, byId);
      failure := None;
    }

    static method CheckDocument(document: seq<Annotation>) returns (failure: Option<Failure>)
      ensures failure == FirstRejection(document)
    {
      var k := 0;
      while k < |document|
        invariant 0 <= k <= |document|
        invariant FirstRejection(document) == FirstRejection(document[k..])
      {
        if !(ID_PREFIX <= document[k].id) {
          return Some(InvalidId);
        }
        if Validate(document[k].content).None? {
          return Some(InvalidField);
        }
        assert document[k..][1..] == document[k + 1..];
        k := k + 1;
      }
      failure := None;
    }

    method ImportEntries(document: seq<Annotation>, overwrite: bool) returns (count: nat, conflicts: seq<string>)
      requires Covered(View())
      modifies this
      ensures Imported(View(), count, conflicts) == ImportEach(old(View()), contextId, document, overwrite)
      ensures Covered(View())
    {
      ghost var before := View();
      count, conflicts := 0, [];
      var k := 0;
      while k < |document|
        invariant 0 <= k <= |document|
        invariant Imported(View(), count, conflicts) == ImportEach(before, contextId, document[..k], overwrite)
      {
        var ann := document[k];
        ImportEachMore(before, contextId, document[..k], ann, overwrite);
        assert document[..k + 1] == document[..k] + [ann];
        var rewritten := ann.(contextId := contextId);
        if ann.id in byId {
          if overwrite {
            byId := byId[ann.id := rewritten];
            count := count + 1;
          } else {
            conflicts := conflicts + [ann.id];
          }
        } else {
          byId := byId[ann.id := rewritten];
          ids := ids + [ann.id];
          count := count + 1;
        }
        k := k + 1;
      }
      assert document[..k] == document;
      ImportEachCovered(before, contextId, document, overwrite);
    }

    /** One page. fits is the filter, kept the staleness policy; what fits but is set aside by
        the policy is counted, so nothing that fits goes unmentioned. */
    method List(
      fits: Annotation -> bool, kept: Annotation -> bool, anchor: Option<KeysetWalk.Key>, offset: nat, limit: nat)
        returns (page: KeysetWalk.Page, staleExcluded: nat)
      requires Valid()
      ensures page == KeysetWalk.PageOf(KeysetWalk.Listing(View(), a => fits(a) && kept(a)), anchor, offset, limit)
      ensures page.total + staleExcluded == |KeysetWalk.Matched(View(), ids, fits)|
    {
      var matched;
      matched, staleExcluded := Match(fits, kept);
      KeysetWalk.ListingIs(View(), contextId, a => fits(a) && kept(a));
      var sorted := KeysetWalk.SortByKey(matched);
      var start := FindStart(sorted, anchor, offset);
      var rest, clamped := sorted[start..], KeysetWalk.Clamp(limit);
      if |rest| > clamped {
        page := KeysetWalk.Page(rest[..clamped], |sorted|, true);
      } else {
        page := KeysetWalk.Page(rest, |sorted|, false);
      }
    }

    method Match(
      fits: Annotation -> bool, kept: Annotation -> bool) returns (matched: seq<Annotation>, staleExcluded: nat)
      requires Covered(View())
      ensures matched == KeysetWalk.Matched(View(), ids, a => fits(a) && kept(a))
      ensures |matched| + staleExcluded == |KeysetWalk.Matched(View(), ids, fits)|
    {
      matched, staleExcluded := [], 0;
      ghost var wanted := a => fits(a) && kept(a);
      var k := 0;
      while k < |ids|
        invariant 0 <= k <= |ids|
        invariant matched == KeysetWalk.Matched(View(), ids[..k], wanted)
        invariant |matched| + staleExcluded == |KeysetWalk.Matched(View(), ids[..k], fits)|
      {
        var ann := byId[ids[k]];
        KeysetWalk.MatchedNext(View(), ids, k, fits);
        KeysetWalk.MatchedNext(View(), ids, k, wanted);
        if fits(ann) {
          if kept(ann) {
            matched := matched + [ann];
          } else {
            staleExcluded := staleExcluded + 1;
          }
        }
        k := k + 1;
      }
      assert ids[..k] == ids;
    }

    static method FindStart(sorted: seq<Annotation>, anchor: Option<KeysetWalk.Key>, offset: nat) returns (start: nat)
      ensures start == KeysetWalk.Start(sorted, anchor, offset)
    {
      if anchor.None? {
        return if offset >= |sorted| then |sorted| else offset;
      }
      start := 0;
      while start < |sorted| && !KeysetWalk.Older(KeysetWalk.KeyOf(sorted[start]), anchor.value)
        invariant 0 <= start <= |sorted|
        invariant KeysetWalk.StartAfter(sorted, anchor.value) == start + KeysetWalk.StartAfter(sorted[start..], anchor.value)
      {
        assert sorted[start..][1..] == sorted[start + 1..];
        start := start + 1;
      }
    }
  }
}
