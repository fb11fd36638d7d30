/**
 * SearchableMixin (app/models.py): the write side, which mirrors a
 * transaction's changes into the index around each commit, and the read
 * side, which turns the index's ranked ids back into stored rows.
 */
module Searchable {
  import opened Wrappers
  import opened Models
  import opened SearchIndex

  /** `session._changes`: the session's pending objects at `before_commit`. */
  datatype ChangeSet = ChangeSet(add: seq<Entity>, update: seq<Entity>, delete: seq<Entity>)

  // ---------------------------------------------------------------------
  // Write side: what `after_commit` does to the index
  // ---------------------------------------------------------------------

  function Lookup(docs: map<int, Fields>, k: int): Option<Fields> {
    if k in docs then Some(docs[k]) else None
  }

  /** The index after `add_to_index` for each searchable object of es, in order. */
  function Upserts(docs: map<int, Fields>, es: seq<Entity>): map<int, Fields>
    decreases |es|
  {
    if es == [] then docs
    else
      var before := Upserts(docs, es[..|es| - 1]);
      var e := es[|es| - 1];
      if IsSearchable(e) then before[e.post.id := Document(e.post)] else before
  }

  /** The index after `remove_from_index` for each searchable object of es, in order. */
  function Removals(docs: map<int, Fields>, es: seq<Entity>): map<int, Fields>
    decreases |es|
  {
    if es == [] then docs
    else
      var before := Removals(docs, es[..|es| - 1]);
      var e := es[|es| - 1];
      if IsSearchable(e) then before - {e.post.id} else before
  }

  /** The index after the three loops of `after_commit`: adds, then updates, then deletes. */
  function Synced(docs: map<int, Fields>, cs: ChangeSet): map<int, Fields> {
    Removals(Upserts(Upserts(docs, cs.add), cs.update), cs.delete)
  }

  /** The last searchable snapshot of row k in es, if any. */
  function LastWrite(es: seq<Entity>, k: int): Option<Post>
    decreases |es|
  {
    if es == [] then None
    else
      var e := es[|es| - 1];
      if IsSearchable(e) && e.post.id == k then Some(e.post) else LastWrite(es[..|es| - 1], k)
  }

  /** The ids of the searchable objects in es. */
  function DeletedIds(es: seq<Entity>): set<int> {
    set e | e in es && IsSearchable(e) :: e.post.id
  }

  lemma {:induction false} UpsertsAt(docs: map<int, Fields>, es: seq<Entity>, k: int)
    ensures Lookup(Upserts(docs, es), k) ==
              match LastWrite(es, k)
              case Some(p) => Some(Document(p))
              case None => Lookup(docs, k)
    decreases |es|
  {
    if es != [] {
      UpsertsAt(docs, es[..|es| - 1], k);
    }
  }

  lemma {:induction false} RemovalsAt(docs: map<int, Fields>, es: seq<Entity>, k: int)
    ensures Lookup(Removals(docs, es), k) == if k in DeletedIds(es) then None else Lookup(docs, k)
    decreases |es|
  {
    if es != [] {
      var init, e := es[..|es| - 1], es[|es| - 1];
      RemovalsAt(docs, init, k);
      assert es == init + [e];
      assert DeletedIds(es) == DeletedIds(init) + (if IsSearchable(e) then {e.post.id} else {});
    }
  }

  lemma {:induction false} LastWriteConcat(a: seq<Entity>, b: seq<Entity>, k: int)
    ensures LastWrite(a + b, k) == if LastWrite(b, k).Some? then LastWrite(b, k) else LastWrite(a, k)
    decreases |b|
  {
    if b == [] {
      assert a + b == a;
    } else {
      assert (a + b)[..|a + b| - 1] == a + b[..|b| - 1];
      LastWriteConcat(a, b[..|b| - 1], k);
    }
  }

  /**
   * What `after_commit` leaves for row k: absent when a searchable object
   * with that id was deleted, else the document of the last searchable
   * snapshot of k in the add and update lists, else as it was. Objects
   * that are not searchable play no part.
   */
  lemma SyncedAt(docs: map<int, Fields>, cs: ChangeSet, k: int)
    ensures Lookup(Synced(docs, cs), k) ==
              if k in DeletedIds(cs.delete) then None
              else match LastWrite(cs.add + cs.update, k)
                   case Some(p) => Some(Document(p))
                   case None => Lookup(docs, k)
  {
    var afterAdd := Upserts(docs, cs.add);
    RemovalsAt(Upserts(afterAdd, cs.update), cs.delete, k);
    UpsertsAt(afterAdd, cs.update, k);
    UpsertsAt(docs, cs.add, k);
    LastWriteConcat(cs.add, cs.update, k);
  }

  lemma {:induction false} LastWriteOf(es: seq<Entity>, p: Post)
    requires PostEntity(p) in es
    requires forall e :: e in es && IsSearchable(e) && e.post.id == p.id ==> e.post == p
    ensures LastWrite(es, p.id) == Some(p)
    decreases |es|
  {
    var init, e := es[..|es| - 1], es[|es| - 1];
    assert es == init + [e];
    if !(IsSearchable(e) && e.post.id == p.id) {
      assert PostEntity(p) in init;
      LastWriteOf(init, p);
    }
  }

  /**
   * Every searchable object in the add or update list ends up in the
   * index with its current fields, unless the same row was also deleted.
   * All snapshots of one row agree, as the session's identity map ensures.
   */
  lemma AddedOrUpdatedIsIndexed(docs: map<int, Fields>, cs: ChangeSet, p: Post)
    requires PostEntity(p) in cs.add + cs.update
    requires p.id !in DeletedIds(cs.delete)
    requires forall e :: e in cs.add + cs.update && IsSearchable(e) && e.post.id == p.id ==> e.post == p
    ensures p.id in Synced(docs, cs) && Synced(docs, cs)[p.id] == Document(p)
  {
    SyncedAt(docs, cs, p.id);
    LastWriteOf(cs.add + cs.update, p);
  }

  /** Every searchable object in the delete list is absent from the index. */
  lemma DeletedIsUnindexed(docs: map<int, Fields>, cs: ChangeSet, p: Post)
    requires PostEntity(p) in cs.delete
    ensures p.id !in Synced(docs, cs)
  {
    SyncedAt(docs, cs, p.id);
    assert p.id in DeletedIds(cs.delete);
  }

  lemma {:induction false} NoSearchableNoWrite(es: seq<Entity>, k: int)
    requires forall e :: e in es && IsSearchable(e) ==> e.post.id != k
    ensures LastWrite(es, k) == None
    decreases |es|
  {
    if es != [] {
      assert es[|es| - 1] in es;
      assert forall e :: e in es[..|es| - 1] ==> e in es;
      NoSearchableNoWrite(es[..|es| - 1], k);
    }
  }

  /**
   * Only searchable objects reach the index: a row that no post of the
   * change set names keeps its document, however many other objects
   * (users, messages, notifications, tasks) with that id were committed.
   */
  lemma NonSearchableLeaveRow(docs: map<int, Fields>, cs: ChangeSet, k: int)
    requires forall e :: e in cs.add + cs.update + cs.delete && IsSearchable(e) ==> e.post.id != k
    ensures Lookup(Synced(docs, cs), k) == Lookup(docs, k)
  {
    SyncedAt(docs, cs, k);
    assert forall e :: e in cs.add + cs.update ==> e in cs.add + cs.update + cs.delete;
    NoSearchableNoWrite(cs.add + cs.update, k);
    assert forall e :: e in cs.delete ==> e in cs.add + cs.update + cs.delete;
  }

  /** A change set holding no searchable object leaves the index as it was. */
  lemma NonSearchableLeaveIndex(docs: map<int, Fields>, cs: ChangeSet)
    requires forall e :: e in cs.add + cs.update + cs.delete ==> !IsSearchable(e)
    ensures Synced(docs, cs) == docs
  {
    forall k ensures Lookup(Synced(docs, cs), k) == Lookup(docs, k) {
      NonSearchableLeaveRow(docs, cs, k);
    }
    LookupExtensional(Synced(docs, cs), docs);
  }

  /** Replaying a change set is harmless: documents are replaced, never appended. */
  lemma SyncIdempotent(docs: map<int, Fields>, cs: ChangeSet)
    ensures Synced(Synced(docs, cs), cs) == Synced(docs, cs)
  {
    var once := Synced(docs, cs);
    forall k ensures Lookup(Synced(once, cs), k) == Lookup(once, k) {
      SyncedAt(once, cs, k);
      SyncedAt(docs, cs, k);
    }
    LookupExtensional(Synced(once, cs), once);
  }

  lemma LookupExtensional(a: map<int, Fields>, b: map<int, Fields>)
    requires forall k :: Lookup(a, k) == Lookup(b, k)
    ensures a == b
  {
    forall k ensures k in a <==> k in b {
      assert Lookup(a, k) == Lookup(b, k);
    }
    assert a.Keys == b.Keys;
    forall k | k in a ensures a[k] == b[k] {
      assert Lookup(a, k) == Lookup(b, k);
    }
  }

  // ---------------------------------------------------------------------
  // The session and its commit hooks
  // ---------------------------------------------------------------------

  /**
   * The database session as the hooks see it: its pending new, dirty and
   * deleted objects, and the `_changes` attribute the hooks set and clear.
   */
  class Session {
    var pendingNew: seq<Entity>
    var pendingDirty: seq<Entity>
    var pendingDeleted: seq<Entity>
    var changes: Option<ChangeSet>

    constructor (pendingNew: seq<Entity>, pendingDirty: seq<Entity>, pendingDeleted: seq<Entity>)
      ensures this.pendingNew == pendingNew && this.pendingDirty == pendingDirty
      ensures this.pendingDeleted == pendingDeleted && changes == None
    {
      this.pendingNew := pendingNew;
      this.pendingDirty := pendingDirty;
      this.pendingDeleted := pendingDeleted;
      changes := None;
    }

    /** `before_commit`: snapshot the pending objects into `_changes`. */
    method BeforeCommit()
      modifies this`changes
      ensures changes == Some(ChangeSet(pendingNew, pendingDirty, pendingDeleted))
    {
      changes := Some(ChangeSet(pendingNew, pendingDirty, pendingDeleted));
    }

    /** `after_commit`: push the snapshot to the index, then drop it. */
    method AfterCommit(index: Index)
      requires index.collection == PostTable
      requires changes.Some?
      modifies this`changes, index
      ensures index.docs == Synced(old(index.docs), old(changes.value))
      ensures changes == None
    {
      var cs := changes.value;
      ghost var start := index.docs;
      for i := 0 to |cs.add|
        invariant index.docs == Upserts(start, cs.add[..i])
      {
        var obj := cs.add[i];
        assert cs.add[..i + 1][..i] == cs.add[..i];
        if IsSearchable(obj) {
          index.Add(obj.post.id, Document(obj.post));
        }
      }
      assert cs.add[..|cs.add|] == cs.add;
      ghost var added := index.docs;
      for i := 0 to |cs.update|
        invariant index.docs == Upserts(added, cs.update[..i])
      {
        var obj := cs.update[i];
        assert cs.update[..i + 1][..i] == cs.update[..i];
        if IsSearchable(obj) {
          index.Add(obj.post.id, Document(obj.post));
        }
      }
      assert cs.update[..|cs.update|] == cs.update;
      ghost var updated := index.docs;
      for i := 0 to |cs.delete|
        invariant index.docs == Removals(updated, cs.delete[..i])
      {
        var obj := cs.delete[i];
        assert cs.delete[..i + 1][..i] == cs.delete[..i];
        if IsSearchable(obj) {
          index.Remove(obj.post.id);
        }
      }
      assert cs.delete[..|cs.delete|] == cs.delete;
      changes := None;
    }

    /**
     * One unit of work with the hooks called explicitly around the
     * storage commit. When the commit fails `after_commit` does not run:
     * the index is untouched and `_changes` keeps the snapshot until the
     * next `before_commit` overwrites it.
     */
    method CommitCycle(index: Index, commitSucceeds: bool) returns (committed: bool)
      requires index.collection == PostTable
      modifies this, index
      ensures committed == commitSucceeds
      ensures committed ==> index.docs == Synced(old(index.docs), ChangeSet(old(pendingNew), old(pendingDirty), old(pendingDeleted)))
      ensures committed ==> changes == None && pendingNew == [] && pendingDirty == [] && pendingDeleted == []
      ensures !committed ==> index.docs == old(index.docs)
      ensures !committed ==> changes == Some(ChangeSet(old(pendingNew), old(pendingDirty), old(pendingDeleted)))
      ensures !committed ==> pendingNew == old(pendingNew) && pendingDirty == old(pendingDirty) && pendingDeleted == old(pendingDeleted)
    {
      BeforeCommit();
      if !commitSucceeds {
        return false;
      }
      pendingNew, pendingDirty, pendingDeleted := [], [], [];
      AfterCommit(index);
      committed := true;
    }
  }

  /** `reindex`: re-add every row of the table; documents of other ids stay. */
  method Reindex(table: seq<Post>, index: Index)
    requires index.collection == PostTable
    requires UniqueIds(table)
    modifies index
    ensures forall p :: p in table ==> p.id in index.docs && index.docs[p.id] == Document(p)
    ensures forall k :: (forall p :: p in table ==> p.id != k) ==> Lookup(index.docs, k) == Lookup(old(index.docs), k)
  {
    for i := 0 to |table|
      invariant forall j :: 0 <= j < i ==> table[j].id in index.docs && index.docs[table[j].id] == Document(table[j])
      invariant forall k :: (forall j :: 0 <= j < i ==> table[j].id != k) ==> Lookup(index.docs, k) == Lookup(old(index.docs), k)
    {
      index.Add(table[i].id, Document(table[i]));
    }
  }

  /** `_delete_this_index_`: drop the whole collection. */
  method DeleteThisIndex(index: Index)
    requires index.collection == PostTable
    modifies index
    ensures index.docs == map[]
  {
    index.DeleteCollection();
  }

  // ---------------------------------------------------------------------
  // Read side: reconciling the index's ranking with the stored rows
  // ---------------------------------------------------------------------

  /** The position of the first occurrence of k in ids: the CASE value of row k. */
  function FirstPos(ids: seq<int>, k: int): (i: nat)
    requires k in ids
    ensures i < |ids| && ids[i] == k && k !in ids[..i]
  {
    if ids[0] == k then 0
    else
      var j := FirstPos(ids[1..], k);
      assert ids[..j + 1] == [ids[0]] + ids[1..][..j];
      j + 1
  }

  /** rows come from ids and follow the order of their ids' first occurrences. */
  ghost predicate RankedBy(ids: seq<int>, rows: seq<Post>) {
    && (forall a :: 0 <= a < |rows| ==> rows[a].id in ids)
    && forall a, b :: 0 <= a < b < |rows| ==> FirstPos(ids, rows[a].id) < FirstPos(ids, rows[b].id)
  }

  /**
   * The page `search` returns for a non-zero total: exactly the stored
   * rows whose id the index returned, in the index's relevance order.
   * Ids with no stored row are simply missing.
   */
  ghost predicate IsRankedPage(table: seq<Post>, ids: seq<int>, rows: seq<Post>) {
    && (forall r :: r in rows <==> r in table && r.id in ids)
    && RankedBy(ids, rows)
  }

  /**
   * `search`, given the (ids, total) that `query_index` answered. A zero
   * total short-cuts to `filter_by(id=0)`, which is empty because ids are
   * positive. Otherwise the rows pass the `id IN ids` filter and are
   * ordered by the CASE key built in `when`: the key of a row is the
   * position of the first matching WHEN, so emitting the matching row for
   * each WHEN in key order, skipping ids already seen, sorts by that key.
   *
   * With a non-zero total but no ids (a page past the last one) `when` is
   * empty and the ordering is a CASE without any WHEN, which SQL does not
   * accept: the query cannot be evaluated, and rows is None.
   */
  method Search(table: seq<Post>, ids: seq<int>, total: int) returns (rows: Option<seq<Post>>, reported: int)
    requires UniqueIds(table)
    ensures rows.None? <==> ids == [] && total != 0
    ensures total == 0 ==> reported == 0 && rows.Some? && forall r :: r in rows.value <==> r in table && r.id == 0
    ensures total == 0 && (forall r :: r in table ==> r.id > 0) ==> rows == Some([])
    ensures total != 0 ==> reported == total
    ensures total != 0 && rows.Some? ==> IsRankedPage(table, ids, rows.value)
  {
    if total == 0 {
      var zero := Where(table, (p: Post) => p.id == 0);
      if zero != [] {
        assert zero[0] in zero;
      }
      return Some(zero), 0;
    }
    var when: seq<(int, nat)> := [];
    for i := 0 to |ids|
      invariant |when| == i
      invariant forall k :: 0 <= k < i ==> when[k] == (ids[k], k)
    {
      when := when + [(ids[i], i)];
    }
    if when == [] {
      return None, total;
    }
    var matched := Where(table, (p: Post) => p.id in ids);
    var page: seq<Post> := [];
    for j := 0 to |when|
      invariant forall r :: r in page <==> r in matched && r.id in ids[..j]
      invariant RankedBy(ids, page)
      invariant forall a :: 0 <= a < |page| ==> FirstPos(ids, page[a].id) < j
    {
      var (id, key) := when[j];
      assert key == j;
      assert ids[..j + 1] == ids[..j] + [id];
      if id !in ids[..j] {
        FirstPosAt(ids, j);
        match Find(matched, id)
        case Some(p) =>
          OnlyRowWithId(matched, p);
          RankedByAppend(ids, page, p);
          page := page + [p];
        case None =>
      }
    }
    assert ids[..|when|] == ids;
    rows, reported := Some(page), total;
  }

  lemma FirstPosAt(ids: seq<int>, j: int)
    requires 0 <= j < |ids| && ids[j] !in ids[..j]
    ensures FirstPos(ids, ids[j]) == j
  {
  }

  lemma OnlyRowWithId(table: seq<Post>, p: Post)
    requires UniqueIds(table) && p in table
    ensures forall r :: r in table && r.id == p.id ==> r == p
  {
  }

  lemma RankedByAppend(ids: seq<int>, rows: seq<Post>, p: Post)
    requires RankedBy(ids, rows) && p.id in ids
    requires forall a :: 0 <= a < |rows| ==> FirstPos(ids, rows[a].id) < FirstPos(ids, p.id)
    ensures RankedBy(ids, rows + [p])
  {
  }

  /** The head of a ranked page ranks strictly above every other row, and the tail is ranked. */
  lemma RankedSplit(ids: seq<int>, a: seq<Post>)
    requires RankedBy(ids, a) && a != []
    ensures RankedBy(ids, a[1..])
    ensures forall r :: r in a[1..] ==> r.id in ids && FirstPos(ids, a[0].id) < FirstPos(ids, r.id)
  {
  }

  /** Two pages with the same rows, both in rank order, are the same page. */
  lemma {:induction false} RankedUnique(ids: seq<int>, a: seq<Post>, b: seq<Post>)
    requires RankedBy(ids, a) && RankedBy(ids, b)
    requires forall r :: r in a <==> r in b
    ensures a == b
    decreases |a|
  {
    assert b == [] || b[0] in b;
    if a != [] {
      assert a[0] in b;
      assert b[0] in a;
      RankedSplit(ids, a);
      RankedSplit(ids, b);
      assert a == [a[0]] + a[1..] && b == [b[0]] + b[1..];
      assert a[0] == b[0] by {
        assert a[0] in b[1..] || a[0] == b[0];
        assert b[0] in a[1..] || a[0] == b[0];
      }
      forall r ensures r in a[1..] <==> r in b[1..] {
        if r in a[1..] {
          assert r in a && r != a[0];
          assert r == b[0] || r in b[1..];
        }
        if r in b[1..] {
          assert r in b && r != b[0];
          assert r == a[0] || r in a[1..];
        }
      }
      RankedUnique(ids, a[1..], b[1..]);
    }
  }

  /** The page for a given table and ranking is unique: the contract of Search pins its rows down. */
  lemma RankedPageUnique(table: seq<Post>, ids: seq<int>, a: seq<Post>, b: seq<Post>)
    requires IsRankedPage(table, ids, a) && IsRankedPage(table, ids, b)
    ensures a == b
  {
    RankedUnique(ids, a, b);
  }

  /** Index ranking [5, 1, 3] over rows {1, 3, 5} gives the rows in the order 5, 1, 3. */
  lemma RankOrderExample(p1: Post, p3: Post, p5: Post, rows: seq<Post>)
    requires p1.id == 1 && p3.id == 3 && p5.id == 5
    requires IsRankedPage([p1, p3, p5], [5, 1, 3], rows)
    ensures rows == [p5, p1, p3]
  {
    var page := [p5, p1, p3];
    ExampleRanked([5, 1, 3], page);
    forall r ensures r in rows <==> r in page {
      assert r in page <==> r == p1 || r == p3 || r == p5;
      assert r in [p1, p3, p5] <==> r == p1 || r == p3 || r == p5;
    }
    RankedUnique([5, 1, 3], rows, page);
  }

  /** With row 5 gone from the store, the same ranking yields rows 1, 3: the stale id is dropped. */
  lemma DriftExample(p1: Post, p3: Post, rows: seq<Post>)
    requires p1.id == 1 && p3.id == 3
    requires IsRankedPage([p1, p3], [5, 1, 3], rows)
    ensures rows == [p1, p3]
  {
    var page := [p1, p3];
    ExampleRankedAfterDrift([5, 1, 3], page);
    forall r ensures r in rows <==> r in page {
      assert r in page <==> r == p1 || r == p3;
    }
    RankedUnique([5, 1, 3], rows, page);
  }

  lemma ExampleRanked(ids: seq<int>, page: seq<Post>)
    requires ids == [5, 1, 3]
    requires |page| == 3 && page[0].id == 5 && page[1].id == 1 && page[2].id == 3
    ensures RankedBy(ids, page)
  {
    ExampleRanks(ids);
  }

  lemma ExampleRankedAfterDrift(ids: seq<int>, page: seq<Post>)
    requires ids == [5, 1, 3]
    requires |page| == 2 && page[0].id == 1 && page[1].id == 3
    ensures RankedBy(ids, page)
  {
    ExampleRanks(ids);
  }

  lemma ExampleRanks(ids: seq<int>)
    requires ids == [5, 1, 3]
    ensures 5 in ids && 1 in ids && 3 in ids
    ensures FirstPos(ids, 5) == 0 && FirstPos(ids, 1) == 1 && FirstPos(ids, 3) == 2
  {
    FirstPosAt(ids, 0);
    FirstPosAt(ids, 1);
    FirstPosAt(ids, 2);
  }
}
