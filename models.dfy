/**
 * The rows of the blog's relational store (app/models.py) and the table
 * queries the core runs over them.
 *
 * Timestamps are integers on one common scale, counted from
 * 1900-01-01 00:00 (see Jan1st1900).
 */
module Models {
  import opened Wrappers

  /** A row of the `post` table. Post is the one searchable entity. */
  datatype Post = Post(id: int, body: string, timestamp: int, userId: int)

  /** A row of the `message` table. */
  datatype Message = Message(id: int, senderId: int, recipientId: int, body: string, timestamp: int)

  /** A row of the `notification` table; the payload is the JSON text. */
  datatype Notification = Notification(name: string, userId: int, payloadJson: string)

  /**
   * An object held by the database session. Only posts mix in the
   * search capability; every other mapped class (users, messages,
   * notifications, tasks) is an OtherEntity.
   */
  datatype Entity = PostEntity(post: Post) | OtherEntity(table: string, id: int)

  /** The field values of an index document, by field name. */
  type Fields = map<string, string>

  /** `Post.__tablename__`, the name Flask-SQLAlchemy derives from the class: the index's collection. */
  const PostTable: string := "post"

  /** `Post.__searchable__`: the fields sent to the index. */
  const SearchableFields: seq<string> := ["body"]

  /** The default read time `datetime(1900, 1, 1)` on the timestamp scale. */
  const Jan1st1900: int := 0

  /** `isinstance(obj, SearchableMixin)` */
  predicate IsSearchable(e: Entity) {
    e.PostEntity?
  }

  /** The document `add_to_index` sends for a post: its searchable fields. */
  function Document(p: Post): (doc: Fields)
    ensures forall f :: f in doc <==> f in SearchableFields
    ensures doc["body"] == p.body
  {
    map["body" := p.body]
  }

  /** The primary-key invariant of a table: no two rows share an id. */
  predicate UniqueIds(table: seq<Post>) {
    forall i, j :: 0 <= i < j < |table| ==> table[i].id != table[j].id
  }

  predicate Distinct<T(==)>(s: seq<T>) {
    forall i, j :: 0 <= i < j < |s| ==> s[i] != s[j]
  }

  /** Posts listed newest first: `order_by(Post.timestamp.desc())`. */
  predicate NewestFirst(s: seq<Post>) {
    forall i, j :: 0 <= i < j < |s| ==> s[i].timestamp >= s[j].timestamp
  }

  /** A `filter(...)` over a table: the rows that satisfy `keep`, in table order. */
  function Where(table: seq<Post>, keep: Post -> bool): (r: seq<Post>)
    ensures forall p :: p in r <==> p in table && keep(p)
    ensures UniqueIds(table) ==> UniqueIds(r)
  {
    if table == [] then []
    else
      var rest := Where(table[1..], keep);
      assert UniqueIds(table) ==> forall q :: q in rest ==> q.id != table[0].id by {
        if UniqueIds(table) {
          forall q | q in rest ensures q.id != table[0].id {
            var k :| 0 <= k < |table[1..]| && table[1..][k] == q;
            assert table[k + 1] == q;
          }
        }
      }
      if keep(table[0]) then [table[0]] + rest else rest
  }

  /** The first row with that id, if any: the row a WHEN of `search`'s ordering matches. */
  function Find(table: seq<Post>, id: int): (r: Option<Post>)
    ensures r.Some? ==> r.value in table && r.value.id == id
    ensures r.None? ==> forall p :: p in table ==> p.id != id
  {
    if table == [] then None
    else if table[0].id == id then Some(table[0])
    else Find(table[1..], id)
  }

  /** Inserts a post into a newest-first list before the first older-or-equal post. */
  function InsertNewestFirst(p: Post, s: seq<Post>): (r: seq<Post>)
    requires NewestFirst(s)
    ensures NewestFirst(r)
    ensures multiset(r) == multiset(s) + multiset{p}
  {
    if s == [] || p.timestamp >= s[0].timestamp then
      [p] + s
    else
      var rest := InsertNewestFirst(p, s[1..]);
      assert s == [s[0]] + s[1..];
      assert forall k :: 0 <= k < |rest| ==> s[0].timestamp >= rest[k].timestamp by {
        forall k | 0 <= k < |rest| ensures s[0].timestamp >= rest[k].timestamp {
          assert rest[k] in multiset(rest);
        }
      }
      [s[0]] + rest
  }

  /** `order_by(Post.timestamp.desc())` as an insertion sort. */
  function SortNewestFirst(s: seq<Post>): (r: seq<Post>)
    ensures NewestFirst(r)
    ensures multiset(r) == multiset(s)
  {
    if s == [] then []
    else
      assert s == [s[0]] + s[1..];
      InsertNewestFirst(s[0], SortNewestFirst(s[1..]))
  }

  /** A sequence is duplicate-free exactly when no element occurs twice in its multiset. */
  lemma {:induction false} DistinctIffSingleOccurrences<T>(s: seq<T>)
    ensures Distinct(s) <==> forall x :: multiset(s)[x] <= 1
  {
    if s != [] {
      DistinctIffSingleOccurrences(s[1..]);
      assert s == [s[0]] + s[1..];
      assert s[0] in s[1..] <==> multiset(s[1..])[s[0]] > 0;
      assert multiset(s) == multiset{s[0]} + multiset(s[1..]);
      if Distinct(s) {
        assert Distinct(s[1..]) && s[0] !in s[1..];
        forall x ensures multiset(s)[x] <= 1 {
          assert multiset(s)[x] == multiset(s[1..])[x] + (if x == s[0] then 1 else 0);
        }
      } else {
        var i, j :| 0 <= i < j < |s| && s[i] == s[j];
        if i == 0 {
          assert s[j] == s[1..][j - 1];
          assert multiset(s)[s[0]] >= 2;
        } else {
          assert s[1..][i - 1] == s[1..][j - 1];
          assert !Distinct(s[1..]);
          var x :| multiset(s[1..])[x] > 1;
          assert multiset(s)[x] > 1;
        }
      }
    }
  }

  /** Reordering keeps a sequence duplicate-free. */
  lemma DistinctPermutation<T>(s: seq<T>, t: seq<T>)
    requires multiset(s) == multiset(t) && Distinct(s)
    ensures Distinct(t)
  {
    DistinctIffSingleOccurrences(s);
    DistinctIffSingleOccurrences(t);
  }
}
