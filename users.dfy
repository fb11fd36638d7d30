/**
 * The relation-maintenance part of `User` (app/models.py): the follower
 * rows, the followed-posts timeline, the unread-message count and
 * notifications.
 */
module Users {
  import opened Wrappers
  import opened Models

  /** Occurrences of x in s: the `count()` of a filtered query. */
  function Count(s: seq<int>, x: int): (n: nat)
    ensures n <= |s|
    ensures n > 0 <==> x in s
  {
    if s == [] then 0
    else
      assert s == [s[0]] + s[1..];
      (if s[0] == x then 1 else 0) + Count(s[1..], x)
  }

  /** The rows without any row for x. */
  function Without(s: seq<int>, x: int): (r: seq<int>)
    ensures forall y :: y in r <==> y in s && y != x
    ensures Distinct(s) ==> Distinct(r)
  {
    if s == [] then []
    else
      var rest := Without(s[1..], x);
      assert Distinct(s) ==> Distinct(s[1..]) && s[0] !in s[1..];
      if s[0] == x then rest else [s[0]] + rest
  }

  /**
   * The followed ids after `follow(target)`: the pair is added only when
   * absent, so following twice is following once, and no other pair moves.
   */
  function Followed(rows: seq<int>, target: int): (r: seq<int>)
    ensures target in r
    ensures forall x :: x != target ==> (x in r <==> x in rows)
    ensures target in rows ==> r == rows
    ensures Distinct(rows) ==> Distinct(r)
  {
    if Count(rows, target) > 0 then rows else rows + [target]
  }

  /**
   * The followed ids after `unfollow(target)`: the pair is removed only
   * when present; no other pair moves.
   */
  function Unfollowed(rows: seq<int>, target: int): (r: seq<int>)
    ensures target !in r
    ensures forall x :: x != target ==> (x in r <==> x in rows)
    ensures target !in rows ==> r == rows
    ensures Distinct(rows) ==> Distinct(r)
  {
    if Count(rows, target) > 0 then Without(rows, target) else rows
  }

  /** The notifications whose name differs from name, in their order. */
  function WithoutName(ns: seq<Notification>, name: string): (r: seq<Notification>)
    ensures forall n :: n in r <==> n in ns && n.name != name
  {
    if ns == [] then []
    else if ns[0].name == name then WithoutName(ns[1..], name)
    else [ns[0]] + WithoutName(ns[1..], name)
  }

  /** How many notifications carry the given name. */
  function CountNamed(ns: seq<Notification>, name: string): nat {
    if ns == [] then 0
    else (if ns[0].name == name then 1 else 0) + CountNamed(ns[1..], name)
  }

  lemma {:induction false} CountNamedAppend(ns: seq<Notification>, n: Notification, name: string)
    ensures CountNamed(ns + [n], name) == CountNamed(ns, name) + (if n.name == name then 1 else 0)
  {
    if ns != [] {
      assert (ns + [n])[1..] == ns[1..] + [n];
      CountNamedAppend(ns[1..], n, name);
    }
  }

  lemma {:induction false} CountWithoutName(ns: seq<Notification>, name: string, other: string)
    ensures CountNamed(WithoutName(ns, name), other) == if other == name then 0 else CountNamed(ns, other)
  {
    if ns != [] {
      CountWithoutName(ns[1..], name, other);
    }
  }

  /**
   * After `add_notification(n.name, ...)` the user holds exactly one
   * notification of that name, the new one, and the same number of
   * every other name as before.
   */
  lemma AddNotificationCounts(ns: seq<Notification>, n: Notification, other: string)
    ensures CountNamed(WithoutName(ns, n.name) + [n], other) == if other == n.name then 1 else CountNamed(ns, other)
  {
    CountNamedAppend(WithoutName(ns, n.name), n, other);
    CountWithoutName(ns, n.name, other);
  }

  /** Messages to recipient stamped strictly after since. */
  function CountReceivedAfter(messages: seq<Message>, recipient: int, since: int): (n: nat)
    ensures n <= |messages|
    ensures n == 0 <==> forall m :: m in messages && m.recipientId == recipient ==> m.timestamp <= since
  {
    if messages == [] then 0
    else
      var m := messages[0];
      assert messages == [m] + messages[1..];
      (if m.recipientId == recipient && m.timestamp > since then 1 else 0)
        + CountReceivedAfter(messages[1..], recipient, since)
  }

  /** The count over two batches of messages is the sum of their counts. */
  lemma {:induction false} CountReceivedAfterConcat(a: seq<Message>, b: seq<Message>, recipient: int, since: int)
    ensures CountReceivedAfter(a + b, recipient, since) == CountReceivedAfter(a, recipient, since) + CountReceivedAfter(b, recipient, since)
  {
    if a == [] {
      assert a + b == b;
    } else {
      assert (a + b)[1..] == a[1..] + b;
      CountReceivedAfterConcat(a[1..], b, recipient, since);
    }
  }

  /**
   * Each further message adds one to the count exactly when it is to the
   * recipient and newer than since; with the empty count 0 this fixes the
   * count as the number of such messages.
   */
  lemma CountReceivedAfterAppend(messages: seq<Message>, m: Message, recipient: int, since: int)
    ensures CountReceivedAfter(messages + [m], recipient, since) ==
              CountReceivedAfter(messages, recipient, since) + (if m.recipientId == recipient && m.timestamp > since then 1 else 0)
  {
    CountReceivedAfterConcat(messages, [m], recipient, since);
  }

  /** Reading later never raises the unread count. */
  lemma {:induction false} LaterReadFewerNew(messages: seq<Message>, recipient: int, t1: int, t2: int)
    requires t1 <= t2
    ensures CountReceivedAfter(messages, recipient, t2) <= CountReceivedAfter(messages, recipient, t1)
  {
    if messages != [] {
      LaterReadFewerNew(messages[1..], recipient, t1, t2);
    }
  }

  class User {
    const id: int
    const username: string
    /** followed_id of every follower row whose follower_id is this user's id. */
    var followed: seq<int>
    var notifications: seq<Notification>
    var lastMessageReadTime: Option<int>

    /** Each follower pair is stored once. */
    ghost predicate Valid()
      reads this
    {
      Distinct(followed)
    }

    constructor (id: int, username: string)
      ensures this.id == id && this.username == username
      ensures followed == [] && notifications == [] && lastMessageReadTime == None
      ensures Valid()
    {
      this.id := id;
      this.username := username;
      followed := [];
      notifications := [];
      lastMessageReadTime := None;
    }

    /** `is_following`: some follower row links this user to user. */
    function IsFollowing(user: User): (r: bool)
      reads this
      ensures r <==> user.id in followed
    {
      Count(followed, user.id) > 0
    }

    /** `follow` */
    method Follow(user: User)
      modifies this`followed
      ensures followed == Followed(old(followed), user.id)
      ensures IsFollowing(user)
      ensures old(Valid()) ==> Valid()
    {
      if !IsFollowing(user) {
        followed := followed + [user.id];
      }
    }

    /** `unfollow` */
    method Unfollow(user: User)
      modifies this`followed
      ensures followed == Unfollowed(old(followed), user.id)
      ensures !IsFollowing(user)
      ensures old(Valid()) ==> Valid()
    {
      if IsFollowing(user) {
        followed := Without(followed, user.id);
      }
    }

    /**
     * `followed_posts`: the union of the followed users' posts and the
     * user's own, each row once, newest first.
     */
    function FollowedPosts(posts: seq<Post>): (r: seq<Post>)
      reads this
      ensures forall p :: p in r <==> p in posts && (p.userId in followed || p.userId == id)
      ensures NewestFirst(r)
      ensures UniqueIds(posts) ==> Distinct(r)
    {
      var authors, me := followed, id;
      var joined := Where(posts, (p: Post) => p.userId in authors || p.userId == me);
      var r := SortNewestFirst(joined);
      assert forall p :: p in r <==> p in joined by {
        forall p ensures p in r <==> p in joined {
          assert p in r <==> p in multiset(r);
          assert p in joined <==> p in multiset(joined);
        }
      }
      assert UniqueIds(posts) ==> Distinct(r) by {
        if UniqueIds(posts) {
          DistinctPermutation(joined, r);
        }
      }
      r
    }

    /** The read time `new_messages` counts from: 1900-01-01 when never read. */
    function LastReadTime(): int
      reads this
    {
      match lastMessageReadTime
      case Some(t) => t
      case None => Jan1st1900
    }

    /** `new_messages`: messages to this user stamped after the last read. */
    function NewMessages(messages: seq<Message>): (n: nat)
      reads this
      ensures n <= |messages|
      ensures n == 0 <==> forall m :: m in messages && m.recipientId == id ==> m.timestamp <= LastReadTime()
    {
      CountReceivedAfter(messages, id, LastReadTime())
    }

    /**
     * `add_notification`: drop every notification of that name, then add
     * the new one, which is returned.
     */
    method AddNotification(name: string, payloadJson: string) returns (n: Notification)
      modifies this`notifications
      ensures n == Notification(name, id, payloadJson)
      ensures notifications == WithoutName(old(notifications), name) + [n]
      ensures CountNamed(notifications, name) == 1
      ensures forall x :: x in notifications && x.name == name ==> x == n
    {
      notifications := WithoutName(notifications, name);
      n := Notification(name, id, payloadJson);
      notifications := notifications + [n];
      AddNotificationCounts(old(notifications), n, name);
    }
  }

  /**
   * `new_messages` counts one per message to the user newer than the last
   * read time: a new message raises the count by exactly that.
   */
  lemma NewMessagesAppend(u: User, messages: seq<Message>, m: Message)
    ensures u.NewMessages(messages + [m]) ==
              u.NewMessages(messages) + (if m.recipientId == u.id && m.timestamp > u.LastReadTime() then 1 else 0)
  {
    CountReceivedAfterAppend(messages, m, u.id, u.LastReadTime());
  }
}
