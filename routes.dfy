/**
 * The decision logic of the view functions in app/main/routes.py that
 * sit next to the core: the search page's previous/next links and the
 * guards of the follow and unfollow handlers. Rendering, flashing and
 * redirect URLs are reduced to which branch was taken.
 */
module Routes {
  import opened Wrappers
  import opened Models
  import opened Searchable
  import opened Users

  /** The number of pages `total` results fill at perPage a page (the ceiling of the quotient). */
  function PageCount(perPage: int, total: int): int
    requires perPage > 0
  {
    (total + perPage - 1) / perPage
  }

  /** A next-page link is offered while earlier pages do not cover the index's total. */
  function HasNextPage(page: int, perPage: int, total: int): (r: bool)
    ensures perPage > 0 ==> (r <==> page < PageCount(perPage, total))
  {
    if perPage > 0 then
      var c := PageCount(perPage, total);
      assert (c - 1) * perPage < total <= c * perPage by {
        assert total + perPage - 1 == c * perPage + (total + perPage - 1) % perPage;
      }
      assert page * perPage < total <==> page < c by {
        if page < c {
          MulMonotone(page, c - 1, perPage);
        } else {
          MulMonotone(c, page, perPage);
        }
      }
      page * perPage < total
    else
      page * perPage < total
  }

  /** A previous-page link is offered from page 2 on, and always leads to a page numbered 1 or more. */
  function HasPrevPage(page: int): (r: bool)
    ensures r ==> page - 1 >= 1
    ensures page >= 1 ==> (r <==> page != 1)
  {
    page > 1
  }

  lemma MulMonotone(a: int, b: int, c: int)
    requires a <= b && c >= 0
    ensures a * c <= b * c
  {
  }

  /**
   * Following next links from page 1 reaches the page holding every
   * result: result i (0-based) sits on page i / perPage + 1, and each
   * page before it offers a next link.
   */
  lemma EveryResultOnReachablePage(perPage: int, total: int, i: int)
    requires perPage > 0 && 0 <= i < total
    ensures var p := i / perPage + 1;
      && (p - 1) * perPage <= i < p * perPage
      && forall q :: 1 <= q < p ==> HasNextPage(q, perPage, total)
  {
    var p := i / perPage + 1;
    assert i == (i / perPage) * perPage + i % perPage;
    assert p * perPage == (i / perPage) * perPage + perPage;
    forall q | 1 <= q < p ensures HasNextPage(q, perPage, total) {
      MulMonotone(q, p - 1, perPage);
    }
  }

  /** The page after the last one holding results offers no next link. */
  lemma NextLinksStop(perPage: int, total: int, page: int)
    requires perPage > 0 && page >= 1 && HasNextPage(page, perPage, total)
    ensures page < total
  {
    MulMonotone(1, perPage, page);
  }

  /**
   * What the view produces. ServerError: rendering evaluates the query
   * `search` returned, and the database refuses it.
   */
  datatype SearchView =
    | RedirectToExplore
    | ServerError
    | Results(posts: seq<Post>, nextPage: Option<int>, prevPage: Option<int>)

  /**
   * The `search` view. hitIds and hitTotal are what the index answers for
   * the query and page.
   */
  method SearchRoute(formValid: bool, page: int, perPage: int, table: seq<Post>, hitIds: seq<int>, hitTotal: int)
    returns (view: SearchView)
    requires UniqueIds(table)
    ensures !formValid ==> view == RedirectToExplore
    ensures formValid && hitIds == [] && hitTotal != 0 ==> view == ServerError
    ensures formValid && (hitIds != [] || hitTotal == 0) ==> view.Results?
    ensures view.Results? ==> view.nextPage == if page * perPage < hitTotal then Some(page + 1) else None
    ensures view.Results? ==> view.prevPage == if page > 1 then Some(page - 1) else None
    ensures view.Results? && hitTotal != 0 ==> IsRankedPage(table, hitIds, view.posts)
    ensures view.Results? && hitTotal == 0 ==> forall r :: r in view.posts <==> r in table && r.id == 0
    ensures view.Results? && hitTotal == 0 && (forall r :: r in table ==> r.id > 0) ==> view.posts == []
  {
    if !formValid {
      return RedirectToExplore;
    }
    var posts, total := Search(table, hitIds, hitTotal);
    var next := if HasNextPage(page, perPage, total) then Some(page + 1) else None;
    var prev := if HasPrevPage(page) then Some(page - 1) else None;
    match posts
    case None =>
      view := ServerError;
    case Some(rows) =>
      view := Results(rows, next, prev);
  }

  /** `User.query.filter_by(username=username).first()` */
  function FindUser(users: seq<User>, username: string): (r: Option<User>)
    ensures r.None? <==> forall u :: u in users ==> u.username != username
    ensures r.Some? ==> r.value in users && r.value.username == username
  {
    if users == [] then None
    else if users[0].username == username then Some(users[0])
    else FindUser(users[1..], username)
  }

  /** Which branch the follow and unfollow handlers take. */
  datatype FollowTarget = UnknownUser | SelfTarget | Target(user: User)

  function CheckTarget(users: seq<User>, username: string, current: User): (t: FollowTarget)
    ensures t.UnknownUser? <==> forall u :: u in users ==> u.username != username
    ensures t.SelfTarget? <==> FindUser(users, username) == Some(current)
    ensures t.Target? ==> t.user in users && t.user.username == username && t.user != current
  {
    match FindUser(users, username)
    case None => UnknownUser
    case Some(u) => if u == current then SelfTarget else Target(u)
  }

  /** No user object other than current carries current's id (the primary key). */
  predicate UniqueUserIds(users: seq<User>, current: User) {
    forall u :: u in users && u.id == current.id ==> u == current
  }

  /**
   * The `follow` view: an unknown name or the current user leaves the
   * follower rows as they were; otherwise the current user follows the
   * target. So a user never comes to follow themself this way.
   */
  method FollowRoute(current: User, users: seq<User>, username: string) returns (t: FollowTarget)
    modifies current`followed
    ensures t == CheckTarget(users, username, current)
    ensures !t.Target? ==> current.followed == old(current.followed)
    ensures t.Target? ==> current.followed == Followed(old(current.followed), t.user.id)
    ensures t.Target? ==> current.IsFollowing(t.user)
    ensures UniqueUserIds(users, current) && current.id !in old(current.followed) ==> current.id !in current.followed
    ensures old(current.Valid()) ==> current.Valid()
  {
    t := CheckTarget(users, username, current);
    if t.Target? {
      current.Follow(t.user);
    }
  }

  /** The `unfollow` view: the same two guards; otherwise the pair is removed. */
  method UnfollowRoute(current: User, users: seq<User>, username: string) returns (t: FollowTarget)
    modifies current`followed
    ensures t == CheckTarget(users, username, current)
    ensures !t.Target? ==> current.followed == old(current.followed)
    ensures t.Target? ==> current.followed == Unfollowed(old(current.followed), t.user.id)
    ensures t.Target? ==> !current.IsFollowing(t.user)
    ensures old(current.Valid()) ==> current.Valid()
  {
    t := CheckTarget(users, username, current);
    if t.Target? {
      current.Unfollow(t.user);
    }
  }
}
