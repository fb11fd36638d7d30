# MyMiniBlog search-index synchronisation and follower relations, in Dafny

This project models the self-contained logic of a small Flask blog (app/models.py and the
view functions of app/main/routes.py that drive it) and proves properties of the model.

* **Write side of `SearchableMixin`.** `before_commit` snapshots the session's new, dirty and
  deleted objects into `session._changes`. `after_commit` walks the three lists in turn. It sends
  `add_to_index` for every searchable object in the first two and `remove_from_index` for every
  searchable object in the third, then clears the snapshot. The index is a `map<int, Fields>`
  keyed by post id (`SearchIndex.Index`). An add overwrites and a remove of a missing id is a no-op.
  `Searchable.Synced` is the index the three loops leave behind. The lemmas characterise it row by
  row. `reindex` re-adds every stored row.
* **Read side of `SearchableMixin`.** `search` takes the `(ids, total)` the index answered. A zero
  total short-cuts to `filter_by(id=0)` and total 0. Otherwise the rows pass the `id IN ids`
  filter and are ordered by the SQL `CASE` built from `when = [(ids[i], i)]`. This model replaces
  that `CASE` with an in-memory ordering: for each `when` entry in key order it emits the matching
  row, and an id already emitted wins its first position, as the first matching `WHEN` does. The
  index's `total` is passed through unchanged.
* **`User` relations.** The follower rows of a user (`followed`), `follow` / `unfollow` /
  `is_following`, the `followed_posts` timeline (a union, newest first), `new_messages` (a
  filtered count) and `add_notification` (replace by name).
* **Routes.** The next/previous link rule of the search view, its redirect on an invalid form,
  and the two guards of the follow and unfollow views: unknown user, and yourself.

Files: `wrappers.dfy` (Option), `models.dfy` (rows and table queries), `search_index.dfy` (the
external index as a class over a map), `searchable.dfy`, `users.dfy`, `routes.dfy`.

Modelling choices:
* A table is a `seq<Post>` in storage order. Its primary key is the predicate `UniqueIds`.
* Timestamps are integers counted from 1900-01-01, so `datetime(1900, 1, 1)` is `Jan1st1900 == 0`.
* The session's `new` / `dirty` / `deleted` sets come in as sequences in some fixed order.
  Their objects carry their ids already. In the source, the snapshot holds references that the
  flush gives ids before `after_commit` reads them, so the effect is the same. Flushes are not
  modelled: an object flushed earlier in the same transaction (by an autoflush before a query, say)
  is no longer in `new` or `dirty` at `before_commit`, so `after_commit` never indexes it.
  `AddedOrUpdatedIsIndexed` covers the objects of the snapshot, not every post the transaction
  created.
* The SQLAlchemy event wiring (app/models.py:211-212) becomes `Session.CommitCycle`. It calls the
  two hooks explicitly around a storage commit whose success is a parameter.
* The zero-total branch builds the query `filter_by(id=0)`. That query is empty only because ids
  are positive, and `Search` states exactly that. Under drift (the index names posts the table no
  longer has), `search` still reports the index's total, so the next link can lead to a page with
  fewer rows. The model keeps that behaviour.
* A non-zero total with no ids (a page past the last one; the page number comes straight from the
  query string) makes `when` empty, and the ordering a `CASE` with no `WHEN`, which SQL does not
  accept. `Search` then returns no page, and the search view ends in a server error when it
  renders the query.

## Model

| member | source | states |
|---|---|---|
| `Searchable.Session.BeforeCommit` | app/models.py:177-183 | `_changes` becomes the three lists add, update and delete, equal to the session's pending new, dirty and deleted objects at that moment |
| `Searchable.Session.AfterCommit` | app/models.py:185-196 | the index becomes `Synced(old index, snapshot)`: adds, then updates, then deletes, searchable objects only. `_changes` is `None` afterwards |
| `Searchable.Session.CommitCycle` | app/models.py:211-212 | on a successful commit the index is synced with the pre-commit snapshot and no snapshot survives. On a failed commit the index is untouched, the pending lists are as they were, and `_changes` keeps the snapshot |
| `Searchable.UpsertsAt` | app/models.py:187-192 | after the add loops, row k holds the document of the last searchable snapshot of k, or is as it was if there is none |
| `Searchable.RemovalsAt` | app/models.py:193-195 | after the delete loop, row k is absent exactly when a searchable object with id k was deleted; otherwise it is unchanged |
| `Searchable.SyncedAt` | app/models.py:187-195 | full row-by-row characterisation of the index after `after_commit`: deleted wins, then the last add or update, then the old document. Non-searchable objects play no part |
| `Searchable.AddedOrUpdatedIsIndexed` | app/models.py:187-192 | a searchable object in the add or update list, not also deleted, is in the index with its current fields |
| `Searchable.DeletedIsUnindexed` | app/models.py:193-195 | a searchable object in the delete list is absent from the index |
| `Searchable.NonSearchableLeaveIndex` | app/models.py:188-194 | a change set with no searchable object leaves the index exactly as it was |
| `Searchable.NonSearchableLeaveRow` | app/models.py:188-194 | the `isinstance` test keeps every other object out of the index: a row that no post of the change set names keeps its document, whatever users, messages or notifications with that id were committed |
| `Searchable.SyncIdempotent` | app/models.py:187-195 | replaying the same change set changes nothing more, because documents are replaced and never duplicated |
| `Searchable.Search` | app/models.py:146-175 | total 0 gives total 0 and the rows with id 0, which is no rows when ids are positive. Otherwise the index's total comes back unchanged. No ids with a non-zero total gives no evaluable page (a `CASE` without `WHEN`), and this is the only case without a page. Otherwise the rows are exactly the stored rows whose id is in `ids`, ordered by first position in `ids`. Ids with no row are dropped without error |
| `Searchable.FirstPos` | app/models.py:170-172 | the key of an id is the index of its first occurrence in `ids`, which is what the first matching WHEN yields |
| `Searchable.RankedUnique` | app/models.py:173-175 | two sequences with the same rows, both strictly in rank order, are equal |
| `Searchable.RankedPageUnique` | app/models.py:173-175 | only one row sequence meets the contract of `Search` for a given table and ranking |
| `Searchable.RankOrderExample` | app/models.py:170-175 | ranking [5, 1, 3] over stored rows {1, 3, 5} yields the rows in the order 5, 1, 3 |
| `Searchable.DriftExample` | app/models.py:173 | ranking [5, 1, 3] over stored rows {1, 3} yields rows 1, 3: the stale id is dropped |
| `Searchable.Reindex` | app/models.py:198-204 | every stored row is in the index with its current fields; documents of ids with no row are left as they were |
| `Searchable.DeleteThisIndex` | app/models.py:206-208 | the collection is empty afterwards |
| `SearchIndex.Index.Add` | app/models.py:189-192 | `add_to_index` replaces the document of that id and leaves every other id alone |
| `SearchIndex.Index.Remove` | app/models.py:194-195 | `remove_from_index` drops that id only; a missing id leaves the index as it was |
| `SearchIndex.Index.DeleteCollection` | app/models.py:206-208 | `delete_index` leaves the collection empty |
| `Models.Document` | app/models.py:216 | a post's document holds exactly the fields of `__searchable__`, with the body's value |
| `Models.Where` | app/models.py:173 | a filter keeps exactly the rows meeting its condition, and keeps ids unique |
| `Models.SortNewestFirst` | app/models.py:102 | the result is newest first and a permutation of the input |
| `Users.Count` | app/models.py:90-93 | the count of matching rows is positive exactly when the id is among them |
| `Users.User.IsFollowing` | app/models.py:90-93 | true exactly when a follower row links this user to the given one |
| `Users.Followed` | app/models.py:82-84 | the target is followed afterwards. No other pair changes. Rows already holding the pair are returned unchanged, so following twice is following once. No duplicate rows appear |
| `Users.Unfollowed` | app/models.py:86-88 | the target is not followed afterwards. No other pair changes. Rows without the pair are returned unchanged |
| `Users.Without` | app/models.py:88 | removing the association rows of one id keeps exactly the other rows |
| `Users.User.Follow` | app/models.py:82-84 | the follower rows become `Followed(old, user.id)`, `is_following` holds, and duplicate-free rows stay duplicate-free |
| `Users.User.Unfollow` | app/models.py:86-88 | the follower rows become `Unfollowed(old, user.id)` and `is_following` no longer holds |
| `Users.User.FollowedPosts` | app/models.py:95-102 | exactly the posts whose author is followed or is the user, newest first, each row once |
| `Users.CountReceivedAfter` | app/models.py:111 | the count is at most the number of messages, and zero exactly when no message to the user is newer than the read time |
| `Users.CountReceivedAfterConcat` | app/models.py:111 | the count over two batches of messages is the sum of the two counts |
| `Users.CountReceivedAfterAppend` | app/models.py:111 | appending a message adds one exactly when it is to the recipient and newer than the read time; with the empty count 0 this fixes the count's value |
| `Users.User.NewMessages` | app/models.py:109-111 | the unread count is zero exactly when no message to the user is newer than the last read time, or newer than 1900-01-01 if never read (the fallback of line 110) |
| `Users.NewMessagesAppend` | app/models.py:109-111 | each further message raises the unread count by one exactly when it is to the user and newer than the last read time (1900-01-01 if never read), so the count is the number of such messages |
| `Users.LaterReadFewerNew` | app/models.py:109-111 | a later read time never gives a larger unread count |
| `Users.WithoutName` | app/models.py:114 | the bulk delete keeps exactly the notifications of other names |
| `Users.AddNotificationCounts` | app/models.py:113-117 | afterwards exactly one notification has the name, and every other name keeps its count |
| `Users.User.AddNotification` | app/models.py:113-117 | the earlier notifications of that name are gone, the new one (returned) is appended, and it is the only one of that name |
| `Routes.SearchRoute` | app/main/routes.py:121-144 | an invalid form redirects to explore. No ids with a non-zero total ends in a server error. Otherwise the next link exists iff `page * perPage < total` and the previous link iff `page > 1`; the posts are the ranked page of `Search`, or the rows with id 0 (none when ids are positive) when the total is 0 |
| `Routes.HasNextPage` | app/main/routes.py:133-134 | with a positive page size, a next link exists exactly when the page number is below the number of pages the total fills (the ceiling of total / perPage) |
| `Routes.HasPrevPage` | app/main/routes.py:135-136 | a previous link always leads to a page numbered 1 or more, and on a real page it exists everywhere but on page 1 |
| `Routes.EveryResultOnReachablePage` | app/main/routes.py:133-134 | result i is on page `i / perPage + 1`, and every earlier page offers a next link |
| `Routes.NextLinksStop` | app/main/routes.py:133-134 | a page that offers a next link has a number below the total, so the chain of next links ends |
| `Routes.FindUser` | app/main/routes.py:80 | finds no user exactly when no user has the name; otherwise finds a user with that name |
| `Routes.CheckTarget` | app/main/routes.py:80-86 | unknown user exactly when no user has the name; self exactly when the found user is the current one; otherwise a target that is another user with that name |
| `Routes.FollowRoute` | app/main/routes.py:77-91 | unknown user or self leaves the follower rows unchanged. Otherwise the current user follows the target. With unique user ids, a user never comes to follow themself this way |
| `Routes.UnfollowRoute` | app/main/routes.py:93-107 | unknown user or self leaves the follower rows unchanged. Otherwise the pair is removed and `is_following` is false |

## Left out

- app/search.py is not part of this model. The index is an abstract map: add overwrites, remove of a missing id is not an error. Query ranking is not modelled; `search` receives the `(ids, total)` answer as parameters. Ids are integers, not their string form.
- Failures of index calls are not modelled. Every add and remove succeeds, so the best-effort, non-fatal failure path has no counterpart.
- Searchable.Session.AfterCommit: requires a snapshot to be present, where the source would raise a `TypeError` on `None`. The event order of a commit always runs `before_commit` first.
- Searchable.Search: returns the rows as a list, where the source returns a lazy query that the caller evaluates. That a `CASE` with no `WHEN` cannot be evaluated is the model's reading of SQL; how SQLAlchemy compiles `db.case([])` is not part of this model.
- The id a new row receives at flush is taken as given when the object is snapshotted.
- `paginate` and the paginated views `index`, `user`, `explore` and `messages` are left out. So are `before_request` (`last_seen`), `edit_profile` and `send_message`. They are rendering and storage plumbing.
- `POSTS_PER_PAGE` is not set in config.py, so the page size is a parameter.
- Usernames are constant in the model; editing a profile is not modelled.
- Requests are sequential. The `followers` table has no unique constraint, so two follow requests that pass the `is_following` guard at the same time could store a pair twice; concurrent requests are not modelled, and what a delete then does to duplicate rows depends on SQLAlchemy's flush, which is not part of this model.
- Password hashing, reset tokens and the Gravatar URL are left out (app/models.py:71-80, 104-107, 132-138). They wrap libraries whose code is not visible.
- Tasks, `launch_task` and the task queries are left out (app/models.py:119-130, 226-242). They wrap redis/rq.
- `Notification.timestamp` is a float and is left out, and so is `get_data`. The payload is kept as its JSON text, with `json.dumps` not modelled.
- Flash messages, redirect URLs and templates are reduced to which branch a view takes. The form validation of the search view is a boolean parameter.
- app/email.py, app/auth/routes.py, the forms, the migration, config.py and myminiblog.py are outside the core. They are I/O, declarative validators, schema and configuration.
