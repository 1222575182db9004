# Offline post synchronisation engine — a Dafny model

This project models the offline synchronisation engine of a small
offline-first posting application. It has three parts:

- **The client's durable store** (`local_store.dfy`, module `LocalStore`).
  This is the IndexedDB `posts` table, keyed by post id. It is modelled as
  the class `PostStore` over a `map<string, Post>`. It supports insert
  (which rejects a duplicate id), a newest-first listing, the unsynced
  listing, marking a post synced, counting a failed sync attempt, an
  existence check, delete and clear.
- **The sync coordinator** (`sync.dfy`, module `Sync`). This is the class
  `SyncManager`. It runs one pass at a time, guarded by its
  `syncInProgress` flag. A pass announces `Syncing`, takes a snapshot of
  the unsynced posts and pushes them to the server one by one. After a
  successful push it marks that post synced; after a failed push it
  counts a failed attempt. It then announces `Synced`, or `Error` when the
  queue cannot be read or a local write escapes the per-post handler.
  The pure function `Drain` gives the effect of a pass on the table, and
  the lemmas beside it state what a pass does to each post.
- **The server's reconciliation store** (`server.dfy`, module `Server`).
  This is the server's list of posts. Create is idempotent and keyed by
  id. The module also has the newest-first listing, lookup by id, delete
  (which reports whether anything was removed), clear (which reports the
  previous count), and the validation and status codes of `POST
  /api/posts`. Its invariant is "at most one record per id"
  (`UniqueIds`). Every mutating method preserves it.

`base.dfy` (module `Base`) holds `Option` and `Result`, and the
newest-first insertion sort shared by both listings.

The world outside the engine is passed in as parameters:

- **Time.** A store or server operation that reads the clock takes `now`.
  Within a sync pass, each failed post's recording reads the clock on its
  own, after that post's push has been answered. Its reading is the `at`
  field of that post's `Attempt`, so the posts of one pass get their own
  times.
- **The network and write failures.** For each post of a pass, in push
  order, an `Attempt(remoteOk, markOk, bumpOk, at)` says four things:
  whether the create request succeeded, whether marking the post synced
  was written, whether recording the failed attempt was written, and what
  the clock read when that attempt was recorded.
- **Reading the unsynced queue.** `queueOk` says whether this read
  succeeds.
- **The background-sync platform.** Two booleans say whether the
  platform supports background sync and whether registration succeeds.

The status callback is not run. The model records what it would receive
in the ghost logs `emitted` and `heard`, and records the posts sent to
the server in the ghost log `pushed`.

Three behaviours of the code are easy to mistake for something stricter;
the model follows the code in each:

- Marking an absent id synced, or recording an attempt on an absent id,
  does nothing. A stricter store would fail with `NotFound`.
- The coordinator keeps a single callback, and registering a new one
  replaces the old one. It does not keep a list of subscribers.
- Marking a post synced happens in the same `try` block as the push. A
  failed mark is therefore treated like a failed push: it counts a failed
  attempt. If counting that attempt fails as well, the failure escapes the
  loop and the pass ends with `Error`. So `Error` comes not only from
  reading the queue but also from a local write inside the loop.

## Model

| member | source | states |
|---|---|---|
| Base.SortNewest | server/run-server.js:39 | the result is newest-first by `createdAt` and a permutation of the input |
| Base.InsertNewest | src/utils/db.ts:58 | inserting one post into a newest-first list keeps it newest-first and adds exactly that post |
| LocalStore.MarkSynced | src/utils/db.ts:83-91 | the post with that id gets `synced = 1` and no other field changes; every other record and the key set stay the same; an absent id changes nothing |
| LocalStore.RecordAttempt | src/utils/db.ts:96-109 | the counter goes from its old value to that value + 1 (a missing counter counts as 0) and `lastSyncAttempt` becomes `now`; `synced`, the other fields and every other record stay the same; an absent id changes nothing |
| LocalStore.PostStore.constructor | src/utils/db.ts:19-33 | a new table is empty and satisfies the store's invariant |
| LocalStore.PostStore.AddPost | src/utils/db.ts:42-51 | on a new id it adds exactly that record and returns its id; on a stored id it fails with `DuplicateKey` and leaves the table unchanged |
| LocalStore.PostStore.GetAllPosts | src/utils/db.ts:56-64 | returns every stored post exactly once and nothing else, sorted newest first by `createdAt` |
| LocalStore.PostStore.GetUnsyncedPosts | src/utils/db.ts:69-78 | returns exactly the stored posts whose `synced` is 0, once each, and no others |
| LocalStore.PostStore.MarkPostAsSynced | src/utils/db.ts:83-91 | the table afterwards is `MarkSynced` of the table before |
| LocalStore.PostStore.UpdateSyncAttempt | src/utils/db.ts:96-109 | the table afterwards is `RecordAttempt` of the table before, at `now` |
| LocalStore.PostStore.DeletePost | src/utils/db.ts:114-122 | only that key is removed, and every other record is unchanged |
| LocalStore.PostStore.PostExists | src/utils/db.ts:127-135 | true exactly when the id is a key of the table |
| LocalStore.PostStore.ClearAllPosts | src/utils/db.ts:140-148 | the table is empty afterwards |
| Sync.Drain | src/utils/sync.ts:46-65 | a pass pushes at most the whole batch; it pushes all of it unless a failure ends it, and then at least one post; the key set of the table is unchanged |
| Sync.DrainLeavesOthers | src/utils/sync.ts:46-65 | a pass never changes a post outside its batch |
| Sync.DrainSettles | src/utils/sync.ts:46-65 | each post of the batch that the pass pushed and handled ends synced or with one more failed attempt, according to its own attempt; a post the pass did not reach, or ended on, is unchanged |
| Sync.DrainStopsAtFirstAbort | src/utils/sync.ts:46-71 | a pass ends in error exactly when some attempt's failure escapes the handler; it stops at the first such attempt, and every earlier failure was handled and did not stop the pass |
| Sync.SettlesSnapshot | src/utils/sync.ts:57-63 | after a pass that ends normally, each snapshot post is synced (push and mark succeeded) or still unsynced with its counter up by one and `lastSyncAttempt` set to the time its own attempt was recorded; its content is untouched, and posts outside the snapshot are unchanged |
| Sync.Converges | src/utils/sync.ts:46-65 | when no local write fails, every post unsynced before the pass ends synced, or has at least one recorded attempt and a last-attempt time |
| Sync.DrainKeepsKeyed | src/utils/sync.ts:46-65 | a pass keeps every entry of the table stored under its own id |
| Sync.RefusedPass | src/utils/sync.ts:58-63 | in a pass over the unsynced snapshot that ends normally, a post the server refuses stays unsynced, its counter goes up by one and its last attempt is the time of that recording; the table stays keyed |
| Sync.ThreeRefusedPasses | src/utils/sync.ts:58-63 | after three passes over the unsynced snapshot, whatever other posts each pushes, in which the server refuses a post, it is still unsynced, with 3 recorded attempts and the time the third refusal was recorded as its last attempt |
| Sync.RefusedBesideAccepted | src/utils/sync.ts:46-65 | for any two unsynced posts with distinct ids: in the first pass the server refuses one and accepts the other, and the next two passes refuse the first again. The accepted post ends synced; the refused one ends unsynced with three recorded attempts, the last at the third refusal's time |
| Sync.SyncManager.constructor | src/utils/sync.ts:7-9 | a new coordinator is idle, has no callback and has announced nothing |
| Sync.SyncManager.Emit | src/utils/sync.ts:30-71 | announcing a status appends it to the log of announced statuses, and the stored callback, if any, hears exactly that status |
| Sync.SyncManager.OnSyncStatusChange | src/utils/sync.ts:14-16 | the stored callback is replaced, so only the new one hears later statuses |
| Sync.SyncManager.SyncUnsyncedPosts | src/utils/sync.ts:21-76 | see `RanOnce`. While a pass is in progress, a call changes nothing: it announces nothing, pushes nothing and leaves the table alone. Otherwise it announces `Syncing` then exactly one of `Synced`/`Error`. The snapshot is exactly the unsynced posts. The posts the pass reached were pushed once each, in snapshot order, and the table is what `Drain` makes of the snapshot, each failed post stamped with the time of its own recording. An unreadable queue gives `Error` with the table unchanged. An empty snapshot gives `Synced` with no push and no change. The flag is clear afterwards |
| Sync.SyncManager.PushAll | src/utils/sync.ts:46-65 | the loop leaves the table as `Drain` does and pushes exactly the posts `Drain` reaches, in order |
| Sync.SyncManager.PushOne | src/utils/sync.ts:47-64 | a successful push followed by a successful mark marks the post synced; otherwise a failed attempt is recorded; if that write fails too, nothing changes and the pass ends |
| Sync.SyncManager.RegisterBackgroundSync | src/utils/sync.ts:81-96 | without platform support, or when registration fails, it syncs at once (with `RanOnce`'s effect); when registration succeeds, nothing changes |
| Sync.SyncManager.RequestImmediateSync | src/utils/sync.ts:101-109 | runs a local sync, with `RanOnce`'s effect |
| Server.AllPosts | server/run-server.js:36-40 | the listing is a permutation of the stored list, sorted newest first by `createdAt`; the stored list is not changed |
| Server.FindById | server/run-server.js:42-45 | returns the first record carrying the id when one exists, and nothing (null) exactly when none does |
| Server.Without | server/run-server.js:57-63 | keeps exactly the records not carrying the id, and its length drops by the number of records that carried it |
| Server.Insert | server/run-server.js:47-55 | a stored id gives `duplicate = true` with a stored record of that id, and the list is unchanged; a new id appends the post and returns it with `duplicate = false` |
| Server.CountUnique | server/run-server.js:47-55 | with at most one record per id, an id is carried once if present and never otherwise |
| Server.InsertKeepsUnique | server/run-server.js:47-55 | create preserves "at most one record per id" |
| Server.InsertTwice | server/run-server.js:47-55 | creating the same id twice leaves exactly one record with it; the second create reports a duplicate, returns the first create's record and changes nothing |
| Server.WithoutShrinks | server/run-server.js:57-63 | delete reports a change exactly when some record carried the id |
| Server.WithoutDistributes | server/run-server.js:60 | delete keeps the remaining records in order (it distributes over concatenation) |
| Server.WithoutKeepsUnique | server/run-server.js:57-63 | delete preserves "at most one record per id" |
| Server.Admit | server/run-server.js:87-90 | a request is admitted exactly when `id`, `title` and `description` are all present and non-empty; the stored record copies them, takes `createdAt` from the request or `now` when it is absent or zero, and records `now` as its acceptance time |
| Server.PostServer.constructor | server/run-server.js:25 | the server's list starts empty and satisfies the one-record-per-id invariant |
| Server.PostServer.InsertPost | server/run-server.js:47-55 | the list, duplicate flag and returned record are those of `Insert`; the unique-id invariant is preserved |
| Server.PostServer.DeletePost | server/run-server.js:57-63 | the list becomes `Without` of the old list; the result is true exactly when some record carried the id; the unique-id invariant is preserved |
| Server.PostServer.ClearPosts | server/run-server.js:65-71 | returns the previous number of records and leaves the list empty, which satisfies the one-record-per-id invariant |
| Server.PostServer.CreatePost | server/run-server.js:85-97 | 400 with no change exactly when a required field is missing; otherwise the idempotent create of the admitted record, answered 200 for a duplicate and 201 for a new record |

## Left out

- LocalStore.PostStore.GetAllPosts: the order among posts with equal `createdAt` is not stated. The index used there breaks such ties by id, descending.
- LocalStore.PostStore.GetUnsyncedPosts: the order of the result is not stated. The index returns these posts by ascending id. Each pass therefore pushes the posts in the order of its snapshot, whatever that order is.
- Server.AllPosts: it does not state that the sort is stable. Posts with equal `createdAt` keep their stored order in the model's sort too, but no lemma states it.
- LocalStore.PostStore.PostExists: it does not model a storage failure being turned into `false`.
- Storage failures of the individual store operations are not modelled: quota, a closed database, and so on. Inside a sync pass they appear only through `queueOk`, `markOk` and `bumpOk`.
- Numbers are unbounded integers rather than doubles. `syncAttempts` is a natural number. `synced` is any integer, written only as 0 or 1.
- Request fields are optional strings and an optional integer. The truthiness of other value types (numbers or booleans in `id` or `title`) is not modelled.
- Sync.SyncManager.SyncUnsyncedPosts: it requires at least as many attempt outcomes as stored posts, so that every post it pushes has an answer.
- A callback that starts a new sync while it is being notified is not modelled. Callbacks are recorded, not run.
- Real interleaving of asynchronous calls is not modelled. Single-flight is modelled only as the sequential behaviour of the `syncInProgress` flag. A call that finds the flag set changes nothing.
- Sync.SyncManager.RequestImmediateSync: the `SYNC_NOW` message to the background worker is not modelled, only the local sync.
- Sync.SyncManager.RegisterBackgroundSync: the deferred sync that the platform may run later is not modelled.
- The server's file persistence is not modelled: `readDB`, `writeDB`, a missing `posts` list, and the 500 answers to I/O errors. The empty list that a missing database file gives is the `PostServer` constructor's starting state.
- LocalStore.PostStore.constructor / Server.PostServer.constructor: only a first start on an empty store is modelled. Reopening a database that already holds posts is not. Every keyed table, and every list with at most one record per id, can still be reached from the empty state through `AddPost` and `InsertPost`.
- The server's lost-update race between concurrent requests is not modelled, since it is concurrency.
- The health endpoint, the GET and DELETE routes' 404 mapping, routing, CORS and process lifecycle are not modelled.
- `src/utils/api.ts`, `createPostObject` (random ids and the clock) and the `usePosts` hook are not part of this model. The hook's seeding loop only calls `PostExists` and `AddPost`.
- The user interface, service-worker messaging and build configuration are not part of this model.
