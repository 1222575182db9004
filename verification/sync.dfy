/**
 * The sync coordinator: a single-flight pass that pushes every unsynced
 * post to the server, one at a time, and records the outcome of each
 * push in the local store.
 *
 * The world outside the coordinator is given as parameters: whether
 * reading the unsynced queue succeeds, and for each pushed post (in push
 * order) an `Attempt` saying whether the server accepted it and whether
 * each local write that follows goes through.
 */
module Sync {
  import opened Base
  import opened LocalStore

  datatype Status = Syncing | Synced | Error

  /** The identity of a registered status callback. */
  type Listener = nat

  /**
   * What the world answers for one pushed post: `remoteOk` when the create
   * request succeeds (a duplicate answer counts as success), `markOk` when
   * marking the post synced is written, `bumpOk` when recording a failed
   * attempt is written. Marking sits in the same protected block as the
   * push, so a failed mark is handled like a failed push; a failed bump is
   * not caught and ends the pass. `at` is what the clock reads when the
   * failed attempt is recorded: each recording reads the clock itself, so
   * the posts of one pass get their own times.
   */
  datatype Attempt = Attempt(remoteOk: bool, markOk: bool, bumpOk: bool, at: int)

  /** An attempt whose failure escapes the per-post handler. */
  predicate Aborts(a: Attempt)
  {
    !(a.remoteOk && a.markOk) && !a.bumpOk
  }

  /** Post as it stands after a handled attempt: synced, or one more failed attempt at the attempt's time. */
  function Settle(p: Post, a: Attempt): Post
  {
    if a.remoteOk && a.markOk then p.(synced := 1)
    else p.(syncAttempts := Some(AttemptsSoFar(p) + 1), lastSyncAttempt := Some(a.at))
  }

  /** The table after a handled attempt on `id`: marked synced, or one more failed attempt recorded. */
  function Handle(m: map<string, Post>, id: string, a: Attempt): map<string, Post>
  {
    if a.remoteOk && a.markOk then MarkSynced(m, id) else RecordAttempt(m, id, a.at)
  }

  /**
   * The outcome of a pass over a batch: the table afterwards, how many
   * posts were pushed, and whether the pass ended in an error.
   */
  datatype Drained = Drained(posts: map<string, Post>, pushed: nat, failed: bool)

  function Shift(r: Drained, n: nat): Drained
  {
    r.(pushed := r.pushed + n)
  }

  /** The pass over `batch`, one post at a time, as the coordinator's loop runs it. */
  function Drain(m: map<string, Post>, batch: seq<Post>, attempts: seq<Attempt>): (r: Drained)
    requires |batch| <= |attempts|
    ensures r.pushed <= |batch|
    ensures r.failed ==> 0 < r.pushed
    ensures !r.failed ==> r.pushed == |batch|
    ensures r.posts.Keys == m.Keys
    decreases |batch|
  {
    if batch == [] then Drained(m, 0, false)
    else if Aborts(attempts[0]) then Drained(m, 1, true)
    else Shift(Drain(Handle(m, batch[0].id, attempts[0]), batch[1..], attempts[1..]), 1)
  }

  /** One step of `Drain` from position `i` of the batch. */
  lemma DrainFrom(m: map<string, Post>, batch: seq<Post>, attempts: seq<Attempt>, i: nat)
    requires |batch| <= |attempts| && i < |batch|
    ensures Drain(m, batch[i..], attempts[i..]) ==
      if Aborts(attempts[i]) then Drained(m, 1, true)
      else Shift(Drain(Handle(m, batch[i].id, attempts[i]), batch[i + 1..], attempts[i + 1..]), 1)
  {
  }

  /** A pass never touches a post outside its batch. */
  lemma {:induction false} DrainLeavesOthers(m: map<string, Post>, batch: seq<Post>, attempts: seq<Attempt>, id: string)
    requires |batch| <= |attempts|
    requires forall p :: p in batch ==> p.id != id
    requires id in m
    ensures Drain(m, batch, attempts).posts[id] == m[id]
    decreases |batch|
  {
    if batch != [] {
      var a := attempts[0];
      assert batch[0] in batch;
      if !Aborts(a) {
        DrainLeavesOthers(Handle(m, batch[0].id, a), batch[1..], attempts[1..], id);
      }
    }
  }

  /**
   * The `k`-th post of a batch with distinct ids ends settled by its own
   * attempt when it was pushed and handled, and unchanged when the pass
   * never reached it or ended on it.
   */
  lemma {:induction false} DrainSettles(m: map<string, Post>, batch: seq<Post>, attempts: seq<Attempt>, k: nat)
    requires |batch| <= |attempts|
    requires DistinctKeys(batch, IdOf)
    requires k < |batch| && batch[k].id in m
    ensures var r := Drain(m, batch, attempts);
      r.posts[batch[k].id] ==
        if k + 1 < r.pushed || (k + 1 == r.pushed && !r.failed) then Settle(m[batch[k].id], attempts[k])
        else m[batch[k].id]
    decreases |batch|
  {
    var id, a := batch[0].id, attempts[0];
    var next := Handle(m, id, a);
    assert DistinctKeys(batch[1..], IdOf);
    if k == 0 {
      if !Aborts(a) {
        forall p | p in batch[1..] ensures p.id != id {
          var j :| 0 <= j < |batch[1..]| && batch[1..][j] == p;
          assert IdOf(batch[0]) != IdOf(batch[j + 1]);
        }
        DrainLeavesOthers(next, batch[1..], attempts[1..], id);
      }
    } else if !Aborts(a) {
      assert IdOf(batch[0]) != IdOf(batch[k]);
      DrainSettles(next, batch[1..], attempts[1..], k - 1);
    }
  }

  /** A pass ends in an error exactly when some attempt aborts, and then it stops at the first one. */
  lemma {:induction false} DrainStopsAtFirstAbort(m: map<string, Post>, batch: seq<Post>, attempts: seq<Attempt>)
    requires |batch| <= |attempts|
    ensures var r := Drain(m, batch, attempts);
      && (r.failed <==> exists k :: 0 <= k < |batch| && Aborts(attempts[k]))
      && (r.failed ==> Aborts(attempts[r.pushed - 1]))
      && (forall k :: 0 <= k < r.pushed - 1 ==> !Aborts(attempts[k]))
      && (!r.failed ==> forall k :: 0 <= k < |batch| ==> !Aborts(attempts[k]))
    decreases |batch|
  {
    if batch != [] {
      var id, a := batch[0].id, attempts[0];
      var next := Handle(m, id, a);
      if !Aborts(a) {
        DrainStopsAtFirstAbort(next, batch[1..], attempts[1..]);
        var sub := Drain(next, batch[1..], attempts[1..]);
        assert forall k :: 1 <= k < |batch| ==> attempts[1..][k - 1] == attempts[k];
        if sub.failed {
          var j :| 0 <= j < |batch[1..]| && Aborts(attempts[1..][j]);
          assert Aborts(attempts[j + 1]);
        }
      }
    }
  }

  /**
   * A pass over the unsynced posts that no local write failure ends
   * leaves each of them either synced (its push and mark succeeded) or
   * still unsynced with one more failed attempt recorded at its own time; its
   * content is untouched, and no post outside the batch changes.
   */
  lemma SettlesSnapshot(m: map<string, Post>, batch: seq<Post>, attempts: seq<Attempt>)
    requires Keyed(m) && ListsUnsynced(batch, m)
    requires |batch| <= |attempts|
    requires !Drain(m, batch, attempts).failed
    ensures var r := Drain(m, batch, attempts);
      && (forall k :: 0 <= k < |batch| ==>
           var p, q := batch[k], r.posts[batch[k].id];
           && q.id == p.id && q.title == p.title && q.description == p.description && q.createdAt == p.createdAt
           && (attempts[k].remoteOk && attempts[k].markOk ==> q.synced == 1)
           && (!(attempts[k].remoteOk && attempts[k].markOk) ==>
                 q.synced == 0 && AttemptsSoFar(q) == AttemptsSoFar(p) + 1 && q.lastSyncAttempt == Some(attempts[k].at)))
      && (forall id :: id in m && m[id] !in batch ==> r.posts[id] == m[id])
  {
    var r := Drain(m, batch, attempts);
    forall k | 0 <= k < |batch| ensures r.posts[batch[k].id] == Settle(batch[k], attempts[k]) {
      assert batch[k] in batch;
      DrainSettles(m, batch, attempts, k);
    }
    forall id | id in m && m[id] !in batch ensures r.posts[id] == m[id] {
      forall p | p in batch ensures p.id != id {
        assert m[p.id] == p;
      }
      DrainLeavesOthers(m, batch, attempts, id);
    }
  }

  /**
   * Eventual convergence: when local writes do not fail, every post that
   * was unsynced before a pass ends synced, or unsynced with at least one
   * recorded attempt and a time of last attempt.
   */
  lemma Converges(m: map<string, Post>, batch: seq<Post>, attempts: seq<Attempt>)
    requires Keyed(m) && ListsUnsynced(batch, m)
    requires |batch| <= |attempts|
    requires forall k :: 0 <= k < |attempts| ==> !Aborts(attempts[k])
    ensures var r := Drain(m, batch, attempts);
      forall id :: id in m && m[id].synced == 0 ==>
        r.posts[id].synced == 1 || (AttemptsSoFar(r.posts[id]) >= 1 && r.posts[id].lastSyncAttempt.Some?)
  {
    DrainStopsAtFirstAbort(m, batch, attempts);
    SettlesSnapshot(m, batch, attempts);
    var r := Drain(m, batch, attempts);
    forall id | id in m && m[id].synced == 0
      ensures r.posts[id].synced == 1 || (AttemptsSoFar(r.posts[id]) >= 1 && r.posts[id].lastSyncAttempt.Some?)
    {
      var k :| 0 <= k < |batch| && batch[k] == m[id];
    }
  }

  /** A pass keeps every entry of the table stored under its own id. */
  lemma {:induction false} DrainKeepsKeyed(m: map<string, Post>, batch: seq<Post>, attempts: seq<Attempt>)
    requires Keyed(m) && |batch| <= |attempts|
    ensures Keyed(Drain(m, batch, attempts).posts)
    decreases |batch|
  {
    if batch != [] && !Aborts(attempts[0]) {
      DrainKeepsKeyed(Handle(m, batch[0].id, attempts[0]), batch[1..], attempts[1..]);
    }
  }

  /**
   * A pass over the unsynced snapshot `batch` of `m` that ends normally and
   * in which the server refuses the `k`-th post, the one carrying `id`.
   */
  ghost predicate RefusedIn(m: map<string, Post>, batch: seq<Post>, attempts: seq<Attempt>, k: nat, id: string)
  {
    && ListsUnsynced(batch, m)
    && |batch| <= |attempts|
    && !Drain(m, batch, attempts).failed
    && k < |batch| && batch[k].id == id
    && !attempts[k].remoteOk
  }

  /**
   * A pass in which the server refuses a post leaves it unsynced with one
   * more recorded attempt, stamped with the time of that recording, and
   * keeps the table keyed.
   */
  lemma RefusedPass(m: map<string, Post>, batch: seq<Post>, attempts: seq<Attempt>, k: nat, id: string)
    requires Keyed(m) && RefusedIn(m, batch, attempts, k, id)
    ensures var r := Drain(m, batch, attempts).posts;
      && Keyed(r) && id in r
      && r[id].synced == 0
      && AttemptsSoFar(r[id]) == AttemptsSoFar(m[id]) + 1
      && r[id].lastSyncAttempt == Some(attempts[k].at)
  {
    DrainKeepsKeyed(m, batch, attempts);
    SettlesSnapshot(m, batch, attempts);
    assert batch[k] in batch;
  }

  /**
   * A post that the server refuses on three passes in a row, whatever
   * other unsynced posts each pass pushes, stays unsynced with three
   * recorded attempts, the last at the time the third refusal was
   * recorded; `m1` and `m2` are the tables after the first two passes.
   */
  lemma ThreeRefusedPasses(m: map<string, Post>, id: string,
                           b1: seq<Post>, a1: seq<Attempt>, k1: nat, m1: map<string, Post>,
                           b2: seq<Post>, a2: seq<Attempt>, k2: nat, m2: map<string, Post>,
                           b3: seq<Post>, a3: seq<Attempt>, k3: nat)
    requires Keyed(m) && id in m && m[id].synced == 0 && AttemptsSoFar(m[id]) == 0
    requires RefusedIn(m, b1, a1, k1, id) && m1 == Drain(m, b1, a1).posts
    requires RefusedIn(m1, b2, a2, k2, id) && m2 == Drain(m1, b2, a2).posts
    requires RefusedIn(m2, b3, a3, k3, id)
    ensures var m3 := Drain(m2, b3, a3).posts;
      id in m3 && m3[id].synced == 0 && AttemptsSoFar(m3[id]) == 3 && m3[id].lastSyncAttempt == Some(a3[k3].at)
  {
    RefusedPass(m, b1, a1, k1, id);
    RefusedPass(m1, b2, a2, k2, id);
    RefusedPass(m2, b3, a3, k3, id);
  }

  /**
   * Two unsynced posts `p` and `q`: the first pass pushes both, the server
   * refuses `p` and accepts `q`; the next two passes push `p` alone, and
   * the server refuses it again. `q` ends synced, and `p` unsynced with
   * three recorded attempts, the last at the time of the third refusal.
   */
  lemma RefusedBesideAccepted(p: Post, q: Post, t1: int, t2: int, t3: int)
    requires p.id != q.id && p.synced == 0 && q.synced == 0 && AttemptsSoFar(p) == 0
    ensures var m1 := Drain(map[p.id := p, q.id := q], [p, q], [Attempt(false, false, true, t1), Attempt(true, true, true, t1)]).posts;
      var m2 := Drain(m1, [m1[p.id]], [Attempt(false, false, true, t2)]).posts;
      var m3 := Drain(m2, [m2[p.id]], [Attempt(false, false, true, t3)]).posts;
      && m3[q.id].synced == 1
      && m3[p.id].synced == 0 && AttemptsSoFar(m3[p.id]) == 3 && m3[p.id].lastSyncAttempt == Some(t3)
  {
    var q1 := q.(synced := 1);
    var m := map[p.id := p, q.id := q];
    var b1, a1 := [p, q], [Attempt(false, false, true, t1), Attempt(true, true, true, t1)];
    var m1 := map[p.id := Settle(p, a1[0]), q.id := q1];
    assert Drain(m, b1, a1).posts == m1 by {
      var h := map[p.id := Settle(p, a1[0]), q.id := q];
      assert b1[1..] == [q] && a1[1..] == [a1[1]];
      assert Handle(m, p.id, a1[0]) == h;
      assert Drain(h, [q], [a1[1]]).posts == Handle(h, q.id, a1[1]);
      assert Handle(h, q.id, a1[1]) == m1;
    }
    var b2, a2 := [m1[p.id]], [Attempt(false, false, true, t2)];
    var m2 := map[p.id := Settle(m1[p.id], a2[0]), q.id := q1];
    assert Drain(m1, b2, a2).posts == m2;
    var b3, a3 := [m2[p.id]], [Attempt(false, false, true, t3)];
    assert Drain(m2, b3, a3).posts[q.id] == q1;
    assert Keyed(m) && RefusedIn(m, b1, a1, 0, p.id) by {
      assert m.Keys == {p.id, q.id};
    }
    assert RefusedIn(m1, b2, a2, 0, p.id) by {
      assert m1.Keys == {p.id, q.id};
    }
    assert RefusedIn(m2, b3, a3, 0, p.id) by {
      assert m2.Keys == {p.id, q.id};
    }
    ThreeRefusedPasses(m, p.id, b1, a1, 0, m1, b2, a2, 0, m2, b3, a3, 0);
  }

  /** What a registered callback hears of one status. */
  function Heard(callback: Option<Listener>, s: Status): seq<(Listener, Status)>
  {
    match callback
    case Some(l) => [(l, s)]
    case None => []
  }

  class SyncManager {
    const store: PostStore
    var syncInProgress: bool
    var callback: Option<Listener>
    /** Every status the coordinator has announced, in order. */
    ghost var emitted: seq<Status>
    /** Every status delivered to a callback, with the callback that received it. */
    ghost var heard: seq<(Listener, Status)>
    /** Every post sent to the server's create operation, in order. */
    ghost var pushed: seq<Post>

    ghost predicate Valid()
      reads this, store
    {
      store.Valid()
    }

    constructor (store: PostStore)
      requires store.Valid()
      ensures Valid() && this.store == store
      ensures !syncInProgress && callback == None
      ensures emitted == [] && heard == [] && pushed == []
    {
      this.store := store;
      syncInProgress := false;
      callback := None;
      emitted, heard, pushed := [], [], [];
    }

    /** Replaces the single stored callback: from now on only `l` hears statuses. */
    method OnSyncStatusChange(l: Listener)
      modifies this`callback
      ensures callback == Some(l)
    {
      callback := Some(l);
    }

    /** Announces `s` to the stored callback, if there is one. */
    ghost method Emit(s: Status)
      modifies this`emitted, this`heard
      ensures emitted == old(emitted) + [s]
      ensures heard == old(heard) + Heard(callback, s)
    {
      emitted := emitted + [s];
      heard := heard + Heard(callback, s);
    }

    /**
     * The effect of one call of the coordinator. A call made while a pass
     * is in progress changes nothing. Otherwise it announces `Syncing`;
     * when the queue cannot be read it announces `Error` and changes no
     * post; otherwise `snapshot` is the unsynced posts as they stood at
     * the start, the table is what `Drain` makes of them, exactly the
     * posts the pass reached were pushed, in snapshot order, and it
     * announces `Error` if a local write failure ended it and `Synced`
     * otherwise. The in-progress flag is clear after every started pass.
     */
    twostate predicate RanOnce(queueOk: bool, attempts: seq<Attempt>, snapshot: seq<Post>)
      reads this, store
    {
      && callback == old(callback)
      && if old(syncInProgress) then
           && syncInProgress && snapshot == []
           && store.posts == old(store.posts) && pushed == old(pushed)
           && emitted == old(emitted) && heard == old(heard)
         else if !queueOk then
           && !syncInProgress && snapshot == []
           && store.posts == old(store.posts) && pushed == old(pushed)
           && emitted == old(emitted) + [Syncing, Error]
           && heard == old(heard) + Heard(callback, Syncing) + Heard(callback, Error)
         else
           && !syncInProgress
           && ListsUnsynced(snapshot, old(store.posts))
           && |snapshot| <= |attempts|
           && var r := Drain(old(store.posts), snapshot, attempts);
              && store.posts == r.posts
              && pushed == old(pushed) + snapshot[..r.pushed]
              && var final := if r.failed then Error else Synced;
                 && emitted == old(emitted) + [Syncing, final]
                 && heard == old(heard) + Heard(callback, Syncing) + Heard(callback, final)
    }

    method SyncUnsyncedPosts(queueOk: bool, attempts: seq<Attempt>) returns (ghost snapshot: seq<Post>)
      requires Valid()
      requires |store.posts| <= |attempts|
      modifies this, store
      ensures Valid()
      ensures RanOnce(queueOk, attempts, snapshot)
    {
      snapshot := [];
      if syncInProgress {
        return;
      }
      syncInProgress := true;
      Emit(Syncing);
      if !queueOk {
        Emit(Error);
        syncInProgress := false;
        return;
      }
      var unsynced := store.GetUnsyncedPosts();
      snapshot := unsynced;
      if |unsynced| == 0 {
        syncInProgress := false;
        Emit(Synced);
        return;
      }
      var failed := PushAll(unsynced, attempts);
      Emit(if failed then Error else Synced);
      syncInProgress := false;
    }

    /** Pushes the posts of `batch` one at a time, in order, until a pass-ending failure. */
    method PushAll(batch: seq<Post>, attempts: seq<Attempt>) returns (failed: bool)
      requires store.Valid()
      requires |batch| <= |attempts|
      modifies store, this`pushed
      ensures store.Valid()
      ensures var r := Drain(old(store.posts), batch, attempts);
        store.posts == r.posts && failed == r.failed && pushed == old(pushed) + batch[..r.pushed]
    {
      ghost var m0 := store.posts;
      var i := 0;
      failed := false;
      while i < |batch| && !failed
        invariant 0 <= i <= |batch|
        invariant store.Valid()
        invariant pushed == old(pushed) + batch[..i]
        invariant failed ==> Drain(m0, batch, attempts) == Drained(store.posts, i, true)
        invariant !failed ==>
          Drain(m0, batch, attempts) == Shift(Drain(store.posts, batch[i..], attempts[i..]), i)
      {
        DrainFrom(store.posts, batch, attempts, i);
        pushed := pushed + [batch[i]];
        failed := PushOne(batch[i], attempts[i]);
        assert batch[..i + 1] == batch[..i] + [batch[i]];
        i := i + 1;
      }
    }

    /**
     * The handling of one post of a pass, once its push has been answered:
     * a successful push is followed by marking the post synced; a failed
     * push, or a failed mark, by recording a failed attempt. `aborted` is
     * true when that last write fails too, which ends the pass.
     */
    method PushOne(post: Post, a: Attempt) returns (aborted: bool)
      requires store.Valid()
      modifies store
      ensures store.Valid()
      ensures aborted == Aborts(a)
      ensures store.posts == if aborted then old(store.posts) else Handle(old(store.posts), post.id, a)
    {
      var marked := false;
      if a.remoteOk {
        if a.markOk {
          store.MarkPostAsSynced(post.id);
          marked := true;
        }
      }
      aborted := false;
      if !marked {
        if a.bumpOk {
          store.UpdateSyncAttempt(post.id, a.at);
        } else {
          aborted := true;
        }
      }
    }

    /**
     * Asks the host platform for a deferred sync. When the platform has no
     * such facility, or registering fails, the coordinator syncs at once;
     * when registering succeeds nothing else happens now.
     */
    method RegisterBackgroundSync(supported: bool, registers: bool, queueOk: bool, attempts: seq<Attempt>)
      returns (ghost fellBack: bool, ghost snapshot: seq<Post>)
      requires Valid()
      requires |store.posts| <= |attempts|
      modifies this, store
      ensures Valid()
      ensures fellBack <==> !(supported && registers)
      ensures fellBack ==> RanOnce(queueOk, attempts, snapshot)
      ensures !fellBack ==> unchanged(this, store)
    {
      fellBack, snapshot := false, [];
      if supported {
        if !registers {
          fellBack := true;
          snapshot := SyncUnsyncedPosts(queueOk, attempts);
        }
      } else {
        fellBack := true;
        snapshot := SyncUnsyncedPosts(queueOk, attempts);
      }
    }

    /** Runs the coordinator locally at once. */
    method RequestImmediateSync(queueOk: bool, attempts: seq<Attempt>) returns (ghost snapshot: seq<Post>)
      requires Valid()
      requires |store.posts| <= |attempts|
      modifies this, store
      ensures Valid()
      ensures RanOnce(queueOk, attempts, snapshot)
    {
      snapshot := SyncUnsyncedPosts(queueOk, attempts);
    }
  }
}
