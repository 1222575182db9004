/**
 * The client's durable table of posts (an IndexedDB table reached through
 * Dexie), keyed by post id. The table is a map from id to post; every
 * mutating operation of the store changes it in place.
 */
module LocalStore {
  import opened Base

  /**
   * A post as the client keeps it. `synced` is 0 while the server has not
   * acknowledged the post and 1 afterwards; the two attempt fields are
   * optional, as in the record the client writes.
   */
  datatype Post = Post(
    id: string,
    title: string,
    description: string,
    synced: int,
    createdAt: int,
    syncAttempts: Option<nat>,
    lastSyncAttempt: Option<int>)

  function IdOf(p: Post): string { p.id }

  function CreatedAt(p: Post): int { p.createdAt }

  /** The failed pushes counted so far; a post without a counter has had none. */
  function AttemptsSoFar(p: Post): nat
  {
    match p.syncAttempts
    case Some(n) => n
    case None => 0
  }

  /** Every entry of the table is stored under its own id. */
  ghost predicate Keyed(m: map<string, Post>)
  {
    forall id :: id in m ==> m[id].id == id
  }

  /** `r` holds every post of `m` exactly once and nothing else. */
  ghost predicate ListsAll(r: seq<Post>, m: map<string, Post>)
  {
    && DistinctKeys(r, IdOf)
    && (forall p :: p in r ==> p.id in m && m[p.id] == p)
    && (forall id :: id in m ==> m[id] in r)
  }

  /** `r` holds every post of `m` whose `synced` is 0 exactly once, and nothing else. */
  ghost predicate ListsUnsynced(r: seq<Post>, m: map<string, Post>)
  {
    && DistinctKeys(r, IdOf)
    && (forall p :: p in r ==> p.id in m && m[p.id] == p && p.synced == 0)
    && (forall id :: id in m && m[id].synced == 0 ==> m[id] in r)
  }

  /**
   * The table after marking `id` synced: that post gets `synced = 1` and
   * nothing else changes; an absent id leaves the table as it was.
   */
  function MarkSynced(m: map<string, Post>, id: string): (r: map<string, Post>)
    ensures r.Keys == m.Keys
    ensures forall k :: k in m && k != id ==> r[k] == m[k]
    ensures id in m ==> r[id].synced == 1 && r[id].(synced := m[id].synced) == m[id]
  {
    if id in m then m[id := m[id].(synced := 1)] else m
  }

  /**
   * The table after recording a failed push of `id` at time `now`: its
   * counter goes up by one (an absent counter counting as 0) and its last
   * attempt becomes `now`; nothing else changes, and an absent id leaves
   * the table as it was.
   */
  function RecordAttempt(m: map<string, Post>, id: string, now: int): (r: map<string, Post>)
    ensures r.Keys == m.Keys
    ensures forall k :: k in m && k != id ==> r[k] == m[k]
    ensures id in m ==> AttemptsSoFar(r[id]) == AttemptsSoFar(m[id]) + 1
    ensures id in m ==> r[id].lastSyncAttempt == Some(now)
    ensures id in m ==>
      r[id].(syncAttempts := m[id].syncAttempts, lastSyncAttempt := m[id].lastSyncAttempt) == m[id]
  {
    if id in m then
      m[id := m[id].(syncAttempts := Some(AttemptsSoFar(m[id]) + 1), lastSyncAttempt := Some(now))]
    else m
  }

  datatype StoreError = DuplicateKey

  class PostStore {
    var posts: map<string, Post>

    ghost predicate Valid()
      reads this
    {
      Keyed(posts)
    }

    constructor ()
      ensures Valid() && posts == map[]
    {
      posts := map[];
    }

    /** Adds a post under its id; a post already stored under that id is a failure. */
    method AddPost(post: Post) returns (r: Result<string, StoreError>)
      requires Valid()
      modifies this
      ensures Valid()
      ensures post.id in old(posts) ==> r == Failure(DuplicateKey) && posts == old(posts)
      ensures post.id !in old(posts) ==> r == Success(post.id) && posts == old(posts)[post.id := post]
    {
      if post.id in posts {
        return Failure(DuplicateKey);
      }
      posts := posts[post.id := post];
      return Success(post.id);
    }

    /** Every stored post, once each, newest first. */
    method GetAllPosts() returns (r: seq<Post>)
      requires Valid()
      ensures ListsAll(r, posts)
      ensures NewestFirst(r, CreatedAt)
    {
      r := [];
      var rest := posts.Keys;
      while rest != {}
        invariant rest <= posts.Keys
        invariant NewestFirst(r, CreatedAt) && DistinctKeys(r, IdOf)
        invariant forall p :: p in r ==> p.id in posts && posts[p.id] == p && p.id !in rest
        invariant forall id :: id in posts && id !in rest ==> posts[id] in r
        decreases rest
      {
        var id :| id in rest;
        InsertNewestKeepsDistinct(posts[id], r, CreatedAt, IdOf);
        ghost var before := r;
        r := InsertNewest(posts[id], r, CreatedAt);
        forall p ensures p in r <==> p in before || p == posts[id] {
          assert p in r <==> p in multiset(r);
          assert p in before <==> p in multiset(before);
        }
        rest := rest - {id};
      }
    }

    /** Every stored post whose `synced` is 0, once each. */
    method GetUnsyncedPosts() returns (r: seq<Post>)
      requires Valid()
      ensures ListsUnsynced(r, posts)
      ensures |r| <= |posts|
    {
      r := [];
      var rest := posts.Keys;
      while rest != {}
        invariant rest <= posts.Keys
        invariant DistinctKeys(r, IdOf)
        invariant forall p :: p in r ==> p.id in posts && posts[p.id] == p && p.synced == 0 && p.id !in rest
        invariant forall id :: id in posts && id !in rest && posts[id].synced == 0 ==> posts[id] in r
        decreases rest
      {
        var id :| id in rest;
        if posts[id].synced == 0 {
          r := r + [posts[id]];
        }
        rest := rest - {id};
      }
      DistinctKeysBound(r, IdOf, posts.Keys);
    }

    method MarkPostAsSynced(id: string)
      requires Valid()
      modifies this
      ensures Valid()
      ensures posts == MarkSynced(old(posts), id)
    {
      if id in posts {
        posts := posts[id := posts[id].(synced := 1)];
      }
    }

    /** Reads the post, then writes back its bumped counter and the time of this attempt. */
    method UpdateSyncAttempt(id: string, now: int)
      requires Valid()
      modifies this
      ensures Valid()
      ensures posts == RecordAttempt(old(posts), id, now)
    {
      if id in posts {
        var post := posts[id];
        posts := posts[id := post.(syncAttempts := Some(AttemptsSoFar(post) + 1), lastSyncAttempt := Some(now))];
      }
    }

    method DeletePost(id: string)
      requires Valid()
      modifies this
      ensures Valid()
      ensures posts.Keys == old(posts).Keys - {id}
      ensures forall k :: k in posts ==> posts[k] == old(posts)[k]
    {
      posts := posts - {id};
    }

    method PostExists(id: string) returns (b: bool)
      ensures b <==> id in posts
    {
      b := id in posts;
    }

    method ClearAllPosts()
      modifies this
      ensures Valid()
      ensures posts == map[]
    {
      posts := map[];
    }
  }
}
