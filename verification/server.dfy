/**
 * The remote reconciliation service: the server's list of posts with an
 * idempotent create keyed by id, a newest-first listing, lookup, delete
 * and clear, and the validation of a create request.
 */
module Server {
  import opened Base

  /** A post as the server stores it; `syncedAt` is the time the server accepted it. */
  datatype StoredPost = StoredPost(id: string, title: string, description: string, createdAt: int, syncedAt: int)

  function IdOf(p: StoredPost): string { p.id }

  function CreatedAt(p: StoredPost): int { p.createdAt }

  /** At most one record per id. */
  predicate UniqueIds(s: seq<StoredPost>)
  {
    DistinctKeys(s, IdOf)
  }

  /** The number of records in `s` that carry `id`. */
  function CountId(s: seq<StoredPost>, id: string): nat
    decreases |s|
  {
    if s == [] then 0
    else (if s[0].id == id then 1 else 0) + CountId(s[1..], id)
  }

  /** The listing: every stored post, newest first, the stored list itself untouched. */
  function AllPosts(s: seq<StoredPost>): (r: seq<StoredPost>)
    ensures NewestFirst(r, CreatedAt)
    ensures multiset(r) == multiset(s)
  {
    SortNewest(s, CreatedAt)
  }

  /** The first record carrying `id`, if there is one. */
  function FindById(s: seq<StoredPost>, id: string): (r: Option<StoredPost>)
    ensures r.None? <==> forall p :: p in s ==> p.id != id
    ensures r.Some? ==> exists k :: 0 <= k < |s| && s[k] == r.value && r.value.id == id &&
                                    forall j :: 0 <= j < k ==> s[j].id != id
    decreases |s|
  {
    if s == [] then None
    else if s[0].id == id then Some(s[0])
    else
      var r := FindById(s[1..], id);
      assert forall p :: p in s ==> p == s[0] || p in s[1..];
      assert r.Some? ==> forall k :: 0 <= k < |s[1..]| ==> s[1..][k] == s[k + 1];
      r
  }

  /** The list without any record carrying `id`, the others kept in order. */
  function Without(s: seq<StoredPost>, id: string): (r: seq<StoredPost>)
    ensures forall p :: p in r <==> p in s && p.id != id
    ensures |r| == |s| - CountId(s, id)
    decreases |s|
  {
    if s == [] then []
    else
      assert forall p :: p in s <==> p == s[0] || p in s[1..];
      (if s[0].id == id then [] else [s[0]]) + Without(s[1..], id)
  }

  /** The outcome of a create: the list afterwards, whether the id was already there, and the record returned. */
  datatype Inserted = Inserted(posts: seq<StoredPost>, duplicate: bool, post: StoredPost)

  /**
   * Idempotent create: a post whose id is already stored is reported as a
   * duplicate together with the stored record, and the list is unchanged;
   * otherwise the post is appended.
   */
  function Insert(s: seq<StoredPost>, post: StoredPost): (r: Inserted)
    ensures r.duplicate <==> exists p :: p in s && p.id == post.id
    ensures r.duplicate ==> r.posts == s && r.post in s && r.post.id == post.id
    ensures !r.duplicate ==> r.posts == s + [post] && r.post == post
  {
    match FindById(s, post.id)
    case Some(existing) => Inserted(s, true, existing)
    case None => Inserted(s + [post], false, post)
  }

  /** With at most one record per id, `id` is carried once if present and never otherwise. */
  lemma {:induction false} CountUnique(s: seq<StoredPost>, id: string)
    requires UniqueIds(s)
    ensures CountId(s, id) == if exists p :: p in s && p.id == id then 1 else 0
    decreases |s|
  {
    if s != [] {
      assert UniqueIds(s[1..]) by {
        forall i, j | 0 <= i < j < |s[1..]| ensures IdOf(s[1..][i]) != IdOf(s[1..][j]) {
          assert IdOf(s[i + 1]) != IdOf(s[j + 1]);
        }
      }
      CountUnique(s[1..], id);
      assert forall p :: p in s <==> p == s[0] || p in s[1..];
      if s[0].id == id {
        forall p | p in s[1..] ensures p.id != id {
          var j :| 0 <= j < |s[1..]| && s[1..][j] == p;
          assert IdOf(s[0]) != IdOf(s[j + 1]);
        }
      }
    }
  }

  /** Creating keeps at most one record per id. */
  lemma InsertKeepsUnique(s: seq<StoredPost>, post: StoredPost)
    requires UniqueIds(s)
    ensures UniqueIds(Insert(s, post).posts)
  {
  }

  /**
   * Creating the same id twice leaves exactly one record with that id; the
   * second create reports a duplicate, returns the record the first one
   * left, and changes nothing.
   */
  lemma InsertTwice(s: seq<StoredPost>, post: StoredPost, again: StoredPost)
    requires UniqueIds(s)
    requires again.id == post.id
    ensures var first := Insert(s, post);
      var second := Insert(first.posts, again);
      && second.duplicate
      && second.posts == first.posts
      && second.post == first.post
      && CountId(second.posts, post.id) == 1
  {
    var first := Insert(s, post);
    InsertKeepsUnique(s, post);
    assert first.post in first.posts;
    CountUnique(first.posts, post.id);
    var second := Insert(first.posts, again);
    var k :| 0 <= k < |first.posts| && first.posts[k] == second.post && forall j :: 0 <= j < k ==> first.posts[j].id != post.id;
    var k' :| 0 <= k' < |first.posts| && first.posts[k'] == first.post;
    if k != k' {
      assert IdOf(first.posts[k]) == IdOf(first.posts[k']);
    }
  }

  /** Deleting reports a change exactly when some record carried the id. */
  lemma {:induction false} WithoutShrinks(s: seq<StoredPost>, id: string)
    ensures |Without(s, id)| != |s| <==> exists p :: p in s && p.id == id
    decreases |s|
  {
    if s != [] {
      WithoutShrinks(s[1..], id);
      assert forall p :: p in s <==> p == s[0] || p in s[1..];
    }
  }

  /** Deleting keeps the order of the remaining records: it distributes over concatenation. */
  lemma {:induction false} WithoutDistributes(s: seq<StoredPost>, t: seq<StoredPost>, id: string)
    ensures Without(s + t, id) == Without(s, id) + Without(t, id)
    decreases |s|
  {
    if s != [] {
      assert (s + t)[0] == s[0] && (s + t)[1..] == s[1..] + t;
      WithoutDistributes(s[1..], t, id);
    } else {
      assert s + t == t;
    }
  }

  /** Deleting keeps at most one record per id. */
  lemma {:induction false} WithoutKeepsUnique(s: seq<StoredPost>, id: string)
    requires UniqueIds(s)
    ensures UniqueIds(Without(s, id))
    decreases |s|
  {
    if s != [] {
      assert UniqueIds(s[1..]) by {
        forall i, j | 0 <= i < j < |s[1..]| ensures IdOf(s[1..][i]) != IdOf(s[1..][j]) {
          assert IdOf(s[i + 1]) != IdOf(s[j + 1]);
        }
      }
      WithoutKeepsUnique(s[1..], id);
      var rest := Without(s[1..], id);
      if s[0].id != id {
        forall p | p in rest ensures p.id != s[0].id {
          var j :| 0 <= j < |s[1..]| && s[1..][j] == p;
          assert IdOf(s[0]) != IdOf(s[j + 1]);
        }
        assert Without(s, id) == [s[0]] + rest;
      }
    }
  }

  /** The fields of a create request as they arrive; an absent field is `None`. */
  datatype CreateRequest = CreateRequest(
    id: Option<string>,
    title: Option<string>,
    description: Option<string>,
    createdAt: Option<int>)

  /** A required text field is given when it is present and not empty. */
  predicate Given(f: Option<string>)
  {
    f.Some? && f.value != ""
  }

  /**
   * The record a create request asks to store, or `None` when one of the
   * required fields is missing. A missing (or zero) creation time becomes
   * `now`; `now` is also the time of acceptance.
   */
  function Admit(req: CreateRequest, now: int): (r: Option<StoredPost>)
    ensures r.Some? <==> Given(req.id) && Given(req.title) && Given(req.description)
    ensures r.Some? ==>
      && r.value.id == req.id.value && r.value.title == req.title.value
      && r.value.description == req.description.value && r.value.syncedAt == now
    ensures r.Some? && (req.createdAt.None? || req.createdAt == Some(0)) ==> r.value.createdAt == now
    ensures r.Some? && req.createdAt.Some? && req.createdAt.value != 0 ==> r.value.createdAt == req.createdAt.value
  {
    if !(Given(req.id) && Given(req.title) && Given(req.description)) then None
    else
      var createdAt := if req.createdAt.Some? && req.createdAt.value != 0 then req.createdAt.value else now;
      Some(StoredPost(req.id.value, req.title.value, req.description.value, createdAt, now))
  }

  /** The body of an answer to a create request. */
  datatype Reply = MissingFields | Accepted(post: StoredPost, duplicate: bool)

  /** The server's list of posts, which carries at most one record per id. */
  class PostServer {
    var posts: seq<StoredPost>

    ghost predicate Valid()
      reads this
    {
      UniqueIds(posts)
    }

    /** The list starts empty. */
    constructor ()
      ensures Valid() && posts == []
    {
      posts := [];
    }

    /** The idempotent create: a stored id is reported as a duplicate with its record, a new one is appended. */
    method InsertPost(post: StoredPost) returns (duplicate: bool, stored: StoredPost)
      requires Valid()
      modifies this
      ensures Valid()
      ensures Inserted(posts, duplicate, stored) == Insert(old(posts), post)
    {
      var existing := FindById(posts, post.id);
      if existing.Some? {
        return true, existing.value;
      }
      InsertKeepsUnique(posts, post);
      posts := posts + [post];
      return false, post;
    }

    /** Removes every record carrying `id`; reports whether the list changed. */
    method DeletePost(id: string) returns (removed: bool)
      requires Valid()
      modifies this
      ensures Valid()
      ensures posts == Without(old(posts), id)
      ensures removed <==> exists p :: p in old(posts) && p.id == id
    {
      var before := |posts|;
      WithoutShrinks(posts, id);
      WithoutKeepsUnique(posts, id);
      posts := Without(posts, id);
      removed := before != |posts|;
    }

    /** Empties the list and reports how many records it held. */
    method ClearPosts() returns (count: nat)
      modifies this
      ensures Valid()
      ensures count == |old(posts)| && posts == []
    {
      count := |posts|;
      posts := [];
    }

    /**
     * A create request: 400 when a required field is missing, otherwise the
     * idempotent create, answered 200 for a duplicate and 201 for a new record.
     */
    method CreatePost(req: CreateRequest, now: int) returns (status: int, reply: Reply)
      requires Valid()
      modifies this
      ensures Valid()
      ensures status == 400 <==> Admit(req, now).None?
      ensures status == 400 ==> reply == MissingFields && posts == old(posts)
      ensures status != 400 ==>
        var r := Insert(old(posts), Admit(req, now).value);
        && posts == r.posts
        && reply == Accepted(r.post, r.duplicate)
        && status == (if r.duplicate then 200 else 201)
    {
      var admitted := Admit(req, now);
      if admitted.None? {
        return 400, MissingFields;
      }
      var duplicate, stored := InsertPost(admitted.value);
      status := if duplicate then 200 else 201;
      reply := Accepted(stored, duplicate);
    }
  }
}
