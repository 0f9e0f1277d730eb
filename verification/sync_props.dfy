/** What make_post and create_parent promise, branch by branch, stated over the
    functions of module PostSync. */
module SyncProperties {
  import opened Records
  import opened PostSync

  // ---- guards ------------------------------------------------------------

  /** The guards of make_post in terms of the store: an ancestor is fetched
      exactly when it is missing and is not the post itself, and create_parent
      is taken exactly for an answer or comment with both ancestors missing. */
  lemma GuardsOverStore(e: Env, posts: map<Value, Post>, d: Bunch)
    ensures NeedsRoot(d, LookupsOf(posts, d)) <==> d.rootId !in posts && d.rootId != d.uid
    ensures NeedsParent(d, LookupsOf(posts, d)) <==> d.parentId !in posts && d.parentId != d.uid
    ensures WantsParent(e, d, LookupsOf(posts, d)) <==>
      (d.kind == e.comment || d.kind == e.answer) && d.parentId !in posts && d.rootId !in posts
  {
  }

  // ---- create_parent -------------------------------------------------------

  /** A parent that does not exist remotely leaves posts and users alone. */
  lemma {:induction false} CreateParentNotFound(e: Env, s: Store, parentId: Value)
    requires Fetch(e, parentId).None?
    ensures CreateParentSpec(e, s, parentId) == ParentResult(s.(hits := s.hits + [parentId]), None)
  {
  }

  /** An unknown author is made and nothing else is written. */
  lemma {:induction false} CreateParentDefersUnknownAuthor(e: Env, s: Store, parentId: Value, raw: Raw)
    requires Fetch(e, parentId) == Some(raw)
    requires BunchData(raw, e.strip).authorId !in s.users
    ensures var r := CreateParentSpec(e, s, parentId);
      r.post.None? && r.store.posts == s.posts &&
      r.store.users == s.users + {BunchData(raw, e.strip).authorId}
  {
  }

  /** A post that already exists is returned as it is, without any write. */
  lemma {:induction false} CreateParentReturnsExisting(e: Env, s: Store, parentId: Value, raw: Raw)
    requires Fetch(e, parentId) == Some(raw)
    requires BunchData(raw, e.strip).authorId in s.users
    requires BunchData(raw, e.strip).uid in s.posts
    ensures var r := CreateParentSpec(e, s, parentId);
      r.post == Some(s.posts[BunchData(raw, e.strip).uid]) &&
      r.store.posts == s.posts && r.store.users == s.users
  {
  }

  /** Otherwise exactly one post is added, under the fetched uid, linked to the
      post stored under parentId (if any) and with no root. */
  lemma {:induction false} CreateParentAddsStub(e: Env, s: Store, parentId: Value, raw: Raw)
    requires Fetch(e, parentId) == Some(raw)
    requires BunchData(raw, e.strip).authorId in s.users
    requires BunchData(raw, e.strip).uid !in s.posts
    ensures var d := BunchData(raw, e.strip);
      var r := CreateParentSpec(e, s, parentId);
      var stub := NewPost(d, RefOf(Lookup(s.posts, parentId)), None);
      r.post == Some(stub) && r.store.users == s.users &&
      r.store.posts == s.posts[d.uid := stub] &&
      r.store.posts.Keys == s.posts.Keys + {d.uid} && |r.store.posts| == |s.posts| + 1
  {
  }

  // ---- make_post: the early returns ----------------------------------------

  /** A post missing remotely: one request, no write, no recursion. */
  lemma {:induction false} SyncNotFound(e: Env, s: Store, id: Value, depth: nat)
    requires Fetch(e, id).None?
    ensures Sync(e, s, id, depth) == Result(s.(hits := s.hits + [id]), NotFound)
  {
  }

  /** An unknown author is made, and the call returns: one request, no post
      written, no recursion. */
  lemma {:induction false} SyncDefersUnknownAuthor(e: Env, s: Store, id: Value, depth: nat, raw: Raw)
    requires Fetch(e, id) == Some(raw)
    requires BunchData(raw, e.strip).authorId !in s.users
    ensures Sync(e, s, id, depth) ==
      Result(Store(s.posts, s.users + {BunchData(raw, e.strip).authorId}, s.hits + [id]), AuthorCreated)
  {
  }

  // ---- make_post: the recursion --------------------------------------------

  /** The requests logged by the root recursion, or by both recursions, stay
      at the head of the final request log. */
  lemma {:induction false} AncestorsThenWrite(e: Env, s: Store, id: Value, depth: nat, raw: Raw, step: Store)
    requires Fetch(e, id) == Some(raw)
    requires var d := BunchData(raw, e.strip); d.authorId in s.users
    requires var d := BunchData(raw, e.strip);
      var s1 := s.(hits := s.hits + [id]);
      var look := LookupsOf(s1.posts, d);
      step == Descend(e, s1, NeedsRoot(d, look), d.rootId, depth).store ||
      (!Descend(e, s1, NeedsRoot(d, look), d.rootId, depth).exhausted &&
       step == Ancestors(e, s1, d, look, depth).store)
    ensures step.hits <= Sync(e, s, id, depth).store.hits
  {
    var d := BunchData(raw, e.strip);
    var s1 := s.(hits := s.hits + [id]);
    var look := LookupsOf(s1.posts, d);
    var a := Ancestors(e, s1, d, look, depth);
    assert step.hits <= a.store.hits;
    var r := Sync(e, s, id, depth);
    assert a.store.hits <= r.store.hits by {
      if !a.exhausted {
        assert r == Save(e, a.store, d, look);
      }
    }
  }

  /** The request after the post's own one is for the root when the root is
      missing locally and is not the post itself. */
  lemma {:induction false} SyncFetchesRootFirst(e: Env, s: Store, id: Value, depth: nat, raw: Raw)
    requires Fetch(e, id) == Some(raw)
    requires var d := BunchData(raw, e.strip);
      d.authorId in s.users && d.rootId !in s.posts && d.rootId != d.uid
    requires depth > 0
    ensures var r := Sync(e, s, id, depth);
      |r.store.hits| > |s.hits| + 1 && r.store.hits[|s.hits| + 1] == BunchData(raw, e.strip).rootId
  {
    var d := BunchData(raw, e.strip);
    var s1 := s.(hits := s.hits + [id]);
    var look := LookupsOf(s1.posts, d);
    var first := Descend(e, s1, NeedsRoot(d, look), d.rootId, depth);
    assert first.store.hits[|s1.hits|] == d.rootId;
    AncestorsThenWrite(e, s, id, depth, raw, first.store);
  }

  /** With the root present (or the post its own root), the next request is for
      the parent when that is missing locally and is not the post itself. */
  lemma {:induction false} SyncFetchesParentNext(e: Env, s: Store, id: Value, depth: nat, raw: Raw)
    requires Fetch(e, id) == Some(raw)
    requires var d := BunchData(raw, e.strip);
      d.authorId in s.users && (d.rootId in s.posts || d.rootId == d.uid) &&
      d.parentId !in s.posts && d.parentId != d.uid
    requires depth > 0
    ensures var r := Sync(e, s, id, depth);
      |r.store.hits| > |s.hits| + 1 && r.store.hits[|s.hits| + 1] == BunchData(raw, e.strip).parentId
  {
    var d := BunchData(raw, e.strip);
    var s1 := s.(hits := s.hits + [id]);
    var look := LookupsOf(s1.posts, d);
    assert Descend(e, s1, NeedsRoot(d, look), d.rootId, depth) == Step(s1, false);
    var second := Descend(e, s1, NeedsParent(d, look), d.parentId, depth);
    assert second.store.hits[|s1.hits|] == d.parentId;
    AncestorsThenWrite(e, s, id, depth, raw, second.store);
  }

  /** When both recursions are needed and the root one is not cut off, the
      parent recursion follows it: its request comes right after every
      request the root recursion made. */
  lemma {:induction false} SyncFetchesParentAfterRoot(e: Env, s: Store, id: Value, depth: nat, raw: Raw)
    requires Fetch(e, id) == Some(raw)
    requires var d := BunchData(raw, e.strip);
      d.authorId in s.users && d.rootId !in s.posts && d.rootId != d.uid &&
      d.parentId !in s.posts && d.parentId != d.uid
    requires depth > 0
    requires !Descend(e, s.(hits := s.hits + [id]), true, BunchData(raw, e.strip).rootId, depth).exhausted
    ensures var root := Descend(e, s.(hits := s.hits + [id]), true, BunchData(raw, e.strip).rootId, depth);
      var r := Sync(e, s, id, depth);
      |r.store.hits| > |root.store.hits| && r.store.hits[|root.store.hits|] == BunchData(raw, e.strip).parentId
  {
    var d := BunchData(raw, e.strip);
    var s1 := s.(hits := s.hits + [id]);
    var look := LookupsOf(s1.posts, d);
    var root := Descend(e, s1, true, d.rootId, depth);
    var second := Descend(e, root.store, true, d.parentId, depth);
    assert NeedsRoot(d, look) && NeedsParent(d, look);
    assert Ancestors(e, s1, d, look, depth) == second;
    assert second.store.hits[|root.store.hits|] == d.parentId;
    AncestorsThenWrite(e, s, id, depth, raw, second.store);
  }

  /** A post that is its own root and its own parent makes no recursive call:
      the only further request is create_parent's, on its branch. */
  lemma {:induction false} SyncSelfRootedDoesNotRecurse(e: Env, s: Store, id: Value, depth: nat, raw: Raw)
    requires Fetch(e, id) == Some(raw)
    requires var d := BunchData(raw, e.strip);
      d.authorId in s.users && d.rootId == d.uid && d.parentId == d.uid
    ensures var d := BunchData(raw, e.strip);
      var r := Sync(e, s, id, depth);
      r == Save(e, s.(hits := s.hits + [id]), d, LookupsOf(s.posts, d)) &&
      r.store.hits == s.hits + [id] + (if r.outcome == ParentRequested then [d.parentId] else [])
  {
  }

  /** A recursion cut off by the depth limit ends the call without writing the
      post. */
  lemma {:induction false} SyncExhaustedWritesNothing(e: Env, s: Store, id: Value, depth: nat, raw: Raw)
    requires Fetch(e, id) == Some(raw)
    requires BunchData(raw, e.strip).authorId in s.users
    requires var d := BunchData(raw, e.strip);
      Ancestors(e, s.(hits := s.hits + [id]), d, LookupsOf(s.posts, d), depth).exhausted
    ensures var d := BunchData(raw, e.strip);
      Sync(e, s, id, depth) ==
        Result(Ancestors(e, s.(hits := s.hits + [id]), d, LookupsOf(s.posts, d), depth).store, Exhausted)
  {
  }

  // ---- make_post: the write ------------------------------------------------

  /** An existing post is updated in place: only its own entry changes, every
      field is overwritten, and parent and root are the lookups taken before
      the recursion. Nothing is deleted. */
  lemma {:induction false} SyncUpdatesExisting(e: Env, s: Store, id: Value, depth: nat, raw: Raw)
    requires Fetch(e, id) == Some(raw)
    requires var d := BunchData(raw, e.strip); d.authorId in s.users && d.uid in s.posts
    requires var d := BunchData(raw, e.strip);
      !Ancestors(e, s.(hits := s.hits + [id]), d, LookupsOf(s.posts, d), depth).exhausted
    ensures var d := BunchData(raw, e.strip);
      var mid := Ancestors(e, s.(hits := s.hits + [id]), d, LookupsOf(s.posts, d), depth).store;
      var r := Sync(e, s, id, depth);
      d.uid in mid.posts && r.outcome == Updated &&
      r.store == mid.(posts := mid.posts[d.uid := Overwrite(mid.posts[d.uid], d,
        RefOf(Lookup(s.posts, d.parentId)), RefOf(Lookup(s.posts, d.rootId)))]) &&
      r.store.posts.Keys == mid.posts.Keys && s.posts.Keys <= r.store.posts.Keys
  {
  }

  /** A new post of a type other than answer/comment, or whose parent or root was
      present before the recursion, is created: one entry under its uid, parent
      from the pre-recursion lookup, no root. */
  lemma {:induction false} SyncCreatesNew(e: Env, s: Store, id: Value, depth: nat, raw: Raw)
    requires Fetch(e, id) == Some(raw)
    requires var d := BunchData(raw, e.strip); d.authorId in s.users && d.uid !in s.posts
    requires var d := BunchData(raw, e.strip); !WantsParent(e, d, LookupsOf(s.posts, d))
    requires var d := BunchData(raw, e.strip);
      !Ancestors(e, s.(hits := s.hits + [id]), d, LookupsOf(s.posts, d), depth).exhausted
    ensures var d := BunchData(raw, e.strip);
      var mid := Ancestors(e, s.(hits := s.hits + [id]), d, LookupsOf(s.posts, d), depth).store;
      var r := Sync(e, s, id, depth);
      r.outcome == Created &&
      r.store == mid.(posts := mid.posts[d.uid := NewPost(d, RefOf(Lookup(s.posts, d.parentId)), None)]) &&
      r.store.posts.Keys == mid.posts.Keys + {d.uid} && r.store.posts[d.uid].root.None?
  {
  }

  /** A new answer or comment with neither parent nor root present before the
      recursion goes to create_parent(parent_id) on the post-recursion store,
      and make_post writes nothing itself: the post is not added unless the
      record fetched for parent_id carries the post's own uid. */
  lemma {:induction false} SyncRequestsParent(e: Env, s: Store, id: Value, depth: nat, raw: Raw)
    requires Fetch(e, id) == Some(raw)
    requires var d := BunchData(raw, e.strip); d.authorId in s.users && d.uid !in s.posts
    requires var d := BunchData(raw, e.strip); WantsParent(e, d, LookupsOf(s.posts, d))
    requires var d := BunchData(raw, e.strip);
      !Ancestors(e, s.(hits := s.hits + [id]), d, LookupsOf(s.posts, d), depth).exhausted
    ensures var d := BunchData(raw, e.strip);
      var mid := Ancestors(e, s.(hits := s.hits + [id]), d, LookupsOf(s.posts, d), depth).store;
      var r := Sync(e, s, id, depth);
      r == Result(CreateParentSpec(e, mid, d.parentId).store, ParentRequested) &&
      (d.uid !in mid.posts &&
       (Fetch(e, d.parentId).None? || BunchData(Fetch(e, d.parentId).value, e.strip).uid != d.uid)
       ==> d.uid !in r.store.posts)
  {
    var d := BunchData(raw, e.strip);
    var mid := Ancestors(e, s.(hits := s.hits + [id]), d, LookupsOf(s.posts, d), depth).store;
    if Fetch(e, d.parentId).Some? && d.uid !in mid.posts {
      var p := BunchData(Fetch(e, d.parentId).value, e.strip);
      if p.authorId in mid.users && p.uid !in mid.posts {
        CreateParentAddsStub(e, mid, d.parentId, Fetch(e, d.parentId).value);
      }
    }
  }
}
