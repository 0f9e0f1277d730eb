/** The loader of biostar/forum/management/commands/load.py as a stateful
    object: the local posts and users it writes, the requests it makes, and
    make_post, create_parent and posts_from_api as methods that update them.
    Each method is proved to leave the state the functions of PostSync and
    Batch describe. */
module Loading {
  import opened Records
  import opened PostSync
  import opened Batch

  /** The number of remote posts posts_from_api walks down from. */
  const NPOSTS: nat := 306064

  class Loader {
    const env: Env
    var posts: map<Value, Post>
    var users: set<Value>
    var hits: seq<Value>

    /** The state as a value, for the specifications. */
    function Snapshot(): Store
      reads this
    {
      Store(posts, users, hits)
    }

    constructor (env: Env, posts: map<Value, Post>, users: set<Value>)
      ensures this.env == env && Snapshot() == Store(posts, users, [])
    {
      this.env := env;
      this.posts := posts;
      this.users := users;
      this.hits := [];
    }

    /** get_data and the "no data or 404" test: logs the request and returns
        the record, if the post exists remotely. */
    method Request(id: Value) returns (found: Option<Raw>)
      modifies this`hits
      ensures hits == old(hits) + [id]
      ensures found == Fetch(env, id)
    {
      hits := hits + [id];
      if id in env.remote && env.remote[id] != map[] {
        found := Some(env.remote[id]);
      } else {
        found := None;
      }
    }

    /** create_parent(parentId) */
    method CreateParent(parentId: Value) returns (post: Option<Post>)
      modifies this
      ensures var r := CreateParentSpec(env, old(Snapshot()), parentId);
        Snapshot() == r.store && post == r.post
    {
      var found := Request(parentId);
      if found.None? {
        return None;
      }
      var data := BunchData(found.value, env.strip);
      var parent := Lookup(posts, parentId);
      post := Lookup(posts, data.uid);
      if data.authorId !in users {
        users := users + {data.authorId};
        return None;
      }
      if post.None? {
        var p := NewPost(data, RefOf(parent), None);
        posts := posts[data.uid := p];
        post := Some(p);
      }
    }

    /** make_post(postid), with `depth` further nested calls allowed before the
        recursion limit; `Exhausted` means the limit was hit somewhere below. */
    method MakePost(postid: Value, depth: nat) returns (outcome: Outcome)
      modifies this
      decreases depth, 2
      ensures var r := Sync(env, old(Snapshot()), postid, depth);
        Snapshot() == r.store && outcome == r.outcome
    {
      var found := Request(postid);
      if found.None? {
        return NotFound;
      }
      var data := BunchData(found.value, env.strip);
      var parent := Lookup(posts, data.parentId);
      var root := Lookup(posts, data.rootId);
      var post := Lookup(posts, data.uid);
      if data.authorId !in users {
        users := users + {data.authorId};
        return AuthorCreated;
      }
      var look := Lookups(parent, root, post);
      ghost var s1 := Snapshot();
      var exhausted := Recurse(root.None? && data.rootId != data.uid, data.rootId, depth);
      if exhausted {
        return Exhausted;
      }
      exhausted := Recurse(parent.None? && data.parentId != data.uid, data.parentId, depth);
      if exhausted {
        return Exhausted;
      }
      assert Ancestors(env, s1, data, look, depth) == Step(Snapshot(), false);
      outcome := Write(data, look);
    }

    /** One of make_post's recursive calls, made only when `needed`. */
    method Recurse(needed: bool, target: Value, depth: nat) returns (exhausted: bool)
      modifies this
      decreases depth, 0
      ensures Descend(env, old(Snapshot()), needed, target, depth) == Step(Snapshot(), exhausted)
    {
      if !needed {
        exhausted := false;
      } else if depth == 0 {
        exhausted := true;
      } else {
        var below: nat := depth - 1;
        DescendCallsSync(env, Snapshot(), target, depth, below);
        var sub := MakePost(target, below);
        exhausted := sub == Exhausted;
      }
    }

    /** The end of make_post, with the lookups it took before recursing: update
        the existing row, or create the parent instead, or create the post. */
    method Write(data: Bunch, look: Lookups) returns (outcome: Outcome)
      modifies this
      ensures var r := Save(env, old(Snapshot()), data, look);
        Snapshot() == r.store && outcome == r.outcome
    {
      if look.post.Some? {
        if data.uid in posts {
          posts := posts[data.uid := Overwrite(posts[data.uid], data, RefOf(look.parent), RefOf(look.root))];
        }
        outcome := Updated;
      } else if (data.kind == env.comment || data.kind == env.answer) && look.parent.None? && look.root.None? {
        var _ := CreateParent(data.parentId);
        outcome := ParentRequested;
      } else {
        posts := posts[data.uid := NewPost(data, RefOf(look.parent), None)];
        outcome := Created;
      }
    }

    /** One request of the walk: make_post on the next id below, after the
        walk so far has left the store as it is now. */
    method Visit(ghost start: Store, ghost before: seq<int>, nposts: nat, postid: int, depth: nat)
        returns (outcome: Outcome)
      modifies this
      requires 0 < postid <= nposts && before == Descending(nposts)[..nposts - postid]
      requires SyncAll(env, start, Ids(before), depth) == Step(Snapshot(), false)
      ensures before + [postid] == Descending(nposts)[..nposts - postid + 1]
      ensures (before + [postid])[..|before|] == before
      ensures Pauses(before + [postid]) == Pauses(before) + (if postid % 50 == 0 then [postid] else [])
      ensures SyncAll(env, start, Ids(before + [postid]), depth) == Step(Snapshot(), outcome == Exhausted)
    {
      outcome := MakePost(Int(postid), depth);
      WalkStep(env, start, before, nposts, postid, depth, Snapshot(), outcome);
    }

    /** posts_from_api, walking down from `nposts`: every id in turn, with a
        pause before each multiple of 50. A run cut off by the recursion limit
        stops at the id that hit it, as the uncaught error would. */
    method PostsFromApi(nposts: nat, depth: nat) returns (visited: seq<int>, pauses: seq<int>, aborted: bool)
      modifies this
      ensures visited <= Descending(nposts)
      ensures !aborted ==> visited == Descending(nposts)
      ensures pauses == Pauses(visited)
      ensures var r := SyncAll(env, old(Snapshot()), Ids(visited), depth);
        Snapshot() == r.store && aborted == r.exhausted
      ensures aborted ==>
        (|visited| > 0 && !SyncAll(env, old(Snapshot()), Ids(visited[..|visited| - 1]), depth).exhausted)
    {
      visited, pauses, aborted := [], [], false;
      ghost var start := Snapshot();
      var postid: int := nposts;
      while postid > 0 && !aborted
        invariant 0 <= postid <= nposts
        invariant visited == Descending(nposts)[..nposts - postid]
        invariant pauses == Pauses(visited)
        invariant SyncAll(env, start, Ids(visited), depth) == Step(Snapshot(), aborted)
        invariant aborted ==>
          (|visited| > 0 && !SyncAll(env, start, Ids(visited[..|visited| - 1]), depth).exhausted)
        decreases postid
      {
        ghost var before := visited;
        visited := visited + [postid];
        if postid % 50 == 0 {
          pauses := pauses + [postid];
        }
        var outcome := Visit(start, before, nposts, postid, depth);
        aborted := outcome == Exhausted;
        postid := postid - 1;
      }
    }
  }

  /** The walk of the source's hard-coded run pauses 6121 times. */
  lemma ApiRunPauses()
    ensures |Pauses(Descending(NPOSTS))| == 6121
  {
    PauseCount(NPOSTS);
  }

  /** The hard-coded run makes 14 requests before its first pause, which falls
      before id 306050. */
  lemma FirstPauseAfter14()
    ensures Descending(NPOSTS)[14] == 306050
    ensures Pauses(Descending(NPOSTS)[..14]) == []
    ensures Pauses(Descending(NPOSTS)[..15]) == [306050]
  {
    var d := Descending(NPOSTS);
    var head := d[..14];
    PausesNone(head);
    assert d[..15] == head + [d[14]];
    PausesSnoc(head, d[14]);
  }
}
