/** The post synchroniser of biostar/forum/management/commands/load.py, as
    functions over the local store: make_post (Sync, Ancestors, Descend, Save)
    and create_parent (CreateParentSpec). The class Loader in module Loading runs the
    same steps imperatively and is proved equal to these functions. */
module PostSync {
  import opened Records

  /** A local forum post. `parent` and `root` hold the uid of the referenced post. */
  datatype Post = Post(
    uid: Value, tagVal: Value, title: Value, content: Value, kind: Value,
    html: Value, viewCount: Value, creationDate: Value, author: Value,
    lasteditDate: Value, status: Value, parent: Option<Value>, root: Option<Value>)

  /** What the loader reads and writes: the posts by uid, the uids of the known
      users, and every remote request made, in order. */
  datatype Store = Store(posts: map<Value, Post>, users: set<Value>, hits: seq<Value>)

  /** The remote site and the collaborators the loader calls but that are not
      part of this model: util.strip_tags and the Post model's type codes. */
  datatype Env = Env(remote: map<Value, Raw>, strip: Value -> Value, answer: Value, comment: Value)

  /** Which branch ended a call of make_post. `Exhausted` stands for the
      interpreter's recursion limit being reached, which unwinds every caller. */
  datatype Outcome = NotFound | AuthorCreated | Updated | Created | ParentRequested | Exhausted

  datatype Result = Result(store: Store, outcome: Outcome)

  /** The store after the ancestor recursion, and whether it was cut short. */
  datatype Step = Step(store: Store, exhausted: bool)

  /** What create_parent leaves behind, and the post it returns. */
  datatype ParentResult = ParentResult(store: Store, post: Option<Post>)

  /** The three lookups make_post takes before it recurses. */
  datatype Lookups = Lookups(parent: Option<Post>, root: Option<Post>, post: Option<Post>)

  /** get_data followed by the "no data or 404" test: a missing entry or an
      empty record means the post does not exist remotely. */
  function Fetch(e: Env, id: Value): (r: Option<Raw>)
    ensures r.Some? <==> id in e.remote && e.remote[id] != map[]
    ensures r.Some? ==> r.value == e.remote[id]
  {
    if id in e.remote && e.remote[id] != map[] then Some(e.remote[id]) else None
  }

  /** Post.objects.filter(uid=key).first() */
  function Lookup(posts: map<Value, Post>, key: Value): (r: Option<Post>)
    ensures r.Some? <==> key in posts
    ensures r.Some? ==> r.value == posts[key]
  {
    if key in posts then Some(posts[key]) else None
  }

  /** The foreign-key value a looked-up post gives: its uid, or null. */
  function RefOf(p: Option<Post>): Option<Value>
  {
    if p.Some? then Some(p.value.uid) else None
  }

  /** Every stored post sits under its own uid. */
  ghost predicate Keyed(posts: map<Value, Post>)
  {
    forall k :: k in posts ==> posts[k].uid == k
  }

  /** Nothing is deleted and the request log only grows. */
  ghost predicate Grows(s: Store, t: Store)
  {
    s.posts.Keys <= t.posts.Keys && s.users <= t.users && s.hits <= t.hits
  }

  /** The row Post.objects.create builds from a normalised record. */
  function NewPost(d: Bunch, parent: Option<Value>, root: Option<Value>): (p: Post)
    ensures p.uid == d.uid && p.author == d.authorId && p.content == d.text
    ensures p.parent == parent && p.root == root
  {
    Post(d.uid, d.tagVal, d.title, d.text, d.kind, d.html, d.viewCount,
         d.creationDate, d.authorId, d.lasteditDate, d.status, parent, root)
  }

  /** The row after Post.objects.filter(uid=...).update(...): every field is
      overwritten except the uid. */
  function Overwrite(p: Post, d: Bunch, parent: Option<Value>, root: Option<Value>): (q: Post)
    ensures q == NewPost(d, parent, root).(uid := p.uid)
  {
    p.(tagVal := d.tagVal, title := d.title, content := d.text, kind := d.kind,
       html := d.html, viewCount := d.viewCount, creationDate := d.creationDate,
       author := d.authorId, lasteditDate := d.lasteditDate, status := d.status,
       parent := parent, root := root)
  }

  /** create_parent(parentId): fetch the record, make its author if unknown,
      otherwise create the post unless one with its uid already exists. It does
      not recurse into the parent's own ancestry. */
  function CreateParentSpec(e: Env, s: Store, parentId: Value): (r: ParentResult)
    ensures r.store.hits == s.hits + [parentId]
    ensures Grows(s, r.store)
    ensures Keyed(s.posts) ==> Keyed(r.store.posts)
    ensures Fetch(e, parentId).None? ==> r.post.None? && r.store.posts == s.posts && r.store.users == s.users
  {
    var s1 := s.(hits := s.hits + [parentId]);
    match Fetch(e, parentId)
    case None => ParentResult(s1, None)
    case Some(raw) =>
      var d := BunchData(raw, e.strip);
      var parent := Lookup(s1.posts, parentId);
      var post := Lookup(s1.posts, d.uid);
      if d.authorId !in s1.users then
        ParentResult(s1.(users := s1.users + {d.authorId}), None)
      else if post.Some? then
        ParentResult(s1, post)
      else
        var p := NewPost(d, RefOf(parent), None);
        ParentResult(s1.(posts := s1.posts[d.uid := p]), Some(p))
  }

  /** The lookups of make_post, by the record's parent id, root id and uid. */
  function LookupsOf(posts: map<Value, Post>, d: Bunch): (look: Lookups)
    ensures look.post.Some? <==> d.uid in posts
  {
    Lookups(Lookup(posts, d.parentId), Lookup(posts, d.rootId), Lookup(posts, d.uid))
  }

  /** Whether make_post recurses into the root: only when the root was not
      found, and never into the post itself. */
  predicate NeedsRoot(d: Bunch, look: Lookups): (needed: bool)
    ensures needed ==> look.root.None?
    ensures needed ==> d.rootId != d.uid
  {
    look.root.None? && d.rootId != d.uid
  }

  /** Whether make_post recurses into the parent, on the same terms. */
  predicate NeedsParent(d: Bunch, look: Lookups): (needed: bool)
    ensures needed ==> look.parent.None?
    ensures needed ==> d.parentId != d.uid
  {
    look.parent.None? && d.parentId != d.uid
  }

  /** Whether a new post takes the create_parent branch instead of being
      created: only an answer or a comment with neither ancestor found. */
  predicate WantsParent(e: Env, d: Bunch, look: Lookups): (wants: bool)
    ensures wants ==> d.kind == e.comment || d.kind == e.answer
    ensures wants ==> look.parent.None? && look.root.None?
  {
    (d.kind == e.comment || d.kind == e.answer) && look.parent.None? && look.root.None?
  }

  /** The write at the end of make_post, with the lookups taken before recursion:
      update the existing row, or fall back to create_parent, or create the post
      with its parent and no root. */
  function Save(e: Env, s: Store, d: Bunch, look: Lookups): (r: Result)
    ensures Grows(s, r.store)
    ensures Keyed(s.posts) ==> Keyed(r.store.posts)
  {
    if look.post.Some? then
      var posts := if d.uid in s.posts
        then s.posts[d.uid := Overwrite(s.posts[d.uid], d, RefOf(look.parent), RefOf(look.root))]
        else s.posts;
      Result(s.(posts := posts), Updated)
    else if WantsParent(e, d, look) then
      Result(CreateParentSpec(e, s, d.parentId).store, ParentRequested)
    else
      Result(s.(posts := s.posts[d.uid := NewPost(d, RefOf(look.parent), None)]), Created)
  }

  /** One possible recursive call: none when not needed, a cut-off when the
      recursion limit is reached, else make_post on the target. */
  function Descend(e: Env, s: Store, needed: bool, target: Value, depth: nat): (r: Step)
    decreases depth, 0
    ensures Grows(s, r.store)
    ensures Keyed(s.posts) ==> Keyed(r.store.posts)
    ensures !needed ==> r == Step(s, false)
    ensures needed && depth > 0 ==> |r.store.hits| > |s.hits| && r.store.hits[|s.hits|] == target
  {
    if !needed then Step(s, false)
    else if depth == 0 then Step(s, true)
    else
      var r := Sync(e, s, target, depth - 1);
      Step(r.store, r.outcome == Exhausted)
  }

  /** The root first, then the parent, each only if missing locally and not the
      post itself; an exhausted recursion skips the rest. */
  function Ancestors(e: Env, s: Store, d: Bunch, look: Lookups, depth: nat): (r: Step)
    decreases depth, 1
    ensures Grows(s, r.store)
    ensures Keyed(s.posts) ==> Keyed(r.store.posts)
  {
    var a := Descend(e, s, NeedsRoot(d, look), d.rootId, depth);
    if a.exhausted then a
    else Descend(e, a.store, NeedsParent(d, look), d.parentId, depth)
  }

  /** make_post(id), with `depth` further nested calls allowed. */
  function Sync(e: Env, s: Store, id: Value, depth: nat): (r: Result)
    decreases depth, 2
    ensures Grows(s, r.store)
    ensures Keyed(s.posts) ==> Keyed(r.store.posts)
    ensures |r.store.hits| > |s.hits| && r.store.hits[|s.hits|] == id
  {
    var s1 := s.(hits := s.hits + [id]);
    match Fetch(e, id)
    case None => Result(s1, NotFound)
    case Some(raw) =>
      var d := BunchData(raw, e.strip);
      var look := LookupsOf(s1.posts, d);
      if d.authorId !in s1.users then
        Result(s1.(users := s1.users + {d.authorId}), AuthorCreated)
      else
        var a := Ancestors(e, s1, d, look, depth);
        if a.exhausted then Result(a.store, Exhausted)
        else Save(e, a.store, d, look)
  }

  /** A needed recursion within the limit is make_post one level down. */
  lemma {:induction false} DescendCallsSync(e: Env, s: Store, target: Value, depth: nat, below: nat)
    requires depth == below + 1
    ensures var r := Sync(e, s, target, below);
      Descend(e, s, true, target, depth) == Step(r.store, r.outcome == Exhausted)
  {
    assert depth - 1 == below;
  }
}
