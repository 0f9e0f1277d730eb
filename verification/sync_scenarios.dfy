/** make_post on a two-post thread: a question q that is its own root and
    parent, and an answer a under it, both by users already known locally. */
module SyncScenarios {
  import opened Records
  import opened PostSync
  import opened SyncProperties

  function Record(e: Env, id: Value): Bunch
    requires Fetch(e, id).Some?
  {
    BunchData(Fetch(e, id).value, e.strip)
  }

  /** The remote site holds the question q and the answer a described above. */
  ghost predicate Thread(e: Env, users: set<Value>, q: Value, a: Value)
  {
    Fetch(e, q).Some? && Fetch(e, a).Some? && q != a &&
    var Q := Record(e, q);
    var A := Record(e, a);
    Q.uid == q && Q.rootId == q && Q.parentId == q && Q.authorId in users &&
    Q.kind != e.answer && Q.kind != e.comment &&
    A.uid == a && A.rootId == q && A.parentId == q && A.authorId in users &&
    A.kind == e.answer
  }

  /** make_post(q) creates the question when it is absent, and otherwise
      updates it, linking it to itself as parent and root; either way with one
      request and no recursion. */
  lemma {:induction false} QuestionSync(e: Env, s: Store, q: Value, a: Value, depth: nat)
    requires Thread(e, s.users, q, a)
    requires q in s.posts ==> s.posts[q].uid == q
    ensures var Q := Record(e, q);
      var r := Sync(e, s, q, depth);
      r.store.hits == s.hits + [q] && r.store.users == s.users &&
      (q !in s.posts ==> r.outcome == Created && r.store.posts == s.posts[q := NewPost(Q, None, None)]) &&
      (q in s.posts ==>
        r.outcome == Updated && r.store.posts == s.posts[q := Overwrite(s.posts[q], Q, Some(q), Some(q))])
  {
    var Q := Record(e, q);
    SyncSelfRootedDoesNotRecurse(e, s, q, depth, Fetch(e, q).value);
    assert !WantsParent(e, Q, LookupsOf(s.posts, Q));
  }

  /** Synchronising the question from an empty store: one request, created with
      no parent link and no root link. */
  lemma {:induction false} QuestionCreatedAlone(e: Env, users: set<Value>, q: Value, a: Value)
    requires Thread(e, users, q, a)
    ensures var r := Sync(e, Store(map[], users, []), q, 0);
      r.outcome == Created && r.store.hits == [q] && r.store.posts.Keys == {q} &&
      r.store.posts[q].parent.None? && r.store.posts[q].root.None?
  {
    QuestionSync(e, Store(map[], users, []), q, a, 0);
  }

  /** Synchronising the unchanged question a second time is not a no-op: the
      first call creates it with no links, the second updates it and links it
      to itself as parent and root. */
  lemma {:induction false} QuestionSyncedTwice(e: Env, users: set<Value>, q: Value, a: Value)
    requires Thread(e, users, q, a)
    ensures var first := Sync(e, Store(map[], users, []), q, 0);
      var second := Sync(e, first.store, q, 0);
      first.outcome == Created && second.outcome == Updated &&
      first.store.posts[q].parent.None? && second.store.posts[q].parent == Some(q) &&
      second.store.posts[q].root == Some(q) && second.store.posts[q] != first.store.posts[q]
  {
    var s0 := Store(map[], users, []);
    QuestionSync(e, s0, q, a, 0);
    var first := Sync(e, s0, q, 0);
    QuestionSync(e, first.store, q, a, 0);
  }

  /** The question as the first pass stores it: created, then overwritten with
      links to itself. */
  function LinkedQuestion(e: Env, users: set<Value>, q: Value, a: Value): Post
    requires Thread(e, users, q, a)
  {
    var Q := Record(e, q);
    Overwrite(NewPost(Q, None, None), Q, Some(q), Some(q))
  }

  /** make_post(q) on a store that lacks the question, as a recursive call:
      it creates the question. */
  lemma {:induction false} QuestionCreatedByRecursion(e: Env, users: set<Value>, q: Value, a: Value, log: seq<Value>)
    requires Thread(e, users, q, a)
    ensures Descend(e, Store(map[], users, log), true, q, 1) ==
      Step(Store(map[q := NewPost(Record(e, q), None, None)], users, log + [q]), false)
  {
    QuestionSync(e, Store(map[], users, log), q, a, 0);
  }

  /** make_post(q) on a store that holds the new question, as a recursive call:
      it updates the question, linking it to itself. */
  lemma {:induction false} QuestionLinkedByRecursion(e: Env, users: set<Value>, q: Value, a: Value, log: seq<Value>)
    requires Thread(e, users, q, a)
    ensures Descend(e, Store(map[q := NewPost(Record(e, q), None, None)], users, log), true, q, 1) ==
      Step(Store(map[q := LinkedQuestion(e, users, q, a)], users, log + [q]), false)
  {
    var s := Store(map[q := NewPost(Record(e, q), None, None)], users, log);
    QuestionSync(e, s, q, a, 0);
    assert s.posts[q := LinkedQuestion(e, users, q, a)] == map[q := LinkedQuestion(e, users, q, a)];
  }

  /** The two recursive calls of the first pass over the answer: the root
      recursion creates the question, the parent recursion (its lookup taken
      before the question existed) fetches and updates it again. */
  lemma {:induction false} AnswerFirstPassAncestors(e: Env, users: set<Value>, q: Value, a: Value)
    requires Thread(e, users, q, a)
    ensures var A := Record(e, a);
      var s1 := Store(map[], users, [a]);
      Ancestors(e, s1, A, LookupsOf(s1.posts, A), 1) ==
        Step(Store(map[q := LinkedQuestion(e, users, q, a)], users, [a, q, q]), false)
  {
    var A := Record(e, a);
    var s1 := Store(map[], users, [a]);
    var look := LookupsOf(s1.posts, A);
    var mid := Store(map[q := NewPost(Record(e, q), None, None)], users, [a, q]);
    var linked := Store(map[q := LinkedQuestion(e, users, q, a)], users, [a, q, q]);
    assert NeedsRoot(A, look) && A.rootId == q;
    assert Descend(e, s1, true, q, 1) == Step(mid, false) by {
      QuestionCreatedByRecursion(e, users, q, a, [a]);
      assert [a] + [q] == [a, q];
    }
    assert NeedsParent(A, look) && A.parentId == q;
    assert Descend(e, mid, true, q, 1) == Step(linked, false) by {
      QuestionLinkedByRecursion(e, users, q, a, [a, q]);
      assert [a, q] + [q] == [a, q, q];
    }
  }

  /** The store after the first pass over the answer. */
  function AfterFirstPass(e: Env, users: set<Value>, q: Value, a: Value): Store
    requires Thread(e, users, q, a)
  {
    Store(map[q := LinkedQuestion(e, users, q, a)], users, [a, q, q, q])
  }

  /** The first pass over the answer, from an empty store, makes both recursive
      calls and then takes the create_parent branch (its lookups, too, were
      taken before the question existed), which finds the question and writes
      nothing: the answer itself is not stored. */
  lemma {:induction false} AnswerFirstPassStoresOnlyQuestion(e: Env, users: set<Value>, q: Value, a: Value)
    requires Thread(e, users, q, a)
    ensures var r := Sync(e, Store(map[], users, []), a, 1);
      r.outcome == ParentRequested && r.store == AfterFirstPass(e, users, q, a) &&
      r.store.posts.Keys == {q}
  {
    var A := Record(e, a);
    var s1 := Store(map[], users, [a]);
    var look := LookupsOf(s1.posts, A);
    assert WantsParent(e, A, look);
    AnswerFirstPassAncestors(e, users, q, a);
    var mid := Store(map[q := LinkedQuestion(e, users, q, a)], users, [a, q, q]);
    CreateParentReturnsExisting(e, mid, q, Fetch(e, q).value);
    assert Save(e, mid, A, look) == Result(AfterFirstPass(e, users, q, a), ParentRequested);
  }

  /** A second pass creates the answer, now with the question as parent, but
      with no root; it makes one request only. */
  lemma {:induction false} AnswerSecondPassCreatesIt(e: Env, users: set<Value>, q: Value, a: Value)
    requires Thread(e, users, q, a)
    ensures var r := Sync(e, AfterFirstPass(e, users, q, a), a, 1);
      r.outcome == Created && r.store.hits == [a, q, q, q, a] &&
      r.store.posts.Keys == {q, a} &&
      r.store.posts[a].parent == Some(q) && r.store.posts[a].root.None?
  {
    var s := AfterFirstPass(e, users, q, a);
    var A := Record(e, a);
    var look := LookupsOf(s.posts, A);
    assert !NeedsRoot(A, look) && !NeedsParent(A, look) && !WantsParent(e, A, look);
  }

  /** A third pass finds the answer and overwrites it, now with the root set:
      re-synchronising an unchanged remote post changes the stored row. */
  lemma {:induction false} AnswerThirdPassAddsRoot(e: Env, users: set<Value>, q: Value, a: Value)
    requires Thread(e, users, q, a)
    ensures var second := Sync(e, AfterFirstPass(e, users, q, a), a, 1).store;
      var r := Sync(e, second, a, 1);
      r.outcome == Updated && r.store.posts[a].root == Some(q) &&
      r.store.posts[a] != second.posts[a]
  {
    AnswerSecondPassCreatesIt(e, users, q, a);
    var second := Sync(e, AfterFirstPass(e, users, q, a), a, 1).store;
    var A := Record(e, a);
    var look := LookupsOf(second.posts, A);
    assert !NeedsRoot(A, look) && !NeedsParent(A, look);
  }
}
