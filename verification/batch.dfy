/** posts_from_api (biostar/forum/management/commands/load.py): the ids it walks,
    where it pauses, and the store it leaves, as functions. */
module Batch {
  import opened Records
  import opened PostSync

  /** range(n, 0, -1) */
  function Descending(n: nat): (ids: seq<int>)
    ensures |ids| == n
    ensures forall i :: 0 <= i < n ==> ids[i] == n - i
  {
    seq(n, i requires 0 <= i < n => n - i)
  }

  /** The ids, in order, before which the loop sleeps. */
  function Pauses(ids: seq<int>): (p: seq<int>)
    ensures |p| <= |ids|
    ensures forall i :: 0 <= i < |p| ==> p[i] % 50 == 0
  {
    if ids == [] then []
    else (if ids[0] % 50 == 0 then [ids[0]] else []) + Pauses(ids[1..])
  }

  /** The request keys make_post is called with. */
  function Ids(ids: seq<int>): (keys: seq<Value>)
    ensures |keys| == |ids| && forall i :: 0 <= i < |ids| ==> keys[i] == Int(ids[i])
  {
    seq(|ids|, i requires 0 <= i < |ids| => Int(ids[i]))
  }

  /** One more step of the walk adds the next id below. */
  lemma DescendingStep(n: nat, k: nat)
    requires k < n
    ensures Descending(n)[..k + 1] == Descending(n)[..k] + [n - k]
  {
  }

  /** One more id gives one more request key. */
  lemma IdsSnoc(ids: seq<int>, id: int)
    ensures Ids(ids + [id]) == Ids(ids) + [Int(id)]
  {
  }

  /** make_post on each id in turn; a recursion cut off by the depth limit
      ends the whole run, as the uncaught error would. */
  function SyncAll(e: Env, s: Store, ids: seq<Value>, depth: nat): (r: Step)
    decreases |ids|
    ensures Grows(s, r.store)
    ensures Keyed(s.posts) ==> Keyed(r.store.posts)
  {
    if ids == [] then Step(s, false)
    else
      var first := Sync(e, s, ids[0], depth);
      if first.outcome == Exhausted then Step(first.store, true)
      else SyncAll(e, first.store, ids[1..], depth)
  }

  /** Running one more id after a run that completed continues from its store. */
  lemma {:induction false} SyncAllSnoc(e: Env, s: Store, ids: seq<Value>, id: Value, depth: nat, t: Store, o: Outcome)
    requires !SyncAll(e, s, ids, depth).exhausted
    requires Sync(e, SyncAll(e, s, ids, depth).store, id, depth) == Result(t, o)
    decreases |ids|
    ensures SyncAll(e, s, ids + [id], depth) == Step(t, o == Exhausted)
  {
    if ids != [] {
      var first := Sync(e, s, ids[0], depth);
      assert (ids + [id])[0] == ids[0] && (ids + [id])[1..] == ids[1..] + [id];
      SyncAllSnoc(e, first.store, ids[1..], id, depth, t, o);
    }
  }

  /** The walk visits every id from n down to 1 exactly once, in strictly
      descending order. */
  lemma DescendingVisitsEach(n: nat)
    ensures forall i, j :: 0 <= i < j < n ==> Descending(n)[i] > Descending(n)[j]
    ensures forall x :: x in Descending(n) <==> 1 <= x <= n
  {
    var d := Descending(n);
    forall x | 1 <= x <= n ensures x in d {
      assert d[n - x] == x;
    }
  }

  /** The loop pauses before exactly the visited ids that are multiples of 50,
      in the order visited. */
  lemma {:induction false} PausesAreMultiplesOf50(ids: seq<int>)
    ensures forall x :: x in Pauses(ids) <==> x in ids && x % 50 == 0
    ensures |Pauses(ids)| <= |ids|
  {
    if ids != [] {
      PausesAreMultiplesOf50(ids[1..]);
      assert ids == [ids[0]] + ids[1..];
    }
  }

  /** A complete walk from n pauses n / 50 times. */
  lemma {:induction false} PauseCount(n: nat)
    ensures |Pauses(Descending(n))| == n / 50
  {
    if n > 0 {
      var d := Descending(n);
      assert d[1..] == Descending(n - 1);
      PauseCount(n - 1);
    }
  }

  /** Pauses of a longer prefix add the next id when it is a multiple of 50. */
  lemma {:induction false} PausesSnoc(ids: seq<int>, x: int)
    ensures Pauses(ids + [x]) == Pauses(ids) + (if x % 50 == 0 then [x] else [])
  {
    if ids != [] {
      assert (ids + [x])[1..] == ids[1..] + [x];
      PausesSnoc(ids[1..], x);
    } else {
      assert [x][1..] == [];
    }
  }

  /** One step of the walk from n down: the next id below joins the visited
      prefix, its pause is recorded, and the run continues from the store the
      previous ids left. */
  lemma WalkStep(e: Env, start: Store, before: seq<int>, n: nat, id: int, depth: nat, now: Store, o: Outcome)
    requires 0 < id <= n && before == Descending(n)[..n - id]
    requires !SyncAll(e, start, Ids(before), depth).exhausted
    requires Sync(e, SyncAll(e, start, Ids(before), depth).store, Int(id), depth) == Result(now, o)
    ensures before + [id] == Descending(n)[..n - id + 1]
    ensures (before + [id])[..|before|] == before
    ensures Pauses(before + [id]) == Pauses(before) + (if id % 50 == 0 then [id] else [])
    ensures SyncAll(e, start, Ids(before + [id]), depth) == Step(now, o == Exhausted)
  {
    DescendingStep(n, n - id);
    PausesSnoc(before, id);
    IdsSnoc(before, id);
    SyncAllSnoc(e, start, Ids(before), Int(id), depth, now, o);
  }

  /** Ids none of which is a multiple of 50 cause no pause. */
  lemma {:induction false} PausesNone(ids: seq<int>)
    requires forall i :: 0 <= i < |ids| ==> ids[i] % 50 != 0
    ensures Pauses(ids) == []
  {
    if ids != [] {
      PausesNone(ids[1..]);
    }
  }
}
