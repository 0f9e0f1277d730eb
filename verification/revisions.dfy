/** The change annotation of revision_list in main/server/views.py: the
    revisions of a post, oldest first, each told what it did ("created",
    "performed", "edited") and which of title, content and tags it changed,
    then reversed to show the newest first. */
module Revisions {
  import opened Records

  /** A revision as the view sees it. `action` is set for moderator actions;
      `verb` and `modified` are the annotations the view adds, absent until
      then; `verb` stands for the word Word gives. */
  datatype Revision = Revision(
    title: string, content: string, tagString: string, action: bool,
    verb: Option<Verb>, modified: Option<seq<bool>>)

  /** What a revision did, as the view labels it. */
  datatype Verb = Created | Performed | Edited

  /** The word the view stores for each verb. */
  function Word(v: Verb): (w: string)
    ensures w in {"created", "performed", "edited"}
  {
    match v
    case Created => "created"
    case Performed => "performed"
    case Edited => "edited"
  }

  /** revision_data: the compared fields, in the order title, content, tags. */
  function Data(r: Revision): (d: seq<string>)
    ensures |d| == 3 && d[0] == r.title && d[1] == r.content && d[2] == r.tagString
  {
    [r.title, r.content, r.tagString]
  }

  /** Field by field, whether `current` differs from `last`. */
  function Diff(current: seq<string>, last: seq<string>): (m: seq<bool>)
    requires |current| == 3 && |last| == 3
    ensures |m| == 3 && forall k :: 0 <= k < 3 ==> (m[k] <==> current[k] != last[k])
  {
    [current[0] != last[0], current[1] != last[1], current[2] != last[2]]
  }

  /** The revision revision `i` is compared with: the latest earlier one that is
      the first revision or an edit. */
  function Baseline(revs: seq<Revision>, i: nat): (b: nat)
    requires 0 < i <= |revs|
    ensures b < i
    ensures b == 0 || !revs[b].action
    ensures forall j :: b < j < i ==> revs[j].action
  {
    if i - 1 == 0 || !revs[i - 1].action then i - 1 else Baseline(revs, i - 1)
  }

  /** Revision `i` as the annotation loop leaves it. */
  function AnnotateAt(revs: seq<Revision>, i: nat): (r: Revision)
    requires i < |revs|
    ensures r.title == revs[i].title && r.content == revs[i].content
    ensures r.tagString == revs[i].tagString && r.action == revs[i].action
    ensures r.verb == Some(Created) <==> i == 0
    ensures r.verb == Some(Performed) <==> i > 0 && revs[i].action
    ensures r.verb == Some(Edited) <==> i > 0 && !revs[i].action
    ensures i > 0 && revs[i].action ==> r.modified == revs[i].modified
    ensures i == 0 || !revs[i].action ==> r.modified.Some? && |r.modified.value| == 3
  {
    if i == 0 then revs[0].(verb := Some(Created), modified := Some([true, true, true]))
    else if revs[i].action then revs[i].(verb := Some(Performed))
    else revs[i].(verb := Some(Edited), modified := Some(Diff(Data(revs[i]), Data(revs[Baseline(revs, i)]))))
  }

  /** The whole list annotated, still oldest first. */
  function Annotated(revs: seq<Revision>): (a: seq<Revision>)
    requires |revs| > 0
    ensures |a| == |revs| && forall i :: 0 <= i < |revs| ==> a[i] == AnnotateAt(revs, i)
  {
    seq(|revs|, i requires 0 <= i < |revs| => AnnotateAt(revs, i))
  }

  /** list.reverse() */
  function Reversed<T>(s: seq<T>): (r: seq<T>)
    ensures |r| == |s| && forall i :: 0 <= i < |s| ==> r[i] == s[|s| - 1 - i]
  {
    seq(|s|, i requires 0 <= i < |s| => s[|s| - 1 - i])
  }

  /** revision_list's annotation of `revs`, in place: the list is annotated
      oldest first and then reversed. An empty list fails on its first
      element, as the view does, and is left alone. */
  method AnnotateRevisions(revs: array<Revision>) returns (ok: bool)
    modifies revs
    ensures ok <==> revs.Length > 0
    ensures !ok ==> revs[..] == old(revs[..])
    ensures ok ==> revs[..] == Reversed(Annotated(old(revs[..])))
  {
    if revs.Length == 0 {
      return false;
    }
    AnnotateOldestFirst(revs);
    Reverse(revs);
    ok := true;
  }

  /** The annotation loop: the first revision is the initial baseline, every
      later edit is compared with the baseline and replaces it. */
  method AnnotateOldestFirst(revs: array<Revision>)
    requires revs.Length > 0
    modifies revs
    ensures revs[..] == Annotated(old(revs[..]))
  {
    ghost var orig := revs[..];
    var last := AnnotateFirst(revs);
    for i := 1 to revs.Length
      invariant revs[..] == AnnotatedUpTo(orig, i)
      invariant last == Data(orig[Baseline(orig, i)])
    {
      last := AnnotateStep(revs, orig, i, last);
    }
    AnnotatedUpToEnd(orig);
  }

  /** The start of the annotation: the first revision is marked created with
      every field modified, and its data is the first baseline. */
  method AnnotateFirst(revs: array<Revision>) returns (last: seq<string>)
    requires revs.Length > 0
    modifies revs
    ensures revs[..] == AnnotatedUpTo(old(revs[..]), 1)
    ensures last == Data(old(revs[..])[Baseline(old(revs[..]), 1)])
  {
    ghost var orig := revs[..];
    last := Data(revs[0]);
    revs[0] := revs[0].(verb := Some(Created), modified := Some([true, true, true]));
    assert revs[..] == AnnotatedUpTo(orig, 1);
  }

  /** One pass of the annotation loop: revision i gets its verb, and an edit
      gets its modified flags and becomes the baseline `next` returns. */
  method AnnotateStep(revs: array<Revision>, ghost orig: seq<Revision>, i: nat, last: seq<string>)
      returns (next: seq<string>)
    requires 0 < i < revs.Length == |orig|
    requires revs[..] == AnnotatedUpTo(orig, i) && last == Data(orig[Baseline(orig, i)])
    modifies revs
    ensures revs[..] == AnnotatedUpTo(orig, i + 1)
    ensures next == Data(orig[Baseline(orig, i + 1)])
  {
    AnnotateNext(orig, i, last);
    var r := revs[i];
    assert r == orig[i];
    next := last;
    if r.action {
      revs[i] := r.(verb := Some(Performed));
    } else {
      revs[i] := r.(verb := Some(Edited), modified := Some(Diff(Data(r), last)));
      next := Data(r);
    }
  }

  /** Revision i annotated against the current baseline, and the baseline the
      next revision is compared with. */
  lemma AnnotateNext(revs: seq<Revision>, i: nat, last: seq<string>)
    requires 0 < i < |revs| && last == Data(revs[Baseline(revs, i)])
    ensures AnnotateAt(revs, i) ==
      if revs[i].action then revs[i].(verb := Some(Performed))
      else revs[i].(verb := Some(Edited), modified := Some(Diff(Data(revs[i]), last)))
    ensures Data(revs[Baseline(revs, i + 1)]) == if revs[i].action then last else Data(revs[i])
  {
    BaselineStep(revs, i);
  }

  /** The list while the loop runs: the first `n` revisions annotated, the rest
      as they were. */
  function AnnotatedUpTo(revs: seq<Revision>, n: nat): (a: seq<Revision>)
    requires n <= |revs|
    ensures |a| == |revs| && a[n..] == revs[n..]
    ensures n < |revs| ==> a[n] == revs[n]
    ensures forall j :: 0 <= j < n ==> a[j] == AnnotateAt(revs, j)
  {
    if n == 0 then revs else AnnotatedUpTo(revs, n - 1)[n - 1 := AnnotateAt(revs, n - 1)]
  }

  /** Once every revision is annotated, the loop's list is the annotated list. */
  lemma AnnotatedUpToEnd(revs: seq<Revision>)
    requires |revs| > 0
    ensures AnnotatedUpTo(revs, |revs|) == Annotated(revs)
  {
  }

  /** The baseline moves to revision i exactly when it is an edit. */
  lemma BaselineStep(revs: seq<Revision>, i: nat)
    requires 0 < i < |revs|
    ensures Baseline(revs, i + 1) == if revs[i].action then Baseline(revs, i) else i
  {
  }

  /** list.reverse(), in place. */
  method Reverse(a: array<Revision>)
    modifies a
    ensures a[..] == Reversed(old(a[..]))
  {
    var s := a[..];
    forall i | 0 <= i < a.Length {
      a[i] := s[a.Length - 1 - i];
    }
  }

  /** The oldest revision is "created" with every field marked changed, and
      after the reversal it comes last. */
  lemma OldestIsCreated(revs: seq<Revision>)
    requires |revs| > 0
    ensures var shown := Reversed(Annotated(revs));
      shown[|revs| - 1].verb == Some(Created) &&
      shown[|revs| - 1].modified == Some([true, true, true])
  {
  }

  /** A moderator action after the first revision is "performed" and keeps
      whatever `modified` it had; it is not a baseline for later edits. */
  lemma ActionIsPerformed(revs: seq<Revision>, i: nat)
    requires 0 < i < |revs| && revs[i].action
    ensures Annotated(revs)[i].verb == Some(Performed)
    ensures Annotated(revs)[i].modified == revs[i].modified
    ensures i + 1 < |revs| ==> Baseline(revs, i + 1) == Baseline(revs, i)
  {
  }

  /** An edit after the first revision marks exactly the fields that differ
      from the latest earlier edit (or the first revision, if none), and
      becomes the baseline for the next revision. */
  lemma EditMarksChangedFields(revs: seq<Revision>, i: nat, j: nat, k: nat)
    requires 0 < i < |revs| && !revs[i].action && k < 3
    requires j < i && (j == 0 || !revs[j].action)
    requires forall m :: j < m < i ==> revs[m].action
    ensures Annotated(revs)[i].verb == Some(Edited)
    ensures Annotated(revs)[i].modified.Some? && |Annotated(revs)[i].modified.value| == 3
    ensures Annotated(revs)[i].modified.value[k] <==> Data(revs[i])[k] != Data(revs[j])[k]
    ensures i + 1 < |revs| ==> Baseline(revs, i + 1) == i
  {
    BaselineUnique(revs, i, j);
  }

  /** The baseline is the only earlier revision that is the first one or an
      edit and is followed by actions alone. */
  lemma BaselineUnique(revs: seq<Revision>, i: nat, j: nat)
    requires 0 < i <= |revs| && j < i && (j == 0 || !revs[j].action)
    requires forall m :: j < m < i ==> revs[m].action
    ensures Baseline(revs, i) == j
  {
  }

  /** The annotation touches only `verb` and `modified`, and the list shown
      holds the same revisions, newest first. */
  lemma AnnotationKeepsRevisions(revs: seq<Revision>, i: nat)
    requires i < |revs|
    ensures var a := Annotated(revs)[i];
      a.title == revs[i].title && a.content == revs[i].content &&
      a.tagString == revs[i].tagString && a.action == revs[i].action
    ensures Reversed(Annotated(revs))[i] == Annotated(revs)[|revs| - 1 - i]
  {
  }

  /** The three words tell the verbs apart. */
  lemma WordsDistinct(a: Verb, b: Verb)
    ensures Word(a) == Word(b) <==> a == b
  {
  }
}
