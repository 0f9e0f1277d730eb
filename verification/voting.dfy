/** The vote view of main/server/views.py: a request either fails with a
    message, or toggles the voter's vote of one type on a post, adding it (and
    withdrawing the opposing type) or removing it. */
module Voting {
  import opened Records

  /** One vote row: who voted, on which post, of which type. */
  datatype Vote = Vote(author: int, post: int, kind: int)

  /** The parts of the request the view reads. `user` is None when nobody is
      signed in. */
  datatype Request = Request(isPost: bool, user: Option<int>, post: int, kind: int)

  /** The JSON reply, and the internal error when the post does not exist. */
  datatype Reply = WrongMethod | NotLoggedIn | NoSuchPost | OwnPost | Removed(kind: int) | Added(kind: int)

  predicate IsError(r: Reply) { r.WrongMethod? || r.NotLoggedIn? || r.NoSuchPost? || r.OwnPost? }

  /** The opposing-vote table maps each type to its opposite and back. */
  predicate Symmetric(opposing: map<int, int>)
  {
    forall k :: k in opposing ==> opposing[k] in opposing && opposing[opposing[k]] == k
  }

  /** No voter holds a vote and its opposite on the same post. */
  predicate NoConflict(votes: set<Vote>, opposing: map<int, int>)
  {
    forall v :: v in votes && v.kind in opposing ==> Vote(v.author, v.post, opposing[v.kind]) !in votes
  }

  /** The reply and the votes after the request, for posts with the given
      authors and the given opposing-vote table. */
  function Decide(votes: set<Vote>, authors: map<int, int>, opposing: map<int, int>, req: Request): (r: (Reply, set<Vote>))
    ensures IsError(r.0) ==> r.1 == votes
    ensures !req.isPost ==> r.0 == WrongMethod
    ensures req.isPost && req.user.None? ==> r.0 == NotLoggedIn
    ensures req.isPost && req.user.Some? && req.post !in authors ==> r.0 == NoSuchPost
    ensures req.isPost && req.user.Some? && req.post in authors && authors[req.post] == req.user.value ==>
      r.0 == OwnPost
    ensures r.0.Removed? || r.0.Added? ==> r.0.kind == req.kind
    ensures !IsError(r.0) <==> req.isPost && req.user.Some? && req.post in authors && authors[req.post] != req.user.value
    ensures r.0.Removed? ==>
      (Vote(req.user.value, req.post, req.kind) in votes &&
       r.1 == votes - {Vote(req.user.value, req.post, req.kind)})
    ensures r.0.Added? ==> Vote(req.user.value, req.post, req.kind) !in votes
    ensures r.0.Added? && (req.kind in opposing ==> opposing[req.kind] != req.kind) ==>
      Vote(req.user.value, req.post, req.kind) in r.1
    ensures r.0.Added? && req.kind in opposing ==>
      Vote(req.user.value, req.post, opposing[req.kind]) !in r.1
    ensures r.0.Added? ==> forall w ::
      w != Vote(req.user.value, req.post, req.kind) &&
      (req.kind in opposing ==> w != Vote(req.user.value, req.post, opposing[req.kind])) ==>
      (w in r.1 <==> w in votes)
  {
    if !req.isPost then (WrongMethod, votes)
    else if req.user.None? then (NotLoggedIn, votes)
    else if req.post !in authors then (NoSuchPost, votes)
    else if authors[req.post] == req.user.value then (OwnPost, votes)
    else
      var v := Vote(req.user.value, req.post, req.kind);
      if v in votes then (Removed(req.kind), votes - {v})
      else
        var added := votes + {v};
        if req.kind in opposing then (Added(req.kind), added - {Vote(v.author, v.post, opposing[req.kind])})
        else (Added(req.kind), added)
  }

  /** The vote store the view changes. */
  class VoteBook {
    var votes: set<Vote>
    /** Post id to the id of its author. */
    const authors: map<int, int>
    /** models.OPPOSING_VOTES */
    const opposing: map<int, int>

    constructor (authors: map<int, int>, opposing: map<int, int>)
      ensures votes == {} && this.authors == authors && this.opposing == opposing
    {
      votes := {};
      this.authors := authors;
      this.opposing := opposing;
    }

    /** vote(request) */
    method HandleVote(req: Request) returns (reply: Reply)
      modifies this
      ensures (reply, votes) == Decide(old(votes), authors, opposing, req)
    {
      if !req.isPost {
        return WrongMethod;
      }
      if req.user.None? {
        return NotLoggedIn;
      }
      var author := req.user.value;
      if req.post !in authors {
        return NoSuchPost;
      }
      if authors[req.post] == author {
        return OwnPost;
      }
      var cast := Vote(author, req.post, req.kind);
      if cast in votes {
        votes := votes - {cast};
        return Removed(req.kind);
      }
      votes := votes + {cast};
      if req.kind in opposing {
        votes := votes - {Vote(author, req.post, opposing[req.kind])};
      }
      reply := Added(req.kind);
    }
  }

  /** A successful vote changes only the voter's votes on that post. */
  lemma OthersUntouched(votes: set<Vote>, authors: map<int, int>, opposing: map<int, int>, req: Request, w: Vote)
    requires req.user.Some? && (w.author != req.user.value || w.post != req.post)
    ensures w in Decide(votes, authors, opposing, req).1 <==> w in votes
  {
  }

  /** With a symmetric opposing table, no vote ever stands beside its opposite. */
  lemma {:induction false} DecideKeepsNoConflict(votes: set<Vote>, authors: map<int, int>, opposing: map<int, int>, req: Request)
    requires Symmetric(opposing) && NoConflict(votes, opposing)
    ensures NoConflict(Decide(votes, authors, opposing, req).1, opposing)
  {
  }

  /** Voting twice with the same request undoes the first vote when no
      opposing vote stood in the way. */
  lemma {:induction false} VoteTwiceRestores(votes: set<Vote>, authors: map<int, int>, opposing: map<int, int>, req: Request)
    requires req.user.Some? && Vote(req.user.value, req.post, req.kind) !in votes
    requires req.kind in opposing ==> Vote(req.user.value, req.post, opposing[req.kind]) !in votes
    requires req.kind in opposing ==> opposing[req.kind] != req.kind
    ensures Decide(Decide(votes, authors, opposing, req).1, authors, opposing, req).1 == votes
  {
    var once := Decide(votes, authors, opposing, req);
    if once.0.Added? {
      var v := Vote(req.user.value, req.post, req.kind);
      assert once.1 == votes + {v};
    }
  }
}
