/**
 Which commit's map a repository is linked to: the newest revision anchored in that repository which
 the map service can still read.
 */
module Revision {
  import opened Wrappers
  import opened JsonText

  /** Where HEAD was when the session looked; either part may have been withheld. */
  datatype Anchor = Anchor(repository: Option<Text>, head: Option<Text>)

  datatype Anchors = Anchors(atStart: Option<Anchor>, atLatestTurnEnd: Option<Anchor>)

  datatype Choice = LatestTurnEnd | SessionStart

  datatype Candidate = Candidate(commit: Text, chosen: Choice)

  datatype Refusal = NotOptedIn | OverBound | Busy | RepositoryUnsupported | OtherRefusal {
    /** A map cannot be had now, whatever the commit. */
    predicate Unavailable() {
      OverBound? || Busy? || RepositoryUnsupported?
    }
  }

  datatype Existence = Exists(found: bool) | ExistenceRefused(refusal: Refusal)

  datatype Reading<M> = Read(value: M) | ReadRefused(refusal: Refusal)

  datatype Resolution<M> =
    | Mapped(candidate: Candidate, value: M)
    | MapUnavailable(claimed: Option<Candidate>, unavailable: Refusal)
    | RefusedOptIn
    | NoRevision
    | RevisionGone

  /** HEAD of an anchor, if it was read in this very repository. */
  function HeadIn(anchor: Option<Anchor>, repository: Text): Option<Text> {
    if anchor.Some? && anchor.value.repository == Some(repository) && anchor.value.head != Some([])
    then anchor.value.head
    else None
  }

  function Candidates(anchors: Anchors, repository: Text): seq<Candidate> {
    var end := HeadIn(anchors.atLatestTurnEnd, repository);
    var start := HeadIn(anchors.atStart, repository);
    (if end.Some? then [Candidate(end.value, LatestTurnEnd)] else [])
    + if start.Some? && start != end then [Candidate(start.value, SessionStart)] else []
  }

  /** What one candidate settles, or nothing when the next one is to be tried. */
  function Settles<M>(exists_: Text -> Existence, read: Text -> Reading<M>, c: Candidate)
    : Option<Resolution<M>>
  {
    match exists_(c.commit)
    case ExistenceRefused(refusal) =>
      if refusal.NotOptedIn? then Some(RefusedOptIn)
      else if refusal.Unavailable() then Some(MapUnavailable(None, refusal))
      else None
    case Exists(found) =>
      if !found then None
      else
        match read(c.commit)
        case Read(m) => Some(Mapped(c, m))
        case ReadRefused(refusal) =>
          if refusal.NotOptedIn? then Some(RefusedOptIn)
          else if refusal.Unavailable() then Some(MapUnavailable(Some(c), refusal))
          else None
  }

  /** The first candidate, in order, that settles anything. */
  ghost predicate FirstSettled<M>(exists_: Text -> Existence, read: Text -> Reading<M>,
                                  candidates: seq<Candidate>, i: int, r: Resolution<M>)
  {
    && 0 <= i < |candidates| && Settles(exists_, read, candidates[i]) == Some(r)
    && forall j :: 0 <= j < i ==> Settles(exists_, read, candidates[j]).None?
  }

  /**
   Settles a repository: opt-in first, so that one the person did not allow is never read, then the
   best candidate that settles anything, and otherwise its revisions are gone.
   */
  method ResolveRepository<M>(optedIn: bool, exists_: Text -> Existence, read: Text -> Reading<M>,
                              anchors: Anchors, repository: Text) returns (r: Resolution<M>)
    ensures !optedIn ==> r == RefusedOptIn
    ensures optedIn && Candidates(anchors, repository) == [] ==> r == NoRevision
    ensures optedIn && Candidates(anchors, repository) != [] ==>
              var candidates := Candidates(anchors, repository);
              || (exists i :: FirstSettled(exists_, read, candidates, i, r))
              || (r == RevisionGone
                  && forall i :: 0 <= i < |candidates| ==>
                       Settles(exists_, read, candidates[i]).None?)
    ensures r.Mapped? ==>
              && exists_(r.candidate.commit) == Exists(true)
              && read(r.candidate.commit) == Read(r.value)
              && r.candidate in Candidates(anchors, repository)
  {
    if !optedIn { return RefusedOptIn; }
    var candidates := Candidates(anchors, repository);
    if candidates == [] { return NoRevision; }
    var i := 0;
    while i < |candidates|
      invariant 0 <= i <= |candidates|
      invariant forall j :: 0 <= j < i ==> Settles(exists_, read, candidates[j]).None?
    {
      var settled := Settles(exists_, read, candidates[i]);
      if settled.Some? {
        assert FirstSettled(exists_, read, candidates, i, settled.value);
        return settled.value;
      }
      i := i + 1;
    }
    r := RevisionGone;
  }

  /** The session looked in this very repository, and saw this commit. */
  predicate SawThere(anchor: Option<Anchor>, repository: Text, commit: Text) {
    anchor.Some? && anchor.value.repository == Some(repository) && anchor.value.head == Some(commit)
    && commit != []
  }

  /**
   The revisions offered are those the session saw in this repository: the one at the end of its latest
   turn first, then the one at its start if that is another.
   */
  lemma CandidatesAreAnchored(anchors: Anchors, repository: Text, c: Candidate)
    ensures c in Candidates(anchors, repository) <==>
              if c.chosen == LatestTurnEnd then SawThere(anchors.atLatestTurnEnd, repository, c.commit)
              else SawThere(anchors.atStart, repository, c.commit)
                   && !SawThere(anchors.atLatestTurnEnd, repository, c.commit)
    ensures forall i, j :: 0 <= i < j < |Candidates(anchors, repository)| ==>
              && Candidates(anchors, repository)[i].chosen == LatestTurnEnd
              && Candidates(anchors, repository)[j].chosen == SessionStart
              && Candidates(anchors, repository)[i].commit
                 != Candidates(anchors, repository)[j].commit
  {
    var end := HeadIn(anchors.atLatestTurnEnd, repository);
    var start := HeadIn(anchors.atStart, repository);
    assert c in Candidates(anchors, repository) <==>
        || (end.Some? && c == Candidate(end.value, LatestTurnEnd))
        || (start.Some? && start != end && c == Candidate(start.value, SessionStart));
  }

  /** What the map service said of a commit, as the outcome it stands for. */
  ghost predicate Answers<M>(existence: Existence, reading: Reading<M>, c: Candidate, r: Resolution<M>) {
    match r
    case Mapped(candidate, m) => candidate == c && existence == Exists(true) && reading == Read(m)
    case RefusedOptIn =>
      || existence == ExistenceRefused(NotOptedIn)
      || (existence == Exists(true) && reading == ReadRefused(NotOptedIn))
    case MapUnavailable(claimed, refusal) =>
      && refusal in {OverBound, Busy, RepositoryUnsupported}
      && if claimed.None? then existence == ExistenceRefused(refusal)
         else claimed == Some(c) && existence == Exists(true) && reading == ReadRefused(refusal)
    case _ => false
  }

  /** A candidate settles what the service answered; a commit that is gone or refused oddly, nothing. */
  lemma SettlesIff<M>(exists_: Text -> Existence, read: Text -> Reading<M>, c: Candidate,
                      r: Resolution<M>)
    ensures Settles(exists_, read, c) == Some(r) <==> Answers(exists_(c.commit), read(c.commit), c, r)
  {
  }
}
