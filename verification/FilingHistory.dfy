/**
 What a filing remembers of what was done to it: apps/api/captureos/services/filings.py, evidence.py, gaps.py,
 recommendation.py, packaging.py and approvals.py, over any sequence of actions.
 */
module FilingHistory {
  import opened Wrappers
  import opened FilingPackage

  // The actions that were not refused.
  function Accepted(actions: seq<Action>): seq<Action> {
    if actions == [] then []
    else
      var front, a := actions[..|actions| - 1], actions[|actions| - 1];
      if Act(Run(front), a).Some? then Accepted(front) + [a] else Accepted(front)
  }

  // A gap can be resolved only for a requirement of the filing, and a package approved only when every document of
  // its latest version is validated.
  lemma RefusedExactly(s: State, a: Action)
    ensures Act(s, a).None? <==>
      || (a.ResolveGap? && forall q | q in s.requirements :: q.id != a.requirement)
      || (a.ApprovePackage? && a.approved && (s.docs == [] ||
            exists i | 0 <= i < |s.docs| :: s.docs[i].version == MaxVersion(s.docs) && !s.docs[i].validated))
  {
    MaxVersionMeaning(s.docs);
  }

  // ---------------------------------------------------------------------------
  // The status
  // ---------------------------------------------------------------------------

  // Where the last action that moves the filing left it; resolving a gap does not.
  function StatusAfter(done: seq<Action>): FilingStatus {
    if done == [] then Draft
    else match done[|done| - 1]
      case Extract(_) => EvidenceReview
      case MapEvidence(_) => EvidenceReview
      case ResolveGap(_, _) => StatusAfter(done[..|done| - 1])
      case Recommend => Recommended
      case Build(_, _) => Packaging
      case Validate(_) => PackageReview
      case ApproveRecommendation(approved) => if approved then Approved else Recommended
      case ApprovePackage(approved) => if approved then Ready else PackageReview
  }

  // None before there is a recommendation; a new one is not approved.
  function DecisionAfter(done: seq<Action>): Option<bool> {
    if done == [] then None
    else
      var before := DecisionAfter(done[..|done| - 1]);
      match done[|done| - 1]
      case Recommend => Some(false)
      case ApproveRecommendation(approved) => if before.Some? then Some(approved) else None
      case _ => before
  }

  // ---------------------------------------------------------------------------
  // Requirements and matches
  // ---------------------------------------------------------------------------

  function Extracted(done: seq<Action>): seq<Requirement> {
    if done == [] then []
    else Extracted(done[..|done| - 1]) + if done[|done| - 1].Extract? then done[|done| - 1].added else []
  }

  // What the last mapping or resolution says about a requirement.
  function Answered(done: seq<Action>, requirement: nat): Option<Match> {
    if done == [] then None
    else match done[|done| - 1]
      case MapEvidence(found) => MatchFor(found, requirement)
      case ResolveGap(r, e) =>
        if r == requirement then Some(Match(r, Some(e), UserProvided)) else Answered(done[..|done| - 1], requirement)
      case _ => Answered(done[..|done| - 1], requirement)
  }

  predicate IsLastFor(matches: seq<Match>, requirement: nat, k: nat) {
    && k < |matches| && matches[k].requirement == requirement
    && forall i | k < i < |matches| :: matches[i].requirement != requirement
  }

  lemma {:induction false} MatchForLast(matches: seq<Match>, requirement: nat, k: nat)
    requires IsLastFor(matches, requirement, k)
    ensures MatchFor(matches, requirement) == Some(matches[k])
  {
    if k < |matches| - 1 {
      MatchForLast(matches[..|matches| - 1], requirement, k);
    }
  }

  lemma {:induction false} MatchForNone(matches: seq<Match>, requirement: nat)
    requires forall i | 0 <= i < |matches| :: matches[i].requirement != requirement
    ensures MatchFor(matches, requirement).None?
  {
    if matches != [] {
      MatchForNone(matches[..|matches| - 1], requirement);
    }
  }

  lemma MatchForMore(matches: seq<Match>, m: Match, requirement: nat)
    ensures MatchFor(matches + [m], requirement) ==
      if m.requirement == requirement then Some(m) else MatchFor(matches, requirement)
  {
    assert (matches + [m])[..|matches|] == matches;
  }

  lemma {:induction false} WithoutMatchFor(matches: seq<Match>, gone: nat, requirement: nat)
    ensures MatchFor(WithoutMatch(matches, gone), requirement) ==
      if requirement == gone then None else MatchFor(matches, requirement)
  {
    if matches != [] {
      var front, m := matches[..|matches| - 1], matches[|matches| - 1];
      WithoutMatchFor(front, gone, requirement);
      MatchForMore(WithoutMatch(front, gone), m, requirement);
      if m.requirement == gone {
        assert WithoutMatch(matches, gone) == WithoutMatch(front, gone);
      }
    }
  }

  lemma {:induction false} WithoutMembers(matches: seq<Match>, gone: nat, m: Match)
    ensures m in WithoutMatch(matches, gone) <==> m in matches && m.requirement != gone
  {
    if matches != [] {
      var front, last := matches[..|matches| - 1], matches[|matches| - 1];
      WithoutMembers(front, gone, m);
      assert matches == front + [last];
    }
  }

  // The resolved requirement has one match left, the user's; the others keep theirs.
  lemma ResolvedMatches(matches: seq<Match>, r: nat, e: nat)
    ensures var after, mine := WithoutMatch(matches, r) + [Match(r, Some(e), UserProvided)],
      Match(r, Some(e), UserProvided);
      && (forall requirement :: MatchFor(after, requirement) ==
            if requirement == r then Some(mine) else MatchFor(matches, requirement))
      && forall m :: m in after <==> m == mine || (m in matches && m.requirement != r)
  {
    var kept, mine := WithoutMatch(matches, r), Match(r, Some(e), UserProvided);
    forall requirement ensures MatchFor(kept + [mine], requirement) ==
      if requirement == r then Some(mine) else MatchFor(matches, requirement)
    {
      WithoutMatchFor(matches, r, requirement);
      MatchForMore(kept, mine, requirement);
    }
    forall m ensures m in kept + [mine] <==> m == mine || (m in matches && m.requirement != r) {
      WithoutMembers(matches, r, m);
    }
  }

  // ---------------------------------------------------------------------------
  // Documents
  // ---------------------------------------------------------------------------

  // A document is a draft exactly until it passes the citation check.
  predicate DocStatusTells(docs: seq<Doc>) {
    forall i | 0 <= i < |docs| :: docs[i].status.DraftDoc? <==> !docs[i].validated
  }

  lemma NextKeepsDocStatus(s: State, a: Action)
    requires DocStatusTells(s.docs)
    ensures DocStatusTells(Next(s, a).docs)
  {
    if a.Build? {
      var added := NewDocs(Matrix(s.requirements, s.matches, a.w), a.narrative, a.w, MaxVersion(s.docs) + 1);
      assert DocStatusTells(added);
    }
  }

  // ---------------------------------------------------------------------------
  // The whole filing
  // ---------------------------------------------------------------------------

  ghost predicate Tells(s: State, done: seq<Action>) {
    && s.status == StatusAfter(done) && s.recommendation == DecisionAfter(done)
    && s.requirements == Extracted(done)
    && (forall r: nat :: MatchFor(s.matches, r) == Answered(done, r))
    && DocStatusTells(s.docs)
  }

  lemma NextTells(s: State, done: seq<Action>, a: Action)
    requires Tells(s, done) && Act(s, a).Some?
    ensures Tells(Next(s, a), done + [a])
  {
    assert (done + [a])[..|done|] == done;
    NextKeepsDocStatus(s, a);
    if a.ResolveGap? {
      ResolvedMatches(s.matches, a.requirement, a.evidence);
    }
  }

  // After any actions, the filing is where the last effective one put it; the recommendation stands as last decided;
  // the requirements are all that were extracted, in order; each is answered as the last mapping or resolution says;
  // and a document is a draft exactly if it has not passed the check.
  lemma {:induction false} FilingTells(actions: seq<Action>)
    ensures Tells(Run(actions), Accepted(actions))
  {
    if actions != [] {
      var front, a := actions[..|actions| - 1], actions[|actions| - 1];
      FilingTells(front);
      if Act(Run(front), a).Some? {
        NextTells(Run(front), Accepted(front), a);
      }
    }
  }

  // A row of the matrix has the status of the last match for its requirement, and its evidence if that still exists.
  lemma MatrixMeaning(requirements: seq<Requirement>, matches: seq<Match>, w: World, i: nat, k: nat)
    requires i < |requirements| && IsLastFor(matches, requirements[i].id, k)
    ensures var row, found := Matrix(requirements, matches, w)[i], matches[k].evidence;
      row == Row(requirements[i].id, requirements[i].source, matches[k].status,
                 if found.Some? && found.value in w.evidence then found else None)
  {
    MatchForLast(matches, requirements[i].id, k);
  }

  // Without a match it is missing.
  lemma MatrixMissing(requirements: seq<Requirement>, matches: seq<Match>, w: World, i: nat)
    requires i < |requirements|
    requires forall k | 0 <= k < |matches| :: matches[k].requirement != requirements[i].id
    ensures Matrix(requirements, matches, w)[i] == Row(requirements[i].id, requirements[i].source, Missing, None)
  {
    MatchForNone(matches, requirements[i].id);
  }
}
