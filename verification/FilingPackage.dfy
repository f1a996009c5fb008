/**
 The filing package and its citation gate: apps/api/captureos/services/packaging.py, approvals.py and
 compliance.py, with the other steps that move a filing's status.
 */
module FilingPackage {
  import opened Wrappers

  datatype MatchStatus = Matched | Partial | Missing | UserProvided

  predicate Met(s: MatchStatus) {
    s.Matched? || s.UserProvided?
  }

  datatype Requirement = Requirement(id: nat, source: Option<nat>)

  datatype Match = Match(requirement: nat, evidence: Option<nat>, status: MatchStatus)

  datatype EvidenceRow = EvidenceRow(inOrg: bool, source: Option<nat>)

  // The evidence table, and the sources of the filing's organization.
  datatype World = World(evidence: map<nat, EvidenceRow>, sources: set<nat>)

  // A row of the compliance matrix.
  datatype Row = Row(requirement: nat, source: Option<nat>, status: MatchStatus, evidence: Option<nat>)

  datatype Citation = Citation(evidence: Option<nat>, source: Option<nat>)

  datatype DocType = ComplianceMatrix | Narrative | SubmissionChecklist | MissingItems | CitationAppendix

  datatype DocStatus = DraftDoc | ReviewDoc | ReadyDoc

  // Versions count from 1.
  type Version = v: nat | v >= 1 witness 1

  datatype Doc = Doc(kind: DocType, version: Version, citations: seq<Citation>, validated: bool, status: DocStatus)

  datatype FilingStatus = Draft | EvidenceReview | Recommended | Approved | Packaging | PackageReview | Ready

  datatype State = State(status: FilingStatus, requirements: seq<Requirement>, matches: seq<Match>,
                         recommendation: Option<bool>, docs: seq<Doc>)

  // ---------------------------------------------------------------------------
  // The compliance matrix
  // ---------------------------------------------------------------------------

  // The match a dict keyed by requirement keeps: the last one.
  function MatchFor(matches: seq<Match>, requirement: nat): Option<Match> {
    if matches == [] then None
    else if matches[|matches| - 1].requirement == requirement then Some(matches[|matches| - 1])
    else MatchFor(matches[..|matches| - 1], requirement)
  }

  function RowFor(r: Requirement, m: Option<Match>, w: World): Row {
    Row(r.id, r.source, if m.Some? then m.value.status else Missing,
        if m.Some? && m.value.evidence.Some? && m.value.evidence.value in w.evidence then m.value.evidence else None)
  }

  function Matrix(requirements: seq<Requirement>, matches: seq<Match>, w: World): seq<Row> {
    seq(|requirements|,
      i requires 0 <= i < |requirements| => RowFor(requirements[i], MatchFor(matches, requirements[i].id), w))
  }

  method BuildComplianceMatrix(requirements: seq<Requirement>, matches: seq<Match>, w: World) returns (rows: seq<Row>)
    ensures rows == Matrix(requirements, matches, w)
  {
    var byRequirement: map<nat, Match> := map[];
    for i := 0 to |matches|
      invariant forall id :: MatchFor(matches[..i], id) == if id in byRequirement then Some(byRequirement[id]) else None
    {
      assert matches[..i + 1][..i] == matches[..i];
      byRequirement := byRequirement[matches[i].requirement := matches[i]];
    }
    assert matches[..|matches|] == matches;
    rows := [];
    for i := 0 to |requirements|
      invariant rows == Matrix(requirements, matches, w)[..i]
    {
      var r := requirements[i];
      var m := if r.id in byRequirement then Some(byRequirement[r.id]) else None;
      rows := rows + [RowFor(r, m, w)];
    }
  }

  // ---------------------------------------------------------------------------
  // Building a version
  // ---------------------------------------------------------------------------

  predicate Claim(row: Row) {
    Met(row.status) && row.evidence.Some?
  }

  predicate Gap(row: Row) {
    row.status.Partial? || row.status.Missing?
  }

  function ClaimCitations(rows: seq<Row>): seq<Citation> {
    if rows == [] then []
    else
      var r := rows[|rows| - 1];
      ClaimCitations(rows[..|rows| - 1]) + if Claim(r) then [Citation(r.evidence, r.source)] else []
  }

  function SourceCitations(rows: seq<Row>, gapsOnly: bool): seq<Citation> {
    if rows == [] then []
    else
      var r := rows[|rows| - 1];
      SourceCitations(rows[..|rows| - 1], gapsOnly)
      + if r.source.Some? && (gapsOnly ==> Gap(r)) then [Citation(None, r.source)] else []
  }

  // One entry per cited evidence item of the organization.
  function AppendixCitations(narrative: seq<Citation>, w: World): seq<Citation> {
    if narrative == [] then []
    else
      var c, before := narrative[|narrative| - 1], AppendixCitations(narrative[..|narrative| - 1], w);
      if c.evidence.Some? && c.evidence.value in w.evidence && w.evidence[c.evidence.value].inOrg
         && Citation(c.evidence, w.evidence[c.evidence.value].source) !in before
      then before + [Citation(c.evidence, w.evidence[c.evidence.value].source)] else before
  }

  function MaxVersion(docs: seq<Doc>): nat {
    if docs == [] then 0
    else
      var version, rest := docs[|docs| - 1].version, MaxVersion(docs[..|docs| - 1]);
      if version > rest then version else rest
  }

  lemma {:induction false} MaxVersionMeaning(docs: seq<Doc>)
    ensures forall i | 0 <= i < |docs| :: docs[i].version <= MaxVersion(docs)
    ensures docs != [] ==> MaxVersion(docs) > 0 && exists i | 0 <= i < |docs| :: docs[i].version == MaxVersion(docs)
  {
    if docs != [] {
      MaxVersionMeaning(docs[..|docs| - 1]);
    }
  }

  // The greatest version is determined by the versions alone.
  lemma {:induction false} SameVersions(docs: seq<Doc>, others: seq<Doc>)
    requires |docs| == |others| && forall i | 0 <= i < |docs| :: docs[i].version == others[i].version
    ensures MaxVersion(docs) == MaxVersion(others)
  {
    if docs != [] {
      SameVersions(docs[..|docs| - 1], others[..|docs| - 1]);
    }
  }

  function NewDocs(rows: seq<Row>, narrative: seq<Citation>, w: World, version: Version): seq<Doc> {
    [Doc(ComplianceMatrix, version, ClaimCitations(rows), false, DraftDoc),
     Doc(Narrative, version, narrative, false, DraftDoc),
     Doc(SubmissionChecklist, version, SourceCitations(rows, false), false, DraftDoc),
     Doc(MissingItems, version, SourceCitations(rows, true), false, DraftDoc),
     Doc(CitationAppendix, version, AppendixCitations(narrative, w), false, DraftDoc)]
  }

  // ---------------------------------------------------------------------------
  // The citation check
  // ---------------------------------------------------------------------------

  predicate Resolves(c: Citation, w: World) {
    || (c.evidence.Some? && c.evidence.value in w.evidence && w.evidence[c.evidence.value].inOrg)
    || (c.source.Some? && c.source.value in w.sources)
  }

  predicate ClaimBearing(kind: DocType) {
    kind.ComplianceMatrix? || kind.Narrative?
  }

  predicate Sourced(d: Doc, w: World) {
    (forall c | c in d.citations :: Resolves(c, w)) && (ClaimBearing(d.kind) ==> d.citations != [])
  }

  function Checked(d: Doc, w: World): Doc {
    d.(validated := Sourced(d, w), status := if Sourced(d, w) then ReviewDoc else DraftDoc)
  }

  function MapVersion(docs: seq<Doc>, version: nat, f: Doc -> Doc): seq<Doc> {
    seq(|docs|, i requires 0 <= i < |docs| => if docs[i].version == version then f(docs[i]) else docs[i])
  }

  function Checker(w: World): Doc -> Doc {
    (d: Doc) => Checked(d, w)
  }

  function Readier(): Doc -> Doc {
    (d: Doc) => d.(status := ReadyDoc)
  }

  function TallyOne(d: Doc, version: nat, validatedOnly: bool): nat {
    if d.version == version && (validatedOnly ==> d.validated) then 1 else 0
  }

  // How many documents of a version there are, or how many of them are validated.
  function Tally(docs: seq<Doc>, version: nat, validatedOnly: bool): nat {
    if docs == [] then 0
    else Tally(docs[..|docs| - 1], version, validatedOnly) + TallyOne(docs[|docs| - 1], version, validatedOnly)
  }

  predicate ValidatedAt(docs: seq<Doc>, version: nat) {
    forall i | 0 <= i < |docs| && docs[i].version == version :: docs[i].validated
  }

  // There is no package exactly when the greatest version is 0.
  predicate AllValidated(docs: seq<Doc>) {
    MaxVersion(docs) > 0 && ValidatedAt(docs, MaxVersion(docs))
  }

  lemma {:induction false} TallyMeaning(docs: seq<Doc>, version: nat)
    ensures Tally(docs, version, true) <= Tally(docs, version, false)
    ensures Tally(docs, version, true) == Tally(docs, version, false) <==> ValidatedAt(docs, version)
    ensures Tally(docs, version, false) > 0 <==> exists i | 0 <= i < |docs| :: docs[i].version == version
  {
    if docs != [] {
      TallyMeaning(docs[..|docs| - 1], version);
    }
  }

  lemma TallyNext(docs: seq<Doc>, i: nat, version: nat)
    requires i < |docs|
    ensures forall v :: Tally(docs[..i + 1], version, v) == Tally(docs[..i], version, v) + TallyOne(docs[i], version, v)
  {
    assert docs[..i + 1][..i] == docs[..i];
  }

  lemma TallyOfMapped(docs: seq<Doc>, f: Doc -> Doc)
    requires forall d :: f(d).version == d.version
    ensures var version, after := MaxVersion(docs), MapVersion(docs, MaxVersion(docs), f);
      && MaxVersion(after) == version
      && ((Tally(after, version, true) == Tally(after, version, false) && Tally(after, version, false) > 0) <==>
        AllValidated(after))
  {
    var after := MapVersion(docs, MaxVersion(docs), f);
    SameVersions(after, docs);
    MaxVersionMeaning(after);
    TallyMeaning(after, MaxVersion(docs));
  }

  // ---------------------------------------------------------------------------
  // The filing
  // ---------------------------------------------------------------------------

  // What the other steps and the user do; the narrative's citations are whatever the agent returned.
  datatype Action =
    | Extract(added: seq<Requirement>)
    | MapEvidence(found: seq<Match>)
    | ResolveGap(requirement: nat, evidence: nat)
    | Recommend
    | Build(w: World, narrative: seq<Citation>)
    | Validate(w: World)
    | ApproveRecommendation(approved: bool)
    | ApprovePackage(approved: bool)

  function WithoutMatch(matches: seq<Match>, requirement: nat): seq<Match> {
    if matches == [] then []
    else
      var m := matches[|matches| - 1];
      WithoutMatch(matches[..|matches| - 1], requirement) + if m.requirement == requirement then [] else [m]
  }

  // None: the action was refused and changed nothing.
  function Act(s: State, a: Action): Option<State> {
    match a
    case Extract(added) => Some(s.(status := EvidenceReview, requirements := s.requirements + added))
    case MapEvidence(found) => Some(s.(status := EvidenceReview, matches := found))
    case ResolveGap(r, e) =>
      if exists q | q in s.requirements :: q.id == r then
        Some(s.(matches := WithoutMatch(s.matches, r) + [Match(r, Some(e), UserProvided)]))
      else None
    case Recommend => Some(s.(status := Recommended, recommendation := Some(false)))
    case Build(w, narrative) =>
      var rows := Matrix(s.requirements, s.matches, w);
      Some(s.(status := Packaging, docs := s.docs + NewDocs(rows, narrative, w, MaxVersion(s.docs) + 1)))
    case Validate(w) =>
      Some(s.(status := PackageReview, docs := MapVersion(s.docs, MaxVersion(s.docs), Checker(w))))
    case ApproveRecommendation(approved) =>
      Some(s.(status := if approved then Approved else Recommended,
              recommendation := if s.recommendation.Some? then Some(approved) else None))
    case ApprovePackage(approved) =>
      if !approved then Some(s.(status := PackageReview))
      else if AllValidated(s.docs) then
        Some(s.(status := Ready, docs := MapVersion(s.docs, MaxVersion(s.docs), Readier())))
      else None
  }

  function Next(s: State, a: Action): State {
    if Act(s, a).Some? then Act(s, a).value else s
  }

  function Run(actions: seq<Action>): State {
    if actions == [] then State(Draft, [], [], None, [])
    else Next(Run(actions[..|actions| - 1]), actions[|actions| - 1])
  }

  class Filing {
    var status: FilingStatus
    var requirements: seq<Requirement>
    var matches: seq<Match>
    var recommendation: Option<bool>
    var docs: seq<Doc>

    ghost function Now(): State
      reads this
    {
      State(status, requirements, matches, recommendation, docs)
    }

    method BuildPackage(w: World, narrate: seq<Row> -> seq<Citation>)
      modifies this`status, this`docs
      ensures Some(Now()) == Act(old(Now()), Build(w, narrate(Matrix(requirements, matches, w))))
    {
      var rows := BuildComplianceMatrix(requirements, matches, w);
      var narrative := narrate(rows);
      var claims, sources, gaps := [], [], [];
      for i := 0 to |rows|
        invariant claims == ClaimCitations(rows[..i]) && sources == SourceCitations(rows[..i], false)
        invariant gaps == SourceCitations(rows[..i], true)
      {
        assert rows[..i + 1][..i] == rows[..i];
        var r := rows[i];
        if Claim(r) {
          claims := claims + [Citation(r.evidence, r.source)];
        }
        if r.source.Some? {
          sources := sources + [Citation(None, r.source)];
          if Gap(r) {
            gaps := gaps + [Citation(None, r.source)];
          }
        }
      }
      assert rows[..|rows|] == rows;
      var version := MaxVersion(docs) + 1;
      docs := docs + [
        Doc(ComplianceMatrix, version, claims, false, DraftDoc),
        Doc(Narrative, version, narrative, false, DraftDoc),
        Doc(SubmissionChecklist, version, sources, false, DraftDoc),
        Doc(MissingItems, version, gaps, false, DraftDoc),
        Doc(CitationAppendix, version, AppendixCitations(narrative, w), false, DraftDoc)];
      status := Packaging;
    }

    // One document of the latest version.
    method CheckDoc(i: nat, w: World) returns (passed: bool)
      requires i < |docs|
      modifies this`docs
      ensures docs == old(docs)[i := Checked(old(docs)[i], w)] && passed == docs[i].validated
    {
      passed := (forall c | c in docs[i].citations :: Resolves(c, w)) &&
        (ClaimBearing(docs[i].kind) ==> docs[i].citations != []);
      docs := docs[i := docs[i].(validated := passed, status := if passed then ReviewDoc else DraftDoc)];
    }

    method CheckVersion(version: nat, w: World) returns (validated: nat, total: nat)
      modifies this`docs
      ensures docs == MapVersion(old(docs), version, Checker(w))
      ensures validated == Tally(docs, version, true) && total == Tally(docs, version, false)
    {
      validated, total := 0, 0;
      ghost var goal := MapVersion(docs, version, Checker(w));
      for i := 0 to |docs|
        invariant |docs| == |goal| && docs[..i] == goal[..i] && docs[i..] == old(docs)[i..]
        invariant validated == Tally(goal[..i], version, true) && total == Tally(goal[..i], version, false)
      {
        assert docs[i] == old(docs)[i];
        if docs[i].version == version {
          var passed := CheckDoc(i, w);
          total := total + 1;
          if passed {
            validated := validated + 1;
          }
        }
        assert docs[i] == goal[i];
        assert docs[..i + 1] == goal[..i + 1];
        TallyNext(goal, i, version);
      }
      assert goal[..|goal|] == goal == docs;
    }

    // Also reports how many documents of the latest version there are, and how many passed.
    method ValidateCitations(w: World) returns (validated: nat, total: nat)
      modifies this`status, this`docs
      ensures Some(Now()) == Act(old(Now()), Validate(w))
      ensures validated == Tally(docs, MaxVersion(docs), true) && total == Tally(docs, MaxVersion(docs), false)
      ensures (validated == total && total > 0) <==> AllValidated(docs)
    {
      validated, total := CheckVersion(MaxVersion(docs), w);
      TallyOfMapped(old(docs), Checker(w));
      status := PackageReview;
    }

    method RecordApproval(package: bool, approved: bool) returns (accepted: bool)
      modifies this`status, this`docs, this`recommendation
      ensures var a := if package then ApprovePackage(approved) else ApproveRecommendation(approved);
        accepted == Act(old(Now()), a).Some? && Now() == Next(old(Now()), a)
    {
      if !package {
        if recommendation.Some? {
          recommendation := Some(approved);
        }
        status := if approved then Approved else Recommended;
        return true;
      }
      if !approved {
        status := PackageReview;
        return true;
      }
      var version := MaxVersion(docs);
      if version == 0 || exists i | 0 <= i < |docs| :: docs[i].version == version && !docs[i].validated {
        return false;
      }
      for i := 0 to |docs|
        invariant |docs| == |old(docs)| && status == old(status) && recommendation == old(recommendation)
        invariant forall j | 0 <= j < i :: docs[j] == MapVersion(old(docs), version, Readier())[j]
        invariant forall j | i <= j < |docs| :: docs[j] == old(docs)[j]
      {
        if docs[i].version == version {
          docs := docs[i := docs[i].(status := ReadyDoc)];
        }
      }
      assert docs == MapVersion(old(docs), version, Readier());
      status := Ready;
      accepted := true;
    }
  }

  // ---------------------------------------------------------------------------
  // Ready means validated
  // ---------------------------------------------------------------------------

  predicate ReadyMeansValidated(s: State) {
    s.status.Ready? ==>
      && AllValidated(s.docs)
      && (exists i | 0 <= i < |s.docs| :: s.docs[i].version == MaxVersion(s.docs))
      && forall i | 0 <= i < |s.docs| && s.docs[i].version == MaxVersion(s.docs) :: s.docs[i].status.ReadyDoc?
  }

  lemma NextKeepsReady(s: State, a: Action)
    requires ReadyMeansValidated(s)
    ensures ReadyMeansValidated(Next(s, a))
  {
    if a.ApprovePackage? && a.approved && AllValidated(s.docs) {
      SameVersions(s.docs, MapVersion(s.docs, MaxVersion(s.docs), Readier()));
      MaxVersionMeaning(MapVersion(s.docs, MaxVersion(s.docs), Readier()));
    }
  }

  // Whatever is done to a filing, in whatever order: once it is ready, its latest package exists and every
  // document of it passed the citation check and is ready.
  lemma {:induction false} ReadyIsValidated(actions: seq<Action>)
    ensures ReadyMeansValidated(Run(actions))
  {
    if actions != [] {
      ReadyIsValidated(actions[..|actions| - 1]);
      NextKeepsReady(Run(actions[..|actions| - 1]), actions[|actions| - 1]);
    }
  }
}
