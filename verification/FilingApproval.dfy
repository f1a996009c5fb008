/**
 Which packages can be approved: apps/api/captureos/services/packaging.py and approvals.py with the deterministic
 narrative of agents/narrative.py, which cites each claim row once and in order.
 */
module FilingApproval {
  import opened Wrappers
  import opened FilingPackage

  // ---------------------------------------------------------------------------
  // What the new documents cite
  // ---------------------------------------------------------------------------

  // The requirement is matched, or answered by the user, with an evidence item.
  predicate HasEvidence(row: Row) {
    (row.status.Matched? || row.status.UserProvided?) && row.evidence.Some?
  }

  predicate Cites(rows: seq<Row>, c: Citation) {
    exists i | 0 <= i < |rows| :: HasEvidence(rows[i]) && c == Citation(rows[i].evidence, rows[i].source)
  }

  // With gapsOnly, the sources of the requirements that are partly met or missing.
  predicate CitesSource(rows: seq<Row>, c: Citation, gapsOnly: bool) {
    exists i | 0 <= i < |rows| ::
      && rows[i].source.Some? && c == Citation(None, rows[i].source)
      && (gapsOnly ==> rows[i].status.Partial? || rows[i].status.Missing?)
  }

  lemma {:induction false} ClaimsCited(rows: seq<Row>, c: Citation)
    ensures c in ClaimCitations(rows) <==> Cites(rows, c)
  {
    if rows != [] {
      ClaimsCited(rows[..|rows| - 1], c);
    }
  }

  lemma {:induction false} SourcesCited(rows: seq<Row>, gapsOnly: bool, c: Citation)
    ensures c in SourceCitations(rows, gapsOnly) <==> CitesSource(rows, c, gapsOnly)
  {
    if rows != [] {
      SourcesCited(rows[..|rows| - 1], gapsOnly, c);
    }
  }

  // An evidence item of the organization, with its source.
  predicate IsItem(c: Citation, w: World) {
    && c.evidence.Some? && c.evidence.value in w.evidence && w.evidence[c.evidence.value].inOrg
    && c.source == w.evidence[c.evidence.value].source
  }

  // The appendix lists exactly the evidence of the organization that the narrative cites, each item once.
  lemma {:induction false} AppendixResolves(narrative: seq<Citation>, w: World)
    ensures forall c :: c in AppendixCitations(narrative, w) <==>
      IsItem(c, w) && exists n | n in narrative :: n.evidence == c.evidence
    ensures forall c | c in AppendixCitations(narrative, w) :: Resolves(c, w)
    ensures forall i, j | 0 <= i < j < |AppendixCitations(narrative, w)| ::
      AppendixCitations(narrative, w)[i].evidence != AppendixCitations(narrative, w)[j].evidence
  {
    if narrative != [] {
      AppendixResolves(narrative[..|narrative| - 1], w);
      assert narrative == narrative[..|narrative| - 1] + [narrative[|narrative| - 1]];
    }
  }

  // What each of the five new documents cites, whatever the narrative.
  lemma BuildCites(s: State, w: World, narrative: seq<Citation>, d: Doc, c: Citation)
    requires d in NewDocs(Matrix(s.requirements, s.matches, w), narrative, w, MaxVersion(s.docs) + 1)
    ensures var rows := Matrix(s.requirements, s.matches, w);
      c in d.citations <==> match d.kind
        case ComplianceMatrix => Cites(rows, c)
        case Narrative => c in narrative
        case SubmissionChecklist => CitesSource(rows, c, false)
        case MissingItems => CitesSource(rows, c, true)
        case CitationAppendix => IsItem(c, w) && exists n | n in narrative :: n.evidence == c.evidence
    ensures d.version == MaxVersion(s.docs) + 1 && !d.validated && d.status == DraftDoc
  {
    var rows := Matrix(s.requirements, s.matches, w);
    ClaimsCited(rows, c);
    SourcesCited(rows, false, c);
    SourcesCited(rows, true, c);
    AppendixResolves(narrative, w);
  }

  // ---------------------------------------------------------------------------
  // Approvability
  // ---------------------------------------------------------------------------

  predicate SomeClaim(rows: seq<Row>) {
    exists i | 0 <= i < |rows| :: HasEvidence(rows[i])
  }

  // Every requirement's source is one of the organization's.
  predicate SourcesKnown(rows: seq<Row>, w: World) {
    forall i | 0 <= i < |rows| && rows[i].source.Some? :: rows[i].source.value in w.sources
  }

  // A claim on a requirement without a source rests on evidence of the organization.
  predicate ClaimsKnown(rows: seq<Row>, w: World) {
    forall i | 0 <= i < |rows| && HasEvidence(rows[i]) && rows[i].source.None? ::
      rows[i].evidence.value in w.evidence && w.evidence[rows[i].evidence.value].inOrg
  }

  lemma ClaimsSourced(rows: seq<Row>, w: World)
    requires SourcesKnown(rows, w)
    ensures (forall c | c in ClaimCitations(rows) :: Resolves(c, w)) <==> ClaimsKnown(rows, w)
  {
    if forall c | c in ClaimCitations(rows) :: Resolves(c, w) {
      forall i | 0 <= i < |rows| && HasEvidence(rows[i]) && rows[i].source.None?
        ensures rows[i].evidence.value in w.evidence && w.evidence[rows[i].evidence.value].inOrg
      {
        ClaimsCited(rows, Citation(rows[i].evidence, rows[i].source));
        assert Resolves(Citation(rows[i].evidence, rows[i].source), w);
      }
    }
    if ClaimsKnown(rows, w) {
      forall c | c in ClaimCitations(rows) ensures Resolves(c, w) {
        ClaimsCited(rows, c);
      }
    }
  }

  lemma ChecklistSourced(rows: seq<Row>, gapsOnly: bool, w: World)
    ensures SourcesKnown(rows, w) ==> forall c | c in SourceCitations(rows, gapsOnly) :: Resolves(c, w)
    ensures (forall c | c in SourceCitations(rows, false) :: Resolves(c, w)) ==> SourcesKnown(rows, w)
  {
    forall c, g ensures c in SourceCitations(rows, g) <==> CitesSource(rows, c, g) {
      SourcesCited(rows, g, c);
    }
    forall i | 0 <= i < |rows| && rows[i].source.Some?
      ensures Citation(None, rows[i].source) in SourceCitations(rows, false)
    {
      assert CitesSource(rows, Citation(None, rows[i].source), false);
    }
  }

  lemma ClaimsNonEmpty(rows: seq<Row>)
    ensures ClaimCitations(rows) != [] <==> SomeClaim(rows)
  {
    if ClaimCitations(rows) != [] {
      ClaimsCited(rows, ClaimCitations(rows)[0]);
    }
    if i :| 0 <= i < |rows| && HasEvidence(rows[i]) {
      ClaimsCited(rows, Citation(rows[i].evidence, rows[i].source));
    }
  }

  predicate AllSourced(docs: seq<Doc>, w: World) {
    forall i | 0 <= i < |docs| :: Sourced(docs[i], w)
  }

  lemma AppendixSourced(narrative: seq<Citation>, w: World, version: Version)
    ensures Sourced(Doc(CitationAppendix, version, AppendixCitations(narrative, w), false, DraftDoc), w)
  {
    AppendixResolves(narrative, w);
  }

  // The narrative cites something, and nothing that is unknown.
  predicate NarrativeKnown(narrative: seq<Citation>, w: World) {
    narrative != [] && forall c | c in narrative :: Resolves(c, w)
  }

  lemma NewDocsSourced(rows: seq<Row>, narrative: seq<Citation>, w: World, version: Version)
    ensures AllSourced(NewDocs(rows, narrative, w, version), w)
      <==> SomeClaim(rows) && SourcesKnown(rows, w) && ClaimsKnown(rows, w) && NarrativeKnown(narrative, w)
  {
    var docs := NewDocs(rows, narrative, w, version);
    assert AllSourced(docs, w) <==>
      Sourced(docs[0], w) && Sourced(docs[1], w) && Sourced(docs[2], w) && Sourced(docs[3], w) && Sourced(docs[4], w);
    ClaimsNonEmpty(rows);
    ChecklistSourced(rows, false, w);
    ChecklistSourced(rows, true, w);
    AppendixSourced(narrative, w, version);
    if SourcesKnown(rows, w) {
      ClaimsSourced(rows, w);
    }
  }

  // A build makes one new version, above every earlier one.
  lemma LatestIsNew(before: seq<Doc>, added: seq<Doc>)
    requires added != [] && forall i | 0 <= i < |added| :: added[i].version == MaxVersion(before) + 1
    ensures MaxVersion(before + added) == MaxVersion(before) + 1
    ensures forall i | 0 <= i < |before + added| ::
      (before + added)[i].version == MaxVersion(before + added) <==> i >= |before|
  {
    var docs := before + added;
    assert docs[|before|] == added[0];
    MaxVersionMeaning(before);
    MaxVersionMeaning(docs);
  }

  // So the check settles whether all of the latest version is validated, and looks only at the new documents.
  lemma CheckedLatest(before: seq<Doc>, added: seq<Doc>, w: World)
    requires added != [] && forall i | 0 <= i < |added| :: added[i].version == MaxVersion(before) + 1
    ensures AllValidated(MapVersion(before + added, MaxVersion(before + added), Checker(w))) <==> AllSourced(added, w)
  {
    var docs := before + added;
    var after := MapVersion(docs, MaxVersion(docs), Checker(w));
    LatestIsNew(before, added);
    SameVersions(after, docs);
    forall i | 0 <= i < |added| ensures after[|before| + i].validated == Sourced(added[i], w) {
      assert docs[|before| + i] == added[i];
    }
    if AllValidated(after) {
      forall i | 0 <= i < |added| ensures Sourced(added[i], w) {
        assert after[|before| + i].version == MaxVersion(after);
      }
    }
    if AllSourced(added, w) {
      forall i | 0 <= i < |after| && after[i].version == MaxVersion(after) ensures after[i].validated {
        assert docs[i] == added[i - |before|];
      }
    }
  }

  function Built(s: State, w: World, narrative: seq<Citation>): State {
    Next(Next(s, Build(w, narrative)), Validate(w))
  }

  lemma BuiltDocs(s: State, w: World, narrative: seq<Citation>, added: seq<Doc>)
    requires added == NewDocs(Matrix(s.requirements, s.matches, w), narrative, w, MaxVersion(s.docs) + 1)
    ensures Built(s, w, narrative).status.PackageReview?
    ensures Built(s, w, narrative).docs == MapVersion(s.docs + added, MaxVersion(s.docs + added), Checker(w))
  {
  }

  lemma ApprovedWhenValidated(s: State)
    requires !s.status.Ready?
    ensures Next(s, ApprovePackage(true)).status.Ready? <==> AllValidated(s.docs)
  {
  }

  // From any state of the filing and with any narrative, a package that is built, checked and submitted for approval
  // becomes ready exactly when some requirement is met by an evidence item, every requirement that names a source names
  // one of the organization's, the met requirements that name none rest on the organization's evidence, and the
  // narrative has citations, all of them known.
  lemma NarrativeApprovable(s: State, w: World, narrative: seq<Citation>)
    ensures var rows := Matrix(s.requirements, s.matches, w);
      Next(Built(s, w, narrative), ApprovePackage(true)).status.Ready? <==>
        SomeClaim(rows) && SourcesKnown(rows, w) && ClaimsKnown(rows, w) && NarrativeKnown(narrative, w)
  {
    var rows := Matrix(s.requirements, s.matches, w);
    var added := NewDocs(rows, narrative, w, MaxVersion(s.docs) + 1);
    BuiltDocs(s, w, narrative, added);
    ApprovedWhenValidated(Built(s, w, narrative));
    assert AllValidated(Built(s, w, narrative).docs) <==> AllSourced(added, w) by {
      CheckedLatest(s.docs, added, w);
    }
    NewDocsSourced(rows, narrative, w, MaxVersion(s.docs) + 1);
  }

  // The deterministic narrative cites each claim row once and in order.
  function Deterministic(s: State, w: World): seq<Citation> {
    ClaimCitations(Matrix(s.requirements, s.matches, w))
  }

  // With it, the condition on the narrative goes without saying.
  lemma ApprovableExactly(s: State, w: World)
    ensures var rows := Matrix(s.requirements, s.matches, w);
      Next(Built(s, w, Deterministic(s, w)), ApprovePackage(true)).status.Ready? <==>
        SomeClaim(rows) && SourcesKnown(rows, w) && ClaimsKnown(rows, w)
  {
    var rows := Matrix(s.requirements, s.matches, w);
    NarrativeApprovable(s, w, Deterministic(s, w));
    ClaimsNonEmpty(rows);
    if SourcesKnown(rows, w) {
      ClaimsSourced(rows, w);
    }
  }

  // What the filing refers to belongs to its organization; the tables may hold others' rows as well.
  predicate OrgConsistent(s: State, w: World) {
    && (forall r | r in s.requirements && r.source.Some? :: r.source.value in w.sources)
    && (forall m | m in s.matches && m.evidence.Some? && m.evidence.value in w.evidence ::
      w.evidence[m.evidence.value].inOrg)
  }

  lemma {:induction false} MatchIsStored(matches: seq<Match>, requirement: nat)
    ensures MatchFor(matches, requirement).Some? ==> MatchFor(matches, requirement).value in matches
  {
    if matches != [] {
      MatchIsStored(matches[..|matches| - 1], requirement);
    }
  }

  // Some requirement is matched, or answered by the user, with an evidence item that exists.
  predicate SomeMet(s: State, w: World) {
    exists i | 0 <= i < |s.requirements| :: MetBy(MatchFor(s.matches, s.requirements[i].id), w)
  }

  predicate MetBy(m: Option<Match>, w: World) {
    && m.Some? && (m.value.status.Matched? || m.value.status.UserProvided?)
    && m.value.evidence.Some? && m.value.evidence.value in w.evidence
  }

  lemma ConsistentApprovable(s: State, w: World)
    requires OrgConsistent(s, w)
    ensures Next(Built(s, w, Deterministic(s, w)), ApprovePackage(true)).status.Ready? <==> SomeMet(s, w)
  {
    ApprovableExactly(s, w);
    var rows := Matrix(s.requirements, s.matches, w);
    assert forall i | 0 <= i < |rows| :: HasEvidence(rows[i]) <==> MetBy(MatchFor(s.matches, s.requirements[i].id), w);
    assert forall i | 0 <= i < |rows| ::
      rows[i].source == s.requirements[i].source && s.requirements[i] in s.requirements;
    forall i | 0 <= i < |rows| && HasEvidence(rows[i])
      ensures rows[i].evidence.value in w.evidence && w.evidence[rows[i].evidence.value].inOrg
    {
      MatchIsStored(s.matches, s.requirements[i].id);
    }
  }

  // ---------------------------------------------------------------------------
  // Versions
  // ---------------------------------------------------------------------------

  function Kinds(): seq<DocType> {
    [ComplianceMatrix, Narrative, SubmissionChecklist, MissingItems, CitationAppendix]
  }

  predicate NumberedAt(d: Doc, i: nat) {
    d.version == i / 5 + 1 && d.kind == Kinds()[i % 5]
  }

  predicate Numbered(docs: seq<Doc>) {
    |docs| == 5 * MaxVersion(docs) && forall i | 0 <= i < |docs| :: NumberedAt(docs[i], i)
  }

  lemma MappedNumbered(docs: seq<Doc>, version: nat, f: Doc -> Doc)
    requires Numbered(docs) && forall d :: f(d).version == d.version && f(d).kind == d.kind
    ensures Numbered(MapVersion(docs, version, f))
  {
    SameVersions(MapVersion(docs, version, f), docs);
  }

  lemma BuildNumbered(before: seq<Doc>, added: seq<Doc>)
    requires Numbered(before) && |added| == 5
    requires forall i | 0 <= i < 5 :: added[i].version == MaxVersion(before) + 1 && added[i].kind == Kinds()[i]
    ensures Numbered(before + added)
  {
    LatestIsNew(before, added);
    forall i | |before| <= i < |before + added| ensures NumberedAt((before + added)[i], i) {
      assert i == 5 * MaxVersion(before) + (i - |before|);
    }
  }

  lemma BuiltFive(s: State, a: Action) returns (added: seq<Doc>)
    requires a.Build?
    ensures |added| == 5 && forall i | 0 <= i < 5 ::
      added[i].version == MaxVersion(s.docs) + 1 && added[i].kind == Kinds()[i]
    ensures Next(s, a).docs == s.docs + added
  {
    added := NewDocs(Matrix(s.requirements, s.matches, a.w), a.narrative, a.w, MaxVersion(s.docs) + 1);
  }

  lemma NextNumbered(s: State, a: Action)
    requires Numbered(s.docs)
    ensures Numbered(Next(s, a).docs)
  {
    if a.Build? {
      var added := BuiltFive(s, a);
      BuildNumbered(s.docs, added);
    } else if a.Validate? {
      MappedNumbered(s.docs, MaxVersion(s.docs), Checker(a.w));
    } else if a.ApprovePackage? {
      MappedNumbered(s.docs, MaxVersion(s.docs), Readier());
    }
  }

  // Every package is kept: over any run the documents are the versions 1 to n in order, each with its five kinds.
  lemma {:induction false} PackagesNumbered(actions: seq<Action>)
    ensures Numbered(Run(actions).docs)
  {
    if actions != [] {
      PackagesNumbered(actions[..|actions| - 1]);
      NextNumbered(Run(actions[..|actions| - 1]), actions[|actions| - 1]);
    }
  }
}
