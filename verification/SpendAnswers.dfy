/**
 What a request is answered, apps/api/captureos/services/spend.py `decide_authorization`, over every run: an approval
 stands for a committed row of a known card, and an answer without a row is a decline of a card nobody knows.
 */
module SpendAnswers {
  import opened Wrappers
  import opened SpendRules
  import opened SpendLedger

  predicate KnownCard(cfg: Config, c: Charge) {
    c.cardId.Some? && c.cardId.value in cfg.cards
  }

  predicate Attributed(cfg: Config, r: Row) {
    KnownCard(cfg, r.charge) && r.org == cfg.cards[r.charge.cardId.value]
  }

  // ---------------------------------------------------------------------------
  // Rows belong to cards
  // ---------------------------------------------------------------------------

  predicate ProcAttributed(cfg: Config, proc: Proc) {
    match proc.phase
    case Begun(org, _) => KnownCard(cfg, proc.charge) && org == cfg.cards[proc.charge.cardId.value]
    case Locked(org, _, _) => KnownCard(cfg, proc.charge) && org == cfg.cards[proc.charge.cardId.value]
    case Decided(row, _) => Attributed(cfg, row)
    case Inserted(row, _) => Attributed(cfg, row)
    case Answered(a) =>
      a.row.None? ==> !KnownCard(cfg, proc.charge) && a == Answer(Verdict(false, UnknownCard), None, false)
    case _ => true
  }

  ghost predicate CardsInv(cfg: Config, s: State) {
    && (forall r | r in s.rows :: Attributed(cfg, r))
    && forall p | 0 <= p < |s.procs| :: ProcAttributed(cfg, s.procs[p])
  }

  lemma MoverAttributed(cfg: Config, s: State, l: Label)
    requires Sound(cfg, s) && CardsInv(cfg, s) && !l.Arrive? && Enabled(cfg, s, l)
    ensures ProcAttributed(cfg, s.procs[l.p].(phase := NextPhase(cfg, s, l)))
  {
    assert ProcAttributed(cfg, s.procs[l.p]);
  }

  lemma StepKeepsCards(cfg: Config, s: State, l: Label)
    requires Sound(cfg, s) && CardsInv(cfg, s)
    ensures CardsInv(cfg, Step(cfg, s, l))
  {
    if Enabled(cfg, s, l) {
      var s' := Step(cfg, s, l);
      if !l.Arrive? {
        assert ProcAttributed(cfg, s.procs[l.p]);
        MoverAttributed(cfg, s, l);
      }
      forall p | 0 <= p < |s'.procs| ensures ProcAttributed(cfg, s'.procs[p]) {
        assert p < |s.procs| ==> ProcAttributed(cfg, s.procs[p]);
      }
    }
  }

  lemma {:induction false} RunKeepsCards(cfg: Config, labels: seq<Label>)
    ensures CardsInv(cfg, Run(cfg, START, labels))
  {
    if labels != [] {
      RunKeepsCards(cfg, labels[..|labels| - 1]);
      RunSound(cfg, labels[..|labels| - 1]);
      StepKeepsCards(cfg, Run(cfg, START, labels[..|labels| - 1]), labels[|labels| - 1]);
    }
  }

  // A request that was answered with an approval has a committed row of its own id, approved, under the organization
  // of a known card.
  lemma ApprovalIsBacked(cfg: Config, labels: seq<Label>, p: nat)
    ensures var s := Run(cfg, START, labels);
      p < |s.procs| && s.procs[p].phase.Answered? && s.procs[p].phase.answer.verdict.approved ==>
        exists r | r in s.rows ::
          && s.procs[p].phase.answer.row == Some(r) && r.charge.authId == s.procs[p].charge.authId && r.verdict.approved
          && r.charge.cardId.Some? && r.charge.cardId.value in cfg.cards && r.org == cfg.cards[r.charge.cardId.value]
  {
    RunSound(cfg, labels);
    RunKeepsCards(cfg, labels);
    var s := Run(cfg, START, labels);
    if p < |s.procs| {
      assert ProcSound(cfg, s.rows, s.procs[p]) && ProcAttributed(cfg, s.procs[p]);
    }
  }

  // ---------------------------------------------------------------------------
  // Answers without a row
  // ---------------------------------------------------------------------------

  ghost predicate RowlessAnswer(s: State, p: nat) {
    p < |s.procs| && s.procs[p].phase.Answered? && s.procs[p].phase.answer.row.None?
  }

  // At step k the request began with a card that is missing or unknown, and no row of its id was there.
  ghost predicate BeganUnknown(cfg: Config, labels: seq<Label>, p: nat, k: nat) {
    && k < |labels| && labels[k].Begin? && labels[k].p == p
    && var s := Run(cfg, START, labels[..k]);
       && Enabled(cfg, s, labels[k]) && !Recorded(s.rows, s.procs[p].charge.authId)
       && (s.procs[p].charge.cardId.None? || s.procs[p].charge.cardId.value !in cfg.cards)
  }

  lemma BeganBefore(cfg: Config, labels: seq<Label>, l: Label, p: nat)
    ensures (exists k :: BeganUnknown(cfg, labels + [l], p, k))
      <==> (exists k :: BeganUnknown(cfg, labels, p, k)) || BeganUnknown(cfg, labels + [l], p, |labels|)
  {
    var all := labels + [l];
    forall k: nat | k < |labels| ensures BeganUnknown(cfg, all, p, k) <==> BeganUnknown(cfg, labels, p, k) {
      assert all[..k] == labels[..k];
    }
  }

  lemma RowlessStep(cfg: Config, s: State, l: Label, p: nat)
    requires Sound(cfg, s)
    ensures RowlessAnswer(Step(cfg, s, l), p) <==>
      || RowlessAnswer(s, p)
      || (l.Begin? && l.p == p && Enabled(cfg, s, l) && !Recorded(s.rows, s.procs[p].charge.authId)
          && (s.procs[p].charge.cardId.None? || s.procs[p].charge.cardId.value !in cfg.cards))
  {
  }

  lemma {:induction false} RowlessExactly(cfg: Config, labels: seq<Label>, p: nat)
    ensures RowlessAnswer(Run(cfg, START, labels), p) <==> exists k :: BeganUnknown(cfg, labels, p, k)
  {
    if labels != [] {
      var front, l := labels[..|labels| - 1], labels[|labels| - 1];
      RowlessExactly(cfg, front, p);
      RunSound(cfg, front);
      assert labels == front + [l] && labels[..|front|] == front;
      BeganBefore(cfg, front, l, p);
      RowlessStep(cfg, Run(cfg, START, front), l, p);
    }
  }

  // An answer without a row is given exactly when the request began with a card that is missing or unknown and no row
  // of its id was there; it declines, for that reason.
  lemma UnknownCardDeclined(cfg: Config, labels: seq<Label>, p: nat)
    ensures var s := Run(cfg, START, labels);
      && (RowlessAnswer(s, p) <==> exists k :: BeganUnknown(cfg, labels, p, k))
      && (RowlessAnswer(s, p) ==> s.procs[p].phase.answer == Answer(Verdict(false, UnknownCard), None, false))
  {
    RowlessExactly(cfg, labels, p);
    RunKeepsCards(cfg, labels);
    var s := Run(cfg, START, labels);
    assert p < |s.procs| ==> ProcAttributed(cfg, s.procs[p]);
  }

  // ---------------------------------------------------------------------------
  // First answers
  // ---------------------------------------------------------------------------

  // The request was given this row, and not as a replay.
  ghost predicate First(s: State, p: nat, r: Row) {
    p < |s.procs| && s.procs[p].phase == Answered(Answer(r.verdict, Some(r), false))
  }

  ghost predicate FirstAnswersInv(s: State) {
    && (forall r | r in s.rows :: exists p :: First(s, p, r))
    && forall p, q, r | First(s, p, r) && First(s, q, r) :: p == q
  }

  lemma OthersFirst(cfg: Config, s: State, l: Label, p: nat, r: Row)
    requires Sound(cfg, s) && (l.Arrive? || l.p != p || !l.Commit? || !Enabled(cfg, s, l))
    ensures First(Step(cfg, s, l), p, r) <==> First(s, p, r)
  {
    if Enabled(cfg, s, l) && !l.Arrive? && l.p == p {
      assert ProcSound(cfg, s.rows, s.procs[p]);
    }
  }

  lemma CommitKeepsFirst(cfg: Config, s: State, d: nat)
    requires Sound(cfg, s) && FirstAnswersInv(s) && Enabled(cfg, s, Commit(d))
    ensures FirstAnswersInv(Step(cfg, s, Commit(d)))
  {
    var s', row := Step(cfg, s, Commit(d)), s.procs[d].phase.row;
    assert ProcSound(cfg, s.rows, s.procs[d]);
    assert First(s', d, row);
    forall p, r | p != d ensures First(s', p, r) <==> First(s, p, r) {}
    forall p: nat | p < |s.procs| ensures !First(s, p, row) {
      assert ProcSound(cfg, s.rows, s.procs[p]);
    }
    forall r | r in s'.rows ensures exists p :: First(s', p, r) {
      if r in s.rows {
        var p :| First(s, p, r);
        assert First(s', p, r);
      }
    }
  }

  lemma {:induction false} RunKeepsFirst(cfg: Config, labels: seq<Label>)
    ensures FirstAnswersInv(Run(cfg, START, labels))
  {
    if labels != [] {
      var s, l := Run(cfg, START, labels[..|labels| - 1]), labels[|labels| - 1];
      RunKeepsFirst(cfg, labels[..|labels| - 1]);
      RunSound(cfg, labels[..|labels| - 1]);
      if l.Commit? && Enabled(cfg, s, l) {
        CommitKeepsFirst(cfg, s, l.p);
      } else {
        forall p, r ensures First(Step(cfg, s, l), p, r) <==> First(s, p, r) {
          OthersFirst(cfg, s, l, p, r);
        }
      }
    }
  }

  // Every committed row was returned to exactly one request as its own; all others were told that it is a replay.
  lemma OneFirstAnswer(cfg: Config, labels: seq<Label>, r: Row)
    requires r in Run(cfg, START, labels).rows
    ensures var s := Run(cfg, START, labels); exists p :: First(s, p, r) && forall q | First(s, q, r) :: q == p
  {
    RunKeepsFirst(cfg, labels);
  }
}
