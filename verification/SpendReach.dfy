/** Every history of charges served one after another is one of the histories of the concurrent service. */
module SpendReach {
  import opened Wrappers
  import opened SpendLedger
  import opened SpendCapExact
  import opened SpendSerial

  // A new authorization of a known card, with the verdict it is given when served alone after these rows.
  ghost predicate Servable(cfg: Config, rows: seq<Row>, r: Row) {
    && r.charge.cardId.Some? && r.charge.cardId.value in cfg.cards && r.org == cfg.cards[r.charge.cardId.value]
    && r.verdict == SerialVerdict(cfg, rows, r) && !Recorded(rows, r.charge.authId)
  }

  ghost predicate SerialTable(cfg: Config, rows: seq<Row>) {
    forall i | 0 <= i < |rows| :: Servable(cfg, rows[..i], rows[i])
  }

  lemma DecidesAlone(cfg: Config, rows: seq<Row>, others: seq<Proc>, r: Row)
    requires Servable(cfg, rows, r) && !cfg.JudgeFor(r.org, r.charge.scope).Accumulating?
    ensures var s := Solo(rows, others, r.charge, Begun(r.org, r.createdAt));
      Step(cfg, Step(cfg, s, Evaluate(|others|, r.decidedAt)), Total(|others|, r.decidedAt))
      == Solo(rows, others, r.charge, Decided(r, None))
  {
    Moves(cfg, rows, others, r.charge, Begun(r.org, r.createdAt), Evaluate(|others|, r.decidedAt), Decided(r, None));
  }

  function ShapeOf(r: Row): Shape
    requires r.charge.cardId.Some?
  {
    Shape(r.charge.cardId.value, r.charge.scope, r.createdAt, r.decidedAt)
  }

  // No total is taken for a charge judged by itself, so that step does nothing.
  lemma ServedUntotalled(cfg: Config, s: State, r: Row)
    requires Servable(cfg, s.rows, r) && Quiet(s.procs) && !cfg.JudgeFor(r.org, r.charge.scope).Accumulating?
    ensures Run(cfg, s, Serve(r.charge, |s.procs|, ShapeOf(r)))
            == Solo(s.rows + [r], s.procs, r.charge, Answered(Answer(r.verdict, Some(r), false)))
  {
    var rows, others, n, c := s.rows, s.procs, |s.procs|, r.charge;
    RunSix(cfg, s, Arrive(c), Begin(n, r.createdAt), Evaluate(n, r.decidedAt), Total(n, r.decidedAt), Insert(n),
      Commit(n));
    assert Step(cfg, s, Arrive(c)) == Solo(rows, others, c, Waiting);
    Moves(cfg, rows, others, c, Waiting, Begin(n, r.createdAt), Begun(r.org, r.createdAt));
    DecidesAlone(cfg, rows, others, r);
    InsertsAlone(cfg, rows, others, c, r, None);
    Moves(cfg, rows, others, c, Inserted(r, None), Commit(n), Answered(Answer(r.verdict, Some(r), false)));
  }

  lemma ServedRow(cfg: Config, s: State, r: Row)
    requires Servable(cfg, s.rows, r) && Quiet(s.procs)
    ensures Run(cfg, s, Serve(r.charge, |s.procs|, ShapeOf(r)))
            == Solo(s.rows + [r], s.procs, r.charge, Answered(Answer(r.verdict, Some(r), false)))
  {
    var j := cfg.JudgeFor(r.org, r.charge.scope);
    if j.Accumulating? {
      ServedAlone(cfg, s, r.charge, ShapeOf(r), j.budget, r);
    } else {
      ServedUntotalled(cfg, s, r);
    }
  }

  lemma ServedAfter(cfg: Config, labels: seq<Label>, r: Row) returns (all: seq<Label>)
    requires var s := Run(cfg, START, labels); Quiet(s.procs) && Servable(cfg, s.rows, r)
    ensures Run(cfg, START, all).rows == Run(cfg, START, labels).rows + [r] && Quiet(Run(cfg, START, all).procs)
  {
    var s := Run(cfg, START, labels);
    ServedRow(cfg, s, r);
    RunConcat(cfg, START, labels, Serve(r.charge, |s.procs|, ShapeOf(r)));
    all := labels + Serve(r.charge, |s.procs|, ShapeOf(r));
  }

  lemma SerialFront(cfg: Config, rows: seq<Row>)
    requires SerialTable(cfg, rows) && rows != []
    ensures SerialTable(cfg, rows[..|rows| - 1])
  {
    var front := rows[..|rows| - 1];
    forall i | 0 <= i < |front| ensures Servable(cfg, front[..i], front[i]) {
      assert front[..i] == rows[..i];
    }
  }

  // Whatever table serving one charge after another can produce is the table of some run.
  lemma {:induction false} SerialIsReachable(cfg: Config, rows: seq<Row>) returns (labels: seq<Label>)
    requires SerialTable(cfg, rows)
    ensures Run(cfg, START, labels).rows == rows && Quiet(Run(cfg, START, labels).procs)
  {
    labels := [];
    if rows != [] {
      SerialFront(cfg, rows);
      labels := SerialIsReachable(cfg, rows[..|rows| - 1]);
      labels := ServedAfter(cfg, labels, rows[|rows| - 1]);
      assert rows == rows[..|rows| - 1] + [rows[|rows| - 1]];
    }
  }

  lemma SerialMore(cfg: Config, rows: seq<Row>, r: Row)
    requires SerialTable(cfg, rows) && Servable(cfg, rows, r)
    ensures SerialTable(cfg, rows + [r])
  {
    forall i | 0 <= i < |rows + [r]| ensures Servable(cfg, (rows + [r])[..i], (rows + [r])[i]) {
      assert (rows + [r])[..i] == if i < |rows| then rows[..i] else rows;
    }
  }
}
