/**
 The other half of the cap: a kind of charge that its own totalling query does not find really can be
 approved past the limit, so being found is the exact condition.
 */
module SpendCapExact {
  import opened Wrappers
  import opened Calendar
  import opened SpendRules
  import opened SpendLedger
  import opened SpendCap

  // One kind of request: a card, what is charged, and when its transaction starts and is judged.
  datatype Shape = Shape(card: string, scope: Scope, at: Moment, now: Moment)

  predicate OfShape(sh: Shape, l: Label) {
    match l
    case Arrive(c) => c.cardId == Some(sh.card) && c.scope == sh.scope && c.amount >= 0
    case Begin(_, t) => t == sh.at
    case Evaluate(_, t) => t == sh.now
    case Total(_, t) => t == sh.now
    case _ => true
  }

  predicate RowOfShape(cfg: Config, sh: Shape, r: Row) {
    && sh.card in cfg.cards && r.org == cfg.cards[sh.card]
    && r.charge.scope == sh.scope && r.createdAt == sh.at && r.decidedAt == sh.now
  }

  predicate ProcOfShape(cfg: Config, sh: Shape, proc: Proc) {
    && proc.charge.cardId == Some(sh.card) && proc.charge.scope == sh.scope
    && (proc.phase.Begun? || proc.phase.Locked? ==>
          sh.card in cfg.cards && proc.phase.org == cfg.cards[sh.card] && proc.phase.at == sh.at)
    && (PendingRow(proc).Some? ==> RowOfShape(cfg, sh, PendingRow(proc).value))
  }

  ghost predicate ShapeInv(cfg: Config, sh: Shape, s: State) {
    && (forall r | r in s.rows :: RowOfShape(cfg, sh, r))
    && forall p | 0 <= p < |s.procs| :: ProcOfShape(cfg, sh, s.procs[p])
  }

  lemma MoverOfShape(cfg: Config, sh: Shape, s: State, l: Label)
    requires Sound(cfg, s) && !l.Arrive? && Enabled(cfg, s, l) && OfShape(sh, l) && ProcOfShape(cfg, sh, s.procs[l.p])
    ensures ProcOfShape(cfg, sh, s.procs[l.p].(phase := NextPhase(cfg, s, l)))
  {
    assert ProcSound(cfg, s.rows, s.procs[l.p]);
  }

  lemma StepOfShape(cfg: Config, sh: Shape, s: State, l: Label)
    requires Sound(cfg, s) && ShapeInv(cfg, sh, s) && OfShape(sh, l)
    ensures ShapeInv(cfg, sh, Step(cfg, s, l))
  {
    if Enabled(cfg, s, l) {
      var s' := Step(cfg, s, l);
      if !l.Arrive? {
        assert ProcOfShape(cfg, sh, s.procs[l.p]);
        MoverOfShape(cfg, sh, s, l);
      }
      forall p | 0 <= p < |s'.procs| ensures ProcOfShape(cfg, sh, s'.procs[p]) {
        assert p < |s.procs| ==> ProcOfShape(cfg, sh, s.procs[p]);
      }
    }
  }

  lemma {:induction false} RunOfShape(cfg: Config, sh: Shape, labels: seq<Label>)
    requires forall l | l in labels :: OfShape(sh, l)
    ensures ShapeInv(cfg, sh, Run(cfg, START, labels))
  {
    if labels != [] {
      var n := |labels| - 1;
      forall l | l in labels[..n] ensures l in labels {}
      RunOfShape(cfg, sh, labels[..n]);
      RunSound(cfg, labels[..n]);
      assert labels[n] in labels;
      StepOfShape(cfg, sh, Run(cfg, START, labels[..n]), labels[n]);
    }
  }

  lemma {:induction false} RunConcat(cfg: Config, s: State, a: seq<Label>, b: seq<Label>)
    ensures Run(cfg, s, a + b) == Run(cfg, Run(cfg, s, a), b)
  {
    if b == [] {
      assert a + b == a;
    } else {
      assert (a + b)[..|a + b| - 1] == a + b[..|b| - 1];
      RunConcat(cfg, s, a, b[..|b| - 1]);
    }
  }

  // A request served alone from arrival to commit.
  function Serve(c: Charge, p: nat, sh: Shape): seq<Label> {
    [Arrive(c), Begin(p, sh.at), Evaluate(p, sh.now), Total(p, sh.now), Insert(p), Commit(p)]
  }

  // The newest request, in some phase, with nobody else active.
  function Solo(rows: seq<Row>, others: seq<Proc>, c: Charge, phase: Phase): State {
    State(rows, others + [Proc(c, phase)])
  }

  ghost predicate Quiet(others: seq<Proc>) {
    forall q | q in others :: q.Finished()
  }

  lemma Moves(cfg: Config, rows: seq<Row>, others: seq<Proc>, c: Charge, phase: Phase, l: Label, next: Phase)
    requires !l.Arrive? && l.p == |others|
    requires var s := Solo(rows, others, c, phase); Enabled(cfg, s, l) && NextPhase(cfg, s, l) == next
    ensures Step(cfg, Solo(rows, others, c, phase), l) ==
      Solo(if l.Commit? then rows + [phase.row] else rows, others, c, next)
  {
    var s := Solo(rows, others, c, phase);
    assert s.procs[l.p := Proc(c, next)] == others + [Proc(c, next)];
  }

  lemma LocksAlone(cfg: Config, rows: seq<Row>, others: seq<Proc>, c: Charge, org: nat, at: Moment, now: Moment,
      b: Budget)
    requires Quiet(others) && cfg.JudgeFor(org, c.scope) == Accumulating(b)
    ensures Step(cfg, Solo(rows, others, c, Begun(org, at)), Evaluate(|others|, now))
            == Solo(rows, others, c, Locked(org, at, b))
  {
    var s := Solo(rows, others, c, Begun(org, at));
    assert LockFree(s, (org, b.id)) by {
      forall q | 0 <= q < |s.procs| ensures s.procs[q].Lock() == None {
        assert q < |others| ==> others[q] in others;
      }
    }
    Moves(cfg, rows, others, c, Begun(org, at), Evaluate(|others|, now), Locked(org, at, b));
  }

  lemma InsertsAlone(cfg: Config, rows: seq<Row>, others: seq<Proc>, c: Charge, row: Row, lock: Option<LockId>)
    requires Quiet(others) && !Recorded(rows, c.authId)
    ensures Step(cfg, Solo(rows, others, c, Decided(row, lock)), Insert(|others|)) ==
      Solo(rows, others, c, Inserted(row, lock))
  {
    var s := Solo(rows, others, c, Decided(row, lock));
    forall q | 0 <= q < |s.procs| ensures !s.procs[q].phase.Inserted? {
      assert q < |others| ==> others[q] in others;
    }
    Moves(cfg, rows, others, c, Decided(row, lock), Insert(|others|), Inserted(row, lock));
  }

  lemma RunSix(cfg: Config, s: State, a: Label, b: Label, c: Label, d: Label, e: Label, f: Label)
    ensures Run(cfg, s, [a, b, c, d, e, f])
            == Step(cfg, Step(cfg, Step(cfg, Step(cfg, Step(cfg, Step(cfg, s, a), b), c), d), e), f)
  {
    RunConcat(cfg, s, [a, b, c, d, e], [f]);
    RunConcat(cfg, s, [a, b, c, d], [e]);
    RunConcat(cfg, s, [a, b, c], [d]);
    RunConcat(cfg, s, [a, b], [c]);
    RunConcat(cfg, s, [a], [b]);
    assert [a, b, c, d, e, f] == [a, b, c, d, e] + [f] && [a, b, c, d, e] == [a, b, c, d] + [e];
    assert [a, b, c, d] == [a, b, c] + [d] && [a, b, c] == [a, b] + [c] && [a, b] == [a] + [b];
    forall t, l: Label ensures Run(cfg, t, [l]) == Step(cfg, t, l) {
      assert [l][..0] == [];
    }
  }

  lemma ServedAlone(cfg: Config, s: State, c: Charge, sh: Shape, b: Budget, row: Row)
    requires c.cardId == Some(sh.card) && c.scope == sh.scope && sh.card in cfg.cards
    requires cfg.JudgeFor(cfg.cards[sh.card], sh.scope) == Accumulating(b)
    requires !Recorded(s.rows, c.authId) && Quiet(s.procs)
    requires var spent := Spent(s.rows, cfg.cards[sh.card], b, WindowStart(b.interval, sh.now));
      row == Row(cfg.cards[sh.card], c, Settle(Accumulating(b), c.amount, spent), sh.at, sh.now)
    ensures Run(cfg, s, Serve(c, |s.procs|, sh))
            == Solo(s.rows + [row], s.procs, c, Answered(Answer(row.verdict, Some(row), false)))
  {
    var rows, others, n, org := s.rows, s.procs, |s.procs|, cfg.cards[sh.card];
    var lock := Some((org, b.id));
    RunSix(cfg, s, Arrive(c), Begin(n, sh.at), Evaluate(n, sh.now), Total(n, sh.now), Insert(n), Commit(n));
    assert Step(cfg, s, Arrive(c)) == Solo(rows, others, c, Waiting);
    Moves(cfg, rows, others, c, Waiting, Begin(n, sh.at), Begun(org, sh.at));
    LocksAlone(cfg, rows, others, c, org, sh.at, sh.now, b);
    Moves(cfg, rows, others, c, Locked(org, sh.at, b), Total(n, sh.now), Decided(row, lock));
    InsertsAlone(cfg, rows, others, c, row, lock);
    Moves(cfg, rows, others, c, Inserted(row, lock), Commit(n), Answered(Answer(row.verdict, Some(row), false)));
  }

  function Copy(sh: Shape, n: nat): Charge {
    Charge(seq(n, i => 'a'), Some(sh.card), 1, sh.scope)
  }

  function Copies(sh: Shape, n: nat): seq<Label> {
    if n == 0 then [] else Copies(sh, n - 1) + Serve(Copy(sh, n - 1), n - 1, sh)
  }

  lemma {:induction false} UnseenSpend(cfg: Config, sh: Shape, rows: seq<Row>, org: nat, b: Budget)
    requires forall r | r in rows :: RowOfShape(cfg, sh, r) && !SelfCounting(r, b)
    ensures Spent(rows, org, b, WindowStart(b.interval, sh.now)) == 0
  {
    if rows != [] {
      UnseenSpend(cfg, sh, rows[..|rows| - 1], org, b);
      assert rows[|rows| - 1] in rows;
    }
  }

  predicate Unseen(sh: Shape, b: Budget) {
    !(InScope(sh.scope, b.scope) && SinceStart(WindowStart(b.interval, sh.now), sh.at))
  }

  ghost predicate AllApproved(cfg: Config, sh: Shape, b: Budget, n: nat, s: State) {
    && |s.procs| == n && Quiet(s.procs)
    && (forall r | r in s.rows :: |r.charge.authId| < n)
    && sh.card in cfg.cards
    && Charged(cfg, s.rows, cfg.cards[sh.card], b, WindowStart(b.interval, sh.now), false) == n
  }

  lemma ChargedAppend(cfg: Config, rows: seq<Row>, row: Row, org: nat, b: Budget, w: Option<int>)
    requires Governed(cfg, row, org, b) && WindowStart(b.interval, row.decidedAt) == w
    ensures Charged(cfg, rows + [row], org, b, w, false) == Charged(cfg, rows, org, b, w, false) + row.charge.amount
  {
    assert (rows + [row])[..|rows|] == rows;
  }

  function ApprovedRow(cfg: Config, sh: Shape, n: nat): Row
    requires sh.card in cfg.cards
  {
    Row(cfg.cards[sh.card], Copy(sh, n), Verdict(true, WithinBudget), sh.at, sh.now)
  }

  lemma NextCopyServed(cfg: Config, sh: Shape, b: Budget, n: nat, s: State)
    requires sh.card in cfg.cards && cfg.JudgeFor(cfg.cards[sh.card], sh.scope) == Accumulating(b)
    requires 0 < b.limit && Unseen(sh, b)
    requires AllApproved(cfg, sh, b, n, s) && ShapeInv(cfg, sh, s)
    ensures var row := ApprovedRow(cfg, sh, n);
      Run(cfg, s, Serve(Copy(sh, n), n, sh))
      == Solo(s.rows + [row], s.procs, Copy(sh, n), Answered(Answer(row.verdict, Some(row), false)))
  {
    UnseenSpend(cfg, sh, s.rows, cfg.cards[sh.card], b);
    assert |Copy(sh, n).authId| == n;
    ServedAlone(cfg, s, Copy(sh, n), sh, b, ApprovedRow(cfg, sh, n));
  }

  lemma OneMoreApproved(cfg: Config, sh: Shape, b: Budget, n: nat, s: State, phase: Phase)
    requires sh.card in cfg.cards && cfg.JudgeFor(cfg.cards[sh.card], sh.scope) == Accumulating(b)
    requires AllApproved(cfg, sh, b, n, s) && phase.Answered?
    ensures AllApproved(cfg, sh, b, n + 1, Solo(s.rows + [ApprovedRow(cfg, sh, n)], s.procs, Copy(sh, n), phase))
  {
    var row := ApprovedRow(cfg, sh, n);
    assert |row.charge.authId| == n;
    ChargedAppend(cfg, s.rows, row, row.org, b, WindowStart(b.interval, sh.now));
  }

  lemma OneMoreServed(cfg: Config, sh: Shape, b: Budget, n: nat, s: State)
    requires sh.card in cfg.cards && cfg.JudgeFor(cfg.cards[sh.card], sh.scope) == Accumulating(b)
    requires 0 < b.limit && Unseen(sh, b)
    requires AllApproved(cfg, sh, b, n, s) && ShapeInv(cfg, sh, s)
    ensures AllApproved(cfg, sh, b, n + 1, Run(cfg, s, Serve(Copy(sh, n), n, sh)))
  {
    var row := ApprovedRow(cfg, sh, n);
    NextCopyServed(cfg, sh, b, n, s);
    OneMoreApproved(cfg, sh, b, n, s, Answered(Answer(row.verdict, Some(row), false)));
  }

  lemma {:induction false} CopiesOfShape(sh: Shape, n: nat)
    ensures forall l | l in Copies(sh, n) :: OfShape(sh, l)
  {
    if n > 0 {
      CopiesOfShape(sh, n - 1);
    }
  }

  lemma {:induction false} CopiesAllApproved(cfg: Config, sh: Shape, b: Budget, n: nat)
    requires sh.card in cfg.cards && cfg.JudgeFor(cfg.cards[sh.card], sh.scope) == Accumulating(b)
    requires 0 < b.limit && Unseen(sh, b)
    ensures AllApproved(cfg, sh, b, n, Run(cfg, START, Copies(sh, n)))
  {
    if n == 0 {
      assert Copies(sh, 0) == [];
    } else {
      var front, next := Copies(sh, n - 1), Serve(Copy(sh, n - 1), n - 1, sh);
      CopiesAllApproved(cfg, sh, b, n - 1);
      CopiesOfShape(sh, n - 1);
      RunOfShape(cfg, sh, front);
      OneMoreServed(cfg, sh, b, n - 1, Run(cfg, START, front));
      assert Run(cfg, START, front + next) == Run(cfg, Run(cfg, START, front), next) by {
        RunConcat(cfg, START, front, next);
      }
    }
  }

  // Every run of requests of one kind respects the limit if and only if the totalling query finds that
  // kind: its scope is spelled as the budget's and its transaction starts inside the window.
  lemma ShapeCapExactly(cfg: Config, sh: Shape, b: Budget)
    requires sh.card in cfg.cards && cfg.JudgeFor(cfg.cards[sh.card], sh.scope) == Accumulating(b) && b.limit > 0
    ensures (forall labels: seq<Label> | (forall l | l in labels :: OfShape(sh, l)) ::
               Charged(cfg, Run(cfg, START, labels).rows, cfg.cards[sh.card], b, WindowStart(b.interval, sh.now),
                 false) <= b.limit)
            <==> InScope(sh.scope, b.scope) && SinceStart(WindowStart(b.interval, sh.now), sh.at)
  {
    var org, w := cfg.cards[sh.card], WindowStart(b.interval, sh.now);
    if Unseen(sh, b) {
      var labels := Copies(sh, b.limit + 1);
      CopiesOfShape(sh, b.limit + 1);
      CopiesAllApproved(cfg, sh, b, b.limit + 1);
      assert Charged(cfg, Run(cfg, START, labels).rows, org, b, w, false) > b.limit;
    } else {
      forall labels: seq<Label> | forall l | l in labels :: OfShape(sh, l)
        ensures Charged(cfg, Run(cfg, START, labels).rows, org, b, w, false) <= b.limit
      {
        RunOfShape(cfg, sh, labels);
        BudgetCap(cfg, labels, org, b, w);
      }
    }
  }
}
