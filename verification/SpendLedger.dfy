/**
 Concurrent authorizations, apps/api/captureos/services/spend.py `decide_authorization`.

 A request is a process that opens a transaction, looks for a recorded verdict, judges the charge,
 takes the row lock of an accumulating budget, totals prior spend, inserts its row under the unique
 authorization id and commits. A run is any list of labels: a label that is not enabled (a lock is
 held, an unfinished insert of the same id blocks) changes nothing, so a run is any interleaving of
 any number of requests, with aborts at any point. Cards, rules and budgets do not change in a run.
 */
module SpendLedger {
  import opened Wrappers
  import opened Calendar
  import opened SpendRules

  datatype Config = Config(cards: map<string, nat>, rules: map<nat, seq<Rule>>, budgets: map<nat, seq<Budget>>) {
    function JudgeFor(org: nat, e: Scope): Judgement {
      Judge(e, if org in rules then rules[org] else [], if org in budgets then budgets[org] else [])
    }
  }

  // createdAt is the column (the transaction's start time); decidedAt is the clock read in
  // _evaluate, which the table does not keep.
  datatype Row = Row(org: nat, charge: Charge, verdict: Verdict, createdAt: Moment, decidedAt: Moment)

  datatype Answer = Answer(verdict: Verdict, row: Option<Row>, replay: bool)

  type LockId = (nat, nat)

  datatype Phase =
    | Waiting
    | Begun(org: nat, at: Moment)
    | Locked(org: nat, at: Moment, budget: Budget)
    | Decided(row: Row, lock: Option<LockId>)
    | Inserted(row: Row, lock: Option<LockId>)
    | Answered(answer: Answer)
    | Aborted

  datatype Proc = Proc(charge: Charge, phase: Phase) {
    function Lock(): Option<LockId> {
      match phase
      case Locked(org, _, b) => Some((org, b.id))
      case Decided(_, lock) => lock
      case Inserted(_, lock) => lock
      case _ => None
    }

    predicate Finished() {
      phase.Answered? || phase.Aborted?
    }
  }

  datatype State = State(rows: seq<Row>, procs: seq<Proc>)

  const START := State([], [])

  datatype Label =
    | Arrive(charge: Charge)
    | Begin(p: nat, now: Moment)
    | Evaluate(p: nat, now: Moment)
    | Total(p: nat, now: Moment)
    | Insert(p: nat)
    | Commit(p: nat)
    | Abort(p: nat)

  // The condition of the totalling query: the first present column of the budget, compared exactly.
  predicate InScope(e: Scope, b: Scope) {
    if Present(b.merchant) then e.merchant == b.merchant
    else if Present(b.mcc) then e.mcc == b.mcc
    else e.category == b.category
  }

  function Spent(rows: seq<Row>, org: nat, b: Budget, start: Option<int>): int {
    if rows == [] then 0
    else
      var r := rows[|rows| - 1];
      Spent(rows[..|rows| - 1], org, b, start)
      + if r.org == org && r.verdict.approved && InScope(r.charge.scope, b.scope) && SinceStart(start, r.createdAt)
        then r.charge.amount else 0
  }

  ghost predicate Recorded(rows: seq<Row>, id: string) {
    exists r | r in rows :: r.charge.authId == id
  }

  ghost function RowOf(rows: seq<Row>, id: string): (r: Row)
    requires Recorded(rows, id)
    ensures r in rows && r.charge.authId == id
  {
    var r :| r in rows && r.charge.authId == id;
    r
  }

  ghost predicate LockFree(s: State, lock: LockId) {
    forall q | 0 <= q < |s.procs| :: s.procs[q].Lock() != Some(lock)
  }

  ghost predicate Enabled(cfg: Config, s: State, l: Label) {
    l.Arrive? ||
    (l.p < |s.procs| &&
     var phase := s.procs[l.p].phase;
     match l
     case Begin(_, _) => phase.Waiting?
     case Evaluate(p, _) =>
       && phase.Begun?
       && var j := cfg.JudgeFor(phase.org, s.procs[p].charge.scope);
       j.Accumulating? ==> LockFree(s, (phase.org, j.budget.id))
     case Total(_, _) => phase.Locked?
     case Insert(p) =>
       && phase.Decided?
       && forall q | 0 <= q < |s.procs| ::
            s.procs[q].phase.Inserted? ==> s.procs[q].charge.authId != s.procs[p].charge.authId
     case Commit(_) => phase.Inserted?
     case Abort(p) => !s.procs[p].Finished())
  }

  ghost function NextPhase(cfg: Config, s: State, l: Label): Phase
    requires !l.Arrive? && Enabled(cfg, s, l)
  {
    var c := s.procs[l.p].charge;
    var phase := s.procs[l.p].phase;
    match l
    case Begin(_, now) =>
      if Recorded(s.rows, c.authId) then
        var r := RowOf(s.rows, c.authId);
        Answered(Answer(r.verdict, Some(r), true))
      else if c.cardId.Some? && c.cardId.value in cfg.cards then Begun(cfg.cards[c.cardId.value], now)
      else Answered(Answer(Verdict(false, UnknownCard), None, false))
    case Evaluate(_, now) =>
      var j := cfg.JudgeFor(phase.org, c.scope);
      if j.Accumulating? then Locked(phase.org, phase.at, j.budget)
      else Decided(Row(phase.org, c, Settle(j, c.amount, 0), phase.at, now), None)
    case Total(_, now) =>
      var b := phase.budget;
      var spent := Spent(s.rows, phase.org, b, WindowStart(b.interval, now));
      Decided(Row(phase.org, c, Settle(Accumulating(b), c.amount, spent), phase.at, now), Some((phase.org, b.id)))
    case Insert(_) =>
      // A committed row of the same id fails the insert: roll back and answer with that row.
      if Recorded(s.rows, c.authId) then
        var r := RowOf(s.rows, c.authId);
        Answered(Answer(r.verdict, Some(r), true))
      else Inserted(phase.row, phase.lock)
    case Commit(_) => Answered(Answer(phase.row.verdict, Some(phase.row), false))
    case Abort(_) => Aborted
  }

  ghost function Step(cfg: Config, s: State, l: Label): State {
    if !Enabled(cfg, s, l) then s
    else if l.Arrive? then s.(procs := s.procs + [Proc(l.charge, Waiting)])
    else State(if l.Commit? then s.rows + [s.procs[l.p].phase.row] else s.rows,
               s.procs[l.p := s.procs[l.p].(phase := NextPhase(cfg, s, l))])
  }

  ghost function Run(cfg: Config, s: State, labels: seq<Label>): State {
    if labels == [] then s else Step(cfg, Run(cfg, s, labels[..|labels| - 1]), labels[|labels| - 1])
  }

  // ---------------------------------------------------------------------------
  // One verdict per authorization
  // ---------------------------------------------------------------------------

  ghost predicate RowsKeyed(rows: seq<Row>) {
    forall i, j | 0 <= i < j < |rows| :: rows[i].charge.authId != rows[j].charge.authId
  }

  ghost predicate ProcSound(cfg: Config, rows: seq<Row>, proc: Proc) {
    var id := proc.charge.authId;
    match proc.phase
    case Locked(org, _, b) => cfg.JudgeFor(org, proc.charge.scope) == Accumulating(b)
    case Decided(row, lock) => row.charge == proc.charge && LockFits(cfg, row, lock)
    case Inserted(row, lock) => row.charge == proc.charge && LockFits(cfg, row, lock) && !Recorded(rows, id)
    case Answered(a) =>
      a.row.Some? ==> a.row.value in rows && a.row.value.charge.authId == id && a.verdict == a.row.value.verdict
    case _ => true
  }

  // A row that an accumulating budget judged is written under that budget's lock.
  ghost predicate LockFits(cfg: Config, row: Row, lock: Option<LockId>) {
    forall b | cfg.JudgeFor(row.org, row.charge.scope) == Accumulating(b) ::
      lock == Some((row.org, b.id))
  }

  // Two processes neither share a lock nor both hold an unfinished insert of one id.
  ghost predicate Apart(a: Proc, b: Proc) {
    && (a.phase.Inserted? && b.phase.Inserted? ==> a.charge.authId != b.charge.authId)
    && (a.Lock().Some? ==> a.Lock() != b.Lock())
  }

  ghost predicate Sound(cfg: Config, s: State) {
    && RowsKeyed(s.rows)
    && (forall p | 0 <= p < |s.procs| :: ProcSound(cfg, s.rows, s.procs[p]))
    && (forall p, q | 0 <= p < q < |s.procs| :: Apart(s.procs[p], s.procs[q]))
  }

  lemma AppendedRow(rows: seq<Row>, row: Row)
    ensures forall id :: Recorded(rows + [row], id) <==> Recorded(rows, id) || id == row.charge.authId
    ensures RowsKeyed(rows) && !Recorded(rows, row.charge.authId) ==> RowsKeyed(rows + [row])
  {
    assert row in rows + [row];
    forall r | r in rows ensures r in rows + [row] {}
  }

  lemma StepKeepsRowsKeyed(cfg: Config, s: State, l: Label)
    requires Sound(cfg, s)
    ensures RowsKeyed(Step(cfg, s, l).rows)
  {
    if Enabled(cfg, s, l) && l.Commit? {
      assert ProcSound(cfg, s.rows, s.procs[l.p]);
      AppendedRow(s.rows, s.procs[l.p].phase.row);
    }
  }

  // The process that takes the step.
  lemma MoverSound(cfg: Config, s: State, l: Label)
    requires Sound(cfg, s) && !l.Arrive? && Enabled(cfg, s, l)
    ensures ProcSound(cfg, Step(cfg, s, l).rows, s.procs[l.p].(phase := NextPhase(cfg, s, l)))
  {
    assert ProcSound(cfg, s.rows, s.procs[l.p]);
  }

  // A process that stands still while another moves.
  lemma BystanderSound(cfg: Config, s: State, l: Label, q: nat)
    requires Sound(cfg, s) && q < |s.procs| && (l.Arrive? || l.p != q)
    ensures ProcSound(cfg, Step(cfg, s, l).rows, s.procs[q])
  {
    assert ProcSound(cfg, s.rows, s.procs[q]);
    if Enabled(cfg, s, l) && l.Commit? {
      AppendedRow(s.rows, s.procs[l.p].phase.row);
      assert ProcSound(cfg, s.rows, s.procs[l.p]);
    }
  }

  lemma MoverApart(cfg: Config, s: State, l: Label, q: nat)
    requires Sound(cfg, s) && !l.Arrive? && Enabled(cfg, s, l) && q < |s.procs| && q != l.p
    ensures Apart(s.procs[l.p].(phase := NextPhase(cfg, s, l)), s.procs[q])
    ensures Apart(s.procs[q], s.procs[l.p].(phase := NextPhase(cfg, s, l)))
  {
    assert ProcSound(cfg, s.rows, s.procs[l.p]);
    assert Apart(s.procs[Min(q, l.p)], s.procs[Max(q, l.p)]);
  }

  lemma StepSound(cfg: Config, s: State, l: Label)
    requires Sound(cfg, s)
    ensures Sound(cfg, Step(cfg, s, l))
  {
    if Enabled(cfg, s, l) {
      var s' := Step(cfg, s, l);
      StepKeepsRowsKeyed(cfg, s, l);
      forall p | 0 <= p < |s'.procs| ensures ProcSound(cfg, s'.rows, s'.procs[p]) {
        if !l.Arrive? && p == l.p {
          MoverSound(cfg, s, l);
        } else if p < |s.procs| {
          BystanderSound(cfg, s, l, p);
        }
      }
      forall p, q | 0 <= p < q < |s'.procs| ensures Apart(s'.procs[p], s'.procs[q]) {
        if l.Arrive? {
          assert q < |s.procs| ==> Apart(s.procs[p], s.procs[q]);
        } else if p == l.p {
          MoverApart(cfg, s, l, q);
        } else if q == l.p {
          MoverApart(cfg, s, l, p);
        } else {
          assert Apart(s.procs[p], s.procs[q]);
        }
      }
    }
  }

  lemma {:induction false} RunSound(cfg: Config, labels: seq<Label>)
    ensures Sound(cfg, Run(cfg, START, labels))
  {
    if labels != [] {
      RunSound(cfg, labels[..|labels| - 1]);
      StepSound(cfg, Run(cfg, START, labels[..|labels| - 1]), labels[|labels| - 1]);
    }
  }

  // In every interleaving an authorization id has at most one row, and all requests for that id that
  // were answered with a row were given that row's verdict.
  lemma OneVerdictPerAuthorization(cfg: Config, labels: seq<Label>, p: nat, q: nat)
    ensures var s := Run(cfg, START, labels);
      && RowsKeyed(s.rows)
      && (p < |s.procs| && q < |s.procs| && s.procs[p].charge.authId == s.procs[q].charge.authId
          && s.procs[p].phase.Answered? && s.procs[p].phase.answer.row.Some?
          && s.procs[q].phase.Answered? && s.procs[q].phase.answer.row.Some?
          ==>
          && s.procs[p].phase.answer.row == s.procs[q].phase.answer.row
          && s.procs[p].phase.answer.row.value in s.rows
          && s.procs[p].phase.answer.verdict == s.procs[q].phase.answer.verdict
             == s.procs[p].phase.answer.row.value.verdict)
  {
    RunSound(cfg, labels);
    var s := Run(cfg, START, labels);
    if p < |s.procs| && q < |s.procs| {
      assert ProcSound(cfg, s.rows, s.procs[p]) && ProcSound(cfg, s.rows, s.procs[q]);
    }
  }

  // Rows are only ever appended, and only for ids that had none: a replay adds no row, so it leaves
  // every budget's total as it was.
  lemma {:induction false} RowsOnlyGrow(cfg: Config, labels: seq<Label>, more: seq<Label>)
    ensures var before, after := Run(cfg, START, labels).rows, Run(cfg, START, labels + more).rows;
      && before <= after
      && forall r | r in after[|before|..] :: !Recorded(before, r.charge.authId)
  {
    if more == [] {
      assert labels + more == labels;
    } else {
      var rest := more[..|more| - 1];
      RowsOnlyGrow(cfg, labels, rest);
      RunSound(cfg, labels + rest);
      assert (labels + more)[..|labels + more| - 1] == labels + rest;
      var before, s, l := Run(cfg, START, labels).rows, Run(cfg, START, labels + rest), more[|more| - 1];
      if Enabled(cfg, s, l) && l.Commit? {
        assert ProcSound(cfg, s.rows, s.procs[l.p]);
        var row := s.procs[l.p].phase.row;
        assert (s.rows + [row])[|before|..] == s.rows[|before|..] + [row];
        assert forall r | r in before :: r in s.rows;
      }
    }
  }

  // Locks and pending inserts never block each other for good: while a request is unfinished, some
  // request can move forward.
  lemma NoDeadlock(cfg: Config, labels: seq<Label>, now: Moment)
    ensures var s := Run(cfg, START, labels);
      (exists p :: 0 <= p < |s.procs| && !s.procs[p].Finished()) ==>
        exists l: Label :: !l.Arrive? && !l.Abort? && Enabled(cfg, s, l)
  {
    var s := Run(cfg, START, labels);
    if p: nat :| p < |s.procs| && s.procs[p].phase.Inserted? {
      assert Enabled(cfg, s, Commit(p));
    } else if p: nat :| p < |s.procs| && s.procs[p].phase.Decided? {
      assert Enabled(cfg, s, Insert(p));
    } else if p: nat :| p < |s.procs| && s.procs[p].phase.Locked? {
      assert Enabled(cfg, s, Total(p, now));
    } else if p: nat :| p < |s.procs| && s.procs[p].phase.Begun? {
      assert Enabled(cfg, s, Evaluate(p, now));
    } else if p: nat :| p < |s.procs| && s.procs[p].phase.Waiting? {
      assert Enabled(cfg, s, Begin(p, now));
    }
  }
}
