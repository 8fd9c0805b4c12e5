/** The single chain runner over the interleaved database: its confirmations and refunds are
    transactions among those of any number of requests, and it waits for each to end. */
module RunnerTx {
  import opened Ledger
  import opened Wallet
  import W = WalletRun
  import T = WalletTx

  datatype Wait = Free | On(tx: T.TxId)

  datatype Sys = Sys(db: T.Database, runner: W.Runner, wait: Wait)

  datatype Move =
    | Statement(step: T.Step)
    | ObserveTransfer(hash: Hash, user: User, amount: int, block: int)
    | List(runner: W.Runner)
    | Skip
    | BeginConfirm(tx: T.TxId, entryId: string)
    | BeginRefund(tx: T.TxId, entryId: string)
    | MarkNext(effect: bool, ok: bool)
    | Return(ok: bool)
    | Stop

  /** What requests may do: begin buy-ins, cash-outs and withdrawals, and open accounts. Any transaction,
      the runner's too, may take its next statement or end at any time. */
  ghost predicate Requested(step: T.Step) {
    match step
    case Begin(_, job) => job.Withdraw? || (job.Post? && External(job.entry.key))
    case Execute(st) => st.Provision?
    case _ => true
  }

  /** Rows the runner has left to go through. */
  predicate HasNext(r: W.Runner) {
    match r
    case Idle => false
    case Confirming(rows, _) => |rows| > 0
    case Submitting(rows) => |rows| > 0
    case Receipts(rows) => |rows| > 0
  }

  function Rest(r: W.Runner): W.Runner
    requires HasNext(r)
  {
    match r
    case Confirming(rows, block) => W.Confirming(rows[1..], block)
    case Submitting(rows) => W.Submitting(rows[1..])
    case Receipts(rows) => W.Receipts(rows[1..])
  }

  /** The listing is what the committed tables say. */
  ghost predicate Lists(w: Wallet, r: W.Runner) {
    match r
    case Idle => false
    case Confirming(rows, _) => W.PendingDeposits(w, rows)
    case Submitting(rows) => W.RowsWith(w, rows, Pending)
    case Receipts(rows) => W.RowsWith(w, rows, Submitted)
  }

  function MarkOf(r: W.Runner): T.Statement
    requires HasNext(r) && !r.Confirming?
  {
    if r.Submitting? then T.Mark(r.pending[0].id, Submitted) else T.Mark(r.submitted[0].id, Confirmed)
  }

  function ConfirmOf(r: W.Runner, entryId: string): T.Job
    requires HasNext(r) && r.Confirming?
  {
    var d := r.deposits[0];
    T.Confirm(d.hash, entryId, d.row.user, d.row.amount)
  }

  function RefundOf(r: W.Runner, entryId: string): T.Job
    requires HasNext(r) && r.Receipts?
  {
    var d := r.submitted[0];
    T.Refund(d.id, entryId, d.row.user, d.row.amount)
  }

  ghost predicate Next(s: Sys, m: Move, s': Sys) {
    match m
    case Statement(step) => Requested(step) && T.Next(s.db, step, s'.db) && s' == s.(db := s'.db)
    case ObserveTransfer(h, u, x, b) =>
      && s.runner.Idle? && s.wait.Free? && 0 <= x < TWO63
      && T.Next(s.db, T.Execute(T.Upsert(h, u, x, b)), s'.db) && s' == s.(db := s'.db)
    case List(r) => s.runner.Idle? && s.wait.Free? && Lists(s.db.w, r) && s' == s.(runner := r)
    case Skip => s.wait.Free? && HasNext(s.runner) && s' == s.(runner := Rest(s.runner))
    case BeginConfirm(x, entryId) =>
      && s.wait.Free? && HasNext(s.runner) && s.runner.Confirming?
      && T.Next(s.db, T.Begin(x, ConfirmOf(s.runner, entryId)), s'.db) && s' == s.(db := s'.db, wait := On(x))
    case BeginRefund(x, entryId) =>
      && s.wait.Free? && HasNext(s.runner) && s.runner.Receipts?
      && T.Next(s.db, T.Begin(x, RefundOf(s.runner, entryId)), s'.db) && s' == s.(db := s'.db, wait := On(x))
    case MarkNext(effect, ok) =>
      && s.wait.Free? && HasNext(s.runner) && !s.runner.Confirming?
      && (if effect then T.Next(s.db, T.Execute(MarkOf(s.runner)), s'.db) else s'.db == s.db)
      && s' == s.(db := s'.db, runner := if ok then Rest(s.runner) else W.Idle)
    case Return(ok) =>
      && s.wait.On? && s.wait.tx !in s.db.txs && HasNext(s.runner)
      && s' == s.(wait := Free, runner := if ok then Rest(s.runner) else W.Idle)
    case Stop => s.wait.Free? && s' == s.(runner := W.Idle)
  }

  // ----- what every step keeps -----

  /** A deposit or withdrawal transaction is the one the runner waits for, about the row it is at. */
  ghost predicate JobOk(s: Sys, x: T.TxId, job: T.Job) {
    match job
    case Post(e) => External(e.key)
    case Withdraw(_, _, _, _) => true
    case Confirm(_, entryId, _, _) =>
      s.wait == On(x) && HasNext(s.runner) && s.runner.Confirming? && job == ConfirmOf(s.runner, entryId)
    case Refund(_, entryId, _, _) =>
      s.wait == On(x) && HasNext(s.runner) && s.runner.Receipts? && job == RefundOf(s.runner, entryId)
  }

  /** A row that may be in the middle of its refund. */
  ghost predicate InRefund(w: Wallet, d: W.ListedWithdrawal) {
    && d.id in w.withdrawals && w.withdrawals[d.id].user == d.row.user && w.withdrawals[d.id].amount == d.row.amount
  }

  /** What the runner listed still stands, but for the row it waits for. */
  ghost predicate RunnerOk(w: Wallet, r: W.Runner, waiting: bool) {
    match r
    case Idle => true
    case Confirming(rows, _) => W.DepositsStand(w, rows)
    case Submitting(rows) => !waiting && W.RowsWith(w, rows, Pending)
    case Receipts(rows) =>
      if waiting then
        && |rows| > 0 && InRefund(w, rows[0]) && W.RowsWith(w, rows[1..], Submitted)
        && forall k :: 1 <= k < |rows| ==> rows[k].id != rows[0].id
      else W.RowsWith(w, rows, Submitted)
  }

  ghost predicate Inv(s: Sys) {
    && WalletInv(s.db.w) && T.SysInv(s.db) && RunnerOk(s.db.w, s.runner, s.wait.On?)
    && (forall x :: x in s.db.txs ==> JobOk(s, x, s.db.txs[x].job))
  }

  /** The call a step makes is one the runner or a request may make here. */
  ghost predicate Fits(s: Sys, call: T.Call) {
    match call
    case Whole(job) => exists x :: JobOk(s, x, job) && T.Sized(job)
    case Single(Provision(_)) => true
    case Single(Upsert(_, _, x, _)) => s.runner.Idle? && 0 <= x < TWO63
    case Single(Mark(id, status)) =>
      s.wait.Free? && HasNext(s.runner) && !s.runner.Confirming? && T.Mark(id, status) == MarkOf(s.runner)
  }

  lemma FitIsProper(s: Sys, call: T.Call)
    requires RunnerOk(s.db.w, s.runner, s.wait.On?) && Fits(s, call)
    ensures T.Proper(s.db.w, call)
  {}

  /** Marking the row the runner is at leaves the rest of its rows standing. */
  lemma MarkKeepsRest(w: Wallet, r: W.Runner)
    requires HasNext(r) && !r.Confirming? && RunnerOk(w, r, false)
    ensures RunnerOk(T.Done(w, T.Single(MarkOf(r))), Rest(r), false)
  {}

  /** Other calls leave all rows standing. */
  lemma CallKeepsRunner(s: Sys, call: T.Call)
    requires RunnerOk(s.db.w, s.runner, s.wait.On?) && Fits(s, call) && !(call.Single? && call.statement.Mark?)
    ensures RunnerOk(T.Done(s.db.w, call), s.runner, s.wait.On?)
  {}

  /** The call of a statement fits where it commits. */
  lemma StatementFits(s: Sys, step: T.Step, call: T.Call)
    requires Inv(s) && Requested(step) && call in T.CallOf(s.db, step)
    ensures Fits(s, call) && !(call.Single? && call.statement.Mark?)
  {
    if step.Commit? {
      assert JobOk(s, step.tx, s.db.txs[step.tx].job) && T.TxInv(s.db.w, s.db.txs[step.tx]);
    }
  }

  /** A database step with fitting calls keeps the equation, the locks and what the runner listed. */
  lemma DatabaseStep(s: Sys, step: T.Step, db: T.Database)
    requires Inv(s) && T.Next(s.db, step, db)
    requires forall call :: call in T.CallOf(s.db, step) ==> Fits(s, call) && !(call.Single? && call.statement.Mark?)
    ensures WalletInv(db.w) && T.SysInv(db) && RunnerOk(db.w, s.runner, s.wait.On?)
  {
    forall call | call in T.CallOf(s.db, step) ensures T.Proper(s.db.w, call) {
      FitIsProper(s, call);
    }
    T.CallKeepsInv(s.db, step, db);
    T.NextKeepsInv(s.db, step, db);
    T.StepRefinesCall(s.db, step, db);
    if |T.CallOf(s.db, step)| == 1 {
      var call := T.CallOf(s.db, step)[0];
      assert T.CallOf(s.db, step) == [call];
      T.ReplayOne(s.db.w, call);
      CallKeepsRunner(s, call);
    }
  }

  lemma StatementJob(s: Sys, step: T.Step, db: T.Database, x: T.TxId)
    requires Requested(step) && T.Next(s.db, step, db) && x in db.txs
    requires x in s.db.txs ==> JobOk(s, x, s.db.txs[x].job)
    ensures JobOk(s.(db := db), x, db.txs[x].job)
  {
    if x in s.db.txs {
      assert db.txs[x].job == s.db.txs[x].job;
    }
  }

  lemma StatementKeepsInv(s: Sys, m: Move, s': Sys)
    requires Inv(s) && m.Statement? && Next(s, m, s')
    ensures Inv(s')
  {
    forall call | call in T.CallOf(s.db, m.step) ensures Fits(s, call) && !(call.Single? && call.statement.Mark?) {
      StatementFits(s, m.step, call);
    }
    DatabaseStep(s, m.step, s'.db);
    forall x | x in s'.db.txs ensures JobOk(s', x, s'.db.txs[x].job) {
      StatementJob(s, m.step, s'.db, x);
    }
  }

  lemma ObserveKeepsInv(s: Sys, m: Move, s': Sys)
    requires Inv(s) && m.ObserveTransfer? && Next(s, m, s')
    ensures Inv(s')
  {
    DatabaseStep(s, T.Execute(T.Upsert(m.hash, m.user, m.amount, m.block)), s'.db);
    forall x | x in s'.db.txs ensures JobOk(s', x, s'.db.txs[x].job) {
      assert JobOk(s, x, s.db.txs[x].job);
    }
  }

  /** While the runner waits for nothing, no transaction is its own. */
  lemma NoneOfItsOwn(s: Sys, x: T.TxId)
    requires Inv(s) && x in s.db.txs && (s.wait.Free? || s.wait.tx !in s.db.txs)
    ensures s.db.txs[x].job.Withdraw? || (s.db.txs[x].job.Post? && External(s.db.txs[x].job.entry.key))
  {
    assert JobOk(s, x, s.db.txs[x].job);
  }

  lemma BeginKeepsInv(s: Sys, m: Move, s': Sys)
    requires Inv(s) && (m.BeginConfirm? || m.BeginRefund?) && Next(s, m, s')
    ensures Inv(s')
  {
    var job := if m.BeginConfirm? then ConfirmOf(s.runner, m.entryId) else RefundOf(s.runner, m.entryId);
    DatabaseStep(s, T.Begin(m.tx, job), s'.db);
    forall x | x in s'.db.txs ensures JobOk(s', x, s'.db.txs[x].job) {
      if x in s.db.txs {
        NoneOfItsOwn(s, x);
      }
    }
  }

  lemma MarkKeepsInv(s: Sys, m: Move, s': Sys)
    requires Inv(s) && m.MarkNext? && Next(s, m, s')
    ensures Inv(s')
  {
    var step := T.Execute(MarkOf(s.runner));
    if m.effect {
      FitIsProper(s, T.Single(MarkOf(s.runner)));
      T.CallKeepsInv(s.db, step, s'.db);
      T.NextKeepsInv(s.db, step, s'.db);
      MarkKeepsRest(s.db.w, s.runner);
    }
    forall x | x in s'.db.txs ensures JobOk(s', x, s'.db.txs[x].job) {
      NoneOfItsOwn(s, x);
    }
  }

  lemma RunnerKeepsInv(s: Sys, m: Move, s': Sys)
    requires Inv(s) && (m.List? || m.Skip? || m.Return? || m.Stop?) && Next(s, m, s')
    ensures Inv(s')
  {
    forall x | x in s'.db.txs ensures JobOk(s', x, s'.db.txs[x].job) {
      NoneOfItsOwn(s, x);
    }
  }

  lemma NextKeepsInv(s: Sys, m: Move, s': Sys)
    requires Inv(s) && Next(s, m, s')
    ensures Inv(s')
  {
    match m
    case Statement(_) => StatementKeepsInv(s, m, s');
    case ObserveTransfer(_, _, _, _) => ObserveKeepsInv(s, m, s');
    case BeginConfirm(_, _) => BeginKeepsInv(s, m, s');
    case BeginRefund(_, _) => BeginKeepsInv(s, m, s');
    case MarkNext(_, _) => MarkKeepsInv(s, m, s');
    case List(_) => RunnerKeepsInv(s, m, s');
    case Skip => RunnerKeepsInv(s, m, s');
    case Return(_) => RunnerKeepsInv(s, m, s');
    case Stop => RunnerKeepsInv(s, m, s');
  }

  ghost predicate Run(states: seq<Sys>, moves: seq<Move>) {
    && |states| == |moves| + 1
    && states[0] == Sys(T.Database(Wallet(Db([], map[]), map[], map[]), map[]), W.Idle, Free)
    && forall i {:trigger moves[i]} :: 0 <= i < |moves| ==> Next(states[i], moves[i], states[i + 1])
  }

  /** With the runner's confirmations and refunds interleaved statement by statement with any number of
      requests, and any of them failing anywhere, every committed state satisfies the balance equation,
      with each confirmed deposit credited and each failed withdrawal refunded exactly once. */
  lemma {:induction false} RunnerEquation(states: seq<Sys>, moves: seq<Move>, i: nat)
    requires Run(states, moves) && i < |states|
    ensures Inv(states[i])
  {
    if i == 0 {
      W.EmptyWalletInv();
    } else {
      RunnerEquation(states, moves, i - 1);
      assert Next(states[i - 1], moves[i - 1], states[i]);
      NextKeepsInv(states[i - 1], moves[i - 1], states[i]);
    }
  }
}
