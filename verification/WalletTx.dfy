/** The wallet's transactions as interleaved database steps: the row update of a confirmation or a
    refund, the ledger statements, the row insert of a withdrawal, one commit. Every interleaving
    commits what the whole calls would have done one after another in commit order. */
module WalletTx {
  import opened Ledger
  import opened Wallet

  type TxId = nat

  /** A call of the repository that takes more than one statement. */
  datatype Job =
    | Post(entry: Entry)
    | Withdraw(id: string, entryId: string, user: User, amount: int)
    | Confirm(hash: Hash, entryId: string, user: User, amount: int)
    | Refund(id: string, entryId: string, user: User, amount: int)

  function EntryOf(job: Job): Entry {
    match job
    case Post(e) => e
    case Withdraw(id, e, u, x) => Entry(e, u, -x, Render(WithdrawalTag(id)))
    case Confirm(h, e, u, x) => Entry(e, u, x, Render(DepositTag(h)))
    case Refund(id, e, u, x) => Entry(e, u, x, Render(RefundTag(id)))
  }

  /** A call that is a single statement. */
  datatype Statement =
    | Provision(user: User)
    | Upsert(hash: Hash, user: User, amount: int, block: int)
    | Mark(id: string, status: Status)

  datatype Call = Whole(job: Job) | Single(statement: Statement)

  /** What a call does on its own. */
  function Done(w: Wallet, call: Call): Wallet {
    match call
    case Whole(Post(e)) => Posted(w, e)
    case Whole(Withdraw(id, e, u, x)) => RequestWithdrawal(w, id, e, u, x)
    case Whole(Confirm(h, e, u, x)) => ConfirmDeposit(w, h, e, u, x)
    case Whole(Refund(id, e, u, x)) => MarkFailed(w, id, e, u, x)
    case Single(Provision(u)) => Provisioned(w, u)
    case Single(Upsert(h, u, x, b)) => Observe(w, h, u, x, b)
    case Single(Mark(id, status)) => MarkWithdrawal(w, id, status)
  }

  /** Ready: the deposit or withdrawal row is updated and locked. Skipped: the key was already there;
      Unseen: it was not. Holding: the balance row is locked. Written: the entry is inserted. Updated: so
      is the balance. Complete: a withdrawal's row is inserted too and only the commit is left. */
  datatype Stage =
    | Opened | Ready | Skipped | Unseen | Holding(balance: int) | Written(newBalance: int) | Updated(newBalance: int)
    | Complete(applied: bool, newBalance: int)

  datatype Work = Work(job: Job, stage: Stage)

  datatype Database = Database(w: Wallet, txs: map<TxId, Work>)

  datatype Step =
    | Begin(tx: TxId, job: Job)
    | UpdateRow(tx: TxId)
    | Check(tx: TxId)
    | Lock(tx: TxId)
    | Insert(tx: TxId)
    | Update(tx: TxId)
    | Complete(tx: TxId)
    | Commit(tx: TxId)
    | Abort(tx: TxId)
    | Execute(statement: Statement)

  predicate HoldsBalance(t: Work) {
    t.stage.Holding? || HasWritten(t)
  }

  predicate HasWritten(t: Work) {
    t.stage.Written? || t.stage.Updated? || (t.stage.Complete? && t.stage.applied)
  }

  predicate HoldsDeposit(t: Work, h: Hash) {
    t.job.Confirm? && t.job.hash == h && t.stage != Opened
  }

  predicate HoldsWithdrawal(t: Work, id: string) {
    t.job.Refund? && t.job.id == id && t.stage != Opened
  }

  /** A withdrawal row that is inserted and not committed: nobody sees it, but the id is taken. */
  predicate TakesId(t: Work, id: string) {
    t.job.Withdraw? && t.job.id == id && t.stage.Complete?
  }

  /** A statement waits for the row it touches; one that touches no row waits for nothing. */
  ghost predicate CanExecute(s: Database, st: Statement) {
    match st
    case Provision(_) => true
    case Upsert(h, _, _, _) => forall x :: x in s.txs ==> !HoldsDeposit(s.txs[x], h)
    case Mark(id, _) => forall x :: x in s.txs ==> !HoldsWithdrawal(s.txs[x], id)
  }

  ghost predicate BalanceFree(s: Database, user: User) {
    forall x :: x in s.txs ==> !(HoldsBalance(s.txs[x]) && EntryOf(s.txs[x].job).user == user)
  }

  ghost predicate InsertFree(s: Database, e: Entry) {
    forall x :: x in s.txs && HasWritten(s.txs[x]) ==>
      EntryOf(s.txs[x].job).key != e.key && EntryOf(s.txs[x].job).id != e.id
  }

  /** The row is there and has not been confirmed or failed yet. */
  predicate RowOpen(w: Wallet, job: Job) {
    match job
    case Confirm(h, _, _, _) => h in w.deposits && !w.deposits[h].confirmed
    case Refund(id, _, _, _) => id in w.withdrawals && w.withdrawals[id].status != Failed
    case _ => true
  }

  ghost predicate RowFree(s: Database, job: Job) {
    match job
    case Confirm(h, _, _, _) => forall x :: x in s.txs ==> !HoldsDeposit(s.txs[x], h)
    case Refund(id, _, _, _) => forall x :: x in s.txs ==> !HoldsWithdrawal(s.txs[x], id)
    case _ => true
  }

  function Ended(s: Database, x: TxId): Database {
    s.(txs := s.txs - {x})
  }

  function Moved(s: Database, x: TxId, stage: Stage): Database
    requires x in s.txs
  {
    s.(txs := s.txs[x := s.txs[x].(stage := stage)])
  }

  function WithRow(w: Wallet, job: Job): Wallet {
    match job
    case Confirm(h, _, _, _) =>
      if h in w.deposits then w.(deposits := w.deposits[h := w.deposits[h].(confirmed := true)]) else w
    case Refund(id, _, _, _) => MarkWithdrawal(w, id, Failed)
    case Withdraw(id, _, u, x) => w.(withdrawals := w.withdrawals[id := WithdrawalRow(u, x, Pending)])
    case Post(_) => w
  }

  /** Everything a transaction wrote becomes visible at once. */
  function Committed(w: Wallet, t: Work): Wallet
    requires t.stage.Complete?
  {
    var e, db := EntryOf(t.job), w.ledger;
    var posted := w.(ledger := Db(db.entries + [e], db.balances[e.user := t.stage.newBalance]));
    WithRow(if t.stage.applied then posted else w, t.job)
  }

  /** Amounts are 64-bit, and a withdrawal's is positive. */
  ghost predicate Sized(job: Job) {
    Int64(EntryOf(job).amount) && (job.Withdraw? ==> 0 < job.amount < TWO63)
  }

  /** One statement of one transaction. Any transaction may end without effect at any point. */
  ghost predicate Next(s: Database, step: Step, s': Database) {
    match step
    case Begin(x, job) =>
      x !in s.txs && Sized(job) && s' == s.(txs := s.txs[x := Work(job, Opened)])
    case UpdateRow(x) =>
      x in s.txs && s.txs[x].stage == Opened
      && var job := s.txs[x].job;
         RowFree(s, job) && s' == if RowOpen(s.w, job) then Moved(s, x, Ready) else Ended(s, x)
    case Check(x) =>
      x in s.txs && s.txs[x].stage == Ready
      && s' == Moved(s, x, if HasKey(s.w.ledger.entries, EntryOf(s.txs[x].job).key) then Skipped else Unseen)
    case Lock(x) =>
      x in s.txs && s.txs[x].stage == Unseen
      && var u := EntryOf(s.txs[x].job).user;
         if u !in s.w.ledger.balances then s' == Ended(s, x)
         else BalanceFree(s, u) && s' == Moved(s, x, Holding(s.w.ledger.balances[u]))
    case Insert(x) =>
      x in s.txs && s.txs[x].stage.Holding?
      && var e := EntryOf(s.txs[x].job);
         var newBalance := Add64(s.txs[x].stage.balance, e.amount);
         if newBalance < 0 then s' == Ended(s, x)
         else if HasKey(s.w.ledger.entries, e.key) || HasId(s.w.ledger.entries, e.id) then s' == Ended(s, x)
         else InsertFree(s, e) && s' == Moved(s, x, Written(newBalance))
    case Update(x) =>
      x in s.txs && s.txs[x].stage.Written? && s' == Moved(s, x, Updated(s.txs[x].stage.newBalance))
    case Complete(x) =>
      x in s.txs && (s.txs[x].stage == Skipped || s.txs[x].stage.Updated?)
      && var t := s.txs[x];
         var done := if t.stage == Skipped then Stage.Complete(false, 0) else Stage.Complete(true, t.stage.newBalance);
         if !t.job.Withdraw? then s' == Moved(s, x, done)
         else if t.job.id in s.w.withdrawals then s' == Ended(s, x)
         else (forall y :: y in s.txs ==> !TakesId(s.txs[y], t.job.id)) && s' == Moved(s, x, done)
    case Commit(x) =>
      x in s.txs && s.txs[x].stage.Complete? && s' == Ended(s, x).(w := Committed(s.w, s.txs[x]))
    case Abort(x) => x in s.txs && s' == Ended(s, x)
    case Execute(st) => CanExecute(s, st) && s' == s.(w := Done(s.w, Single(st)))
  }

  // ----- what locks and unique indexes guarantee -----

  ghost predicate TxInv(w: Wallet, t: Work) {
    var e, db := EntryOf(t.job), w.ledger;
    && (t.stage != Opened ==> RowOpen(w, t.job))
    && (t.stage == Skipped || (t.stage.Complete? && !t.stage.applied) ==> HasKey(db.entries, e.key))
    && (HoldsBalance(t) ==> e.user in db.balances)
    && (t.stage.Holding? ==> t.stage.balance == db.balances[e.user])
    && (HasWritten(t) ==>
          && t.stage.newBalance == Add64(db.balances[e.user], e.amount) && t.stage.newBalance >= 0
          && !HasKey(db.entries, e.key) && !HasId(db.entries, e.id))
    && Sized(t.job)
    && (t.job.Withdraw? && t.stage.Complete? ==> t.job.id !in w.withdrawals)
  }

  ghost predicate Apart(a: Work, b: Work) {
    && (HoldsBalance(a) && HoldsBalance(b) ==> EntryOf(a.job).user != EntryOf(b.job).user)
    && (HasWritten(a) && HasWritten(b) ==>
          EntryOf(a.job).key != EntryOf(b.job).key && EntryOf(a.job).id != EntryOf(b.job).id)
    && (forall h :: !(HoldsDeposit(a, h) && HoldsDeposit(b, h)))
    && (forall id :: !(HoldsWithdrawal(a, id) && HoldsWithdrawal(b, id)))
    && (forall id :: !(TakesId(a, id) && TakesId(b, id)))
  }

  ghost predicate SysInv(s: Database) {
    && (forall x :: x in s.txs ==> TxInv(s.w, s.txs[x]))
    && (forall x, y :: x in s.txs && y in s.txs && x != y ==> Apart(s.txs[x], s.txs[y]))
  }

  lemma OneTxMoves(s: Database, x: TxId, t: Work)
    requires SysInv(s) && TxInv(s.w, t)
    requires forall y :: y in s.txs && y != x ==> Apart(t, s.txs[y]) && Apart(s.txs[y], t)
    ensures SysInv(s.(txs := s.txs[x := t]))
  {}

  /** A step inside one transaction. */
  ghost predicate Inner(step: Step) {
    !step.Commit? && !step.Execute?
  }

  lemma MovedTx(s: Database, step: Step, s': Database)
    requires SysInv(s) && Next(s, step, s') && Inner(step) && step.tx in s'.txs
    ensures s'.w == s.w && TxInv(s.w, s'.txs[step.tx]) && s'.txs == s.txs[step.tx := s'.txs[step.tx]]
  {
    assert step.tx in s.txs ==> TxInv(s.w, s.txs[step.tx]);
  }

  lemma ApartBoth(a: Work, b: Work)
    requires Apart(a, b)
    ensures Apart(b, a)
  {}

  /** Locking the balance row, or writing the entry, waits for everyone who has. */
  lemma LedgerApart(s: Database, step: Step, s': Database, y: TxId)
    requires SysInv(s) && Next(s, step, s') && (step.Lock? || step.Insert?)
    requires step.tx in s'.txs && y in s.txs && y != step.tx
    ensures Apart(s'.txs[step.tx], s.txs[y])
  {
    assert Apart(s.txs[step.tx], s.txs[y]);
  }

  lemma MovedApart(s: Database, step: Step, s': Database, y: TxId)
    requires SysInv(s) && Next(s, step, s') && Inner(step) && step.tx in s'.txs && y in s.txs && y != step.tx
    ensures Apart(s'.txs[step.tx], s.txs[y])
  {
    if step.Lock? || step.Insert? {
      LedgerApart(s, step, s', y);
    } else if step.UpdateRow? || step.Complete? {
      RowsApart(s, step, s', y);
    } else {
      OthersApart(s, step, s', y);
    }
  }

  /** Updating or inserting a row waits for everyone who has. */
  lemma RowsApart(s: Database, step: Step, s': Database, y: TxId)
    requires SysInv(s) && Next(s, step, s') && (step.UpdateRow? || step.Complete?)
    requires step.tx in s'.txs && y in s.txs && y != step.tx
    ensures Apart(s'.txs[step.tx], s.txs[y])
  {
    assert Apart(s.txs[step.tx], s.txs[y]);
  }

  /** Other steps gain nothing. */
  lemma OthersApart(s: Database, step: Step, s': Database, y: TxId)
    requires SysInv(s) && Next(s, step, s') && Inner(step)
    requires !step.Lock? && !step.Insert? && !step.UpdateRow? && !step.Complete?
    requires step.tx in s'.txs && y in s.txs && y != step.tx
    ensures Apart(s'.txs[step.tx], s.txs[y])
  {
    assert step.tx in s.txs ==> Apart(s.txs[step.tx], s.txs[y]);
  }

  lemma InnerKeepsInv(s: Database, step: Step, s': Database)
    requires SysInv(s) && Next(s, step, s') && Inner(step)
    ensures SysInv(s')
  {
    var x := step.tx;
    if x in s'.txs {
      forall y | y in s.txs && y != x ensures Apart(s'.txs[x], s.txs[y]) && Apart(s.txs[y], s'.txs[x]) {
        MovedApart(s, step, s', y);
        ApartBoth(s'.txs[x], s.txs[y]);
      }
      MovedTx(s, step, s');
      OneTxMoves(s, x, s'.txs[x]);
    }
  }

  lemma StatementKeepsTx(w: Wallet, st: Statement, t: Work)
    requires TxInv(w, t)
    requires st.Upsert? ==> !HoldsDeposit(t, st.hash)
    requires st.Mark? ==> !HoldsWithdrawal(t, st.id)
    ensures TxInv(Done(w, Single(st)), t)
  {}

  lemma CommitKeepsTx(w: Wallet, t: Work, other: Work)
    requires TxInv(w, t) && t.stage.Complete? && TxInv(w, other) && Apart(t, other)
    ensures TxInv(Committed(w, t), other)
  {
    var e, f := EntryOf(t.job), EntryOf(other.job);
    HasAppended(w.ledger.entries, e, f);
    if HasKey(w.ledger.entries, f.key) {
      HasKeyAppend(w.ledger.entries, e, f.key);
    }
    if t.job.Confirm? {
      assert HoldsDeposit(t, t.job.hash) && !HoldsDeposit(other, t.job.hash);
    } else if t.job.Refund? {
      assert HoldsWithdrawal(t, t.job.id) && !HoldsWithdrawal(other, t.job.id);
    } else if t.job.Withdraw? {
      assert TakesId(t, t.job.id) && !TakesId(other, t.job.id);
    }
  }

  lemma NextKeepsInv(s: Database, step: Step, s': Database)
    requires SysInv(s) && Next(s, step, s')
    ensures SysInv(s')
  {
    if Inner(step) {
      InnerKeepsInv(s, step, s');
    } else if step.Commit? {
      forall y | y in s'.txs ensures TxInv(s'.w, s'.txs[y]) {
        CommitKeepsTx(s.w, s.txs[step.tx], s.txs[y]);
      }
    } else {
      forall y | y in s'.txs ensures TxInv(s'.w, s'.txs[y]) {
        StatementKeepsTx(s.w, step.statement, s.txs[y]);
      }
    }
  }

  // ----- refinement -----

  /** A complete transaction commits what its whole call would do now. */
  lemma CommitIsCall(w: Wallet, t: Work)
    requires TxInv(w, t) && t.stage.Complete?
    ensures Committed(w, t) == Done(w, Whole(t.job))
  {}

  /** The call that takes effect in a step, if one does. */
  function CallOf(s: Database, step: Step): seq<Call> {
    match step
    case Commit(x) => if x in s.txs then [Whole(s.txs[x].job)] else []
    case Execute(st) => [Single(st)]
    case _ => []
  }

  function Replay(w: Wallet, calls: seq<Call>): Wallet {
    if |calls| == 0 then w else Done(Replay(w, calls[..|calls| - 1]), calls[|calls| - 1])
  }

  /** Every interleaved step leaves the committed tables alone or does what one whole call would do. */
  lemma StepRefinesCall(s: Database, step: Step, s': Database)
    requires SysInv(s) && Next(s, step, s')
    ensures s'.w == Replay(s.w, CallOf(s, step))
  {
    if step.Commit? {
      CommitIsCall(s.w, s.txs[step.tx]);
    }
    if |CallOf(s, step)| == 1 {
      assert CallOf(s, step)[..0] == [];
      assert Replay(s.w, CallOf(s, step)[..0]) == s.w;
    }
  }

  ghost predicate Run(states: seq<Database>, steps: seq<Step>) {
    && |states| == |steps| + 1
    && states[0] == Database(Wallet(Db([], map[]), map[], map[]), map[])
    && forall i {:trigger steps[i]} :: 0 <= i < |steps| ==> Next(states[i], steps[i], states[i + 1])
  }

  /** The calls that took effect in the first i steps, in commit order. */
  function CallsTo(states: seq<Database>, steps: seq<Step>, i: nat): seq<Call>
    requires i < |states| == |steps| + 1
  {
    if i == 0 then [] else CallsTo(states, steps, i - 1) + CallOf(states[i - 1], steps[i - 1])
  }

  lemma ReplayNext(w: Wallet, calls: seq<Call>, more: seq<Call>)
    requires |more| <= 1
    ensures Replay(w, calls + more) == Replay(Replay(w, calls), more)
  {
    if |more| == 0 {
      assert calls + more == calls;
    } else {
      assert (calls + more)[..|calls|] == calls && more[..0] == [];
      assert Replay(Replay(w, calls), more[..0]) == Replay(w, calls);
    }
  }

  lemma {:induction false} RunKeepsInv(states: seq<Database>, steps: seq<Step>, i: nat)
    requires Run(states, steps) && i < |states|
    ensures SysInv(states[i])
  {
    if i > 0 {
      RunKeepsInv(states, steps, i - 1);
      assert Next(states[i - 1], steps[i - 1], states[i]);
      NextKeepsInv(states[i - 1], steps[i - 1], states[i]);
    }
  }

  /** Every interleaving of any number of transactions is serializable: what is committed is what the
      same calls, each run whole and in commit order, would have left. */
  lemma {:induction false} CommitOrder(states: seq<Database>, steps: seq<Step>, i: nat)
    requires Run(states, steps) && i < |states|
    ensures states[i].w == Replay(states[0].w, CallsTo(states, steps, i))
  {
    if i > 0 {
      CommitOrder(states, steps, i - 1);
      RunKeepsInv(states, steps, i - 1);
      assert Next(states[i - 1], steps[i - 1], states[i]);
      StepRefinesCall(states[i - 1], steps[i - 1], states[i]);
      ReplayNext(states[0].w, CallsTo(states, steps, i - 1), CallOf(states[i - 1], steps[i - 1]));
    }
  }

  // ----- the ledger in every interleaving -----

  /** A whole call does to the ledger what its entry does, or nothing. */
  lemma JobKeepsLedger(w: Wallet, job: Job)
    requires DbInv(w.ledger) && Sized(job)
    ensures DbInv(Done(w, Whole(job)).ledger) && w.ledger.entries <= Done(w, Whole(job)).ledger.entries
  {
    ApplyKeepsInv(w.ledger, EntryOf(job));
  }

  lemma StatementKeepsLedger(w: Wallet, st: Statement)
    requires DbInv(w.ledger)
    ensures DbInv(Done(w, Single(st)).ledger) && w.ledger.entries <= Done(w, Single(st)).ledger.entries
  {
    if st.Provision? && st.user !in w.ledger.balances {
      NewAccountKeepsInv(w.ledger, st.user);
    }
  }

  lemma StepKeepsLedger(s: Database, step: Step, s': Database)
    requires SysInv(s) && DbInv(s.w.ledger) && Next(s, step, s')
    ensures DbInv(s'.w.ledger) && s.w.ledger.entries <= s'.w.ledger.entries
  {
    if step.Commit? {
      CommitIsCall(s.w, s.txs[step.tx]);
      JobKeepsLedger(s.w, s.txs[step.tx].job);
    } else if step.Execute? {
      StatementKeepsLedger(s.w, step.statement);
    }
  }

  /** Concurrent ledger safety: in every interleaving of any number of transactions, every committed
      state has balances equal to the sums of their entries, none negative, and no key twice. */
  lemma {:induction false} LedgerSafety(states: seq<Database>, steps: seq<Step>, i: nat)
    requires Run(states, steps) && i < |states|
    ensures DbInv(states[i].w.ledger)
  {
    if i > 0 {
      LedgerSafety(states, steps, i - 1);
      RunKeepsInv(states, steps, i - 1);
      assert Next(states[i - 1], steps[i - 1], states[i]);
      StepKeepsLedger(states[i - 1], steps[i - 1], states[i]);
    }
  }

  /** Entries are only ever appended, so an applied key stays applied. */
  lemma {:induction false} EntriesGrow(states: seq<Database>, steps: seq<Step>, i: nat, j: nat)
    requires Run(states, steps) && i <= j < |states|
    ensures states[i].w.ledger.entries <= states[j].w.ledger.entries
  {
    if i < j {
      EntriesGrow(states, steps, i, j - 1);
      LedgerSafety(states, steps, j - 1);
      RunKeepsInv(states, steps, j - 1);
      assert Next(states[j - 1], steps[j - 1], states[j]);
      StepKeepsLedger(states[j - 1], steps[j - 1], states[j]);
    }
  }

  // ----- the balance equation in every interleaving -----

  /** A call as the service and the runner make them: external keys, amounts that fit, confirmations and
      refunds for what the row says, statuses written only to withdrawals that have not failed. */
  ghost predicate Proper(w: Wallet, call: Call) {
    match call
    case Whole(Post(e)) => Int64(e.amount) && External(e.key)
    case Whole(Withdraw(_, _, _, x)) => x < TWO63
    case Whole(Confirm(h, _, u, x)) => h in w.deposits ==> u == w.deposits[h].user && x == w.deposits[h].amount
    case Whole(Refund(id, _, u, x)) =>
      id in w.withdrawals ==> u == w.withdrawals[id].user && x == w.withdrawals[id].amount
    case Single(Provision(_)) => true
    case Single(Upsert(_, _, x, _)) => 0 <= x < TWO63
    case Single(Mark(id, status)) => status != Failed && (id in w.withdrawals ==> w.withdrawals[id].status != Failed)
  }

  lemma ProperKeepsInv(w: Wallet, call: Call)
    requires WalletInv(w) && Proper(w, call)
    ensures WalletInv(Done(w, call))
  {
    match call
    case Whole(Post(e)) => PostKeepsInv(w, e);
    case Whole(Withdraw(id, e, u, x)) => WithdrawKeepsInv(w, id, e, u, x);
    case Whole(Confirm(h, e, _, _)) => if h in w.deposits { ConfirmKeepsInv(w, h, e); }
    case Whole(Refund(id, e, _, _)) => if id in w.withdrawals { FailKeepsInv(w, id, e); }
    case Single(Provision(u)) => ProvisionKeepsWalletInv(w, u);
    case Single(Upsert(h, u, x, b)) => ObserveKeepsInv(w, h, u, x, b);
    case Single(Mark(id, status)) => MarkKeepsInv(w, id, status);
  }

  /** In every interleaving of proper calls every committed state satisfies the balance equation, with
      each deposit credited and each failed withdrawal refunded exactly once. */
  lemma {:induction false} InterleavedEquation(states: seq<Database>, steps: seq<Step>, i: nat)
    requires Run(states, steps) && i < |states|
    requires forall k {:trigger steps[k]} :: 0 <= k < i ==>
      forall call :: call in CallOf(states[k], steps[k]) ==> Proper(states[k].w, call)
    ensures WalletInv(states[i].w)
  {
    if i > 0 {
      InterleavedEquation(states, steps, i - 1);
      RunKeepsInv(states, steps, i - 1);
      var s, step := states[i - 1], steps[i - 1];
      assert Next(s, step, states[i]);
      CallKeepsInv(s, step, states[i]);
    }
  }

  lemma CallKeepsInv(s: Database, step: Step, s': Database)
    requires SysInv(s) && Next(s, step, s') && WalletInv(s.w)
    requires forall call :: call in CallOf(s, step) ==> Proper(s.w, call)
    ensures WalletInv(s'.w)
  {
    StepRefinesCall(s, step, s');
    if |CallOf(s, step)| == 1 {
      var call := CallOf(s, step)[0];
      assert call in CallOf(s, step);
      ReplayOne(s.w, call);
      assert CallOf(s, step) == [call];
      ProperKeepsInv(s.w, call);
    }
  }

  lemma ReplayOne(w: Wallet, call: Call)
    ensures Replay(w, [call]) == Done(w, call)
  {
    assert [call][..0] == [];
    assert Replay(w, [call][..0]) == w;
  }
}
