/** The repository as an object updated in place, with every transaction rolled back on error, and
    the runner's loops over it. */
module WalletStore {
  import opened Ledger
  import opened Wallet
  import opened WalletRun

  datatype Reply = Committed | NoChange | Error(result: Result)

  class Store {
    var entries: seq<Entry>
    var balances: map<User, int>
    var deposits: map<Hash, DepositRow>
    var withdrawals: map<string, WithdrawalRow>

    function Snapshot(): Wallet
      reads this
    {
      Wallet(Db(entries, balances), deposits, withdrawals)
    }

    constructor ()
      ensures Snapshot() == Wallet(Db([], map[]), map[], map[])
    {
      entries, balances, deposits, withdrawals := [], map[], map[], map[];
    }

    /** applyLedgerEntryTx inside an open transaction: on an error the caller rolls back. */
    method ApplyLedgerEntryTx(e: Entry) returns (r: Result)
      modifies this`entries, this`balances
      ensures r == ApplyEntry(old(Db(entries, balances)), e)
      ensures r.Applied? ==> Db(entries, balances) == r.db
      ensures r.AlreadyApplied? ==> entries == old(entries) && balances == old(balances)
    {
      if HasKey(entries, e.key) {
        return AlreadyApplied;
      }
      if e.user !in balances {
        return AccountNotFound;
      }
      var newBalance := Add64(balances[e.user], e.amount);
      if newBalance < 0 {
        return InsufficientFunds;
      }
      if HasId(entries, e.id) {
        return UniqueViolation;
      }
      entries := entries + [e];
      balances := balances[e.user := newBalance];
      return Applied(Db(entries, balances));
    }

    method ApplyLedgerEntry(e: Entry) returns (reply: Reply)
      modifies this`entries, this`balances
      ensures Snapshot() == Posted(old(Snapshot()), e)
      ensures reply == Committed <==> ApplyEntry(old(Snapshot().ledger), e).Applied?
    {
      var entries0, balances0 := entries, balances;
      var r := ApplyLedgerEntryTx(e);
      if r.Applied? {
        return Committed;
      }
      if r.AlreadyApplied? {
        return NoChange;
      }
      entries, balances := entries0, balances0;
      return Error(r);
    }

    method CreateWithdrawal(id: string, entryId: string, user: User, amount: int) returns (reply: Reply)
      requires amount > 0
      modifies this
      ensures Snapshot() == RequestWithdrawal(old(Snapshot()), id, entryId, user, amount)
      ensures reply == Committed <==> Snapshot() != old(Snapshot())
    {
      var entries0, balances0 := entries, balances;
      var r := ApplyLedgerEntryTx(Entry(entryId, user, -amount, Render(WithdrawalTag(id))));
      if !r.Applied? && !r.AlreadyApplied? {
        entries, balances := entries0, balances0;
        return Error(r);
      }
      if id in withdrawals {
        entries, balances := entries0, balances0;
        return Error(UniqueViolation);
      }
      withdrawals := withdrawals[id := WithdrawalRow(user, amount, Pending)];
      assert id in withdrawals && id !in old(withdrawals);
      return Committed;
    }

    method UpsertObservedDeposit(hash: Hash, user: User, amount: int, block: int)
      modifies this`deposits
      ensures Snapshot() == Observe(old(Snapshot()), hash, user, amount, block)
    {
      if hash in deposits {
        deposits := deposits[hash := deposits[hash].(observed := block)];
      } else {
        deposits := deposits[hash := DepositRow(user, amount, false, block)];
      }
    }

    method Confirm(hash: Hash, entryId: string, user: User, amount: int) returns (reply: Reply)
      modifies this
      ensures Snapshot() == ConfirmDeposit(old(Snapshot()), hash, entryId, user, amount)
    {
      if hash !in deposits || deposits[hash].confirmed {
        return NoChange;
      }
      var entries0, balances0, deposits0 := entries, balances, deposits;
      deposits := deposits[hash := deposits[hash].(confirmed := true)];
      var r := ApplyLedgerEntryTx(Entry(entryId, user, amount, Render(DepositTag(hash))));
      if !r.Applied? && !r.AlreadyApplied? {
        entries, balances, deposits := entries0, balances0, deposits0;
        return Error(r);
      }
      return Committed;
    }

    method Mark(id: string, status: Status)
      modifies this`withdrawals
      ensures Snapshot() == MarkWithdrawal(old(Snapshot()), id, status)
    {
      if id in withdrawals {
        withdrawals := withdrawals[id := withdrawals[id].(status := status)];
      }
    }

    method Fail(id: string, entryId: string, user: User, amount: int) returns (reply: Reply)
      modifies this
      ensures Snapshot() == MarkFailed(old(Snapshot()), id, entryId, user, amount)
    {
      if id !in withdrawals || withdrawals[id].status == Failed {
        return NoChange;
      }
      var entries0, balances0, withdrawals0 := entries, balances, withdrawals;
      withdrawals := withdrawals[id := withdrawals[id].(status := Failed)];
      var r := ApplyLedgerEntryTx(Entry(entryId, user, amount, Render(RefundTag(id))));
      if !r.Applied? && !r.AlreadyApplied? {
        entries, balances, withdrawals := entries0, balances0, withdrawals0;
        return Error(r);
      }
      return Committed;
    }

    method ServeRequest(r: Request)
      modifies this
      ensures Snapshot() == Served(old(Snapshot()), r)
    {
      var reply;
      match r {
        case ProvisionUser(u) =>
          if u !in balances {
            balances := balances[u := 0];
          }
        case Withdraw(id, e, u, x) =>
          if x > 0 {
            reply := CreateWithdrawal(id, e, u, x);
          }
        case Join(e, u, x, key) =>
          if x > 0 {
            reply := ApplyLedgerEntry(Entry(e, u, -x, key));
          }
        case Cashout(e, u, x, key) =>
          if x > 0 {
            reply := ApplyLedgerEntry(Entry(e, u, x, key));
          }
      }
    }
  }

  // ----- the runner's loops -----

  /** What happens around one loop iteration: a request served before it, whether the call reached
      the database, and whether the runner was told it succeeded. */
  datatype Turn = Turn(arrival: Request, sent: bool, receipt: Receipt, entryId: string, effect: bool, ok: bool)

  ghost predicate Turns(turns: seq<Turn>, n: nat) {
    |turns| == n && forall i :: 0 <= i < n ==> Allowed(turns[i].arrival)
  }

  /** A finite piece of a run. */
  ghost predicate Trace(states: seq<Machine>, events: seq<Event>) {
    && |states| == |events| + 1
    && forall i {:trigger events[i]} :: 0 <= i < |events| ==> MachineStep(states[i], events[i], states[i + 1])
  }

  ghost function Last(states: seq<Machine>): Machine
    requires |states| > 0
  {
    states[|states| - 1]
  }

  lemma Extend(states: seq<Machine>, events: seq<Event>, e: Event, s: Machine)
    requires Trace(states, events) && MachineStep(Last(states), e, s)
    ensures Trace(states + [s], events + [e]) && Last(states + [s]) == s
    ensures (states + [s])[0] == states[0]
  {
    var ss, es := states + [s], events + [e];
    forall i {:trigger es[i]} | 0 <= i < |es| ensures MachineStep(ss[i], es[i], ss[i + 1]) {
      if i < |events| {
        assert es[i] == events[i] && ss[i] == states[i] && ss[i + 1] == states[i + 1];
      }
    }
  }

  /** Every harmless trace that starts in the invariant stays in it. */
  lemma {:induction false} TraceKeepsInv(states: seq<Machine>, events: seq<Event>, i: nat)
    requires Trace(states, events) && MachineInv(states[0]) && HarmlessTo(states, events, i)
    ensures MachineInv(states[i])
  {
    if i > 0 {
      TraceKeepsInv(states, events, i - 1);
      assert Harmless(states[i - 1].w, events[i - 1]);
      assert MachineStep(states[i - 1], events[i - 1], states[i]);
      StepKeepsMachineInv(states[i - 1], events[i - 1], states[i]);
    }
  }

  /** How many rows a loop gets to from the i-th on: it is given up after the first call that fails. */
  function Handled(fails: seq<bool>, i: nat): (n: nat)
    requires i <= |fails|
    ensures i <= n <= |fails|
    decreases |fails| - i
  {
    if i == |fails| then i else if fails[i] then i + 1 else Handled(fails, i + 1)
  }

  function FailedConfirmations(rows: seq<ListedDeposit>, block: int, confirmations: int, turns: seq<Turn>): seq<bool>
    requires |rows| == |turns|
  {
    seq(|turns|, i requires 0 <= i < |turns| => block - rows[i].row.observed >= confirmations - 1 && !turns[i].ok)
  }

  function FailedSubmissions(turns: seq<Turn>): seq<bool> {
    seq(|turns|, i requires 0 <= i < |turns| => turns[i].sent && !turns[i].ok)
  }

  function FailedReceipts(turns: seq<Turn>): seq<bool> {
    seq(|turns|, i requires 0 <= i < |turns| => turns[i].receipt != NoReceipt && !turns[i].ok)
  }

  /** The ledger takes the entry, or has it already. */
  predicate Takes(db: Db, e: Entry) {
    ApplyEntry(db, e).Applied? || ApplyEntry(db, e).AlreadyApplied?
  }

  /** The status a submitted withdrawal has after its turn; `w` is the wallet that turn found. */
  function Verdict(w: Wallet, d: ListedWithdrawal, t: Turn): Status {
    if !t.effect then Submitted
    else match t.receipt
      case NoReceipt => Submitted
      case Succeeded => Confirmed
      case Reverted =>
        if Takes(w.ledger, Entry(t.entryId, d.row.user, d.row.amount, "withdrawal-compensation:" + d.id)) then Failed
        else Submitted
  }

  /** The first n listed withdrawals have the status their turn gave them, the others are still submitted.
      Each turn makes two states, after the request that arrives and after the receipt. */
  ghost predicate Answered(w: Wallet, rows: seq<ListedWithdrawal>, turns: seq<Turn>, states: seq<Machine>, n: nat) {
    && n <= |rows| == |turns| && 2 * n < |states|
    && forall j :: 0 <= j < |rows| ==>
         && rows[j].id in w.withdrawals
         && w.withdrawals[rows[j].id].status
            == if j < n then Verdict(states[2 * j + 1].w, rows[j], turns[j]) else Submitted
  }

  /** The first n listed withdrawals are submitted if they were sent and the row was marked. */
  ghost predicate Sent(w: Wallet, rows: seq<ListedWithdrawal>, turns: seq<Turn>, n: nat) {
    && n <= |rows| == |turns|
    && forall j :: 0 <= j < |rows| ==>
         && rows[j].id in w.withdrawals
         && w.withdrawals[rows[j].id].status
            == if j < n && turns[j].sent && turns[j].effect then Submitted else Pending
  }

  /** What the runner does about a submitted withdrawal in its turn. */
  function AfterReceipt(w: Wallet, d: ListedWithdrawal, t: Turn): Wallet {
    if !t.effect then w
    else match t.receipt
      case NoReceipt => w
      case Succeeded => MarkWithdrawal(w, d.id, Confirmed)
      case Reverted => MarkFailed(w, d.id, t.entryId, d.row.user, d.row.amount)
  }

  ghost predicate DistinctRows(rows: seq<ListedWithdrawal>) {
    forall j, k :: 0 <= j < k < |rows| ==> rows[j].id != rows[k].id
  }

  /** A turn gives its own row its verdict and touches no other. */
  lemma TurnAnswers(w: Wallet, rows: seq<ListedWithdrawal>, i: nat, t: Turn)
    requires i < |rows| && DistinctRows(rows) && forall j :: 0 <= j < |rows| ==> rows[j].id in w.withdrawals
    requires w.withdrawals[rows[i].id].status == Submitted
    ensures var w' := AfterReceipt(w, rows[i], t);
      && (forall j :: 0 <= j < |rows| ==> rows[j].id in w'.withdrawals)
      && (forall j :: 0 <= j < |rows| && j != i ==> w'.withdrawals[rows[j].id] == w.withdrawals[rows[j].id])
      && w'.withdrawals[rows[i].id].status == Verdict(w, rows[i], t)
  {}

  lemma AnsweredNext(w: Wallet, served: Machine, after: Machine, rows: seq<ListedWithdrawal>, turns: seq<Turn>,
                     states: seq<Machine>, i: nat)
    requires i < |rows| && DistinctRows(rows) && |states| == 2 * i + 1 && Answered(w, rows, turns, states, i)
    requires served.w == Served(w, turns[i].arrival) && after.w == AfterReceipt(served.w, rows[i], turns[i])
    ensures Answered(after.w, rows, turns, states + [served] + [after], i + 1)
  {
    ServedKeepsRows(w, turns[i].arrival);
    TurnAnswers(served.w, rows, i, turns[i]);
    var more := states + [served] + [after];
    forall j | 0 <= j < |rows|
      ensures rows[j].id in after.w.withdrawals
      ensures after.w.withdrawals[rows[j].id].status
        == if j < i + 1 then Verdict(more[2 * j + 1].w, rows[j], turns[j]) else Submitted
    {
      assert j < i ==> more[2 * j + 1] == states[2 * j + 1];
    }
  }

  lemma SentNext(w: Wallet, served: Wallet, rows: seq<ListedWithdrawal>, turns: seq<Turn>, i: nat)
    requires i < |rows| && DistinctRows(rows) && Sent(w, rows, turns, i) && served == Served(w, turns[i].arrival)
    ensures var t := turns[i];
      Sent(if t.sent && t.effect then MarkWithdrawal(served, rows[i].id, Submitted) else served, rows, turns, i + 1)
  {
    ServedKeepsRows(w, turns[i].arrival);
  }

  /** The deposit is deep enough, the call reaches the database and the ledger takes the credit. */
  ghost predicate Credited(w: Wallet, d: ListedDeposit, block: int, confirmations: int, t: Turn) {
    && block - d.row.observed >= confirmations - 1 && t.effect
    && Takes(w.ledger, Entry(t.entryId, d.row.user, d.row.amount, "deposit:" + d.hash))
  }

  /** Of the listed deposits exactly those among the first n are confirmed whose turn credited them. */
  ghost predicate ConfirmedBy(w: Wallet, rows: seq<ListedDeposit>, block: int, confirmations: int, turns: seq<Turn>,
                              states: seq<Machine>, n: nat) {
    && n <= |rows| == |turns| && 2 * n < |states|
    && forall j :: 0 <= j < |rows| ==>
         && rows[j].hash in w.deposits
         && (w.deposits[rows[j].hash].confirmed <==>
               j < n && Credited(states[2 * j + 1].w, rows[j], block, confirmations, turns[j]))
  }

  ghost predicate DistinctDeposits(rows: seq<ListedDeposit>) {
    forall j, k :: 0 <= j < k < |rows| ==> rows[j].hash != rows[k].hash
  }

  function AfterConfirmation(w: Wallet, d: ListedDeposit, block: int, confirmations: int, t: Turn): Wallet {
    if Confirmations(block, d.row) >= confirmations && t.effect then
      ConfirmDeposit(w, d.hash, t.entryId, d.row.user, d.row.amount)
    else w
  }

  lemma TurnConfirms(w: Wallet, rows: seq<ListedDeposit>, block: int, confirmations: int, i: nat, t: Turn)
    requires i < |rows| && DistinctDeposits(rows) && forall j :: 0 <= j < |rows| ==> rows[j].hash in w.deposits
    requires !w.deposits[rows[i].hash].confirmed
    ensures var w' := AfterConfirmation(w, rows[i], block, confirmations, t);
      && (forall j :: 0 <= j < |rows| ==> rows[j].hash in w'.deposits)
      && (forall j :: 0 <= j < |rows| && j != i ==> w'.deposits[rows[j].hash] == w.deposits[rows[j].hash])
      && (w'.deposits[rows[i].hash].confirmed <==> Credited(w, rows[i], block, confirmations, t))
  {}

  lemma ConfirmedNext(w: Wallet, served: Machine, after: Machine, rows: seq<ListedDeposit>, block: int,
                      confirmations: int, turns: seq<Turn>, states: seq<Machine>, i: nat)
    requires i < |rows| && DistinctDeposits(rows) && |states| == 2 * i + 1
    requires ConfirmedBy(w, rows, block, confirmations, turns, states, i) && served.w == Served(w, turns[i].arrival)
    requires after.w == AfterConfirmation(served.w, rows[i], block, confirmations, turns[i])
    ensures ConfirmedBy(after.w, rows, block, confirmations, turns, states + [served] + [after], i + 1)
  {
    ServedKeepsRows(w, turns[i].arrival);
    TurnConfirms(served.w, rows, block, confirmations, i, turns[i]);
    var more := states + [served] + [after];
    forall j | 0 <= j < |rows|
      ensures rows[j].hash in after.w.deposits
      ensures after.w.deposits[rows[j].hash].confirmed <==>
        j < i + 1 && Credited(more[2 * j + 1].w, rows[j], block, confirmations, turns[j])
    {
      assert j < i ==> more[2 * j + 1] == states[2 * j + 1];
    }
  }

  method HandleDeposit(store: Store, d: ListedDeposit, block: int, confirmations: int, t: Turn)
    modifies store
    ensures store.Snapshot() == AfterConfirmation(old(store.Snapshot()), d, block, confirmations, t)
  {
    if Confirmations(block, d.row) >= confirmations && t.effect {
      var reply := store.Confirm(d.hash, t.entryId, d.row.user, d.row.amount);
    }
  }

  /** confirmPendingDeposits: what the loop does is a trace of the system, whatever fails; of the rows it
      gets to, those deep enough are credited and confirmed, the others left. */
  method ConfirmPendingDeposits(store: Store, rows: seq<ListedDeposit>, block: int, confirmations: int,
                                turns: seq<Turn>)
    returns (ghost states: seq<Machine>, ghost events: seq<Event>)
    requires Turns(turns, |rows|)
    modifies store
    ensures Trace(states, events) && states[0] == Machine(old(store.Snapshot()), Confirming(rows, block), confirmations)
    ensures Last(states).w == store.Snapshot()
    ensures PendingDeposits(old(store.Snapshot()), rows) && DistinctDeposits(rows) ==>
      ConfirmedBy(store.Snapshot(), rows, block, confirmations, turns, states,
                  Handled(FailedConfirmations(rows, block, confirmations, turns), 0))
  {
    states, events := [Machine(store.Snapshot(), Confirming(rows, block), confirmations)], [];
    ghost var listed := PendingDeposits(store.Snapshot(), rows) && DistinctDeposits(rows);
    ghost var fails := FailedConfirmations(rows, block, confirmations, turns);
    for i := 0 to |rows|
      invariant Trace(states, events)
      invariant states[0] == Machine(old(store.Snapshot()), Confirming(rows, block), confirmations)
      invariant Last(states) == Machine(store.Snapshot(), Confirming(rows[i..], block), confirmations)
      invariant |states| == 2 * i + 1 && Handled(fails, i) == Handled(fails, 0)
      invariant listed ==> ConfirmedBy(store.Snapshot(), rows, block, confirmations, turns, states, i)
    {
      var d, t := rows[i], turns[i];
      ghost var w := store.Snapshot();
      store.ServeRequest(t.arrival);
      ghost var served := Last(states).(w := store.Snapshot());
      HandleDeposit(store, d, block, confirmations, t);
      var stop := Confirmations(block, d.row) >= confirmations && !t.ok;
      ghost var rest := if stop then Idle else Confirming(rows[i + 1..], block);
      ghost var after := Machine(store.Snapshot(), rest, confirmations);
      if listed {
        ConfirmedNext(w, served, after, rows, block, confirmations, turns, states, i);
      }

      Extend(states, events, Serve(t.arrival), served);
      states, events := states + [served], events + [Serve(t.arrival)];
      ghost var e := ConfirmNext(t.entryId, t.effect, t.ok);
      assert rows[i..][0] == d && rows[i..][1..] == rows[i + 1..];
      Extend(states, events, e, after);
      states, events := states + [after], events + [e];
      if stop {
        return;
      }
    }
  }

  /** submitWithdrawals: a submission that fails leaves the row pending for the next cycle. */
  method SubmitWithdrawals(store: Store, rows: seq<ListedWithdrawal>, confirmations: int, turns: seq<Turn>)
    returns (ghost states: seq<Machine>, ghost events: seq<Event>)
    requires Turns(turns, |rows|)
    modifies store
    ensures Trace(states, events) && states[0] == Machine(old(store.Snapshot()), Submitting(rows), confirmations)
    ensures Last(states).w == store.Snapshot()
    ensures RowsWith(old(store.Snapshot()), rows, Pending) ==>
      Sent(store.Snapshot(), rows, turns, Handled(FailedSubmissions(turns), 0))
  {
    states, events := [Machine(store.Snapshot(), Submitting(rows), confirmations)], [];
    ghost var listed := RowsWith(store.Snapshot(), rows, Pending);
    for i := 0 to |rows|
      invariant Trace(states, events) && states[0] == Machine(old(store.Snapshot()), Submitting(rows), confirmations)
      invariant Last(states) == Machine(store.Snapshot(), Submitting(rows[i..]), confirmations)
      invariant Handled(FailedSubmissions(turns), i) == Handled(FailedSubmissions(turns), 0)
      invariant listed ==> DistinctRows(rows) && Sent(store.Snapshot(), rows, turns, i)
    {
      var d, t := rows[i], turns[i];
      ghost var w := store.Snapshot();
      store.ServeRequest(t.arrival);
      ghost var served := Last(states).(w := store.Snapshot());
      if t.sent && t.effect {
        store.Mark(d.id, Submitted);
      }
      var stop := t.sent && !t.ok;
      ghost var after := Machine(store.Snapshot(), if stop then Idle else Submitting(rows[i + 1..]), confirmations);
      if listed {
        SentNext(w, served.w, rows, turns, i);
      }

      Extend(states, events, Serve(t.arrival), served);
      states, events := states + [served], events + [Serve(t.arrival)];
      ghost var e := SubmitNext(t.sent, t.effect, t.ok);
      assert rows[i..][0] == d && rows[i..][1..] == rows[i + 1..];
      Extend(states, events, e, after);
      states, events := states + [after], events + [e];
      if stop {
        return;
      }
    }
  }

  method HandleReceipt(store: Store, d: ListedWithdrawal, t: Turn)
    modifies store
    ensures store.Snapshot() == AfterReceipt(old(store.Snapshot()), d, t)
  {
    var reply;
    if t.effect {
      match t.receipt {
        case NoReceipt =>
        case Succeeded => store.Mark(d.id, Confirmed);
        case Reverted => reply := store.Fail(d.id, t.entryId, d.row.user, d.row.amount);
      }
    }
  }

  /** confirmWithdrawalReceipts: each row it gets to is confirmed on a successful receipt, failed and
      refunded on a reverted one, and left submitted without one. */
  method ConfirmWithdrawalReceipts(store: Store, rows: seq<ListedWithdrawal>, confirmations: int, turns: seq<Turn>)
    returns (ghost states: seq<Machine>, ghost events: seq<Event>)
    requires Turns(turns, |rows|)
    modifies store
    ensures Trace(states, events) && states[0] == Machine(old(store.Snapshot()), Receipts(rows), confirmations)
    ensures Last(states).w == store.Snapshot()
    ensures RowsWith(old(store.Snapshot()), rows, Submitted) ==>
      Answered(store.Snapshot(), rows, turns, states, Handled(FailedReceipts(turns), 0))
  {
    states, events := [Machine(store.Snapshot(), Receipts(rows), confirmations)], [];
    ghost var listed := RowsWith(store.Snapshot(), rows, Submitted);
    for i := 0 to |rows|
      invariant Trace(states, events) && states[0] == Machine(old(store.Snapshot()), Receipts(rows), confirmations)
      invariant Last(states) == Machine(store.Snapshot(), Receipts(rows[i..]), confirmations)
      invariant |states| == 2 * i + 1 && Handled(FailedReceipts(turns), i) == Handled(FailedReceipts(turns), 0)
      invariant listed ==> DistinctRows(rows) && Answered(store.Snapshot(), rows, turns, states, i)
    {
      var d, t := rows[i], turns[i];
      ghost var w := store.Snapshot();
      store.ServeRequest(t.arrival);
      ghost var served := Last(states).(w := store.Snapshot());
      HandleReceipt(store, d, t);
      var stop := t.receipt != NoReceipt && !t.ok;
      ghost var after := Machine(store.Snapshot(), if stop then Idle else Receipts(rows[i + 1..]), confirmations);
      if listed {
        AnsweredNext(w, served, after, rows, turns, states, i);
      }

      Extend(states, events, Serve(t.arrival), served);
      states, events := states + [served], events + [Serve(t.arrival)];
      ghost var e := ReceiptNext(t.receipt, t.entryId, t.effect, t.ok);
      assert rows[i..][0] == d && rows[i..][1..] == rows[i + 1..];
      Extend(states, events, e, after);
      states, events := states + [after], events + [e];
      if stop {
        return;
      }
    }
  }
}
