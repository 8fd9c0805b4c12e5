/** Runs of the wallet: requests arrive at any point between the steps of the single chain runner,
    and any repository call of the runner may fail with or without having taken effect. */
module WalletRun {
  import opened MapSum
  import opened Ledger
  import opened Wallet

  datatype Request =
    | ProvisionUser(user: User)
    | Withdraw(id: string, entryId: string, user: User, amount: int)
    | Join(entryId: string, user: User, amount: int, key: Key)
    | Cashout(entryId: string, user: User, amount: int, key: Key)

  ghost predicate Allowed(r: Request) {
    match r
    case ProvisionUser(_) => true
    case Withdraw(_, _, _, amount) => Int64(amount)
    case Join(_, _, amount, _) => Int64(amount)
    case Cashout(_, _, amount, _) => Int64(amount)
  }

  /** The ledger entry a buy-in or a cash-out asks for, if it asks for one. */
  function Posting(r: Request): seq<Entry> {
    match r
    case Join(e, u, x, key) => if x > 0 then [Entry(e, u, -x, key)] else []
    case Cashout(e, u, x, key) => if x > 0 then [Entry(e, u, x, key)] else []
    case _ => []
  }

  /** The request posts a ledger entry now. */
  predicate Posts(w: Wallet, r: Request) {
    |Posting(r)| == 1 && ApplyEntry(w.ledger, Posting(r)[0]).Applied?
  }

  /** No buy-in or cash-out is posted under one of the wallet's own keys. */
  ghost predicate Harmless(w: Wallet, e: Event) {
    e.Serve? && Posts(w, e.request) ==> External(e.request.key)
  }

  function Served(w: Wallet, r: Request): Wallet {
    match r
    case ProvisionUser(u) => Provisioned(w, u)
    case Withdraw(id, e, u, x) => RequestWithdrawal(w, id, e, u, x)
    case Join(e, u, x, key) => DebitForJoin(w, e, u, x, key)
    case Cashout(e, u, x, key) => CreditForCashout(w, e, u, x, key)
  }

  datatype ListedDeposit = ListedDeposit(hash: Hash, row: DepositRow)

  datatype ListedWithdrawal = ListedWithdrawal(id: string, row: WithdrawalRow)

  /** Where the runner is: between cycles, or inside one of its loops over listed rows. */
  datatype Runner =
    | Idle
    | Confirming(deposits: seq<ListedDeposit>, block: int)
    | Submitting(pending: seq<ListedWithdrawal>)
    | Receipts(submitted: seq<ListedWithdrawal>)

  datatype Machine = Machine(w: Wallet, runner: Runner, confirmations: int)

  datatype Receipt = NoReceipt | Succeeded | Reverted

  datatype Event =
    | Serve(request: Request)
    | ObserveTransfer(hash: Hash, user: User, amount: int, block: int)
    | ListPendingDeposits(deposits: seq<ListedDeposit>, block: int)
    | ConfirmNext(entryId: string, effect: bool, ok: bool)
    | ListPendingWithdrawals(rows: seq<ListedWithdrawal>)
    | SubmitNext(sent: bool, effect: bool, ok: bool)
    | ListSubmittedWithdrawals(rows: seq<ListedWithdrawal>)
    | ReceiptNext(receipt: Receipt, entryId: string, effect: bool, ok: bool)
    | Stop

  ghost predicate PendingDeposits(w: Wallet, rows: seq<ListedDeposit>) {
    forall i :: 0 <= i < |rows| ==>
      rows[i].hash in w.deposits && rows[i].row == w.deposits[rows[i].hash] && !rows[i].row.confirmed
  }

  ghost predicate RowsWith(w: Wallet, rows: seq<ListedWithdrawal>, status: Status) {
    && (forall i, j :: 0 <= i < j < |rows| ==> rows[i].id != rows[j].id)
    && (forall i :: 0 <= i < |rows| ==>
          rows[i].id in w.withdrawals && rows[i].row == w.withdrawals[rows[i].id] && rows[i].row.status == status)
  }

  /** The repository call happened or did not, and the loop goes on or the cycle is given up. */
  function Outcome(s: Machine, done: Wallet, effect: bool, ok: bool, rest: Runner): Machine {
    s.(w := if effect then done else s.w, runner := if ok then rest else Idle)
  }

  function Confirmations(block: int, row: DepositRow): int {
    block - row.observed + 1
  }

  ghost predicate MachineStep(s: Machine, e: Event, s': Machine) {
    match e
    case Serve(r) => Allowed(r) && s' == s.(w := Served(s.w, r))
    case ObserveTransfer(h, u, x, b) =>
      s.runner.Idle? && 0 <= x < TWO63 && s' == s.(w := Observe(s.w, h, u, x, b))
    case ListPendingDeposits(rows, block) =>
      s.runner.Idle? && PendingDeposits(s.w, rows) && s' == s.(runner := Confirming(rows, block))
    case ConfirmNext(entryId, effect, ok) =>
      s.runner.Confirming? && |s.runner.deposits| > 0
      && var d, rest := s.runner.deposits[0], Confirming(s.runner.deposits[1..], s.runner.block);
         if Confirmations(s.runner.block, d.row) < s.confirmations then s' == s.(runner := rest)
         else s' == Outcome(s, ConfirmDeposit(s.w, d.hash, entryId, d.row.user, d.row.amount), effect, ok, rest)
    case ListPendingWithdrawals(rows) =>
      s.runner.Idle? && RowsWith(s.w, rows, Pending) && s' == s.(runner := Submitting(rows))
    case SubmitNext(sent, effect, ok) =>
      s.runner.Submitting? && |s.runner.pending| > 0
      && var rest := Submitting(s.runner.pending[1..]);
         if !sent then s' == s.(runner := rest)
         else s' == Outcome(s, MarkWithdrawal(s.w, s.runner.pending[0].id, Submitted), effect, ok, rest)
    case ListSubmittedWithdrawals(rows) =>
      s.runner.Idle? && RowsWith(s.w, rows, Submitted) && s' == s.(runner := Receipts(rows))
    case ReceiptNext(receipt, entryId, effect, ok) =>
      s.runner.Receipts? && |s.runner.submitted| > 0
      && var d, rest := s.runner.submitted[0], Receipts(s.runner.submitted[1..]);
         if receipt == NoReceipt then s' == s.(runner := rest)
         else if receipt == Succeeded then s' == Outcome(s, MarkWithdrawal(s.w, d.id, Confirmed), effect, ok, rest)
         else s' == Outcome(s, MarkFailed(s.w, d.id, entryId, d.row.user, d.row.amount), effect, ok, rest)
    case Stop => s' == s.(runner := Idle)
  }

  /** What the runner listed is still what the tables say, as far as it acts on it. */
  ghost predicate RunnerInv(w: Wallet, r: Runner) {
    match r
    case Idle => true
    case Confirming(rows, _) => DepositsStand(w, rows)
    case Submitting(rows) => RowsWith(w, rows, Pending)
    case Receipts(rows) => RowsWith(w, rows, Submitted)
  }

  ghost predicate DepositsStand(w: Wallet, rows: seq<ListedDeposit>) {
    forall i :: 0 <= i < |rows| ==>
      && rows[i].hash in w.deposits
      && w.deposits[rows[i].hash].user == rows[i].row.user
      && w.deposits[rows[i].hash].amount == rows[i].row.amount
  }

  ghost predicate MachineInv(s: Machine) {
    WalletInv(s.w) && RunnerInv(s.w, s.runner)
  }

  /** Requests add rows and never touch the ones that are there. */
  lemma ServedKeepsRows(w: Wallet, r: Request)
    ensures forall h :: h in w.deposits ==> h in Served(w, r).deposits && Served(w, r).deposits[h] == w.deposits[h]
    ensures forall id :: id in w.withdrawals ==>
      id in Served(w, r).withdrawals && Served(w, r).withdrawals[id] == w.withdrawals[id]
  {}

  lemma ServeKeepsRunner(s: Machine, r: Request)
    requires RunnerInv(s.w, s.runner)
    ensures RunnerInv(Served(s.w, r), s.runner)
  {
    ServedKeepsRows(s.w, r);
  }

  /** A request keeps the equation exactly when it posts nothing under a key of the wallet's own. */
  lemma ServeKeepsWallet(w: Wallet, r: Request)
    requires WalletInv(w) && Allowed(r)
    ensures WalletInv(Served(w, r)) <==> Harmless(w, Serve(r))
  {
    match r
    case ProvisionUser(u) => ProvisionKeepsWalletInv(w, u);
    case Withdraw(id, e, u, x) => WithdrawKeepsInv(w, id, e, u, x);
    case Join(e, u, x, key) => if x > 0 { PostKeepsInv(w, Entry(e, u, -x, key)); }
    case Cashout(e, u, x, key) => if x > 0 { PostKeepsInv(w, Entry(e, u, x, key)); }
  }

  lemma ServeKeepsInv(s: Machine, r: Request)
    requires MachineInv(s) && Allowed(r)
    ensures MachineInv(s.(w := Served(s.w, r))) <==> Harmless(s.w, Serve(r))
  {
    ServeKeepsRunner(s, r);
    ServeKeepsWallet(s.w, r);
  }

  lemma ConfirmNextKeepsInv(s: Machine, e: Event, s': Machine)
    requires MachineInv(s) && e.ConfirmNext? && MachineStep(s, e, s')
    ensures MachineInv(s')
  {
    var d := s.runner.deposits[0];
    ConfirmKeepsInv(s.w, d.hash, e.entryId);
  }

  lemma SubmitNextKeepsInv(s: Machine, e: Event, s': Machine)
    requires MachineInv(s) && e.SubmitNext? && MachineStep(s, e, s')
    ensures MachineInv(s')
  {
    MarkKeepsInv(s.w, s.runner.pending[0].id, Submitted);
  }

  lemma ReceiptNextKeepsInv(s: Machine, e: Event, s': Machine)
    requires MachineInv(s) && e.ReceiptNext? && MachineStep(s, e, s')
    ensures MachineInv(s')
  {
    var d := s.runner.submitted[0];
    MarkKeepsInv(s.w, d.id, Confirmed);
    FailKeepsInv(s.w, d.id, e.entryId);
  }

  lemma QuietKeepsInv(s: Machine, e: Event, s': Machine)
    requires MachineInv(s) && MachineStep(s, e, s')
    requires e.ListPendingDeposits? || e.ListPendingWithdrawals? || e.ListSubmittedWithdrawals? || e.Stop?
    ensures MachineInv(s')
  {
    assert s'.w == s.w;
  }

  lemma ObserveTransferKeepsInv(s: Machine, e: Event, s': Machine)
    requires MachineInv(s) && e.ObserveTransfer? && MachineStep(s, e, s')
    ensures MachineInv(s')
  {
    ObserveKeepsInv(s.w, e.hash, e.user, e.amount, e.block);
  }

  lemma StepKeepsMachineInv(s: Machine, e: Event, s': Machine)
    requires MachineInv(s) && MachineStep(s, e, s')
    ensures MachineInv(s') <==> Harmless(s.w, e)
  {
    match e
    case Serve(r) => ServeKeepsInv(s, r);
    case ObserveTransfer(_, _, _, _) => ObserveTransferKeepsInv(s, e, s');
    case ConfirmNext(_, _, _) => ConfirmNextKeepsInv(s, e, s');
    case SubmitNext(_, _, _) => SubmitNextKeepsInv(s, e, s');
    case ReceiptNext(_, _, _, _) => ReceiptNextKeepsInv(s, e, s');
    case ListPendingDeposits(_, _) => QuietKeepsInv(s, e, s');
    case ListPendingWithdrawals(_) => QuietKeepsInv(s, e, s');
    case ListSubmittedWithdrawals(_) => QuietKeepsInv(s, e, s');
    case Stop => QuietKeepsInv(s, e, s');
  }

  ghost predicate Run(states: seq<Machine>, events: seq<Event>) {
    && |states| == |events| + 1
    && states[0].w == Wallet(Db([], map[]), map[], map[]) && states[0].runner == Idle
    && forall i {:trigger events[i]} :: 0 <= i < |events| ==> MachineStep(states[i], events[i], states[i + 1])
  }

  lemma EmptyWalletInv()
    ensures WalletInv(Wallet(Db([], map[]), map[], map[]))
  {}

  /** No step before the i-th state was harmful. */
  ghost predicate HarmlessTo(states: seq<Machine>, events: seq<Event>, i: nat) {
    i < |states| == |events| + 1 && forall k {:trigger events[k]} :: 0 <= k < i ==> Harmless(states[k].w, events[k])
  }

  lemma {:induction false} RunInvariant(states: seq<Machine>, events: seq<Event>, i: nat)
    requires Run(states, events) && HarmlessTo(states, events, i)
    ensures MachineInv(states[i])
  {
    if i == 0 {
      EmptyWalletInv();
    } else {
      RunInvariant(states, events, i - 1);
      assert MachineStep(states[i - 1], events[i - 1], states[i]);
      assert Harmless(states[i - 1].w, events[i - 1]);
      StepKeepsMachineInv(states[i - 1], events[i - 1], states[i]);
    }
  }

  /** The exact guard, over whole runs: every state up to the i-th satisfies the invariant if and only
      if no request up to there posted under a key of the wallet's own. */
  lemma {:induction false} RunInvariantIff(states: seq<Machine>, events: seq<Event>, i: nat)
    requires Run(states, events) && i < |states|
    ensures (forall k :: 0 <= k <= i ==> MachineInv(states[k])) <==> HarmlessTo(states, events, i)
  {
    if HarmlessTo(states, events, i) {
      forall k | 0 <= k <= i ensures MachineInv(states[k]) {
        RunInvariant(states, events, k);
      }
    } else {
      var k :| 0 <= k < i && !Harmless(states[k].w, events[k]);
      assert MachineStep(states[k], events[k], states[k + 1]);
      if MachineInv(states[k]) {
        StepKeepsMachineInv(states[k], events[k], states[k + 1]);
      }
    }
  }

  // ----- cash-outs less buy-ins -----

  /** What a step posts for a user: a cash-out, or a buy-in as a negative amount. */
  function Flow(w: Wallet, e: Event, user: User): int {
    if !e.Serve? || !Posts(w, e.request) || e.request.user != user then 0
    else if e.request.Cashout? then e.request.amount
    else -e.request.amount
  }

  /** The cash-outs less the buy-ins posted for a user in the first i steps. */
  function CashFlow(states: seq<Machine>, events: seq<Event>, i: nat, user: User): int
    requires i < |states| == |events| + 1
  {
    if i == 0 then 0 else CashFlow(states, events, i - 1, user) + Flow(states[i - 1].w, events[i - 1], user)
  }

  lemma ConfirmIsNoFlow(w: Wallet, hash: Hash, entryId: string, u: User, x: int, user: User)
    ensures ExternalSum(ConfirmDeposit(w, hash, entryId, u, x).ledger.entries, user)
      == ExternalSum(w.ledger.entries, user)
  {
    var e := Entry(entryId, u, x, Render(DepositTag(hash)));
    NotExternal(e, DepositTag(hash));
    ExternalAppend(w.ledger.entries, e, user);
  }

  lemma FailIsNoFlow(w: Wallet, id: string, entryId: string, u: User, x: int, user: User)
    ensures ExternalSum(MarkFailed(w, id, entryId, u, x).ledger.entries, user) == ExternalSum(w.ledger.entries, user)
  {
    var e := Entry(entryId, u, x, Render(RefundTag(id)));
    NotExternal(e, RefundTag(id));
    ExternalAppend(w.ledger.entries, e, user);
  }

  lemma WithdrawalIsNoFlow(w: Wallet, id: string, entryId: string, u: User, x: int, user: User)
    ensures ExternalSum(RequestWithdrawal(w, id, entryId, u, x).ledger.entries, user)
      == ExternalSum(w.ledger.entries, user)
  {
    var e := Entry(entryId, u, -x, Render(WithdrawalTag(id)));
    NotExternal(e, WithdrawalTag(id));
    ExternalAppend(w.ledger.entries, e, user);
  }

  lemma PostedFlow(w: Wallet, e: Entry, user: User)
    ensures ExternalSum(Posted(w, e).ledger.entries, user) == ExternalSum(w.ledger.entries, user)
      + if ApplyEntry(w.ledger, e).Applied? && e.user == user && External(e.key) then e.amount else 0
  {
    ExternalAppend(w.ledger.entries, e, user);
  }

  lemma JoinFlow(w: Wallet, entryId: string, u: User, x: int, key: Key, user: User)
    requires Harmless(w, Serve(Join(entryId, u, x, key)))
    ensures ExternalSum(DebitForJoin(w, entryId, u, x, key).ledger.entries, user)
      == ExternalSum(w.ledger.entries, user) + Flow(w, Serve(Join(entryId, u, x, key)), user)
  {
    PostedFlow(w, Entry(entryId, u, -x, key), user);
  }

  lemma CashoutFlow(w: Wallet, entryId: string, u: User, x: int, key: Key, user: User)
    requires Harmless(w, Serve(Cashout(entryId, u, x, key)))
    ensures ExternalSum(CreditForCashout(w, entryId, u, x, key).ledger.entries, user)
      == ExternalSum(w.ledger.entries, user) + Flow(w, Serve(Cashout(entryId, u, x, key)), user)
  {
    PostedFlow(w, Entry(entryId, u, x, key), user);
  }

  lemma ServedFlow(w: Wallet, r: Request, user: User)
    requires Harmless(w, Serve(r))
    ensures ExternalSum(Served(w, r).ledger.entries, user)
      == ExternalSum(w.ledger.entries, user) + Flow(w, Serve(r), user)
  {
    match r
    case ProvisionUser(_) =>
    case Withdraw(id, e, u, x) => WithdrawalIsNoFlow(w, id, e, u, x, user);
    case Join(e, u, x, key) => JoinFlow(w, e, u, x, key, user);
    case Cashout(e, u, x, key) => CashoutFlow(w, e, u, x, key, user);
  }

  /** A step changes the external part of the ledger by exactly what it posts. */
  lemma StepFlow(s: Machine, e: Event, s': Machine, user: User)
    requires MachineStep(s, e, s') && Harmless(s.w, e)
    ensures ExternalSum(s'.w.ledger.entries, user) == ExternalSum(s.w.ledger.entries, user) + Flow(s.w, e, user)
  {
    match e
    case Serve(r) => ServedFlow(s.w, r, user);
    case ConfirmNext(entryId, _, _) =>
      var d := s.runner.deposits[0];
      ConfirmIsNoFlow(s.w, d.hash, entryId, d.row.user, d.row.amount, user);
    case ReceiptNext(_, entryId, _, _) =>
      var d := s.runner.submitted[0];
      FailIsNoFlow(s.w, d.id, entryId, d.row.user, d.row.amount, user);
    case _ =>
  }

  lemma {:induction false} FlowIsExternal(states: seq<Machine>, events: seq<Event>, i: nat, user: User)
    requires Run(states, events) && HarmlessTo(states, events, i)
    ensures ExternalSum(states[i].w.ledger.entries, user) == CashFlow(states, events, i, user)
  {
    if i > 0 {
      FlowIsExternal(states, events, i - 1, user);
      assert MachineStep(states[i - 1], events[i - 1], states[i]);
      assert Harmless(states[i - 1].w, events[i - 1]);
      StepFlow(states[i - 1], events[i - 1], states[i], user);
    }
  }

  lemma StepKeepsKeys(s: Machine, e: Event, s': Machine)
    requires MachineStep(s, e, s')
    ensures s.w.ledger.entries <= s'.w.ledger.entries
    ensures e.Serve? && Posts(s.w, e.request) ==> HasKey(s'.w.ledger.entries, e.request.key)
  {
    if e.Serve? && Posts(s.w, e.request) {
      HasKeyAppend(s.w.ledger.entries, Posting(e.request)[0], e.request.key);
    }
  }

  lemma {:induction false} KeyStays(states: seq<Machine>, events: seq<Event>, i: nat, j: nat, key: Key)
    requires Run(states, events) && i <= j < |states| && HasKey(states[i].w.ledger.entries, key)
    ensures HasKey(states[j].w.ledger.entries, key)
  {
    if i < j {
      KeyStays(states, events, i, j - 1, key);
      assert MachineStep(states[j - 1], events[j - 1], states[j]);
      StepKeepsKeys(states[j - 1], events[j - 1], states[j]);
    }
  }

  /** However often it is repeated, only one request under a key is ever posted. */
  lemma PostedOnce(states: seq<Machine>, events: seq<Event>, i: nat, j: nat)
    requires Run(states, events) && i < j < |events|
    requires events[i].Serve? && Posts(states[i].w, events[i].request)
    requires events[j].Serve? && Posts(states[j].w, events[j].request)
    ensures events[i].request.key != events[j].request.key
  {
    assert MachineStep(states[i], events[i], states[i + 1]);
    StepKeepsKeys(states[i], events[i], states[i + 1]);
    KeyStays(states, events, i + 1, j, events[i].request.key);
  }

  /** The wallet balance equation, over every run: each balance is the user's confirmed deposits,
      less withdrawals that have not failed, plus the cash-outs less the buy-ins posted so far; every
      confirmed deposit has been credited and every failed withdrawal refunded, no other has, and
      never twice. */
  lemma BalanceEquation(states: seq<Machine>, events: seq<Event>, i: nat, user: User)
    requires Run(states, events) && HarmlessTo(states, events, i)
    ensures var w := states[i].w;
      && (user in w.ledger.balances ==>
            && w.ledger.balances[user] >= 0
            && w.ledger.balances[user]
               == Sum(DepositPart(w.deposits, user)) - Sum(WithdrawalPart(w.withdrawals, user))
                  + CashFlow(states, events, i, user))
      && KeysOnce(w.ledger.entries)
      && (forall h :: HasKey(w.ledger.entries, Render(DepositTag(h))) <==> h in w.deposits && w.deposits[h].confirmed)
      && (forall id :: HasKey(w.ledger.entries, Render(RefundTag(id))) <==>
            id in w.withdrawals && w.withdrawals[id].status == Failed)
  {
    RunInvariant(states, events, i);
    FlowIsExternal(states, events, i, user);
    var w := states[i].w;
    assert Equation(w, user);
    assert forall h :: Due(w, DepositTag(h)) <==> h in w.deposits && w.deposits[h].confirmed;
    assert forall id :: Due(w, RefundTag(id)) <==> id in w.withdrawals && w.withdrawals[id].status == Failed;
  }

  // ----- a key of the wallet's own in a caller's hands -----

  /** Without the guard the equation fails: after a buy-in or cash-out posted under the key of a deposit
      that is still pending, the confirmation of that deposit credits nothing, then and ever after. The
      poster's balance is off by what was posted, the depositor's by the whole deposit. */
  lemma StolenKeyLosesDeposit(w: Wallet, r: Request, hash: Hash, entryId: string, user: User)
    requires WalletInv(w) && hash in w.deposits && !w.deposits[hash].confirmed && user in w.ledger.balances
    requires Allowed(r) && Posts(w, r) && r.key == Render(DepositTag(hash))
    ensures var row, w1 := w.deposits[hash], Served(w, r);
      var w2 := ConfirmDeposit(w1, hash, entryId, row.user, row.amount);
      && hash in w2.deposits && w2.deposits[hash].confirmed && w2.ledger == w1.ledger
      && (forall id, u, x :: ConfirmDeposit(w2, hash, id, u, x) == w2)
      && user in w2.ledger.balances
      && Gap(w2, user)
         == (if user == r.user then Posting(r)[0].amount else 0) - (if user == row.user then row.amount else 0)
  {
    StolenKeyGap(w, Posting(r)[0], hash, entryId, user);
  }

  /** It happens: a cash-out of 1 under the key of a pending deposit of 5 leaves the user with 1. */
  lemma StolenKeyArises(confirmations: int) returns (states: seq<Machine>, events: seq<Event>)
    requires confirmations <= 1
    ensures Run(states, events) && |events| == 5
    ensures events[2] == Serve(Cashout("e", "u", 1, Render(DepositTag("h"))))
    ensures var w := states[5].w;
      && "h" in w.deposits && w.deposits["h"] == DepositRow("u", 5, true, 1)
      && "u" in w.ledger.balances && w.ledger.balances["u"] == 1
  {
    var key, row := Render(DepositTag("h")), DepositRow("u", 5, false, 1);
    var w0 := Wallet(Db([], map[]), map[], map[]);
    var w1 := w0.(ledger := Db([], map["u" := 0]));
    var w2 := w1.(deposits := map["h" := row]);
    var w3 := w2.(ledger := Db([Entry("e", "u", 1, key)], map["u" := 1]));
    var w4 := w3.(deposits := map["h" := row.(confirmed := true)]);
    var listed := [ListedDeposit("h", row)];
    states := [
      Machine(w0, Idle, confirmations), Machine(w1, Idle, confirmations), Machine(w2, Idle, confirmations),
      Machine(w3, Idle, confirmations), Machine(w3, Confirming(listed, 1), confirmations),
      Machine(w4, Confirming([], 1), confirmations)];
    events := [
      Serve(ProvisionUser("u")), ObserveTransfer("h", "u", 5, 1), Serve(Cashout("e", "u", 1, key)),
      ListPendingDeposits(listed, 1), ConfirmNext("f", true, true)];
    assert Provisioned(w0, "u") == w1;
    assert Observe(w1, "h", "u", 5, 1) == w2;
    assert w3.ledger.entries[0].key == key;
    assert ConfirmDeposit(w3, "h", "f", "u", 5) == w4;
    assert CreditForCashout(w2, "e", "u", 1, key) == w3;
    assert listed[1..] == [];
    assert MachineStep(states[0], events[0], states[1]);
    assert MachineStep(states[1], events[1], states[2]);
    assert MachineStep(states[2], events[2], states[3]);
    assert MachineStep(states[3], events[3], states[4]);
    assert MachineStep(states[4], events[4], states[5]);
  }

  // ----- what becomes of a withdrawal -----

  /** The runner submits this withdrawal on chain and the row is marked. */
  ghost predicate Submits(s: Machine, e: Event, id: string) {
    && e.SubmitNext? && e.sent && e.effect
    && s.runner.Submitting? && |s.runner.pending| > 0 && s.runner.pending[0].id == id
  }

  /** The runner acts on this receipt of this withdrawal. */
  ghost predicate ActsOn(s: Machine, e: Event, id: string, receipt: Receipt) {
    && e.ReceiptNext? && e.receipt == receipt && e.effect
    && s.runner.Receipts? && |s.runner.submitted| > 0 && s.runner.submitted[0].id == id
  }

  /** The runner acts on a reverted receipt, and there is room for the refund. */
  ghost predicate Refunds(s: Machine, e: Event, id: string) {
    && ActsOn(s, e, id, Reverted) && id in s.w.withdrawals
    && Fits(s.w.ledger, e.entryId, s.w.withdrawals[id].user, s.w.withdrawals[id].amount)
  }

  /** A step changes the status of a withdrawal exactly as the chain answered: confirmed on a successful
      receipt, failed with its refund on a reverted one, submitted when it was sent, else unchanged. */
  lemma StatusStep(s: Machine, e: Event, s': Machine, id: string)
    requires MachineInv(s) && MachineStep(s, e, s') && id in s.w.withdrawals
    ensures id in s'.w.withdrawals
    ensures var row, row' := s.w.withdrawals[id], s'.w.withdrawals[id];
      row' == row.(status :=
        if ActsOn(s, e, id, Succeeded) then Confirmed
        else if Refunds(s, e, id) then Failed
        else if Submits(s, e, id) then Submitted
        else row.status)
    ensures Refunds(s, e, id) ==>
      var row := s.w.withdrawals[id];
      s'.w.ledger == Moved(s.w.ledger, Entry(e.entryId, row.user, row.amount, "withdrawal-compensation:" + id))
    ensures ActsOn(s, e, id, Succeeded) || ActsOn(s, e, id, Reverted) ==> s.w.withdrawals[id].status == Submitted
    ensures Submits(s, e, id) ==> s.w.withdrawals[id].status == Pending
  {
    match e
    case Serve(r) => ServedKeepsRows(s.w, r);
    case ReceiptNext(_, entryId, _, _) => FailExact(s.w, s.runner.submitted[0].id, entryId);
    case _ =>
  }

  /** A step that makes the row of a withdrawal leaves it pending. */
  lemma NewIsPending(s: Machine, e: Event, s': Machine, id: string)
    requires MachineInv(s) && MachineStep(s, e, s') && id !in s.w.withdrawals
    ensures id in s'.w.withdrawals ==> s'.w.withdrawals[id].status == Pending
    ensures !Submits(s, e, id) && !ActsOn(s, e, id, Succeeded) && !ActsOn(s, e, id, Reverted)
  {}

  ghost predicate WasSubmitted(states: seq<Machine>, events: seq<Event>, i: nat, id: string)
    requires i < |states| == |events| + 1
  {
    exists j {:trigger events[j]} :: 0 <= j < i && Submits(states[j], events[j], id)
  }

  ghost predicate HasSucceeded(states: seq<Machine>, events: seq<Event>, i: nat, id: string)
    requires i < |states| == |events| + 1
  {
    exists j {:trigger events[j]} :: 0 <= j < i && ActsOn(states[j], events[j], id, Succeeded)
  }

  ghost predicate WasRefunded(states: seq<Machine>, events: seq<Event>, i: nat, id: string)
    requires i < |states| == |events| + 1
  {
    exists j {:trigger events[j]} :: 0 <= j < i && Refunds(states[j], events[j], id)
  }

  lemma HistoryNext(states: seq<Machine>, events: seq<Event>, i: nat, id: string)
    requires 0 < i < |states| == |events| + 1
    ensures var s, e := states[i - 1], events[i - 1];
      && (WasSubmitted(states, events, i, id) <==> WasSubmitted(states, events, i - 1, id) || Submits(s, e, id))
      && (HasSucceeded(states, events, i, id) <==>
            HasSucceeded(states, events, i - 1, id) || ActsOn(s, e, id, Succeeded))
      && (WasRefunded(states, events, i, id) <==> WasRefunded(states, events, i - 1, id) || Refunds(s, e, id))
  {}

  ghost predicate StatusIs(states: seq<Machine>, events: seq<Event>, i: nat, id: string)
    requires i < |states| == |events| + 1
  {
    var sent, won, lost :=
      WasSubmitted(states, events, i, id), HasSucceeded(states, events, i, id), WasRefunded(states, events, i, id);
    if id !in states[i].w.withdrawals then !sent && !won && !lost
    else
      var status := states[i].w.withdrawals[id].status;
      (status == Confirmed <==> won) && (status == Failed <==> lost) && (status == Pending <==> !sent)
  }

  lemma {:induction false} StatusAlong(states: seq<Machine>, events: seq<Event>, i: nat, id: string)
    requires Run(states, events) && HarmlessTo(states, events, i)
    ensures StatusIs(states, events, i, id)
  {
    if i > 0 {
      StatusAlong(states, events, i - 1, id);
      RunInvariant(states, events, i - 1);
      HistoryNext(states, events, i, id);
      var s, e, s' := states[i - 1], events[i - 1], states[i];
      assert MachineStep(s, e, s');
      if id in s.w.withdrawals {
        StatusStep(s, e, s', id);
      } else {
        NewIsPending(s, e, s', id);
      }
    }
  }

  /** Over every run the status of a withdrawal, and with it the refund, is what the chain answered: it is
      confirmed exactly when the runner has acted on a successful receipt of it, failed and refunded
      exactly when it has acted on a reverted one with room for the refund, and pending exactly as long as
      it has not been sent. */
  lemma StatusFollowsReceipts(states: seq<Machine>, events: seq<Event>, i: nat, id: string)
    requires Run(states, events) && HarmlessTo(states, events, i) && id in states[i].w.withdrawals
    ensures var w := states[i].w;
      && (w.withdrawals[id].status == Confirmed <==> HasSucceeded(states, events, i, id))
      && (w.withdrawals[id].status == Failed <==> WasRefunded(states, events, i, id))
      && (w.withdrawals[id].status == Pending <==> !WasSubmitted(states, events, i, id))
      && (HasKey(w.ledger.entries, "withdrawal-compensation:" + id) <==> WasRefunded(states, events, i, id))
  {
    StatusAlong(states, events, i, id);
    RunInvariant(states, events, i);
    var w := states[i].w;
    assert HasKey(w.ledger.entries, Render(RefundTag(id))) <==> Due(w, RefundTag(id));
  }

  // ----- what becomes of a deposit -----

  /** The runner confirms this deposit, deep enough and with room for the credit. */
  ghost predicate Credits(s: Machine, e: Event, hash: Hash) {
    && e.ConfirmNext? && e.effect
    && s.runner.Confirming? && |s.runner.deposits| > 0 && s.runner.deposits[0].hash == hash
    && s.runner.block - s.runner.deposits[0].row.observed >= s.confirmations - 1
    && hash in s.w.deposits && Fits(s.w.ledger, e.entryId, s.w.deposits[hash].user, s.w.deposits[hash].amount)
  }

  lemma DepositStep(s: Machine, e: Event, s': Machine, hash: Hash)
    requires MachineInv(s) && MachineStep(s, e, s') && hash in s.w.deposits
    ensures hash in s'.w.deposits
    ensures s'.w.deposits[hash].user == s.w.deposits[hash].user
    ensures s'.w.deposits[hash].amount == s.w.deposits[hash].amount
    ensures s'.w.deposits[hash].confirmed <==> s.w.deposits[hash].confirmed || Credits(s, e, hash)
  {
    match e
    case Serve(r) => ServedKeepsRows(s.w, r);
    case ConfirmNext(entryId, _, _) => ConfirmExact(s.w, s.runner.deposits[0].hash, entryId);
    case _ =>
  }

  ghost predicate WasCredited(states: seq<Machine>, events: seq<Event>, i: nat, hash: Hash)
    requires i < |states| == |events| + 1
  {
    exists j {:trigger events[j]} :: 0 <= j < i && Credits(states[j], events[j], hash)
  }

  lemma CreditedNext(states: seq<Machine>, events: seq<Event>, i: nat, hash: Hash)
    requires 0 < i < |states| == |events| + 1
    ensures WasCredited(states, events, i, hash) <==>
      WasCredited(states, events, i - 1, hash) || Credits(states[i - 1], events[i - 1], hash)
  {}

  lemma NewIsUnconfirmed(s: Machine, e: Event, s': Machine, hash: Hash)
    requires MachineInv(s) && MachineStep(s, e, s') && hash !in s.w.deposits
    ensures !Credits(s, e, hash) && (hash in s'.w.deposits ==> !s'.w.deposits[hash].confirmed)
  {}

  lemma {:induction false} CreditedAlong(states: seq<Machine>, events: seq<Event>, i: nat, hash: Hash)
    requires Run(states, events) && HarmlessTo(states, events, i)
    ensures WasCredited(states, events, i, hash) <==>
      hash in states[i].w.deposits && states[i].w.deposits[hash].confirmed
  {
    if i > 0 {
      CreditedAlong(states, events, i - 1, hash);
      RunInvariant(states, events, i - 1);
      CreditedNext(states, events, i, hash);
      var s, e, s' := states[i - 1], events[i - 1], states[i];
      assert MachineStep(s, e, s');
      if hash in s.w.deposits {
        DepositStep(s, e, s', hash);
      } else {
        NewIsUnconfirmed(s, e, s', hash);
      }
    }
  }

  /** Over every run a deposit is credited exactly when the runner has confirmed it at the configured depth
      with room for the credit. */
  lemma CreditFollowsConfirmation(states: seq<Machine>, events: seq<Event>, i: nat, hash: Hash)
    requires Run(states, events) && HarmlessTo(states, events, i)
    ensures HasKey(states[i].w.ledger.entries, "deposit:" + hash) <==> WasCredited(states, events, i, hash)
  {
    CreditedAlong(states, events, i, hash);
    RunInvariant(states, events, i);
    var w := states[i].w;
    assert HasKey(w.ledger.entries, Render(DepositTag(hash))) <==> Due(w, DepositTag(hash));
  }

  /** A failed withdrawal is final: it is never submitted, confirmed or refunded again. */
  lemma FailedIsFinal(s: Machine, e: Event, s': Machine, id: string)
    requires MachineInv(s) && MachineStep(s, e, s') && id in s.w.withdrawals && s.w.withdrawals[id].status == Failed
    ensures id in s'.w.withdrawals && s'.w.withdrawals[id] == s.w.withdrawals[id]
  {
    if e.Serve? {
      ServedKeepsRows(s.w, e.request);
    }
  }
}
