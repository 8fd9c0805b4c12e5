/** The whole chain runner: scanning cycles that save the cursor and then confirm deposits at the head
    they saw, composed with the wallet. Both the wallet machine and the scanner are projections of it. */
module ChainRun {
  import opened Ledger
  import opened Wallet
  import W = WalletRun
  import S = Scan

  /** What a cycle sees when it begins. */
  datatype Sight = Sight(current: nat, addresses: map<S.Address, User>, receipts: Hash -> S.Receipt)

  /** Scanning: `done` of the found transfers have been upserted. CursorSaved: the deposits are next. */
  datatype Phase = Resting | Scanning(sight: Sight, done: nat) | CursorSaved(current: nat)

  datatype Node = Node(m: W.Machine, cursor: S.Cursor, initial: nat, phase: Phase)

  datatype Step =
    | WalletStep(e: W.Event)
    | Look(sight: Sight, saved: bool)
    | Upsert(effect: bool, ok: bool)
    | SaveCursor(effect: bool, ok: bool)
    | ListDeposits(rows: seq<W.ListedDeposit>)
    | GiveUp

  function FoundBy(chain: S.Chain, from: nat, sight: Sight): seq<S.Observed> {
    if |sight.addresses| == 0 then []
    else S.InBlocks(chain, from + 1, sight.current + 1, sight.addresses, sight.receipts)
  }

  function Upserted(w: Wallet, o: S.Observed): Wallet {
    Observe(w, o.hash, o.user, o.amount, o.block)
  }

  /** One step of the runner, or of a request served meanwhile. Calls may fail with or without effect. */
  ghost predicate NodeStep(chain: S.Chain, c: S.Config, n: Node, step: Step, n': Node) {
    match step
    case WalletStep(e) =>
      && (e.Serve? || (n.phase.Resting? && !e.ObserveTransfer? && !e.ListPendingDeposits?))
      && W.MachineStep(n.m, e, n'.m) && n' == n.(m := n'.m)
    case Look(sight, saved) =>
      && n.phase.Resting? && n.m.runner.Idle?
      && n' == (if n.cursor.At? then n.(phase := Scanning(sight, 0))
                else if saved then
                  n.(cursor := S.At(S.InitialBlock(c, sight.current)), initial := S.InitialBlock(c, sight.current))
                else n)
    case Upsert(effect, ok) =>
      && n.phase.Scanning? && n.cursor.At? && (ok ==> effect)
      && var found := FoundBy(chain, n.cursor.block, n.phase.sight);
         && n.phase.done < |found|
         && n' == n.(m := if effect then n.m.(w := Upserted(n.m.w, found[n.phase.done])) else n.m,
                     phase := if ok then n.phase.(done := n.phase.done + 1) else Resting)
    case SaveCursor(effect, ok) =>
      && n.phase.Scanning? && n.cursor.At? && (ok ==> effect)
      && n.phase.done == |FoundBy(chain, n.cursor.block, n.phase.sight)|
      && n' == n.(cursor := if effect then S.At(n.phase.sight.current) else n.cursor,
                  phase := if ok then CursorSaved(n.phase.sight.current) else Resting)
    case ListDeposits(rows) =>
      && n.phase.CursorSaved?
      && W.MachineStep(n.m, W.ListPendingDeposits(rows, n.phase.current), n'.m)
      && n' == n.(m := n'.m, phase := Resting)
    case GiveUp => !n.phase.Resting? && n' == n.(phase := Resting)
  }

  ghost predicate Run(chain: S.Chain, c: S.Config, nodes: seq<Node>, steps: seq<Step>) {
    && |nodes| == |steps| + 1
    && nodes[0] == Node(W.Machine(Wallet(Db([], map[]), map[], map[]), W.Idle, c.confirmations), S.NoCursor, 0, Resting)
    && forall i {:trigger steps[i]} :: 0 <= i < |steps| ==> NodeStep(chain, c, nodes[i], steps[i], nodes[i + 1])
  }

  /** A transaction is on the chain once, with an amount that fits. */
  ghost predicate ValidChain(chain: S.Chain) {
    && (forall b, k :: 0 <= k < |chain(b)| ==> 0 <= chain(b)[k].amount < TWO63)
    && (forall b, k, b', k' ::
          0 <= k < |chain(b)| && 0 <= k' < |chain(b')| && chain(b)[k].hash == chain(b')[k'].hash ==> b == b' && k == k')
  }

  // ----- where rows come from -----

  /** In this sight the transfer is in block b, went to an address of the user's, and succeeded. */
  ghost predicate Shows(chain: S.Chain, sight: Sight, h: Hash, user: User, amount: int, b: int) {
    && 0 <= b <= sight.current && sight.receipts(h) == S.Success
    && exists k :: 0 <= k < |chain(b)| && chain(b)[k].hash == h && chain(b)[k].amount == amount
                   && chain(b)[k].to in sight.addresses && sight.addresses[chain(b)[k].to] == user
  }

  /** Some cycle so far has seen it. */
  ghost predicate Sighted(chain: S.Chain, past: seq<Step>, h: Hash, user: User, amount: int, b: int) {
    exists j :: 0 <= j < |past| && past[j].Look? && Shows(chain, past[j].sight, h, user, amount, b)
  }

  /** The head seen by the last cycle to begin. */
  function LastHead(past: seq<Step>): nat {
    if |past| == 0 then 0
    else if past[|past| - 1].Look? then past[|past| - 1].sight.current
    else LastHead(past[..|past| - 1])
  }

  lemma SightedLater(chain: S.Chain, past: seq<Step>, step: Step, h: Hash, user: User, amount: int, b: int)
    requires Sighted(chain, past, h, user, amount, b)
    ensures Sighted(chain, past + [step], h, user, amount, b)
  {
    var j :| 0 <= j < |past| && past[j].Look? && Shows(chain, past[j].sight, h, user, amount, b);
    assert (past + [step])[j] == past[j];
  }

  lemma {:induction false} InBlockShows(chain: S.Chain, n: nat, b: nat, sight: Sight, i: nat)
    requires b <= sight.current && n <= |chain(b)|
    requires i < |S.InBlock(chain(b)[..n], b, sight.addresses, sight.receipts)|
    ensures var o := S.InBlock(chain(b)[..n], b, sight.addresses, sight.receipts)[i];
      o.block == b && Shows(chain, sight, o.hash, o.user, o.amount, b)
  {
    var last := n - 1;
    assert chain(b)[..n][..last] == chain(b)[..last];
    if i < |S.InBlock(chain(b)[..last], b, sight.addresses, sight.receipts)| {
      InBlockShows(chain, last, b, sight, i);
    } else {
      assert S.Counts(chain(b)[last], sight.addresses, sight.receipts);
    }
  }

  /** Whatever a scan finds, its sight shows. */
  lemma {:induction false} InBlocksShow(chain: S.Chain, from: nat, hi: nat, sight: Sight, i: nat)
    requires hi <= sight.current + 1 && i < |S.InBlocks(chain, from, hi, sight.addresses, sight.receipts)|
    ensures var o := S.InBlocks(chain, from, hi, sight.addresses, sight.receipts)[i];
      Shows(chain, sight, o.hash, o.user, o.amount, o.block)
    decreases hi
  {
    var early := S.InBlocks(chain, from, hi - 1, sight.addresses, sight.receipts);
    if i < |early| {
      InBlocksShow(chain, from, hi - 1, sight, i);
    } else {
      assert chain(hi - 1)[..|chain(hi - 1)|] == chain(hi - 1);
      InBlockShows(chain, |chain(hi - 1)|, hi - 1, sight, i - |early|);
    }
  }

  lemma FoundShows(chain: S.Chain, from: nat, sight: Sight, i: nat)
    requires i < |FoundBy(chain, from, sight)|
    ensures var o := FoundBy(chain, from, sight)[i]; Shows(chain, sight, o.hash, o.user, o.amount, o.block)
  {
    InBlocksShow(chain, from + 1, sight.current + 1, sight, i);
  }

  /** A transaction is shown in one block only, with one amount. */
  lemma ShownOnce(chain: S.Chain, a: Sight, b: Sight, h: Hash, u: User, x: int, n: int, u': User, x': int, n': int)
    requires ValidChain(chain) && Shows(chain, a, h, u, x, n) && Shows(chain, b, h, u', x', n')
    ensures n == n' && x == x' && 0 <= x < TWO63
  {}

  // ----- what every step keeps -----

  /** Rows keep their user, amount and block. */
  ghost predicate SameDeposits(w: Wallet, w': Wallet) {
    && w'.deposits.Keys == w.deposits.Keys
    && forall h :: h in w.deposits ==>
         && w'.deposits[h].user == w.deposits[h].user && w'.deposits[h].amount == w.deposits[h].amount
         && w'.deposits[h].observed == w.deposits[h].observed
         && (w.deposits[h].confirmed ==> w'.deposits[h].confirmed)
  }

  lemma ServedSameDeposits(w: Wallet, r: W.Request)
    ensures W.Served(w, r).deposits == w.deposits
  {}

  /** Other than observing, a wallet step changes a row only by confirming it, and then the runner is
      at it with confirmations enough. */
  lemma WalletStepRows(s: W.Machine, e: W.Event, s': W.Machine)
    requires W.MachineStep(s, e, s') && !e.ObserveTransfer?
    ensures SameDeposits(s.w, s'.w) && s'.confirmations == s.confirmations
    ensures forall h :: h in s.w.deposits && s'.w.deposits[h].confirmed && !s.w.deposits[h].confirmed ==>
      && e.ConfirmNext? && s.runner.Confirming? && |s.runner.deposits| > 0 && s.runner.deposits[0].hash == h
      && W.Confirmations(s.runner.block, s.runner.deposits[0].row) >= s.confirmations
    ensures s'.runner.Confirming? && !e.ListPendingDeposits? ==>
      s.runner.Confirming? && s'.runner.block == s.runner.block
      && (s'.runner.deposits == s.runner.deposits
          || (|s.runner.deposits| > 0 && s'.runner.deposits == s.runner.deposits[1..]))
  {
    if e.Serve? {
      ServedSameDeposits(s.w, e.request);
    }
  }

  ghost predicate RowsShown(chain: S.Chain, past: seq<Step>, w: Wallet) {
    forall h :: h in w.deposits ==>
      Sighted(chain, past, h, w.deposits[h].user, w.deposits[h].amount, w.deposits[h].observed)
  }

  /** What the runner listed has the block its row has. */
  ghost predicate ListedStand(m: W.Machine) {
    m.runner.Confirming? ==> forall k :: 0 <= k < |m.runner.deposits| ==>
      && m.runner.deposits[k].hash in m.w.deposits
      && m.w.deposits[m.runner.deposits[k].hash].observed == m.runner.deposits[k].row.observed
  }

  /** The first `done` of the found transfers have rows for their blocks. */
  ghost predicate UpsertedTo(found: seq<S.Observed>, done: nat, w: Wallet) {
    done <= |found| && forall k :: 0 <= k < done ==>
      found[k].hash in w.deposits && w.deposits[found[k].hash].observed == found[k].block
  }

  /** The runner confirms at the head that the cycle under way saw and saved. */
  ghost predicate PhaseInv(chain: S.Chain, past: seq<Step>, n: Node) {
    match n.phase
    case Resting => n.m.runner.Confirming? ==> n.m.runner.block == LastHead(past) && n.cursor == S.At(LastHead(past))
    case Scanning(sight, done) =>
      && n.m.runner.Idle? && n.cursor.At? && sight.current == LastHead(past)
      && (exists j :: 0 <= j < |past| && past[j].Look? && past[j].sight == sight)
      && UpsertedTo(FoundBy(chain, n.cursor.block, sight), done, n.m.w)
    case CursorSaved(current) => n.m.runner.Idle? && current == LastHead(past) && n.cursor == S.At(current)
  }

  ghost predicate NodeInv(chain: S.Chain, c: S.Config, past: seq<Step>, n: Node) {
    && RowsShown(chain, past, n.m.w) && ListedStand(n.m) && PhaseInv(chain, past, n)
    && n.m.confirmations == c.confirmations
  }

  lemma RowsShownLater(chain: S.Chain, past: seq<Step>, step: Step, w: Wallet, w': Wallet)
    requires RowsShown(chain, past, w) && SameDeposits(w, w')
    ensures RowsShown(chain, past + [step], w')
  {
    forall h | h in w'.deposits
      ensures Sighted(chain, past + [step], h, w'.deposits[h].user, w'.deposits[h].amount, w'.deposits[h].observed)
    {
      SightedLater(chain, past, step, h, w.deposits[h].user, w.deposits[h].amount, w.deposits[h].observed);
    }
  }

  lemma WalletStepKeeps(chain: S.Chain, c: S.Config, past: seq<Step>, n: Node, step: Step, n': Node)
    requires NodeInv(chain, c, past, n) && NodeStep(chain, c, n, step, n') && step.WalletStep?
    ensures NodeInv(chain, c, past + [step], n')
  {
    WalletStepRows(n.m, step.e, n'.m);
    RowsShownLater(chain, past, step, n.m.w, n'.m.w);
    SameHead(past, step);
    SightKept(chain, past, step, n);
  }

  lemma SameHead(past: seq<Step>, step: Step)
    ensures LastHead(past + [step]) == if step.Look? then step.sight.current else LastHead(past)
  {
    assert (past + [step])[..|past|] == past;
  }

  lemma SightKept(chain: S.Chain, past: seq<Step>, step: Step, n: Node)
    requires PhaseInv(chain, past, n)
    ensures n.phase.Scanning? ==>
      exists j :: 0 <= j < |past + [step]| && (past + [step])[j].Look? && (past + [step])[j].sight == n.phase.sight
  {
    if n.phase.Scanning? {
      var j :| 0 <= j < |past| && past[j].Look? && past[j].sight == n.phase.sight;
      assert (past + [step])[j] == past[j];
    }
  }

  /** What the cycle is about to upsert is shown, and a row it already has is for that block. */
  lemma NextUpsert(chain: S.Chain, past: seq<Step>, n: Node) returns (o: S.Observed)
    requires ValidChain(chain) && RowsShown(chain, past, n.m.w) && PhaseInv(chain, past, n) && n.phase.Scanning?
    requires n.phase.done < |FoundBy(chain, n.cursor.block, n.phase.sight)|
    ensures o == FoundBy(chain, n.cursor.block, n.phase.sight)[n.phase.done]
    ensures Sighted(chain, past, o.hash, o.user, o.amount, o.block) && 0 <= o.amount < TWO63
    ensures o.hash in n.m.w.deposits ==> n.m.w.deposits[o.hash].observed == o.block
  {
    var sight := n.phase.sight;
    o := FoundBy(chain, n.cursor.block, sight)[n.phase.done];
    FoundShows(chain, n.cursor.block, sight, n.phase.done);
    ShownOnce(chain, sight, sight, o.hash, o.user, o.amount, o.block, o.user, o.amount, o.block);
    if o.hash in n.m.w.deposits {
      var row := n.m.w.deposits[o.hash];
      assert Sighted(chain, past, o.hash, row.user, row.amount, row.observed);
      var j :| 0 <= j < |past| && past[j].Look?
               && Shows(chain, past[j].sight, o.hash, row.user, row.amount, row.observed);
      ShownOnce(chain, sight, past[j].sight, o.hash, o.user, o.amount, o.block, row.user, row.amount, row.observed);
    }
  }

  /** An upsert writes what the cycle's sight shows, and never moves a row to another block. */
  lemma UpsertRows(chain: S.Chain, past: seq<Step>, n: Node, step: Step, n': Node, c: S.Config)
    requires ValidChain(chain) && NodeInv(chain, c, past, n) && NodeStep(chain, c, n, step, n')
    requires step.Upsert? && step.effect
    ensures RowsShown(chain, past, n'.m.w)
    ensures forall h :: h in n.m.w.deposits ==> h in n'.m.w.deposits && n'.m.w.deposits[h] == n.m.w.deposits[h]
    ensures var o := FoundBy(chain, n.cursor.block, n.phase.sight)[n.phase.done];
      o.hash in n'.m.w.deposits && n'.m.w.deposits[o.hash].observed == o.block && 0 <= o.amount < TWO63
  {
    var o := NextUpsert(chain, past, n);
    assert n'.m.w == Upserted(n.m.w, o);
    assert o.hash in n.m.w.deposits ==> n'.m.w.deposits[o.hash] == n.m.w.deposits[o.hash];
  }

  lemma UpsertedNext(found: seq<S.Observed>, done: nat, w: Wallet, w': Wallet)
    requires UpsertedTo(found, done, w) && done < |found|
    requires forall h :: h in w.deposits ==> h in w'.deposits && w'.deposits[h] == w.deposits[h]
    requires found[done].hash in w'.deposits && w'.deposits[found[done].hash].observed == found[done].block
    ensures UpsertedTo(found, done + 1, w')
  {}

  lemma UpsertKeepsPhase(chain: S.Chain, c: S.Config, past: seq<Step>, n: Node, step: Step, n': Node)
    requires ValidChain(chain) && NodeInv(chain, c, past, n) && NodeStep(chain, c, n, step, n') && step.Upsert?
    ensures PhaseInv(chain, past + [step], n')
  {
    SameHead(past, step);
    SightKept(chain, past, step, n);
    if step.ok {
      UpsertRows(chain, past, n, step, n', c);
      UpsertedNext(FoundBy(chain, n.cursor.block, n.phase.sight), n.phase.done, n.m.w, n'.m.w);
    }
  }

  lemma UpsertKeeps(chain: S.Chain, c: S.Config, past: seq<Step>, n: Node, step: Step, n': Node)
    requires ValidChain(chain) && NodeInv(chain, c, past, n) && NodeStep(chain, c, n, step, n') && step.Upsert?
    ensures NodeInv(chain, c, past + [step], n')
  {
    if step.effect {
      UpsertRows(chain, past, n, step, n', c);
    }
    RowsShownLater(chain, past, step, n'.m.w, n'.m.w);
    UpsertKeepsPhase(chain, c, past, n, step, n');
  }

  lemma OtherStepKeeps(chain: S.Chain, c: S.Config, past: seq<Step>, n: Node, step: Step, n': Node)
    requires NodeInv(chain, c, past, n) && NodeStep(chain, c, n, step, n') && !step.Upsert? && !step.WalletStep?
    ensures NodeInv(chain, c, past + [step], n')
  {
    RowsShownLater(chain, past, step, n.m.w, n'.m.w);
    SameHead(past, step);
    assert (past + [step])[|past|] == step;
  }

  lemma StepKeepsNode(chain: S.Chain, c: S.Config, past: seq<Step>, n: Node, step: Step, n': Node)
    requires ValidChain(chain) && NodeInv(chain, c, past, n) && NodeStep(chain, c, n, step, n')
    ensures NodeInv(chain, c, past + [step], n')
  {
    if step.WalletStep? {
      WalletStepKeeps(chain, c, past, n, step, n');
    } else if step.Upsert? {
      UpsertKeeps(chain, c, past, n, step, n');
    } else {
      OtherStepKeeps(chain, c, past, n, step, n');
    }
  }

  lemma {:induction false} RunKeepsNode(chain: S.Chain, c: S.Config, nodes: seq<Node>, steps: seq<Step>, i: nat)
    requires Run(chain, c, nodes, steps) && ValidChain(chain) && i < |nodes|
    ensures NodeInv(chain, c, steps[..i], nodes[i])
  {
    if i > 0 {
      RunKeepsNode(chain, c, nodes, steps, i - 1);
      assert NodeStep(chain, c, nodes[i - 1], steps[i - 1], nodes[i]);
      StepKeepsNode(chain, c, steps[..i - 1], nodes[i - 1], steps[i - 1], nodes[i]);
      assert steps[..i] == steps[..i - 1] + [steps[i - 1]];
    }
  }

  // ----- credit -----

  /** Step l turned the deposit's row confirmed. */
  ghost predicate Credits(nodes: seq<Node>, steps: seq<Step>, l: nat, h: Hash) {
    && l < |steps| && |nodes| == |steps| + 1 && steps[l].WalletStep? && steps[l].e.ConfirmNext?
    && h in nodes[l].m.w.deposits && !nodes[l].m.w.deposits[h].confirmed
    && h in nodes[l + 1].m.w.deposits && nodes[l + 1].m.w.deposits[h].confirmed
  }

  lemma DepositsStay(chain: S.Chain, c: S.Config, past: seq<Step>, n: Node, step: Step, n': Node, h: Hash)
    requires ValidChain(chain) && NodeInv(chain, c, past, n) && NodeStep(chain, c, n, step, n')
    requires h in n'.m.w.deposits && n'.m.w.deposits[h].confirmed
    ensures h in n.m.w.deposits && n'.m.w.deposits[h] == n.m.w.deposits[h].(confirmed := true)
    ensures !n.m.w.deposits[h].confirmed ==>
      && step.WalletStep? && step.e.ConfirmNext? && n.cursor == S.At(LastHead(past))
      && n.m.w.deposits[h].observed + c.confirmations - 1 <= LastHead(past)
  {
    if step.WalletStep? {
      WalletStepRows(n.m, step.e, n'.m);
    } else if step.Upsert? && step.effect {
      UpsertRows(chain, past, n, step, n', c);
    }
  }

  /** Where a confirmed deposit was credited. */
  lemma {:induction false} CreditedAt(chain: S.Chain, c: S.Config, nodes: seq<Node>, steps: seq<Step>, i: nat, h: Hash)
    returns (l: nat)
    requires Run(chain, c, nodes, steps) && ValidChain(chain) && i < |nodes|
    requires h in nodes[i].m.w.deposits && nodes[i].m.w.deposits[h].confirmed
    ensures l < i && Credits(nodes, steps, l, h)
    ensures nodes[i].m.w.deposits[h] == nodes[l].m.w.deposits[h].(confirmed := true)
    ensures nodes[l].cursor == S.At(LastHead(steps[..l]))
    ensures nodes[l].m.w.deposits[h].observed + c.confirmations - 1 <= LastHead(steps[..l])
  {
    RunKeepsNode(chain, c, nodes, steps, i - 1);
    assert NodeStep(chain, c, nodes[i - 1], steps[i - 1], nodes[i]);
    DepositsStay(chain, c, steps[..i - 1], nodes[i - 1], steps[i - 1], nodes[i], h);
    if nodes[i - 1].m.w.deposits[h].confirmed {
      l := CreditedAt(chain, c, nodes, steps, i - 1, h);
    } else {
      l := i - 1;
    }
  }

  /** Credit is only for what is on the chain: over every run, each confirmed deposit is a transfer in
      some block b, with that hash and amount, that succeeded and went to an address listed for that
      user in a cycle begun before; and it was credited by a cycle that had saved its head as the
      cursor, with b + confirmations - 1 at most that head. */
  lemma CreditIsEarned(chain: S.Chain, c: S.Config, nodes: seq<Node>, steps: seq<Step>, i: nat, h: Hash)
    returns (b: nat, k: nat, j: nat, l: nat)
    requires Run(chain, c, nodes, steps) && ValidChain(chain) && i < |nodes|
    requires h in nodes[i].m.w.deposits && nodes[i].m.w.deposits[h].confirmed
    ensures var row := nodes[i].m.w.deposits[h];
      k < |chain(b)| && chain(b)[k].hash == h && chain(b)[k].amount == row.amount && row.observed == b
    ensures j < l < i && steps[j].Look? && steps[j].sight.receipts(h) == S.Success
    ensures var to := chain(b)[k].to;
      to in steps[j].sight.addresses && steps[j].sight.addresses[to] == nodes[i].m.w.deposits[h].user
    ensures Credits(nodes, steps, l, h)
    ensures nodes[l].cursor == S.At(LastHead(steps[..l])) && b + c.confirmations - 1 <= LastHead(steps[..l])
  {
    l := CreditedAt(chain, c, nodes, steps, i, h);
    RunKeepsNode(chain, c, nodes, steps, l);
    var row := nodes[l].m.w.deposits[h];
    assert Sighted(chain, steps[..l], h, row.user, row.amount, row.observed);
    b := row.observed;
    j :| 0 <= j < l && steps[..l][j].Look? && Shows(chain, steps[..l][j].sight, h, row.user, row.amount, b);
    k :| 0 <= k < |chain(b)| && chain(b)[k].hash == h && chain(b)[k].amount == row.amount
         && chain(b)[k].to in steps[j].sight.addresses && steps[j].sight.addresses[chain(b)[k].to] == row.user;
  }

  // ----- the two projections -----

  /** What a step is to the wallet machine; a step it does not see leaves its resting runner at rest. */
  function WalletEvent(chain: S.Chain, n: Node, step: Step): W.Event {
    match step
    case WalletStep(e) => e
    case ListDeposits(rows) => if n.phase.CursorSaved? then W.ListPendingDeposits(rows, n.phase.current) else W.Stop
    case Upsert(effect, _) =>
      if effect && n.phase.Scanning? && n.cursor.At?
        && n.phase.done < |FoundBy(chain, n.cursor.block, n.phase.sight)| then
        var o := FoundBy(chain, n.cursor.block, n.phase.sight)[n.phase.done];
        W.ObserveTransfer(o.hash, o.user, o.amount, o.block)
      else W.Stop
    case _ => W.Stop
  }

  /** What a step is to the scanner: the save that moves the cursor is the whole cycle. */
  function ScanEvent(chain: S.Chain, n: Node, step: Step, n': Node): S.Event {
    if step.Look? && n.cursor.NoCursor? then
      S.Cycle(step.sight.current, step.sight.addresses, step.sight.receipts, 0, step.saved)
    else if step.SaveCursor? && step.effect && n.phase.Scanning? then
      var sight := n.phase.sight;
      S.Cycle(sight.current, sight.addresses, sight.receipts, n.phase.done, true)
    else S.Elsewhere(n'.m.w)
  }

  function ScanOf(n: Node): S.ScanState {
    S.ScanState(n.m.w, n.cursor, n.initial)
  }

  lemma StepIsWalletStep(chain: S.Chain, c: S.Config, past: seq<Step>, n: Node, step: Step, n': Node)
    requires ValidChain(chain) && NodeInv(chain, c, past, n) && NodeStep(chain, c, n, step, n')
    ensures W.MachineStep(n.m, WalletEvent(chain, n, step), n'.m)
  {
    if step.Upsert? && step.effect {
      UpsertRows(chain, past, n, step, n', c);
    }
  }

  /** Upserting again what has its row for its block changes nothing. */
  lemma {:induction false} UpsertAgain(w: Wallet, found: seq<S.Observed>, k: nat)
    requires UpsertedTo(found, k, w)
    ensures S.Recorded(w, found, k) == w
  {
    if k > 0 {
      UpsertAgain(w, found, k - 1);
      var o := found[k - 1];
      assert w.deposits[o.hash := w.deposits[o.hash].(observed := o.block)] == w.deposits;
    }
  }

  lemma SaveIsScanStep(chain: S.Chain, c: S.Config, past: seq<Step>, n: Node, step: Step, n': Node)
    requires NodeInv(chain, c, past, n) && NodeStep(chain, c, n, step, n') && step.SaveCursor? && step.effect
    ensures S.Next(chain, c, ScanOf(n), ScanEvent(chain, n, step, n'), ScanOf(n'))
  {
    UpsertAgain(n.m.w, FoundBy(chain, n.cursor.block, n.phase.sight), n.phase.done);
  }

  lemma StepKeepsRows(chain: S.Chain, c: S.Config, past: seq<Step>, n: Node, step: Step, n': Node)
    requires ValidChain(chain) && NodeInv(chain, c, past, n) && NodeStep(chain, c, n, step, n')
    ensures S.RowsNamed(n.m.w, n'.m.w)
  {
    if step.Upsert? && step.effect {
      UpsertRows(chain, past, n, step, n', c);
    } else if step.WalletStep? {
      WalletStepRows(n.m, step.e, n'.m);
    }
  }

  lemma StepIsScanStep(chain: S.Chain, c: S.Config, past: seq<Step>, n: Node, step: Step, n': Node)
    requires ValidChain(chain) && NodeInv(chain, c, past, n) && NodeStep(chain, c, n, step, n')
    ensures S.Next(chain, c, ScanOf(n), ScanEvent(chain, n, step, n'), ScanOf(n'))
  {
    if step.SaveCursor? && step.effect {
      SaveIsScanStep(chain, c, past, n, step, n');
    } else {
      StepKeepsRows(chain, c, past, n, step, n');
    }
  }

  ghost function Machines(nodes: seq<Node>): seq<W.Machine> {
    seq(|nodes|, i requires 0 <= i < |nodes| => nodes[i].m)
  }

  ghost function WalletEvents(chain: S.Chain, nodes: seq<Node>, steps: seq<Step>): seq<W.Event>
    requires |nodes| == |steps| + 1
  {
    seq(|steps|, i requires 0 <= i < |steps| => WalletEvent(chain, nodes[i], steps[i]))
  }

  ghost function ScanStates(nodes: seq<Node>): seq<S.ScanState> {
    seq(|nodes|, i requires 0 <= i < |nodes| => ScanOf(nodes[i]))
  }

  ghost function ScanEvents(chain: S.Chain, nodes: seq<Node>, steps: seq<Step>): seq<S.Event>
    requires |nodes| == |steps| + 1
  {
    seq(|steps|, i requires 0 <= i < |steps| => ScanEvent(chain, nodes[i], steps[i], nodes[i + 1]))
  }

  /** Every run of the whole is a run of the wallet machine, so the balance equation holds in it. */
  lemma RunIsWalletRun(chain: S.Chain, c: S.Config, nodes: seq<Node>, steps: seq<Step>)
    requires Run(chain, c, nodes, steps) && ValidChain(chain)
    ensures W.Run(Machines(nodes), WalletEvents(chain, nodes, steps))
  {
    var ms, es := Machines(nodes), WalletEvents(chain, nodes, steps);
    forall i {:trigger es[i]} | 0 <= i < |es| ensures W.MachineStep(ms[i], es[i], ms[i + 1]) {
      RunKeepsNode(chain, c, nodes, steps, i);
      assert NodeStep(chain, c, nodes[i], steps[i], nodes[i + 1]);
      StepIsWalletStep(chain, c, steps[..i], nodes[i], steps[i], nodes[i + 1]);
    }
  }

  /** Every run of the whole is a run of the scanner. */
  lemma RunIsScanRun(chain: S.Chain, c: S.Config, nodes: seq<Node>, steps: seq<Step>)
    requires Run(chain, c, nodes, steps) && ValidChain(chain)
    ensures S.Run(chain, c, ScanStates(nodes), ScanEvents(chain, nodes, steps))
  {
    var ss, es := ScanStates(nodes), ScanEvents(chain, nodes, steps);
    forall i {:trigger es[i]} | 0 <= i < |es| ensures S.Next(chain, c, ss[i], es[i], ss[i + 1]) {
      RunKeepsNode(chain, c, nodes, steps, i);
      assert NodeStep(chain, c, nodes[i], steps[i], nodes[i + 1]);
      StepIsScanStep(chain, c, steps[..i], nodes[i], steps[i], nodes[i + 1]);
    }
  }

  /** Scan coverage in the whole: every block after the initial one and up to the cursor was read by a
      cycle that saved the cursor, and what it owed has rows, whatever else was served meanwhile. */
  lemma ChainCoverage(chain: S.Chain, c: S.Config, nodes: seq<Node>, steps: seq<Step>, i: nat, b: nat)
    returns (j: nat)
    requires Run(chain, c, nodes, steps) && ValidChain(chain) && i < |nodes|
    requires nodes[i].cursor.At? && nodes[i].initial < b <= nodes[i].cursor.block
    ensures j < i && steps[j].SaveCursor? && steps[j].effect && nodes[j].phase.Scanning?
    ensures var sight := nodes[j].phase.sight;
      && nodes[j].cursor.At? && nodes[j].cursor.block < b <= sight.current
      && S.Owed(chain, b, sight.addresses, sight.receipts) <= nodes[i].m.w.deposits.Keys
  {
    var ss, es := ScanRunOf(chain, c, nodes, steps);
    j := CoverageOf(chain, c, nodes, steps, ss, es, i, b);
  }

  ghost predicate Projects(chain: S.Chain, nodes: seq<Node>, steps: seq<Step>, ss: seq<S.ScanState>, es: seq<S.Event>) {
    && |ss| == |nodes| == |steps| + 1 == |es| + 1
    && (forall k {:trigger ss[k]} :: 0 <= k < |nodes| ==> ss[k] == ScanOf(nodes[k]))
    && (forall k {:trigger es[k]} :: 0 <= k < |steps| ==> es[k] == ScanEvent(chain, nodes[k], steps[k], nodes[k + 1]))
  }

  lemma ScanProjects(chain: S.Chain, nodes: seq<Node>, steps: seq<Step>)
    requires |nodes| == |steps| + 1
    ensures Projects(chain, nodes, steps, ScanStates(nodes), ScanEvents(chain, nodes, steps))
  {}

  lemma ScanRunOf(chain: S.Chain, c: S.Config, nodes: seq<Node>, steps: seq<Step>)
    returns (ss: seq<S.ScanState>, es: seq<S.Event>)
    requires Run(chain, c, nodes, steps) && ValidChain(chain)
    ensures S.Run(chain, c, ss, es) && Projects(chain, nodes, steps, ss, es)
  {
    ss, es := ScanStates(nodes), ScanEvents(chain, nodes, steps);
    ScanProjects(chain, nodes, steps);
    RunIsScanRun(chain, c, nodes, steps);
  }

  lemma CoverageOf(chain: S.Chain, c: S.Config, nodes: seq<Node>, steps: seq<Step>, ss: seq<S.ScanState>,
                   es: seq<S.Event>, i: nat, b: nat) returns (j: nat)
    requires S.Run(chain, c, ss, es) && Projects(chain, nodes, steps, ss, es) && i < |nodes|
    requires nodes[i].cursor.At? && nodes[i].initial < b <= nodes[i].cursor.block
    ensures j < i && steps[j].SaveCursor? && steps[j].effect && nodes[j].phase.Scanning?
    ensures var sight := nodes[j].phase.sight;
      && nodes[j].cursor.At? && nodes[j].cursor.block < b <= sight.current
      && S.Owed(chain, b, sight.addresses, sight.receipts) <= nodes[i].m.w.deposits.Keys
  {
    assert ss[i] == ScanOf(nodes[i]);
    j := S.ScanCoverage(chain, c, ss, es, i, b);
    CoveredStep(chain, nodes[j], steps[j], nodes[j + 1], b, nodes[i].m.w);
  }

  lemma CoveredStep(chain: S.Chain, n: Node, step: Step, n': Node, b: nat, w: Wallet)
    requires var e := ScanEvent(chain, n, step, n'); S.Scanned(ScanOf(n), e, b) && S.HasRows(chain, e, b, w)
    ensures step.SaveCursor? && step.effect && n.phase.Scanning?
    ensures n.cursor.At? && n.cursor.block < b <= n.phase.sight.current
    ensures S.Owed(chain, b, n.phase.sight.addresses, n.phase.sight.receipts) <= w.deposits.Keys
  {}

  // ----- a deposit from chain to credit -----

  /** One transfer, in block 1. */
  function OneBlock(b: nat): seq<S.Transfer> {
    if b == 1 then [S.Transfer("h", "a", 5)] else []
  }

  function AllSucceed(h: Hash): S.Receipt { S.Success }

  function FirstSight(): Sight {
    Sight(1, map["a" := "u"], AllSucceed)
  }

  lemma FoundInBlock()
    ensures ValidChain(OneBlock) && FoundBy(OneBlock, 0, FirstSight()) == [S.Observed("h", "u", 5, 1)]
  {
    var addresses := map["a" := "u"];
    assert OneBlock(1)[..0] == [] && S.InBlock(OneBlock(1)[..0], 1, addresses, AllSucceed) == [];
    assert S.InBlock(OneBlock(1), 1, addresses, AllSucceed) == [S.Observed("h", "u", 5, 1)];
    assert S.InBlocks(OneBlock, 1, 1, addresses, AllSucceed) == [];
    assert "a" in addresses;
    assert FirstSight().addresses != map[];
  }

  /** The row of the transfer, pending or confirmed. */
  function Row(confirmed: bool): DepositRow {
    DepositRow("u", 5, confirmed, 1)
  }

  function Provisional(): Wallet {
    Wallet(Db([], map["u" := 0]), map[], map[])
  }

  function Credited(): Wallet {
    Wallet(Db([Entry("e", "u", 5, Render(DepositTag("h")))], map["u" := 5]), map["h" := Row(true)], map[])
  }

  function NodeAt(w: Wallet, runner: W.Runner, cursor: S.Cursor, phase: Phase): Node {
    Node(W.Machine(w, runner, 1), cursor, 0, phase)
  }

  lemma FirstSteps()
    ensures var c, w := S.Config(1, 1), Wallet(Db([], map[]), map[], map[]);
      && NodeStep(OneBlock, c, NodeAt(w, W.Idle, S.NoCursor, Resting), WalletStep(W.Serve(W.ProvisionUser("u"))),
                  NodeAt(Provisional(), W.Idle, S.NoCursor, Resting))
      && NodeStep(OneBlock, c, NodeAt(Provisional(), W.Idle, S.NoCursor, Resting), Look(FirstSight(), true),
                  NodeAt(Provisional(), W.Idle, S.At(0), Resting))
      && NodeStep(OneBlock, c, NodeAt(Provisional(), W.Idle, S.At(0), Resting), Look(FirstSight(), true),
                  NodeAt(Provisional(), W.Idle, S.At(0), Scanning(FirstSight(), 0)))
  {}

  lemma ScanSteps()
    ensures var c, w := S.Config(1, 1), Provisional().(deposits := map["h" := Row(false)]);
      && NodeStep(OneBlock, c, NodeAt(Provisional(), W.Idle, S.At(0), Scanning(FirstSight(), 0)), Upsert(true, true),
                  NodeAt(w, W.Idle, S.At(0), Scanning(FirstSight(), 1)))
      && NodeStep(OneBlock, c, NodeAt(w, W.Idle, S.At(0), Scanning(FirstSight(), 1)), SaveCursor(true, true),
                  NodeAt(w, W.Idle, S.At(1), CursorSaved(1)))
  {
    FoundInBlock();
    var w := Provisional();
    assert Upserted(w, S.Observed("h", "u", 5, 1)) == w.(deposits := map["h" := Row(false)]);
  }

  lemma CreditSteps()
    ensures var c, w, rows := S.Config(1, 1), Provisional().(deposits := map["h" := Row(false)]),
                              [W.ListedDeposit("h", Row(false))];
      && NodeStep(OneBlock, c, NodeAt(w, W.Idle, S.At(1), CursorSaved(1)), ListDeposits(rows),
                  NodeAt(w, W.Confirming(rows, 1), S.At(1), Resting))
      && NodeStep(OneBlock, c, NodeAt(w, W.Confirming(rows, 1), S.At(1), Resting),
                  WalletStep(W.ConfirmNext("e", true, true)), NodeAt(Credited(), W.Confirming([], 1), S.At(1), Resting))
  {
    var w, rows := Provisional().(deposits := map["h" := Row(false)]), [W.ListedDeposit("h", Row(false))];
    assert w.deposits["h" := Row(true)] == map["h" := Row(true)];
    assert w.ledger.balances["u" := 5] == map["u" := 5];
    assert ConfirmDeposit(w, "h", "e", "u", 5) == Credited();
    assert rows[1..] == [];
  }

  /** The way from the chain to a credit exists: a transfer of 5 in block 1 ends as a balance of 5. */
  lemma DepositArrives() returns (nodes: seq<Node>, steps: seq<Step>)
    ensures ValidChain(OneBlock) && Run(OneBlock, S.Config(1, 1), nodes, steps) && |steps| == 7
    ensures nodes[7].m.w == Credited() && Credited().deposits["h"].confirmed && Credited().ledger.balances["u"] == 5
  {
    FoundInBlock();
    FirstSteps();
    ScanSteps();
    CreditSteps();
    var w0, w2 := Wallet(Db([], map[]), map[], map[]), Provisional().(deposits := map["h" := Row(false)]);
    var rows := [W.ListedDeposit("h", Row(false))];
    nodes := [
      NodeAt(w0, W.Idle, S.NoCursor, Resting), NodeAt(Provisional(), W.Idle, S.NoCursor, Resting),
      NodeAt(Provisional(), W.Idle, S.At(0), Resting), NodeAt(Provisional(), W.Idle, S.At(0),
        Scanning(FirstSight(), 0)),
      NodeAt(w2, W.Idle, S.At(0), Scanning(FirstSight(), 1)), NodeAt(w2, W.Idle, S.At(1), CursorSaved(1)),
      NodeAt(w2, W.Confirming(rows, 1), S.At(1), Resting), NodeAt(Credited(), W.Confirming([], 1), S.At(1), Resting)];
    steps := [
      WalletStep(W.Serve(W.ProvisionUser("u"))), Look(FirstSight(), true), Look(FirstSight(), true),
      Upsert(true, true), SaveCursor(true, true), ListDeposits(rows), WalletStep(W.ConfirmNext("e", true, true))];
  }
}
