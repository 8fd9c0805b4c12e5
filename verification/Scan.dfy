/** The deposit scanner: blocks between the saved cursor and the chain head are searched for
    transfers to known addresses, and the cursor moves only when all of them have rows. */
module Scan {
  import opened Ledger
  import opened Wallet
  import WS = WalletStore

  type Address = string

  datatype Transfer = Transfer(hash: Hash, to: Address, amount: int)

  datatype Receipt = NotFound | Success | Reverted

  /** A chain without reorganisations: what block b holds never changes. */
  type Chain = nat -> seq<Transfer>

  datatype Observed = Observed(hash: Hash, user: User, amount: int, block: nat)

  datatype Cursor = NoCursor | At(block: nat)

  // ----- one scan -----

  predicate Counts(t: Transfer, addresses: map<Address, User>, receipts: Hash -> Receipt) {
    t.to in addresses && receipts(t.hash) == Success
  }

  function InBlock(ts: seq<Transfer>, block: nat, addresses: map<Address, User>,
                   receipts: Hash -> Receipt): seq<Observed> {
    if |ts| == 0 then []
    else
      var t := ts[|ts| - 1];
      InBlock(ts[..|ts| - 1], block, addresses, receipts)
      + if Counts(t, addresses, receipts) then [Observed(t.hash, addresses[t.to], t.amount, block)] else []
  }

  /** The transfers found in blocks from..to-1. */
  function InBlocks(chain: Chain, from: nat, hi: nat, addresses: map<Address, User>,
                    receipts: Hash -> Receipt): seq<Observed>
    decreases hi
  {
    if hi <= from then []
    else InBlocks(chain, from, hi - 1, addresses, receipts) + InBlock(chain(hi - 1), hi - 1, addresses, receipts)
  }

  method ScanDeposits(chain: Chain, fromBlock: nat, toBlock: nat, addresses: map<Address, User>,
                      receipts: Hash -> Receipt)
    returns (observed: seq<Observed>)
    ensures observed == InBlocks(chain, fromBlock, toBlock + 1, addresses, receipts)
  {
    observed := [];
    if fromBlock > toBlock {
      return;
    }
    for block := fromBlock to toBlock + 1
      invariant observed == InBlocks(chain, fromBlock, block, addresses, receipts)
    {
      ghost var before := observed;
      var ts := chain(block);
      for i := 0 to |ts|
        invariant observed == before + InBlock(ts[..i], block, addresses, receipts)
      {
        assert ts[..i + 1][..i] == ts[..i];
        if ts[i].to in addresses && receipts(ts[i].hash) == Success {
          observed := observed + [Observed(ts[i].hash, addresses[ts[i].to], ts[i].amount, block)];
        }
      }
      assert ts[..|ts|] == ts;
    }
  }

  /** The transactions a scan of block b has to record. */
  function Owed(chain: Chain, b: nat, addresses: map<Address, User>, receipts: Hash -> Receipt): set<Hash> {
    set i | 0 <= i < |chain(b)| && Counts(chain(b)[i], addresses, receipts) :: chain(b)[i].hash
  }

  function Hashes(os: seq<Observed>): set<Hash> {
    set i | 0 <= i < |os| :: os[i].hash
  }

  lemma {:induction false} InBlockFinds(ts: seq<Transfer>, block: nat, addresses: map<Address, User>,
                                        receipts: Hash -> Receipt, i: nat)
    requires i < |ts| && Counts(ts[i], addresses, receipts)
    ensures ts[i].hash in Hashes(InBlock(ts, block, addresses, receipts))
  {
    var front := ts[..|ts| - 1];
    var found := InBlock(ts, block, addresses, receipts);
    if i < |front| {
      InBlockFinds(front, block, addresses, receipts, i);
      var k :| 0 <= k < |InBlock(front, block, addresses, receipts)|
               && InBlock(front, block, addresses, receipts)[k].hash == ts[i].hash;
      assert found[k].hash == ts[i].hash;
    } else {
      assert found[|found| - 1].hash == ts[i].hash;
    }
  }

  lemma HashesConcat(a: seq<Observed>, b: seq<Observed>)
    ensures Hashes(a) <= Hashes(a + b) && Hashes(b) <= Hashes(a + b)
  {
    forall h | h in Hashes(a) ensures h in Hashes(a + b) {
      var i :| 0 <= i < |a| && a[i].hash == h;
      assert (a + b)[i] == a[i];
    }
    forall h | h in Hashes(b) ensures h in Hashes(a + b) {
      var i :| 0 <= i < |b| && b[i].hash == h;
      assert (a + b)[|a| + i] == b[i];
    }
  }

  /** A scan finds everything it owes. */
  lemma {:induction false} ScanFinds(chain: Chain, from: nat, hi: nat, addresses: map<Address, User>,
                                     receipts: Hash -> Receipt, b: nat)
    requires from <= b < hi
    ensures Owed(chain, b, addresses, receipts) <= Hashes(InBlocks(chain, from, hi, addresses, receipts))
    decreases hi
  {
    var early := InBlocks(chain, from, hi - 1, addresses, receipts);
    var late := InBlock(chain(hi - 1), hi - 1, addresses, receipts);
    HashesConcat(early, late);
    if b < hi - 1 {
      ScanFinds(chain, from, hi - 1, addresses, receipts, b);
    } else {
      forall h | h in Owed(chain, b, addresses, receipts) ensures h in Hashes(late) {
        var i :| 0 <= i < |chain(b)| && Counts(chain(b)[i], addresses, receipts) && chain(b)[i].hash == h;
        InBlockFinds(chain(b), b, addresses, receipts, i);
      }
    }
  }

  // ----- recording -----

  function Recorded(w: Wallet, os: seq<Observed>, k: nat): Wallet
    requires k <= |os|
  {
    if k == 0 then w
    else Observe(Recorded(w, os, k - 1), os[k - 1].hash, os[k - 1].user, os[k - 1].amount, os[k - 1].block)
  }

  /** No row disappears, and no row changes user, amount or status. */
  ghost predicate RowsKept(w: Wallet, w': Wallet) {
    forall h :: h in w.deposits ==>
      && h in w'.deposits && w'.deposits[h].user == w.deposits[h].user
      && w'.deposits[h].amount == w.deposits[h].amount && w'.deposits[h].confirmed == w.deposits[h].confirmed
  }

  /** Recording adds rows for what was observed and keeps every other row as it was. */
  lemma {:induction false} RecordedRows(w: Wallet, os: seq<Observed>, k: nat)
    requires k <= |os|
    ensures RowsKept(w, Recorded(w, os, k))
    ensures forall i :: 0 <= i < k ==> os[i].hash in Recorded(w, os, k).deposits
  {
    if k > 0 {
      RecordedRows(w, os, k - 1);
    }
  }

  // ----- cycles -----

  /** `initial` is where the first cycle put the cursor. */
  datatype ScanState = ScanState(w: Wallet, cursor: Cursor, initial: nat)

  datatype Config = Config(startBlock: nat, confirmations: nat)

  function InitialBlock(c: Config, current: nat): nat {
    if c.startBlock > 0 then c.startBlock - 1
    else if current <= c.confirmations then 0
    else current - c.confirmations
  }

  datatype Event =
    | Cycle(current: nat, addresses: map<Address, User>, receipts: Hash -> Receipt, recorded: nat, saved: bool)
    | Elsewhere(w: Wallet)

  /** What a cycle from this cursor observes. */
  function Found(chain: Chain, s: ScanState, e: Event): seq<Observed>
    requires e.Cycle? && s.cursor.At?
  {
    if |e.addresses| == 0 then [] else InBlocks(chain, s.cursor.block + 1, e.current + 1, e.addresses, e.receipts)
  }

  /** A cycle may fail anywhere: after recording some of what it found it either saves the cursor,
      having recorded all, or leaves it. Anything else in the service keeps the rows. */
  ghost predicate Next(chain: Chain, c: Config, s: ScanState, e: Event, s': ScanState) {
    match e
    case Cycle(current, addresses, receipts, recorded, saved) =>
      if s.cursor == NoCursor then
        s' == if saved then s.(cursor := At(InitialBlock(c, current)), initial := InitialBlock(c, current)) else s
      else
        var found := Found(chain, s, e);
        && recorded <= |found| && (saved ==> recorded == |found|)
        && s' == s.(w := Recorded(s.w, found, recorded),
                    cursor := if saved then At(current) else s.cursor)
    case Elsewhere(w) => RowsNamed(s.w, w) && s' == s.(w := w)
  }

  /** Confirming is the only change to a row from elsewhere. */
  ghost predicate RowsNamed(w: Wallet, w': Wallet) {
    forall h :: h in w.deposits ==>
      && h in w'.deposits && w'.deposits[h].user == w.deposits[h].user && w'.deposits[h].amount == w.deposits[h].amount
  }

  lemma RowsStay(w: Wallet, w': Wallet, hs: set<Hash>)
    requires RowsNamed(w, w') && hs <= w.deposits.Keys
    ensures hs <= w'.deposits.Keys
  {}

  lemma CycleRecordsAll(chain: Chain, s: ScanState, e: Event, b: nat)
    requires e.Cycle? && s.cursor.At? && s.cursor.block < b <= e.current
    ensures var found := Found(chain, s, e);
      Owed(chain, b, e.addresses, e.receipts) <= Recorded(s.w, found, |found|).deposits.Keys
  {
    var found := Found(chain, s, e);
    RecordedRows(s.w, found, |found|);
    if |e.addresses| == 0 {
      assert e.addresses == map[];
    } else {
      ScanFinds(chain, s.cursor.block + 1, e.current + 1, e.addresses, e.receipts, b);
    }
  }

  /** Rows are never lost or renamed, and a scan changes no row's status. */
  lemma NextKeepsRows(chain: Chain, c: Config, s: ScanState, e: Event, s': ScanState)
    requires Next(chain, c, s, e, s')
    ensures RowsNamed(s.w, s'.w)
    ensures e.Cycle? ==> RowsKept(s.w, s'.w)
  {
    if e.Cycle? && s.cursor.At? {
      RecordedRows(s.w, Found(chain, s, e), e.recorded);
    }
  }

  /** This cycle's range contains block b. */
  ghost predicate Reads(s: ScanState, e: Event, b: nat) {
    e.Cycle? && s.cursor.At? && s.cursor.block < b <= e.current
  }

  /** This cycle scanned block b and saved the cursor. */
  ghost predicate Scanned(s: ScanState, e: Event, b: nat) {
    Reads(s, e, b) && e.saved
  }

  /** What the cycle had to find in block b has a row. */
  ghost predicate HasRows(chain: Chain, e: Event, b: nat, w: Wallet)
    requires e.Cycle?
  {
    Owed(chain, b, e.addresses, e.receipts) <= w.deposits.Keys
  }

  ghost predicate Run(chain: Chain, c: Config, states: seq<ScanState>, events: seq<Event>) {
    && |states| == |events| + 1 && states[0].cursor == NoCursor
    && forall i {:trigger events[i]} :: 0 <= i < |events| ==> Next(chain, c, states[i], events[i], states[i + 1])
  }

  /** Scan coverage: wherever cycles fail, every block after the initial one and at or below the saved
      cursor was scanned by some cycle, and every transfer of it that succeeded and went to an address
      listed in that cycle has a deposit row. */
  lemma {:induction false} ScanCoverage(chain: Chain, c: Config, states: seq<ScanState>, events: seq<Event>, i: nat,
                                        b: nat)
    returns (j: nat)
    requires Run(chain, c, states, events) && i < |states|
    requires states[i].cursor.At? && states[i].initial < b <= states[i].cursor.block
    ensures j < i && Scanned(states[j], events[j], b) && HasRows(chain, events[j], b, states[i].w)
  {
    var s, e := states[i - 1], events[i - 1];
    assert Next(chain, c, s, e, states[i]);
    NextKeepsRows(chain, c, s, e, states[i]);
    if Scanned(s, e, b) {
      j := i - 1;
      CycleRecordsAll(chain, s, e, b);
    } else {
      j := ScanCoverage(chain, c, states, events, i - 1, b);
      RowsStay(s.w, states[i].w, Owed(chain, b, events[j].addresses, events[j].receipts));
    }
  }

  /** Where scanning starts: the blocks that are never scanned for being too early are those before the
      configured start block; without one, block 0 and those that had at least the configured number of
      blocks after them at the head the first cycle saw. */
  lemma {:induction false} InitialBlockIs(chain: Chain, c: Config, states: seq<ScanState>, events: seq<Event>, i: nat,
                                          b: nat)
    returns (j: nat)
    requires Run(chain, c, states, events) && i < |states| && states[i].cursor.At?
    ensures j < i && events[j].Cycle? && events[j].saved && states[j].cursor == NoCursor
    ensures b <= states[i].initial <==>
      if c.startBlock > 0 then b < c.startBlock else b == 0 || b + c.confirmations <= events[j].current
  {
    assert Next(chain, c, states[i - 1], events[i - 1], states[i]);
    if states[i - 1].cursor.At? {
      j := InitialBlockIs(chain, c, states, events, i - 1, b);
    } else {
      j := i - 1;
    }
  }

  // ----- exactly which transfers get a row -----

  /** The hash occurs in block b and nowhere else. */
  ghost predicate OnlyIn(chain: Chain, hash: Hash, b: nat) {
    forall b', i :: 0 <= i < |chain(b')| && chain(b')[i].hash == hash ==> b' == b
  }

  /** The cycle read block b, counted the transfer, and got as far as recording it. */
  ghost predicate PicksUp(chain: Chain, s: ScanState, e: Event, hash: Hash, b: nat) {
    && Reads(s, e, b) && hash in Owed(chain, b, e.addresses, e.receipts)
    && e.recorded <= |Found(chain, s, e)| && hash in Hashes(Found(chain, s, e)[..e.recorded])
  }

  lemma {:induction false} InBlockOwed(ts: seq<Transfer>, block: nat, addresses: map<Address, User>,
                                       receipts: Hash -> Receipt, hash: Hash)
    requires hash in Hashes(InBlock(ts, block, addresses, receipts))
    ensures exists i :: 0 <= i < |ts| && Counts(ts[i], addresses, receipts) && ts[i].hash == hash
  {
    var found := InBlock(ts, block, addresses, receipts);
    var k :| 0 <= k < |found| && found[k].hash == hash;
    var front := InBlock(ts[..|ts| - 1], block, addresses, receipts);
    if k < |front| {
      assert front[k].hash == hash;
      InBlockOwed(ts[..|ts| - 1], block, addresses, receipts, hash);
      var i :| 0 <= i < |ts| - 1 && Counts(ts[..|ts| - 1][i], addresses, receipts) && ts[..|ts| - 1][i].hash == hash;
      assert ts[i].hash == hash && Counts(ts[i], addresses, receipts);
    } else {
      assert Counts(ts[|ts| - 1], addresses, receipts);
    }
  }

  /** What a scan finds, some block in its range owes. */
  lemma {:induction false} FoundIsOwed(chain: Chain, from: nat, hi: nat, addresses: map<Address, User>,
                                       receipts: Hash -> Receipt, hash: Hash) returns (b: nat)
    requires hash in Hashes(InBlocks(chain, from, hi, addresses, receipts))
    ensures from <= b < hi && hash in Owed(chain, b, addresses, receipts)
    decreases hi
  {
    var early := InBlocks(chain, from, hi - 1, addresses, receipts);
    var late := InBlock(chain(hi - 1), hi - 1, addresses, receipts);
    HashesSplit(early, late, hash);
    if hash in Hashes(early) {
      b := FoundIsOwed(chain, from, hi - 1, addresses, receipts, hash);
    } else {
      InBlockOwed(chain(hi - 1), hi - 1, addresses, receipts, hash);
      b := hi - 1;
    }
  }

  lemma HashesSplit(a: seq<Observed>, b: seq<Observed>, h: Hash)
    requires h in Hashes(a + b)
    ensures h in Hashes(a) || h in Hashes(b)
  {
    var i :| 0 <= i < |a + b| && (a + b)[i].hash == h;
    if i < |a| {
      assert a[i].hash == h;
    } else {
      assert b[i - |a|].hash == h;
    }
  }

  /** Recording adds a row for what it has got to and for nothing else. */
  lemma {:induction false} RecordedExactly(w: Wallet, os: seq<Observed>, k: nat, hash: Hash)
    requires k <= |os|
    ensures hash in Recorded(w, os, k).deposits <==> hash in w.deposits || hash in Hashes(os[..k])
  {
    if k > 0 {
      RecordedExactly(w, os, k - 1, hash);
      assert os[..k] == os[..k - 1] + [os[k - 1]];
      HashesSnoc(os[..k - 1], os[k - 1]);
    }
  }

  lemma HashesSnoc(os: seq<Observed>, o: Observed)
    ensures Hashes(os + [o]) == Hashes(os) + {o.hash}
  {
    HashesConcat(os, [o]);
    assert [o][0].hash == o.hash;
    forall h | h in Hashes(os + [o]) ensures h in Hashes(os) + {o.hash} {
      var i :| 0 <= i < |os + [o]| && (os + [o])[i].hash == h;
      assert i < |os| ==> os[i].hash == h;
    }
  }

  lemma HashesPrefix(os: seq<Observed>, k: nat)
    requires k <= |os|
    ensures Hashes(os[..k]) <= Hashes(os)
  {
    HashesConcat(os[..k], os[k..]);
    assert os[..k] + os[k..] == os;
  }

  /** A cycle gives a row to exactly what it picks up. */
  lemma CycleRow(chain: Chain, c: Config, s: ScanState, e: Event, s': ScanState, hash: Hash, b: nat)
    requires e.Cycle? && Next(chain, c, s, e, s') && OnlyIn(chain, hash, b)
    ensures hash in s'.w.deposits <==> hash in s.w.deposits || PicksUp(chain, s, e, hash, b)
  {
    if s.cursor.At? {
      var found := Found(chain, s, e);
      RecordedExactly(s.w, found, e.recorded, hash);
      if hash in Hashes(found[..e.recorded]) {
        HashesPrefix(found, e.recorded);
        var b' := FoundIsOwed(chain, s.cursor.block + 1, e.current + 1, e.addresses, e.receipts, hash);
        var i :| 0 <= i < |chain(b')| && chain(b')[i].hash == hash;
      }
    }
  }

  /** Nothing outside the scanner adds a row for this hash in the first i steps. */
  ghost predicate OnlyScanned(states: seq<ScanState>, events: seq<Event>, i: nat, hash: Hash) {
    && i < |states| == |events| + 1 && hash !in states[0].w.deposits
    && forall k {:trigger events[k]} :: 0 <= k < i && events[k].Elsewhere? && hash in events[k].w.deposits ==>
         hash in states[k].w.deposits
  }

  lemma StepRow(chain: Chain, c: Config, s: ScanState, e: Event, s': ScanState, hash: Hash, b: nat)
    requires Next(chain, c, s, e, s') && OnlyIn(chain, hash, b)
    requires e.Elsewhere? && hash in e.w.deposits ==> hash in s.w.deposits
    ensures hash in s'.w.deposits <==> hash in s.w.deposits || PicksUp(chain, s, e, hash, b)
  {
    if e.Cycle? {
      CycleRow(chain, c, s, e, s', hash, b);
    }
  }

  /** One of the first i steps picked the transfer up. */
  ghost predicate PickedUp(chain: Chain, states: seq<ScanState>, events: seq<Event>, i: nat, hash: Hash, b: nat)
    requires i < |states| == |events| + 1
  {
    exists j {:trigger events[j]} :: 0 <= j < i && PicksUp(chain, states[j], events[j], hash, b)
  }

  lemma PickedUpNext(chain: Chain, states: seq<ScanState>, events: seq<Event>, i: nat, hash: Hash, b: nat)
    requires 0 < i < |states| == |events| + 1
    ensures PickedUp(chain, states, events, i, hash, b) <==>
      PickedUp(chain, states, events, i - 1, hash, b) || PicksUp(chain, states[i - 1], events[i - 1], hash, b)
  {}

  /** Over every run, a transfer that occurs in block b has a row exactly when some cycle before, one
      whose range contained b, counted it and got as far as recording it. */
  lemma {:induction false} HasRowIff(chain: Chain, c: Config, states: seq<ScanState>, events: seq<Event>, i: nat,
                                     hash: Hash, b: nat)
    requires Run(chain, c, states, events) && OnlyIn(chain, hash, b) && OnlyScanned(states, events, i, hash)
    ensures hash in states[i].w.deposits <==> PickedUp(chain, states, events, i, hash, b)
  {
    if i > 0 {
      HasRowIff(chain, c, states, events, i - 1, hash, b);
      PickedUpNext(chain, states, events, i, hash, b);
      assert Next(chain, c, states[i - 1], events[i - 1], states[i]);
      StepRow(chain, c, states[i - 1], events[i - 1], states[i], hash, b);
    }
  }

  /** A cycle that saves the cursor picks up exactly what it reads and counts. */
  lemma SavedPicksUp(chain: Chain, c: Config, s: ScanState, e: Event, s': ScanState, hash: Hash, b: nat)
    requires e.Cycle? && e.saved && Next(chain, c, s, e, s')
    ensures PicksUp(chain, s, e, hash, b) <==> Reads(s, e, b) && hash in Owed(chain, b, e.addresses, e.receipts)
  {
    if Reads(s, e, b) && hash in Owed(chain, b, e.addresses, e.receipts) {
      var i :| 0 <= i < |chain(b)| && Counts(chain(b)[i], e.addresses, e.receipts) && chain(b)[i].hash == hash;
      assert chain(b)[i].to in e.addresses;
      ScanFinds(chain, s.cursor.block + 1, e.current + 1, e.addresses, e.receipts, b);
      assert Found(chain, s, e)[..e.recorded] == Found(chain, s, e);
    }
  }

  /** A transfer passed over, for instance because its receipt was not there yet, gets no row as long as
      the cursor is never saved below its block again. */
  lemma {:induction false} MissedStaysMissed(chain: Chain, c: Config, states: seq<ScanState>, events: seq<Event>,
                                             i: nat, j: nat, hash: Hash, b: nat)
    requires Run(chain, c, states, events) && OnlyIn(chain, hash, b) && OnlyScanned(states, events, j, hash)
    requires i <= j && hash !in states[i].w.deposits
    requires forall k :: i <= k < j ==> states[k].cursor.At? && states[k].cursor.block >= b
    ensures hash !in states[j].w.deposits
  {
    if i < j {
      MissedStaysMissed(chain, c, states, events, i, j - 1, hash, b);
      assert Next(chain, c, states[j - 1], events[j - 1], states[j]);
      StepRow(chain, c, states[j - 1], events[j - 1], states[j], hash, b);
    }
  }

  /** A chain with one transfer, in block 2. */
  function OneTransfer(b: nat): seq<Transfer> {
    if b == 2 then [Transfer("h", "a", 5)] else []
  }

  function Early(h: Hash): Receipt { NotFound }

  function Later(h: Hash): Receipt { Success }

  lemma MissesIt(w: Wallet, cursor: nat, current: nat)
    ensures var s, e := ScanState(w, At(cursor), 0), Cycle(current, map["a" := "u"], Early, 0, true);
      Next(OneTransfer, Config(1, 1), s, e, s.(cursor := At(current)))
  {
    NothingCounted(OneTransfer, cursor + 1, current + 1, map["a" := "u"], Early);
  }

  lemma FindsIt(w: Wallet) returns (e: Event, s': ScanState)
    ensures Next(OneTransfer, Config(1, 1), ScanState(w, At(1), 0), e, s') && "h" in s'.w.deposits
  {
    var addresses, s := map["a" := "u"], ScanState(w, At(1), 0);
    var found := InBlocks(OneTransfer, 2, 6, addresses, Later);
    e := Cycle(5, addresses, Later, |found|, true);
    s' := ScanState(Recorded(w, found, |found|), At(5), 0);
    assert Found(OneTransfer, s, e) == found;
    assert OneTransfer(2)[0].hash == "h" && Counts(OneTransfer(2)[0], addresses, Later);
    SavedPicksUp(OneTransfer, Config(1, 1), s, e, s', "h", 2);
    CycleRow(OneTransfer, Config(1, 1), s, e, s', "h", 2);
  }

  /** The cursor does go back: a head that lags behind it is saved all the same, and what was passed
      over is then read again. Heads 5, 5, 1, 5; the receipt of the transfer in block 2 comes late. */
  lemma LaggingHeadRevisits(w: Wallet) returns (states: seq<ScanState>, events: seq<Event>)
    requires "h" !in w.deposits
    ensures OnlyIn(OneTransfer, "h", 2) && Run(OneTransfer, Config(1, 1), states, events) && |events| == 4
    ensures states[2].cursor == At(5) && "h" !in states[2].w.deposits && "h" in states[4].w.deposits
  {
    var addresses := map["a" := "u"];
    var e3, s4 := FindsIt(w);
    states := [ScanState(w, NoCursor, 0), ScanState(w, At(0), 0), ScanState(w, At(5), 0), ScanState(w, At(1), 0), s4];
    events := [Cycle(5, addresses, Early, 0, true), Cycle(5, addresses, Early, 0, true),
               Cycle(1, addresses, Early, 0, true), e3];
    MissesIt(w, 0, 5);
    MissesIt(w, 5, 1);
    assert Next(OneTransfer, Config(1, 1), states[0], events[0], states[1]);
  }

  lemma {:induction false} NothingCounted(chain: Chain, from: nat, hi: nat, addresses: map<Address, User>,
                                          receipts: Hash -> Receipt)
    requires forall h :: receipts(h) != Success
    ensures InBlocks(chain, from, hi, addresses, receipts) == []
    decreases hi
  {
    if from < hi {
      NothingCounted(chain, from, hi - 1, addresses, receipts);
      NothingInBlock(chain(hi - 1), hi - 1, addresses, receipts);
    }
  }

  lemma {:induction false} NothingInBlock(ts: seq<Transfer>, block: nat, addresses: map<Address, User>,
                                          receipts: Hash -> Receipt)
    requires forall h :: receipts(h) != Success
    ensures InBlock(ts, block, addresses, receipts) == []
  {
    if |ts| > 0 {
      NothingInBlock(ts[..|ts| - 1], block, addresses, receipts);
    }
  }

  // ----- the cycle itself -----

  class Scanner {
    const store: WS.Store
    var cursor: Cursor

    constructor (store: WS.Store)
      ensures this.store == store && cursor == NoCursor
    {
      this.store := store;
      cursor := NoCursor;
    }

    /** The scanning half of scanDepositsAndSubmit. The call fails before upsert number `stop`, or, when
        there is none, saves the cursor unless that fails too. */
    method ScanCycle(chain: Chain, config: Config, current: nat, addresses: map<Address, User>,
                     receipts: Hash -> Receipt, stop: nat, saveFails: bool)
      returns (recorded: nat, saved: bool)
      modifies this, store
      ensures old(cursor).NoCursor? ==>
        && store.Snapshot() == old(store.Snapshot())
        && cursor == if saved then At(InitialBlock(config, current)) else old(cursor)
      ensures old(cursor).At? ==>
        var e := Cycle(current, addresses, receipts, recorded, saved);
        var found := Found(chain, ScanState(old(store.Snapshot()), old(cursor), 0), e);
        && recorded <= |found| && (saved ==> recorded == |found|)
        && store.Snapshot() == Recorded(old(store.Snapshot()), found, recorded)
        && cursor == if saved then At(current) else old(cursor)
    {
      recorded, saved := 0, false;
      if cursor == NoCursor {
        if !saveFails {
          cursor, saved := At(InitialBlock(config, current)), true;
        }
        return;
      }
      var observed := Search(chain, cursor.block + 1, current, addresses, receipts);
      recorded := RecordAll(observed, stop);
      if recorded == |observed| && !saveFails {
        cursor, saved := At(current), true;
      }
    }

    method Search(chain: Chain, startBlock: nat, current: nat, addresses: map<Address, User>, receipts: Hash -> Receipt)
      returns (observed: seq<Observed>)
      ensures observed == if |addresses| == 0 then [] else InBlocks(chain, startBlock, current + 1, addresses, receipts)
    {
      observed := [];
      if startBlock <= current && |addresses| > 0 {
        observed := ScanDeposits(chain, startBlock, current, addresses, receipts);
      }
    }

    /** Upserts one by one; upsert number `stop` fails. */
    method RecordAll(observed: seq<Observed>, stop: nat) returns (recorded: nat)
      modifies store
      ensures recorded <= |observed| && (recorded == |observed| <==> |observed| <= stop)
      ensures store.Snapshot() == Recorded(old(store.Snapshot()), observed, recorded)
    {
      for i := 0 to |observed|
        invariant i <= stop && store.Snapshot() == Recorded(old(store.Snapshot()), observed, i)
      {
        if i == stop {
          return i;
        }
        store.UpsertObservedDeposit(observed[i].hash, observed[i].user, observed[i].amount, observed[i].block);
      }
      return |observed|;
    }
  }
}
