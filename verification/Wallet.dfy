/** The wallet over whole runs: requests, the chain runner and failing repository calls. */
module Wallet {
  import opened MapSum
  import opened Ledger

  type Hash = string

  datatype DepositRow = DepositRow(user: User, amount: int, confirmed: bool, observed: int)

  datatype Status = Pending | Submitted | Confirmed | Failed

  datatype WithdrawalRow = WithdrawalRow(user: User, amount: int, status: Status)

  datatype Wallet = Wallet(ledger: Db, deposits: map<Hash, DepositRow>, withdrawals: map<string, WithdrawalRow>)

  // ----- idempotency keys -----

  /** The keys the wallet makes itself. */
  datatype Tag = DepositTag(hash: Hash) | WithdrawalTag(id: string) | RefundTag(id: string)

  function Render(tag: Tag): Key {
    match tag
    case DepositTag(h) => "deposit:" + h
    case WithdrawalTag(id) => "withdrawal:" + id
    case RefundTag(id) => "withdrawal-compensation:" + id
  }

  /** Different events never share a key. */
  lemma RenderInjective(a: Tag, b: Tag)
    ensures Render(a) == Render(b) ==> a == b
  {
    KindMark(a);
    KindMark(b);
    if Render(a) == Render(b) {
      Suffix(a, b);
    }
  }

  lemma KindMark(tag: Tag)
    ensures |Render(tag)| > 0 && (Render(tag)[0] == 'd' <==> tag.DepositTag?)
    ensures !tag.DepositTag? ==> |Render(tag)| > 10 && Render(tag)[10] == if tag.WithdrawalTag? then ':' else '-'
  {}

  lemma Suffix(a: Tag, b: Tag)
    requires Render(a) == Render(b)
    ensures a.DepositTag? && b.DepositTag? ==> a == b
    ensures a.WithdrawalTag? && b.WithdrawalTag? ==> a == b
    ensures a.RefundTag? && b.RefundTag? ==> a == b
  {
    match a
    case DepositTag(h) => assert Render(a)[8..] == h; if b.DepositTag? { assert Render(b)[8..] == b.hash; }
    case WithdrawalTag(id) => assert Render(a)[11..] == id; if b.WithdrawalTag? { assert Render(b)[11..] == b.id; }
    case RefundTag(id) => assert Render(a)[24..] == id; if b.RefundTag? { assert Render(b)[24..] == b.id; }
  }

  /** A key handed in by a caller that is none of the wallet's own. */
  ghost predicate External(key: Key) {
    forall tag :: Render(tag) != key
  }

  /** A key is external exactly when it starts with none of the wallet's three prefixes. */
  lemma ExternalIff(key: Key)
    ensures External(key) <==>
      !("deposit:" <= key) && !("withdrawal:" <= key) && !("withdrawal-compensation:" <= key)
  {
    if "deposit:" <= key {
      assert Render(DepositTag(key[8..])) == key;
    }
    if "withdrawal:" <= key {
      assert Render(WithdrawalTag(key[11..])) == key;
    }
    if "withdrawal-compensation:" <= key {
      assert Render(RefundTag(key[24..])) == key;
    }
    forall tag | Render(tag) == key
      ensures "deposit:" <= key || "withdrawal:" <= key || "withdrawal-compensation:" <= key
    {
      match tag
      case DepositTag(_) => assert "deposit:" <= Render(tag);
      case WithdrawalTag(_) => assert "withdrawal:" <= Render(tag);
      case RefundTag(_) => assert "withdrawal-compensation:" <= Render(tag);
    }
  }

  /** Keys with the prefixes of the table service are external. */
  lemma TableKeysAreExternal(rest: string)
    ensures External("join:" + rest) && External("cashout:" + rest)
  {
    forall tag ensures Render(tag) != "join:" + rest && Render(tag) != "cashout:" + rest {
      assert Render(tag)[0] == 'd' || Render(tag)[0] == 'w';
      assert ("join:" + rest)[0] == 'j' && ("cashout:" + rest)[0] == 'c';
    }
  }

  // ----- the repository calls -----

  function RequestWithdrawal(w: Wallet, id: string, entryId: string, user: User, amount: int): Wallet {
    if amount <= 0 then w
    else
      match ApplyEntry(w.ledger, Entry(entryId, user, -amount, Render(WithdrawalTag(id))))
      case Applied(db) =>
        if id in w.withdrawals then w
        else w.(ledger := db, withdrawals := w.withdrawals[id := WithdrawalRow(user, amount, Pending)])
      case AlreadyApplied =>
        if id in w.withdrawals then w
        else w.(withdrawals := w.withdrawals[id := WithdrawalRow(user, amount, Pending)])
      case _ => w
  }

  function Posted(w: Wallet, e: Entry): Wallet {
    match ApplyEntry(w.ledger, e)
    case Applied(db) => w.(ledger := db)
    case _ => w
  }

  function DebitForJoin(w: Wallet, entryId: string, user: User, amount: int, key: Key): Wallet {
    if amount <= 0 then w else Posted(w, Entry(entryId, user, -amount, key))
  }

  function CreditForCashout(w: Wallet, entryId: string, user: User, amount: int, key: Key): Wallet {
    if amount <= 0 then w else Posted(w, Entry(entryId, user, amount, key))
  }

  function Provisioned(w: Wallet, user: User): Wallet {
    if user in w.ledger.balances then w
    else w.(ledger := w.ledger.(balances := w.ledger.balances[user := 0]))
  }

  /** The upsert keeps user, amount and status of a known transaction. */
  function Observe(w: Wallet, hash: Hash, user: User, amount: int, block: int): Wallet {
    var row := if hash in w.deposits then w.deposits[hash].(observed := block)
               else DepositRow(user, amount, false, block);
    w.(deposits := w.deposits[hash := row])
  }

  function ConfirmDeposit(w: Wallet, hash: Hash, entryId: string, user: User, amount: int): Wallet {
    if hash !in w.deposits || w.deposits[hash].confirmed then w
    else
      var marked := w.(deposits := w.deposits[hash := w.deposits[hash].(confirmed := true)]);
      match ApplyEntry(w.ledger, Entry(entryId, user, amount, Render(DepositTag(hash))))
      case Applied(db) => marked.(ledger := db)
      case AlreadyApplied => marked
      case _ => w
  }

  /** MarkWithdrawalSubmitted and MarkWithdrawalConfirmed do not look at the old status. */
  function MarkWithdrawal(w: Wallet, id: string, status: Status): Wallet {
    if id !in w.withdrawals then w
    else w.(withdrawals := w.withdrawals[id := w.withdrawals[id].(status := status)])
  }

  function MarkFailed(w: Wallet, id: string, entryId: string, user: User, amount: int): Wallet {
    if id !in w.withdrawals || w.withdrawals[id].status == Failed then w
    else
      match ApplyEntry(w.ledger, Entry(entryId, user, amount, Render(RefundTag(id))))
      case Applied(db) => MarkWithdrawal(w, id, Failed).(ledger := db)
      case AlreadyApplied => MarkWithdrawal(w, id, Failed)
      case _ => w
  }

  // ----- the balance equation -----

  ghost function DepositPart(ds: map<Hash, DepositRow>, user: User): map<Hash, int> {
    map h | h in ds :: if ds[h].confirmed && ds[h].user == user then ds[h].amount else 0
  }

  ghost function WithdrawalPart(ws: map<string, WithdrawalRow>, user: User): map<string, int> {
    map id | id in ws :: if ws[id].status != Failed && ws[id].user == user then ws[id].amount else 0
  }

  /** Cash-outs minus buy-ins: what the entries with external keys add up to. */
  ghost function ExternalSum(entries: seq<Entry>, user: User): int {
    if |entries| == 0 then 0
    else
      var e := entries[|entries| - 1];
      ExternalSum(entries[..|entries| - 1], user) + if e.user == user && External(e.key) then e.amount else 0
  }

  ghost predicate Equation(w: Wallet, user: User) {
    user in w.ledger.balances ==>
      w.ledger.balances[user]
      == Sum(DepositPart(w.deposits, user)) - Sum(WithdrawalPart(w.withdrawals, user))
         + ExternalSum(w.ledger.entries, user)
  }

  /** The events that must have exactly one ledger entry. */
  ghost predicate Due(w: Wallet, tag: Tag) {
    match tag
    case DepositTag(h) => h in w.deposits && w.deposits[h].confirmed
    case WithdrawalTag(id) => id in w.withdrawals
    case RefundTag(id) => id in w.withdrawals && w.withdrawals[id].status == Failed
  }

  ghost predicate Linked(w: Wallet) {
    forall tag :: HasKey(w.ledger.entries, Render(tag)) <==> Due(w, tag)
  }

  ghost predicate RowsValid(w: Wallet) {
    && (forall h :: h in w.deposits ==> 0 <= w.deposits[h].amount < TWO63)
    && (forall id :: id in w.withdrawals ==> 0 < w.withdrawals[id].amount < TWO63)
  }

  /** Rows of users without an account count for nobody with a balance. */
  ghost predicate WalletInv(w: Wallet) {
    && DbInv(w.ledger) && RowsValid(w) && Linked(w)
    && (forall h :: h in w.deposits && w.deposits[h].confirmed ==> w.deposits[h].user in w.ledger.balances)
    && (forall id :: id in w.withdrawals ==> w.withdrawals[id].user in w.ledger.balances)
    && forall user :: Equation(w, user)
  }

  lemma ExternalAppend(entries: seq<Entry>, e: Entry, user: User)
    ensures ExternalSum(entries + [e], user) == ExternalSum(entries, user)
      + if e.user == user && External(e.key) then e.amount else 0
  {
    assert (entries + [e])[..|entries|] == entries;
  }

  lemma HasKeyAppend(entries: seq<Entry>, e: Entry, key: Key)
    ensures HasKey(entries + [e], key) <==> HasKey(entries, key) || e.key == key
  {
    assert (entries + [e])[|entries|] == e;
    if HasKey(entries, key) {
      var i :| 0 <= i < |entries| && entries[i].key == key;
      assert (entries + [e])[i] == entries[i];
    }
  }

  lemma DepositSet(ds: map<Hash, DepositRow>, h: Hash, row: DepositRow, user: User)
    ensures Sum(DepositPart(ds[h := row], user)) == Sum(DepositPart(ds, user))
      - (if h in ds && ds[h].confirmed && ds[h].user == user then ds[h].amount else 0)
      + (if row.confirmed && row.user == user then row.amount else 0)
  {
    var v := if row.confirmed && row.user == user then row.amount else 0;
    SumSet(DepositPart(ds, user), h, v);
    assert DepositPart(ds[h := row], user) == DepositPart(ds, user)[h := v];
  }

  lemma WithdrawalSet(ws: map<string, WithdrawalRow>, id: string, row: WithdrawalRow, user: User)
    ensures Sum(WithdrawalPart(ws[id := row], user)) == Sum(WithdrawalPart(ws, user))
      - (if id in ws && ws[id].status != Failed && ws[id].user == user then ws[id].amount else 0)
      + (if row.status != Failed && row.user == user then row.amount else 0)
  {
    var v := if row.status != Failed && row.user == user then row.amount else 0;
    SumSet(WithdrawalPart(ws, user), id, v);
    assert WithdrawalPart(ws[id := row], user) == WithdrawalPart(ws, user)[id := v];
  }

  // ----- what every call does -----

  /** The ledger after an entry that moves `amount`, from any balance that allows it. */
  function Moved(db: Db, e: Entry): Db
    requires e.user in db.balances
  {
    Db(db.entries + [e], db.balances[e.user := db.balances[e.user] + e.amount])
  }

  /** A withdrawal is made exactly when it asks for something, its id and entry id are new, and the user's
      balance covers it: then the balance falls by it and a pending row is there. Otherwise nothing happens. */
  lemma WithdrawExact(w: Wallet, id: string, entryId: string, user: User, amount: int)
    requires WalletInv(w) && amount < TWO63
    ensures var made := amount > 0 && id !in w.withdrawals && !HasId(w.ledger.entries, entryId)
                        && user in w.ledger.balances && w.ledger.balances[user] >= amount;
      RequestWithdrawal(w, id, entryId, user, amount) ==
        if made then
          w.(ledger := Moved(w.ledger, Entry(entryId, user, -amount, "withdrawal:" + id)),
             withdrawals := w.withdrawals[id := WithdrawalRow(user, amount, Pending)])
        else w
  {
    if amount > 0 {
      ApplyExact(w.ledger, Entry(entryId, user, -amount, Render(WithdrawalTag(id))));
      assert HasKey(w.ledger.entries, Render(WithdrawalTag(id))) <==> Due(w, WithdrawalTag(id));
    }
  }

  /** There is room for the amount on the user's account and the entry id is new. */
  ghost predicate Fits(db: Db, entryId: string, user: User, amount: int) {
    user in db.balances && db.balances[user] + amount < TWO63 && !HasId(db.entries, entryId)
  }

  /** A deposit that is not yet confirmed is confirmed and its amount credited, both or neither: both
      exactly when the credit fits. A confirmed one stays as it is. */
  lemma ConfirmExact(w: Wallet, hash: Hash, entryId: string)
    requires WalletInv(w) && hash in w.deposits
    ensures var row := w.deposits[hash];
      ConfirmDeposit(w, hash, entryId, row.user, row.amount) ==
        if !row.confirmed && Fits(w.ledger, entryId, row.user, row.amount) then
          w.(ledger := Moved(w.ledger, Entry(entryId, row.user, row.amount, "deposit:" + hash)),
             deposits := w.deposits[hash := row.(confirmed := true)])
        else w
  {
    var row := w.deposits[hash];
    ApplyExact(w.ledger, Entry(entryId, row.user, row.amount, Render(DepositTag(hash))));
    assert HasKey(w.ledger.entries, Render(DepositTag(hash))) <==> Due(w, DepositTag(hash));
  }

  /** A withdrawal that has not failed fails and its amount is given back, both or neither: both exactly
      when the refund fits. A failed one stays as it is. */
  lemma FailExact(w: Wallet, id: string, entryId: string)
    requires WalletInv(w) && id in w.withdrawals
    ensures var row := w.withdrawals[id];
      MarkFailed(w, id, entryId, row.user, row.amount) ==
        if row.status != Failed && Fits(w.ledger, entryId, row.user, row.amount) then
          w.(ledger := Moved(w.ledger, Entry(entryId, row.user, row.amount, "withdrawal-compensation:" + id)),
             withdrawals := w.withdrawals[id := row.(status := Failed)])
        else w
  {
    var row := w.withdrawals[id];
    ApplyExact(w.ledger, Entry(entryId, row.user, row.amount, Render(RefundTag(id))));
    assert HasKey(w.ledger.entries, Render(RefundTag(id))) <==> Due(w, RefundTag(id));
  }

  // ----- every call keeps the equation -----

  /** A call that appended `e` and may have changed one row. */
  ghost predicate AppendsFor(w: Wallet, w': Wallet, e: Entry) {
    && w'.ledger.entries == w.ledger.entries + [e]
    && e.user in w.ledger.balances
    && w'.ledger.balances == w.ledger.balances[e.user := w.ledger.balances[e.user] + e.amount]
    && DbInv(w'.ledger)
  }

  lemma AppliedAppends(w: Wallet, w': Wallet, e: Entry)
    requires WalletInv(w) && Int64(e.amount) && ApplyEntry(w.ledger, e) == Applied(w'.ledger)
    ensures AppendsFor(w, w', e)
  {
    ApplyKeepsInv(w.ledger, e);
  }

  lemma LinkedAfter(w: Wallet, w': Wallet, e: Entry, event: Tag)
    requires Linked(w) && w'.ledger.entries == w.ledger.entries + [e] && e.key == Render(event)
    requires forall tag :: Due(w', tag) <==> Due(w, tag) || tag == event
    ensures Linked(w')
  {
    forall tag ensures HasKey(w'.ledger.entries, Render(tag)) <==> Due(w', tag) {
      HasKeyAppend(w.ledger.entries, e, Render(tag));
      RenderInjective(tag, event);
    }
  }

  lemma LinkedSame(w: Wallet, w': Wallet)
    requires Linked(w) && w'.ledger.entries == w.ledger.entries && forall tag :: Due(w', tag) <==> Due(w, tag)
    ensures Linked(w')
  {}

  lemma NotExternal(e: Entry, event: Tag)
    requires e.key == Render(event)
    ensures !External(e.key)
  {}

  lemma ConfirmKeepsInv(w: Wallet, hash: Hash, entryId: string)
    requires WalletInv(w) && hash in w.deposits
    ensures WalletInv(ConfirmDeposit(w, hash, entryId, w.deposits[hash].user, w.deposits[hash].amount))
  {
    var row := w.deposits[hash];
    var w' := ConfirmDeposit(w, hash, entryId, row.user, row.amount);
    var e := Entry(entryId, row.user, row.amount, Render(DepositTag(hash)));
    if w' != w {
      assert !Due(w, DepositTag(hash));
      AppliedAppends(w, w', e);
      LinkedAfter(w, w', e, DepositTag(hash));
      NotExternal(e, DepositTag(hash));
      forall user ensures Equation(w', user) {
        assert Equation(w, user);
        DepositSet(w.deposits, hash, row.(confirmed := true), user);
        ExternalAppend(w.ledger.entries, e, user);
      }
    }
  }

  lemma WithdrawKeepsInv(w: Wallet, id: string, entryId: string, user: User, amount: int)
    requires WalletInv(w) && amount < TWO63
    ensures WalletInv(RequestWithdrawal(w, id, entryId, user, amount))
  {
    var w' := RequestWithdrawal(w, id, entryId, user, amount);
    var e := Entry(entryId, user, -amount, Render(WithdrawalTag(id)));
    if w' != w {
      assert !Due(w, WithdrawalTag(id));
      AppliedAppends(w, w', e);
      LinkedAfter(w, w', e, WithdrawalTag(id));
      NotExternal(e, WithdrawalTag(id));
      forall u ensures Equation(w', u) {
        assert Equation(w, u);
        WithdrawalSet(w.withdrawals, id, WithdrawalRow(user, amount, Pending), u);
        ExternalAppend(w.ledger.entries, e, u);
      }
    }
  }

  lemma FailKeepsInv(w: Wallet, id: string, entryId: string)
    requires WalletInv(w) && id in w.withdrawals
    ensures WalletInv(MarkFailed(w, id, entryId, w.withdrawals[id].user, w.withdrawals[id].amount))
  {
    var row := w.withdrawals[id];
    var w' := MarkFailed(w, id, entryId, row.user, row.amount);
    var e := Entry(entryId, row.user, row.amount, Render(RefundTag(id)));
    if w' != w {
      assert !Due(w, RefundTag(id));
      AppliedAppends(w, w', e);
      LinkedAfter(w, w', e, RefundTag(id));
      NotExternal(e, RefundTag(id));
      forall u ensures Equation(w', u) {
        assert Equation(w, u);
        WithdrawalSet(w.withdrawals, id, row.(status := Failed), u);
        ExternalAppend(w.ledger.entries, e, u);
      }
    }
  }

  lemma MarkKeepsInv(w: Wallet, id: string, status: Status)
    requires WalletInv(w) && status != Failed && (id in w.withdrawals ==> w.withdrawals[id].status != Failed)
    ensures WalletInv(MarkWithdrawal(w, id, status))
  {
    if id in w.withdrawals {
      var w' := MarkWithdrawal(w, id, status);
      LinkedSame(w, w');
      forall u ensures Equation(w', u) {
        assert Equation(w, u);
        WithdrawalSet(w.withdrawals, id, w.withdrawals[id].(status := status), u);
      }
    }
  }

  /** An entry under a caller's key is harmless exactly when the key is external or nothing is posted. */
  lemma PostKeepsInv(w: Wallet, e: Entry)
    requires WalletInv(w) && Int64(e.amount)
    ensures WalletInv(Posted(w, e)) <==> External(e.key) || !ApplyEntry(w.ledger, e).Applied?
  {
    var w' := Posted(w, e);
    if ApplyEntry(w.ledger, e).Applied? {
      AppliedAppends(w, w', e);
      if External(e.key) {
        forall tag ensures HasKey(w'.ledger.entries, Render(tag)) <==> Due(w', tag) {
          HasKeyAppend(w.ledger.entries, e, Render(tag));
        }
        forall u ensures Equation(w', u) {
          assert Equation(w, u);
          ExternalAppend(w.ledger.entries, e, u);
        }
      } else {
        var tag :| Render(tag) == e.key;
        HasKeyAppend(w.ledger.entries, e, e.key);
        assert !HasKey(w.ledger.entries, Render(tag)) && HasKey(w'.ledger.entries, Render(tag));
        assert Due(w', tag) == Due(w, tag);
      }
    }
  }

  lemma ObserveKeepsInv(w: Wallet, hash: Hash, user: User, amount: int, block: int)
    requires WalletInv(w) && 0 <= amount < TWO63
    ensures WalletInv(Observe(w, hash, user, amount, block))
  {
    var w' := Observe(w, hash, user, amount, block);
    LinkedSame(w, w');
    forall u ensures Equation(w', u) {
      assert Equation(w, u);
      DepositSet(w.deposits, hash, w'.deposits[hash], u);
    }
  }

  lemma ProvisionKeepsWalletInv(w: Wallet, user: User)
    requires WalletInv(w)
    ensures WalletInv(Provisioned(w, user))
  {
    if user !in w.ledger.balances {
      var w' := Provisioned(w, user);
      NoEntriesFor(w.ledger.entries, user, w.ledger.balances);
      NothingYet(w, user);
      LinkedSame(w, w');
      forall u ensures Equation(w', u) {
        assert Equation(w, u);
      }
    }
  }

  lemma {:induction false} AllZero<K>(m: map<K, int>)
    requires forall k :: k in m ==> m[k] == 0
    ensures Sum(m) == 0
    decreases |m|
  {
    if m != map[] {
      var k :| k in m;
      SumRemove(m, k);
      AllZero(m - {k});
    }
  }

  lemma {:induction false} NoExternalFor(entries: seq<Entry>, u: User, balances: map<User, int>)
    requires u !in balances && forall i :: 0 <= i < |entries| ==> entries[i].user in balances
    ensures ExternalSum(entries, u) == 0
  {
    if |entries| > 0 {
      NoExternalFor(entries[..|entries| - 1], u, balances);
    }
  }

  lemma NothingYet(w: Wallet, user: User)
    requires WalletInv(w) && user !in w.ledger.balances
    ensures Sum(DepositPart(w.deposits, user)) == 0 && Sum(WithdrawalPart(w.withdrawals, user)) == 0
    ensures ExternalSum(w.ledger.entries, user) == 0
  {
    AllZero(DepositPart(w.deposits, user));
    AllZero(WithdrawalPart(w.withdrawals, user));
    NoExternalFor(w.ledger.entries, user, w.ledger.balances);
  }

  /** How far a balance is from what the equation says it should be. */
  ghost function Gap(w: Wallet, user: User): int
    requires user in w.ledger.balances
  {
    w.ledger.balances[user]
      - (Sum(DepositPart(w.deposits, user)) - Sum(WithdrawalPart(w.withdrawals, user))
         + ExternalSum(w.ledger.entries, user))
  }

  lemma StolenPost(w: Wallet, e: Entry, hash: Hash, user: User)
    requires WalletInv(w) && Int64(e.amount) && e.key == Render(DepositTag(hash)) && ApplyEntry(w.ledger, e).Applied?
    requires user in w.ledger.balances
    ensures user in Posted(w, e).ledger.balances && HasKey(Posted(w, e).ledger.entries, e.key)
    ensures Gap(Posted(w, e), user) == if user == e.user then e.amount else 0
  {
    AppliedAppends(w, Posted(w, e), e);
    NotExternal(e, DepositTag(hash));
    ExternalAppend(w.ledger.entries, e, user);
    HasKeyAppend(w.ledger.entries, e, e.key);
    assert Equation(w, user);
  }

  /** An entry posted under the key of a deposit that is still pending: its confirmation then marks it
      confirmed and credits nothing, then and ever after. */
  lemma StolenKeyGap(w: Wallet, e: Entry, hash: Hash, entryId: string, user: User)
    requires WalletInv(w) && hash in w.deposits && !w.deposits[hash].confirmed
    requires Int64(e.amount) && e.key == Render(DepositTag(hash)) && ApplyEntry(w.ledger, e).Applied?
    requires user in w.ledger.balances
    ensures var row, w1 := w.deposits[hash], Posted(w, e);
      var w2 := ConfirmDeposit(w1, hash, entryId, row.user, row.amount);
      && hash in w2.deposits && w2.deposits[hash].confirmed && w2.ledger == w1.ledger
      && (forall id, u, x :: ConfirmDeposit(w2, hash, id, u, x) == w2)
      && user in w2.ledger.balances
      && Gap(w2, user) == (if user == e.user then e.amount else 0) - (if user == row.user then row.amount else 0)
  {
    StolenPost(w, e, hash, user);
    DepositSet(w.deposits, hash, w.deposits[hash].(confirmed := true), user);
  }
}
