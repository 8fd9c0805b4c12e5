/** The wallet ledger: entries, balances and applyLedgerEntryTx as the sequential transaction it is
    meant to be. `WalletTx` has it as the interleaved statements it is made of. */
module Ledger {
  type User = string
  type Key = string

  datatype Entry = Entry(id: string, user: User, amount: int, key: Key)

  /** What is committed. */
  datatype Db = Db(entries: seq<Entry>, balances: map<User, int>)

  const TWO63 := 0x8000_0000_0000_0000

  ghost predicate Int64(x: int) {
    -TWO63 <= x < TWO63
  }

  /** Two's-complement addition of 64-bit integers. */
  function Add64(a: int, b: int): int {
    (a + b + TWO63) % (2 * TWO63) - TWO63
  }

  function SumFor(entries: seq<Entry>, user: User): int {
    if |entries| == 0 then 0
    else SumFor(entries[..|entries| - 1], user)
         + if entries[|entries| - 1].user == user then entries[|entries| - 1].amount else 0
  }

  predicate HasKey(entries: seq<Entry>, key: Key) {
    exists i :: 0 <= i < |entries| && entries[i].key == key
  }

  predicate HasId(entries: seq<Entry>, id: string) {
    exists i :: 0 <= i < |entries| && entries[i].id == id
  }

  ghost predicate KeysOnce(entries: seq<Entry>) {
    forall i, j :: 0 <= i < j < |entries| ==> entries[i].key != entries[j].key && entries[i].id != entries[j].id
  }

  /** Each balance is the sum of the user's entries, is not negative, and each key occurs once. */
  ghost predicate DbInv(db: Db) {
    && KeysOnce(db.entries)
    && (forall i :: 0 <= i < |db.entries| ==> db.entries[i].user in db.balances)
    && (forall u :: u in db.balances ==> db.balances[u] == SumFor(db.entries, u) && 0 <= db.balances[u] < TWO63)
  }

  // ----- the sequential transaction -----

  datatype Result = AlreadyApplied | AccountNotFound | InsufficientFunds | UniqueViolation | Applied(db: Db)

  function ApplyEntry(db: Db, e: Entry): Result {
    if HasKey(db.entries, e.key) then AlreadyApplied
    else if e.user !in db.balances then AccountNotFound
    else
      var newBalance := Add64(db.balances[e.user], e.amount);
      if newBalance < 0 then InsufficientFunds
      else if HasId(db.entries, e.id) then UniqueViolation
      else Applied(Db(db.entries + [e], db.balances[e.user := newBalance]))
  }

  /** From a balance that is not negative, a wrapped sum that is not negative did not wrap. */
  lemma NoHarmfulWrap(balance: int, amount: int)
    requires 0 <= balance < TWO63 && Int64(amount)
    ensures Add64(balance, amount) >= 0 <==> 0 <= balance + amount < TWO63
    ensures Add64(balance, amount) >= 0 ==> Add64(balance, amount) == balance + amount
  {}

  lemma SumAppend(entries: seq<Entry>, e: Entry, user: User)
    ensures SumFor(entries + [e], user) == SumFor(entries, user) + if e.user == user then e.amount else 0
  {
    assert (entries + [e])[..|entries|] == entries;
  }

  /** Appending a fresh entry of a known user whose new balance is in range keeps the books. */
  lemma AppendKeepsInv(db: Db, e: Entry)
    requires DbInv(db) && e.user in db.balances
    requires !HasKey(db.entries, e.key) && !HasId(db.entries, e.id)
    requires 0 <= db.balances[e.user] + e.amount < TWO63
    ensures DbInv(Db(db.entries + [e], db.balances[e.user := db.balances[e.user] + e.amount]))
  {
    var entries := db.entries + [e];
    forall i, j | 0 <= i < j < |entries| ensures entries[i].key != entries[j].key && entries[i].id != entries[j].id {
      assert entries[i] == db.entries[i];
    }
    forall u | u in db.balances
      ensures SumFor(entries, u) == SumFor(db.entries, u) + if e.user == u then e.amount else 0
    {
      SumAppend(db.entries, e, u);
    }
  }

  lemma ApplyKeepsInv(db: Db, e: Entry)
    requires DbInv(db) && Int64(e.amount)
    ensures var r := ApplyEntry(db, e); r.Applied? ==>
      && DbInv(r.db) && r.db.entries == db.entries + [e]
      && r.db.balances == db.balances[e.user := db.balances[e.user] + e.amount]
  {
    if ApplyEntry(db, e).Applied? {
      NoHarmfulWrap(db.balances[e.user], e.amount);
      AppendKeepsInv(db, e);
    }
  }

  /** What the transaction does, in unbounded arithmetic: an entry is posted exactly when its key and id are
      new, its user has an account, and the balance it leaves is neither negative nor too large. */
  lemma ApplyExact(db: Db, e: Entry)
    requires DbInv(db) && Int64(e.amount)
    ensures ApplyEntry(db, e).AlreadyApplied? <==> HasKey(db.entries, e.key)
    ensures ApplyEntry(db, e).Applied? <==>
      && !HasKey(db.entries, e.key) && !HasId(db.entries, e.id)
      && e.user in db.balances && 0 <= db.balances[e.user] + e.amount < TWO63
    ensures ApplyEntry(db, e).Applied? ==>
      ApplyEntry(db, e).db == Db(db.entries + [e], db.balances[e.user := db.balances[e.user] + e.amount])
  {
    if e.user in db.balances {
      NoHarmfulWrap(db.balances[e.user], e.amount);
    }
  }

  lemma {:induction false} NoEntriesFor(entries: seq<Entry>, u: User, balances: map<User, int>)
    requires u !in balances && forall i :: 0 <= i < |entries| ==> entries[i].user in balances
    ensures SumFor(entries, u) == 0
  {
    if |entries| > 0 {
      NoEntriesFor(entries[..|entries| - 1], u, balances);
    }
  }

  /** A new account has no entries yet. */
  lemma NewAccountKeepsInv(db: Db, u: User)
    requires DbInv(db) && u !in db.balances
    ensures DbInv(db.(balances := db.balances[u := 0]))
  {
    NoEntriesFor(db.entries, u, db.balances);
  }

  lemma HasAppended(entries: seq<Entry>, e: Entry, f: Entry)
    ensures HasKey(entries + [e], f.key) ==> HasKey(entries, f.key) || e.key == f.key
    ensures HasId(entries + [e], f.id) ==> HasId(entries, f.id) || e.id == f.id
  {}
}
