/** The evaluator's enumeration of five-card hands. */
module Combinations {
  import opened Domain

  type Tuple = seq<nat>

  /** A strictly increasing list of indices in [lo, n). */
  ghost predicate Increasing(t: Tuple, lo: nat, n: nat) {
    && (forall i :: 0 <= i < |t| ==> lo <= t[i] < n)
    && (forall i, j :: 0 <= i < j < |t| ==> t[i] < t[j])
  }

  function Prefixed(p: Tuple, ts: seq<Tuple>): seq<Tuple> {
    seq(|ts|, i requires 0 <= i < |ts| => p + ts[i])
  }

  /** The increasing k-tuples over [lo, n), smallest first element first. */
  function Choose(k: nat, lo: nat, n: nat): seq<Tuple>
    decreases k, n - lo
  {
    if k == 0 then [[]]
    else if lo >= n then []
    else Prefixed([lo], Choose(k - 1, lo + 1, n)) + Choose(k, lo + 1, n)
  }

  lemma {:induction false} ChooseSound(k: nat, lo: nat, n: nat)
    ensures forall i :: 0 <= i < |Choose(k, lo, n)| ==>
      |Choose(k, lo, n)[i]| == k && Increasing(Choose(k, lo, n)[i], lo, n)
    decreases k, n - lo
  {
    if k > 0 && lo < n {
      ChooseSound(k - 1, lo + 1, n);
      ChooseSound(k, lo + 1, n);
    }
  }

  lemma InPrefixed(p: Tuple, ts: seq<Tuple>, t: Tuple)
    requires t in ts
    ensures p + t in Prefixed(p, ts)
  {
    var i :| 0 <= i < |ts| && ts[i] == t;
    assert Prefixed(p, ts)[i] == p + t;
  }

  lemma InChoose(k: nat, lo: nat, n: nat, t: Tuple)
    requires k > 0 && lo < n
    requires t in Prefixed([lo], Choose(k - 1, lo + 1, n)) || t in Choose(k, lo + 1, n)
    ensures t in Choose(k, lo, n)
  {}

  lemma TailIncreases(t: Tuple, lo: nat, n: nat)
    requires Increasing(t, lo, n) && |t| > 0
    ensures t[0] == lo ==> Increasing(t[1..], lo + 1, n) && t == [lo] + t[1..]
    ensures t[0] != lo ==> Increasing(t, lo + 1, n)
  {}

  lemma {:induction false} ChooseComplete(t: Tuple, lo: nat, n: nat)
    requires Increasing(t, lo, n)
    ensures t in Choose(|t|, lo, n)
    decreases |t|, n - lo
  {
    if |t| > 0 {
      assert t[0] < n;
      TailIncreases(t, lo, n);
      if t[0] == lo {
        ChooseComplete(t[1..], lo + 1, n);
        InPrefixed([lo], Choose(|t| - 1, lo + 1, n), t[1..]);
      } else {
        ChooseComplete(t, lo + 1, n);
      }
      InChoose(|t|, lo, n, t);
    }
  }

  /** Lexicographic order on tuples of one length. */
  ghost predicate Before(s: Tuple, t: Tuple) {
    exists i :: 0 <= i < |s| && i < |t| && s[..i] == t[..i] && s[i] < t[i]
  }

  lemma BeforePrefixed(lo: nat, s: Tuple, t: Tuple)
    requires Before(s, t)
    ensures Before([lo] + s, [lo] + t)
  {
    var i :| 0 <= i < |s| && i < |t| && s[..i] == t[..i] && s[i] < t[i];
    assert ([lo] + s)[..i + 1] == [lo] + s[..i] == [lo] + t[..i] == ([lo] + t)[..i + 1];
    assert ([lo] + s)[i + 1] < ([lo] + t)[i + 1];
  }

  /** The listing is in strict lexicographic order, so no tuple is listed twice. */
  lemma {:induction false} ChooseOrdered(k: nat, lo: nat, n: nat, i: nat, j: nat)
    requires i < j < |Choose(k, lo, n)|
    ensures Before(Choose(k, lo, n)[i], Choose(k, lo, n)[j])
    decreases k, n - lo
  {
    var heads, later := Choose(k - 1, lo + 1, n), Choose(k, lo + 1, n);
    if j < |heads| {
      ChooseOrdered(k - 1, lo + 1, n, i, j);
      BeforePrefixed(lo, heads[i], heads[j]);
    } else if i >= |heads| {
      ChooseOrdered(k, lo + 1, n, i - |heads|, j - |heads|);
    } else {
      ChooseSound(k, lo + 1, n);
      var s, t := Choose(k, lo, n)[i], Choose(k, lo, n)[j];
      assert s[0] == lo && lo + 1 <= t[0] && s[..0] == t[..0];
    }
  }

  function Binomial(n: nat, k: nat): nat {
    if k == 0 then 1 else if n == 0 then 0 else Binomial(n - 1, k - 1) + Binomial(n - 1, k)
  }

  lemma {:induction false} ChooseLength(k: nat, lo: nat, n: nat)
    requires lo <= n
    ensures |Choose(k, lo, n)| == Binomial(n - lo, k)
    decreases k, n - lo
  {
    if k > 0 && lo < n {
      ChooseLength(k - 1, lo + 1, n);
      ChooseLength(k, lo + 1, n);
    }
  }

  /** One more factor: if c * C(m, k-1) is a product and c * k * C(m, k) its next product, the
      same holds at m + 1. */
  lemma NextProduct(m: int, k: int, falling: int, binom: int, binom': int, c: int)
    requires c * binom == falling && c * k * binom' == falling * (m - k + 1)
    ensures c * k * (binom + binom') == falling * (m + 1)
  {
    assert c * k * (binom + binom') == k * (c * binom) + c * k * binom';
    assert k * falling + falling * (m - k + 1) == falling * (m + 1);
  }

  function Falling(n: int, k: nat): int {
    if k == 0 then 1 else Falling(n, k - 1) * (n - k + 1)
  }

  function Factorial(k: nat): nat {
    if k == 0 then 1 else Factorial(k - 1) * k
  }

  lemma {:induction false} FallingShift(n: int, k: nat)
    ensures Falling(n + 1, k + 1) == (n + 1) * Falling(n, k)
  {
    if k > 0 {
      FallingShift(n, k - 1);
      var f := Falling(n, k - 1);
      assert Falling(n + 1, k + 1) == ((n + 1) * f) * (n + 1 - (k + 1) + 1);
      assert ((n + 1) * f) * (n - k + 1) == (n + 1) * (f * (n - k + 1));
    }
  }

  lemma FallingFromZero(k: nat)
    requires k > 0
    ensures Falling(0, k) == 0
  {
    FallingShift(-1, k - 1);
  }

  /** Pascal's rule, multiplied out. */
  lemma BinomialStep(n: nat, k: nat)
    requires n > 0 && k > 0
    requires Factorial(k - 1) * Binomial(n - 1, k - 1) == Falling(n - 1, k - 1)
    requires Factorial(k) * Binomial(n - 1, k) == Falling(n - 1, k)
    ensures Factorial(k) * Binomial(n, k) == Falling(n, k)
  {
    var f, g := Falling(n - 1, k - 1), Factorial(k - 1);
    var x, y := Binomial(n - 1, k - 1), Binomial(n - 1, k);
    assert Falling(n - 1, k) == f * (n - 1 - k + 1) && Factorial(k) == g * k;
    NextProduct(n - 1, k, f, x, y, g);
    FallingShift(n - 1, k - 1);
    assert Binomial(n, k) == x + y;
    assert g * k * (x + y) == f * n;
  }

  /** k! * C(n, k) = n (n-1) .. (n-k+1). */
  lemma {:induction false} BinomialClosed(n: nat, k: nat)
    ensures Factorial(k) * Binomial(n, k) == Falling(n, k)
    decreases n, k
  {
    if k > 0 {
      if n == 0 {
        FallingFromZero(k);
      } else {
        BinomialClosed(n - 1, k - 1);
        BinomialClosed(n - 1, k);
        BinomialStep(n, k);
      }
    }
  }

  lemma FallingFive(n: int)
    ensures Falling(n, 5) == n * (n - 1) * (n - 2) * (n - 3) * (n - 4)
  {
    assert Falling(n, 1) == n;
    assert Falling(n, 2) == n * (n - 1);
    assert Falling(n, 3) == n * (n - 1) * (n - 2);
    assert Falling(n, 4) == n * (n - 1) * (n - 2) * (n - 3);
  }

  /** The number of hands: n(n-1)(n-2)(n-3)(n-4)/120. */
  lemma HandCount(n: nat)
    ensures 120 * |Choose(5, 0, n)| == n * (n - 1) * (n - 2) * (n - 3) * (n - 4)
  {
    ChooseLength(5, 0, n);
    BinomialClosed(n, 5);
    FallingFive(n);
    assert Factorial(3) == 6;
    assert Factorial(5) == 120;
  }

  // ----- the five nested loops -----

  function Select(cards: seq<Card>, t: Tuple): seq<Card>
    requires forall i :: 0 <= i < |t| ==> t[i] < |cards|
  {
    seq(|t|, i requires 0 <= i < |t| => cards[t[i]])
  }

  ghost predicate Within(ts: seq<Tuple>, n: nat) {
    forall i, j :: 0 <= i < |ts| && 0 <= j < |ts[i]| ==> ts[i][j] < n
  }

  function SelectAll(cards: seq<Card>, ts: seq<Tuple>): seq<seq<Card>>
    requires Within(ts, |cards|)
  {
    seq(|ts|, i requires 0 <= i < |ts| => Select(cards, ts[i]))
  }

  lemma FiveWithin(n: nat)
    ensures Within(Choose(5, 0, n), n)
  {
    ChooseSound(5, 0, n);
  }

  ghost function Hands(cards: seq<Card>): seq<seq<Card>> {
    FiveWithin(|cards|);
    SelectAll(cards, Choose(5, 0, |cards|))
  }

  lemma {:induction false} NoRoom(k: nat, lo: nat, n: nat)
    requires k > 0 && lo + k > n
    ensures Choose(k, lo, n) == []
    decreases k, n - lo
  {
    if lo < n {
      NoRoom(k - 1, lo + 1, n);
      NoRoom(k, lo + 1, n);
    }
  }

  /** Opening the next loop level. */
  lemma Open(p: Tuple, k: nat, lo: nat, n: nat)
    requires k > 0 && lo < n
    ensures Prefixed(p, Choose(k, lo, n)) == Prefixed(p + [lo], Choose(k - 1, lo + 1, n))
      + Prefixed(p, Choose(k, lo + 1, n))
  {
    var heads := Choose(k - 1, lo + 1, n);
    assert forall i :: 0 <= i < |heads| ==> p + ([lo] + heads[i]) == (p + [lo]) + heads[i];
  }

  /** What remains to be listed after the prefix `p` when the next index starts at `lo`. */
  ghost function From(p: Tuple, lo: nat, n: nat): seq<Tuple>
    requires |p| <= 5
  {
    Prefixed(p, Choose(5 - |p|, lo, n))
  }

  /** `done` has been listed; the hands from prefix `p` and index `lo`, then `rest`, are to come. */
  ghost predicate ToCome(done: seq<Tuple>, p: Tuple, lo: nat, rest: seq<Tuple>, n: nat) {
    |p| <= 5 && done + From(p, lo, n) + rest == Choose(5, 0, n)
  }

  lemma Enter(done: seq<Tuple>, p: Tuple, lo: nat, rest: seq<Tuple>, n: nat)
    requires |p| < 5 && lo < n && ToCome(done, p, lo, rest, n)
    ensures ToCome(done, p + [lo], lo + 1, From(p, lo + 1, n) + rest, n)
  {
    Open(p, 5 - |p|, lo, n);
    var x, y := From(p + [lo], lo + 1, n), From(p, lo + 1, n);
    assert done + (x + y) + rest == done + x + (y + rest);
  }

  lemma Leave(done: seq<Tuple>, p: Tuple, i: nat, lo: nat, rest: seq<Tuple>, n: nat)
    requires |p| < 4 && lo + 4 - |p| > n
    requires ToCome(done, p + [i], lo, From(p, i + 1, n) + rest, n)
    ensures ToCome(done, p, i + 1, rest, n)
  {
    NoRoom(4 - |p|, lo, n);
    assert From(p + [i], lo, n) == [];
    var y := From(p, i + 1, n);
    assert done + [] + (y + rest) == done + y + rest;
  }

  /** The hands listed so far are those of `done`. */
  ghost predicate Listed(cards: seq<Card>, done: seq<Tuple>, result: seq<seq<Card>>) {
    Within(done, |cards|) && result == SelectAll(cards, done)
  }

  /** Where every level of the loop nest stands. */
  ghost predicate Progress(cards: seq<Card>, done: seq<Tuple>, result: seq<seq<Card>>,
                           p: Tuple, lo: nat, rest: seq<Tuple>) {
    Listed(cards, done, result) && ToCome(done, p, lo, rest, |cards|)
  }

  /** The loop over the first index; the loops nested in it follow, one method each. */
  method FiveCardHands(cards: seq<Card>) returns (result: seq<seq<Card>>)
    ensures result == Hands(cards)
  {
    FiveWithin(|cards|);
    result := [];
    ghost var done: seq<Tuple> := [];
    Begin(|cards|);
    var i := 0;
    while i < |cards| - 4
      invariant 0 <= i && (i <= |cards| - 4 || i == 0)
      invariant Progress(cards, done, result, [], i, [])
    {
      done, result := HandsAt1(cards, i, [], done, result, []);
      i := i + 1;
    }
    Finish(done, i, |cards|);
  }

  lemma Finish(done: seq<Tuple>, i: nat, n: nat)
    requires ToCome(done, [], i, [], n) && i + 4 >= n
    ensures done == Choose(5, 0, n)
  {
    NoRoom(5, i, n);
    assert From([], i, n) == [];
    assert done + [] + [] == done;
  }

  lemma Begin(n: nat)
    ensures ToCome([], [], 0, [], n)
  {
    var ts := Choose(5, 0, n);
    assert forall i :: 0 <= i < |ts| ==> [] + ts[i] == ts[i];
    assert Prefixed([], ts) == ts;
    assert [] + ts + [] == ts;
  }

  /** Lists the hands whose first indices are i. */
  method HandsAt1(cards: seq<Card>, i: nat, ghost p: Tuple,
      ghost done0: seq<Tuple>, result0: seq<seq<Card>>, ghost rest: seq<Tuple>)
    returns (ghost done: seq<Tuple>, result: seq<seq<Card>>)
    requires i < |cards| - 4 && p == []
    requires Progress(cards, done0, result0, p, i, rest)
    ensures Progress(cards, done, result, p, i + 1, rest)
  {
    done, result := done0, result0;
    Enter(done, p, i, rest, |cards|);
    ghost var q, todo := p + [i], From(p, i + 1, |cards|) + rest;
    var j := i + 1;
    while j < |cards| - 3
      invariant i < j <= |cards| - 3
      invariant Progress(cards, done, result, q, j, todo)
    {
      done, result := HandsAt2(cards, i, j, q, done, result, todo);
      j := j + 1;
    }
    Leave(done, p, i, j, rest, |cards|);
  }

  /** Lists the hands whose first indices are i, j. */
  method HandsAt2(cards: seq<Card>, i: nat, j: nat, ghost p: Tuple,
      ghost done0: seq<Tuple>, result0: seq<seq<Card>>, ghost rest: seq<Tuple>)
    returns (ghost done: seq<Tuple>, result: seq<seq<Card>>)
    requires i < j < |cards| - 3 && p == [i]
    requires Progress(cards, done0, result0, p, j, rest)
    ensures Progress(cards, done, result, p, j + 1, rest)
  {
    done, result := done0, result0;
    Enter(done, p, j, rest, |cards|);
    ghost var q, todo := p + [j], From(p, j + 1, |cards|) + rest;
    var k := j + 1;
    while k < |cards| - 2
      invariant j < k <= |cards| - 2
      invariant Progress(cards, done, result, q, k, todo)
    {
      done, result := HandsAt3(cards, i, j, k, q, done, result, todo);
      k := k + 1;
    }
    Leave(done, p, j, k, rest, |cards|);
  }

  /** Lists the hands whose first indices are i, j, k. */
  method HandsAt3(cards: seq<Card>, i: nat, j: nat, k: nat, ghost p: Tuple,
      ghost done0: seq<Tuple>, result0: seq<seq<Card>>, ghost rest: seq<Tuple>)
    returns (ghost done: seq<Tuple>, result: seq<seq<Card>>)
    requires i < j < k < |cards| - 2 && p == [i, j]
    requires Progress(cards, done0, result0, p, k, rest)
    ensures Progress(cards, done, result, p, k + 1, rest)
  {
    done, result := done0, result0;
    Enter(done, p, k, rest, |cards|);
    ghost var q, todo := p + [k], From(p, k + 1, |cards|) + rest;
    var l := k + 1;
    while l < |cards| - 1
      invariant k < l <= |cards| - 1
      invariant Progress(cards, done, result, q, l, todo)
    {
      done, result := HandsAt4(cards, i, j, k, l, q, done, result, todo);
      l := l + 1;
    }
    Leave(done, p, k, l, rest, |cards|);
  }

  /** Lists the hands whose first indices are i, j, k, l. */
  method HandsAt4(cards: seq<Card>, i: nat, j: nat, k: nat, l: nat, ghost p: Tuple,
      ghost done0: seq<Tuple>, result0: seq<seq<Card>>, ghost rest: seq<Tuple>)
    returns (ghost done: seq<Tuple>, result: seq<seq<Card>>)
    requires i < j < k < l < |cards| - 1 && p == [i, j, k]
    requires Progress(cards, done0, result0, p, l, rest)
    ensures Progress(cards, done, result, p, l + 1, rest)
  {
    done, result := done0, result0;
    Enter(done, p, l, rest, |cards|);
    ghost var q, todo := p + [l], From(p, l + 1, |cards|) + rest;
    var m := l + 1;
    while m < |cards|
      invariant l < m <= |cards|
      invariant Progress(cards, done, result, q, m, todo)
    {
      done, result := HandsAt5(cards, i, j, k, l, m, q, done, result, todo);
      m := m + 1;
    }
    Leave(done, p, l, m, rest, |cards|);
  }

  /** The body of the innermost loop. */
  method HandsAt5(cards: seq<Card>, i: nat, j: nat, k: nat, l: nat, m: nat, ghost p: Tuple,
      ghost done0: seq<Tuple>, result0: seq<seq<Card>>, ghost rest: seq<Tuple>)
    returns (ghost done: seq<Tuple>, result: seq<seq<Card>>)
    requires i < j < k < l < m < |cards| && p == [i, j, k, l]
    requires Progress(cards, done0, result0, p, m, rest)
    ensures Progress(cards, done, result, p, m + 1, rest)
  {
    Enter(done0, p, m, rest, |cards|);
    Emit(done0, p, m, rest, |cards|);
    var hand := [cards[i], cards[j], cards[k], cards[l], cards[m]];
    ListOne(cards, done0, result0, p + [m], hand);
    result := result0 + [hand];
    done := done0 + [p + [m]];
  }

  lemma ListOne(cards: seq<Card>, done: seq<Tuple>, result: seq<seq<Card>>, t: Tuple, hand: seq<Card>)
    requires Listed(cards, done, result)
    requires |t| == |hand| && forall i :: 0 <= i < |t| ==> t[i] < |cards| && hand[i] == cards[t[i]]
    ensures Listed(cards, done + [t], result + [hand])
  {
    assert Select(cards, t) == hand;
    assert SelectAll(cards, done + [t]) == SelectAll(cards, done) + [Select(cards, t)];
  }

  lemma Emit(done: seq<Tuple>, p: Tuple, m: nat, rest: seq<Tuple>, n: nat)
    requires |p| == 4 && m < n && ToCome(done, p + [m], m + 1, From(p, m + 1, n) + rest, n)
    ensures ToCome(done + [p + [m]], p, m + 1, rest, n)
  {
    assert p + [m] + [] == p + [m];
    assert From(p + [m], m + 1, n) == [p + [m]];
    var y := From(p, m + 1, n);
    assert done + [p + [m]] + (y + rest) == done + [p + [m]] + y + rest;
  }
}
