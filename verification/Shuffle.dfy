/** The deck and its in-place shuffle, with the random draws as an input. */
module Shuffle {
  import opened Domain

  // ----- the fresh deck -----

  const SUITS: seq<Suit> := [Spades, Hearts, Diamonds, Clubs]

  /** Card number k of a fresh deck: suit by suit, two to ace. */
  function DeckCard(k: nat): Card
    requires k < 52
  {
    Card(TWO + k % 13, SUITS[k / 13])
  }

  function NewDeck(): seq<Card> {
    seq(52, k requires 0 <= k < 52 => DeckCard(k))
  }

  method BuildDeck() returns (cards: seq<Card>)
    ensures cards == NewDeck()
  {
    cards := [];
    for s := 0 to 4
      invariant |cards| == 13 * s && forall k :: 0 <= k < |cards| ==> cards[k] == DeckCard(k)
    {
      var rank := TWO;
      while rank <= ACE
        invariant TWO <= rank <= ACE + 1
        invariant |cards| == 13 * s + (rank - TWO) && forall k :: 0 <= k < |cards| ==> cards[k] == DeckCard(k)
      {
        CardNumber(s, rank - TWO);
        cards := cards + [Card(rank, SUITS[s])];
        rank := rank + 1;
      }
    }
  }

  lemma CardNumber(s: nat, r: nat)
    requires s < 4 && r < 13
    ensures 13 * s + r < 52 && DeckCard(13 * s + r) == Card(TWO + r, SUITS[s])
  {}

  ghost predicate NoRepeats<T>(xs: seq<T>) {
    forall i, j :: 0 <= i < j < |xs| ==> xs[i] != xs[j]
  }

  /** The 52 cards are distinct and are all the valid ones. */
  lemma FreshDeck()
    ensures |NewDeck()| == 52 && NoRepeats(NewDeck())
    ensures forall c: Card :: c in NewDeck() <==> TWO <= c.rank <= ACE
  {
    forall c: Card | TWO <= c.rank <= ACE ensures c in NewDeck() {
      var s := match c.suit case Spades => 0 case Hearts => 1 case Diamonds => 2 case Clubs => 3;
      CardNumber(s, c.rank - TWO);
      assert NewDeck()[13 * s + (c.rank - TWO)] == c;
    }
    forall i, j | 0 <= i < j < 52 ensures NewDeck()[i] != NewDeck()[j] {
      assert i == 13 * (i / 13) + i % 13 && j == 13 * (j / 13) + j % 13;
    }
  }

  // ----- the shuffle -----

  function Swap<T>(xs: seq<T>, i: nat, j: nat): seq<T>
    requires i < |xs| && j < |xs|
  {
    xs[i := xs[j]][j := xs[i]]
  }

  /** draws[i] is the index drawn when position i is filled; the draw for position 0 is forced. */
  ghost predicate Draws(draws: seq<nat>, n: nat) {
    |draws| == n && forall i :: 0 <= i < n ==> draws[i] <= i
  }

  /** Positions i, i-1, .., 1 filled in turn. */
  function ShuffledFrom<T>(xs: seq<T>, draws: seq<nat>, i: nat): seq<T>
    requires |draws| == |xs| && (i < |xs| || i == 0)
    requires forall k :: 0 <= k < |xs| ==> draws[k] <= k
    decreases i
  {
    if i == 0 then xs else ShuffledFrom(Swap(xs, i, draws[i]), draws, i - 1)
  }

  function Shuffled<T>(xs: seq<T>, draws: seq<nat>): seq<T>
    requires |draws| == |xs| && forall k :: 0 <= k < |xs| ==> draws[k] <= k
  {
    ShuffledFrom(xs, draws, if |xs| == 0 then 0 else |xs| - 1)
  }

  method ShuffleCards(cards: seq<Card>, draws: seq<nat>) returns (shuffled: seq<Card>)
    requires Draws(draws, |cards|)
    ensures shuffled == Shuffled(cards, draws)
  {
    var result := new Card[|cards|](i requires 0 <= i < |cards| => cards[i]);
    assert result[..] == cards;
    var i := result.Length - 1;
    while i > 0
      invariant -1 <= i < result.Length && (i == -1 ==> result.Length == 0)
      invariant ShuffledFrom(result[..], draws, if i < 0 then 0 else i) == Shuffled(cards, draws)
    {
      ghost var before := result[..];
      result[i], result[draws[i]] := result[draws[i]], result[i];
      assert result[..] == Swap(before, i, draws[i]);
      i := i - 1;
    }
    shuffled := result[..];
  }

  lemma SwapKeepsCards<T>(xs: seq<T>, i: nat, j: nat)
    requires i < |xs| && j < |xs|
    ensures multiset(Swap(xs, i, j)) == multiset(xs) && |Swap(xs, i, j)| == |xs|
  {}

  lemma SwapNoRepeats<T>(xs: seq<T>, i: nat, j: nat)
    requires i < |xs| && j < |xs| && NoRepeats(xs)
    ensures NoRepeats(Swap(xs, i, j))
  {}

  lemma {:induction false} ShuffledKeepsCards<T>(xs: seq<T>, draws: seq<nat>, i: nat)
    requires Draws(draws, |xs|) && (i < |xs| || i == 0)
    ensures |ShuffledFrom(xs, draws, i)| == |xs|
    ensures multiset(ShuffledFrom(xs, draws, i)) == multiset(xs)
    decreases i
  {
    if i > 0 {
      SwapKeepsCards(xs, i, draws[i]);
      ShuffledKeepsCards(Swap(xs, i, draws[i]), draws, i - 1);
    }
  }

  /** Filling position i fixes it for good. */
  lemma {:induction false} ShuffledFixes<T>(xs: seq<T>, draws: seq<nat>, i: nat, k: nat)
    requires Draws(draws, |xs|) && i < k < |xs|
    ensures |ShuffledFrom(xs, draws, i)| == |xs| && ShuffledFrom(xs, draws, i)[k] == xs[k]
    decreases i
  {
    if i > 0 {
      var next := Swap(xs, i, draws[i]);
      assert next[k] == xs[k];
      ShuffledFixes(next, draws, i - 1, k);
    }
  }

  /** A shuffle is a permutation of the cards. */
  lemma ShuffleIsPermutation<T>(xs: seq<T>, draws: seq<nat>)
    requires Draws(draws, |xs|)
    ensures multiset(Shuffled(xs, draws)) == multiset(xs) && |Shuffled(xs, draws)| == |xs|
  {
    ShuffledKeepsCards(xs, draws, if |xs| == 0 then 0 else |xs| - 1);
  }

  lemma DrawnCard<T>(xs: seq<T>, d: seq<nat>, i: nat)
    requires Draws(d, |xs|) && 0 < i < |xs|
    ensures |ShuffledFrom(xs, d, i)| == |xs| && ShuffledFrom(xs, d, i)[i] == xs[d[i]]
  {
    var next := Swap(xs, i, d[i]);
    assert next[i] == xs[d[i]];
    ShuffledFixes(next, d, i - 1, i);
  }

  lemma SameDraw<T>(xs: seq<T>, d: seq<nat>, e: seq<nat>, i: nat)
    requires NoRepeats(xs) && Draws(d, |xs|) && Draws(e, |xs|) && 0 < i < |xs|
    requires ShuffledFrom(xs, d, i) == ShuffledFrom(xs, e, i)
    ensures d[i] == e[i]
  {
    DrawnCard(xs, d, i);
    DrawnCard(xs, e, i);
    var a, b := d[i], e[i];
    assert xs[a] == xs[b];
  }

  lemma {:induction false} DrawsDetermined<T>(xs: seq<T>, d: seq<nat>, e: seq<nat>, i: nat)
    requires NoRepeats(xs) && Draws(d, |xs|) && Draws(e, |xs|) && i < |xs|
    requires ShuffledFrom(xs, d, i) == ShuffledFrom(xs, e, i)
    ensures forall k :: 0 <= k <= i ==> d[k] == e[k]
    decreases i
  {
    if i == 0 {
      assert d[0] == 0 == e[0];
    } else {
      SameDraw(xs, d, e, i);
      SwapNoRepeats(xs, i, d[i]);
      DrawsDetermined(Swap(xs, i, d[i]), d, e, i - 1);
    }
  }

  /** The draws that turn `xs` into `target`, for positions 0..i. */
  ghost predicate Produces<T>(xs: seq<T>, target: seq<T>, draws: seq<nat>, i: nat) {
    Draws(draws, |xs|) && i < |xs| && ShuffledFrom(xs, draws, i) == target
  }

  lemma {:induction false} DropLast<T>(xs: seq<T>, ys: seq<T>, i: nat)
    requires i < |xs| == |ys| && multiset(xs) == multiset(ys)
    requires xs[i..] == ys[i..]
    ensures multiset(xs[..i]) == multiset(ys[..i])
  {
    assert xs == xs[..i] + xs[i..] && ys == ys[..i] + ys[i..];
    assert multiset(xs[..i]) == multiset(xs) - multiset(xs[i..]);
    assert multiset(ys[..i]) == multiset(ys) - multiset(ys[i..]);
  }

  lemma {:induction false} DrawsExist<T>(xs: seq<T>, target: seq<T>, i: nat) returns (draws: seq<nat>)
    requires i < |xs| == |target| && multiset(xs) == multiset(target)
    requires xs[i + 1..] == target[i + 1..]
    ensures Produces(xs, target, draws, i)
    ensures forall k :: i < k < |xs| ==> draws[k] == 0
    decreases i
  {
    if i == 0 {
      draws := seq(|xs|, _ => 0);
      OneLeft(xs, target);
    } else {
      var j := FindCard(xs, target, i);
      var next := Swap(xs, i, j);
      SwapKeepsCards(xs, i, j);
      assert next[i..] == target[i..] by {
        forall k | i <= k < |xs| ensures next[k] == target[k] {
          assert k > i ==> xs[i + 1..][k - i - 1] == target[i + 1..][k - i - 1];
        }
      }
      var rest := DrawsExist(next, target, i - 1);
      draws := rest[i := j];
      SameDraws(next, rest, draws, i - 1);
    }
  }

  lemma OneLeft<T>(xs: seq<T>, ys: seq<T>)
    requires 0 < |xs| == |ys| && multiset(xs) == multiset(ys) && xs[1..] == ys[1..]
    ensures xs == ys
  {
    assert xs == [xs[0]] + xs[1..] && ys == [ys[0]] + ys[1..];
    assert multiset{xs[0]} == multiset(xs) - multiset(xs[1..]);
    assert multiset{ys[0]} == multiset(ys) - multiset(ys[1..]);
    assert xs[0] in multiset{ys[0]};
  }

  lemma FindCard<T>(xs: seq<T>, target: seq<T>, i: nat) returns (j: nat)
    requires i < |xs| == |target| && multiset(xs) == multiset(target) && xs[i + 1..] == target[i + 1..]
    ensures j <= i && xs[j] == target[i]
  {
    if i + 1 < |xs| {
      DropLast(xs, target, i + 1);
    } else {
      assert xs[..i + 1] == xs && target[..i + 1] == target;
    }
    assert target[..i + 1][i] in multiset(target[..i + 1]);
    assert target[i] in xs[..i + 1];
    j :| 0 <= j < |xs[..i + 1]| && xs[..i + 1][j] == target[i];
  }

  lemma {:induction false} SameDraws<T>(xs: seq<T>, d: seq<nat>, e: seq<nat>, i: nat)
    requires Draws(d, |xs|) && Draws(e, |xs|) && i < |xs| && d[..i + 1] == e[..i + 1]
    ensures ShuffledFrom(xs, d, i) == ShuffledFrom(xs, e, i)
    decreases i
  {
    if i > 0 {
      assert d[i] == d[..i + 1][i] == e[i];
      assert d[..i] == d[..i + 1][..i] == e[..i];
      SameDraws(Swap(xs, i, d[i]), d, e, i - 1);
    }
  }

  /** For distinct cards every permutation comes from exactly one sequence of draws, so uniform
      draws give a uniform deck. */
  lemma ShuffleBijection<T>(xs: seq<T>, target: seq<T>) returns (draws: seq<nat>)
    requires NoRepeats(xs) && multiset(xs) == multiset(target)
    ensures Draws(draws, |xs|) && Shuffled(xs, draws) == target
    ensures forall e :: Draws(e, |xs|) && Shuffled(xs, e) == target ==> e == draws
  {
    assert |multiset(xs)| == |xs| && |multiset(target)| == |target|;
    if |xs| == 0 {
      draws := [];
    } else {
      var last := |xs| - 1;
      draws := DrawsExist(xs, target, last);
      forall e | Draws(e, |xs|) && Shuffled(xs, e) == target ensures e == draws {
        DrawsDetermined(xs, draws, e, last);
      }
    }
  }
}
