/** Ranking five-card hands and choosing the best one of any number of cards. */
module Evaluator {
  import opened Domain
  import opened Combinations
  import opened Order

  // ----- sorted ranks -----

  function Ranks(cards: seq<Card>): seq<nat> {
    seq(|cards|, i requires 0 <= i < |cards| => cards[i].rank)
  }

  predicate Ascending(xs: seq<nat>) {
    forall i, j :: 0 <= i < j < |xs| ==> xs[i] <= xs[j]
  }

  function Insert(x: nat, xs: seq<nat>): (r: seq<nat>)
    ensures multiset(r) == multiset(xs) + multiset{x}
  {
    if |xs| == 0 || x <= xs[0] then [x] + xs
    else
      assert xs == [xs[0]] + xs[1..];
      [xs[0]] + Insert(x, xs[1..])
  }

  lemma InsertFrom(x: nat, xs: seq<nat>, least: nat)
    requires least <= x && forall i :: 0 <= i < |xs| ==> least <= xs[i]
    ensures forall i :: 0 <= i < |Insert(x, xs)| ==> least <= Insert(x, xs)[i]
  {
    forall i | 0 <= i < |Insert(x, xs)| ensures least <= Insert(x, xs)[i] {
      var y := Insert(x, xs)[i];
      assert y in multiset(Insert(x, xs));
      assert y == x || y in multiset(xs);
    }
  }

  lemma {:induction false} InsertAscends(x: nat, xs: seq<nat>)
    requires Ascending(xs)
    ensures Ascending(Insert(x, xs))
  {
    if |xs| > 0 && x > xs[0] {
      InsertAscends(x, xs[1..]);
      InsertFrom(x, xs[1..], xs[0]);
    }
  }

  /** sort.Ints. */
  function Sorted(xs: seq<nat>): (r: seq<nat>)
    ensures Ascending(r) && multiset(r) == multiset(xs) && |r| == |xs|
  {
    if |xs| == 0 then []
    else
      assert xs == [xs[0]] + xs[1..];
      InsertAscends(xs[0], Sorted(xs[1..]));
      var r := Insert(xs[0], Sorted(xs[1..]));
      assert |multiset(r)| == |r| && |multiset(xs)| == |xs|;
      r
  }

  lemma HeadAndTail<T>(a: seq<T>)
    requires |a| > 0
    ensures multiset(a) == multiset{a[0]} + multiset(a[1..])
  {
    assert a == [a[0]] + a[1..];
  }

  lemma SameHead(a: seq<nat>, b: seq<nat>)
    requires Ascending(a) && Ascending(b) && multiset(a) == multiset(b) && |a| > 0
    ensures |b| > 0 && a[0] == b[0]
  {
    assert a[0] in multiset(b) && a[0] in b;
    assert b[0] in multiset(a) && b[0] in a;
  }

  lemma {:induction false} SortedUnique(a: seq<nat>, b: seq<nat>)
    requires Ascending(a) && Ascending(b) && multiset(a) == multiset(b)
    ensures a == b
  {
    if |a| == 0 {
      assert |multiset(b)| == |b|;
    } else {
      SameHead(a, b);
      HeadAndTail(a);
      HeadAndTail(b);
      assert multiset(a[1..]) == multiset(a) - multiset{a[0]} == multiset(b[1..]);
      SortedUnique(a[1..], b[1..]);
      assert a == [a[0]] + a[1..] == [b[0]] + b[1..] == b;
    }
  }

  function SortedRanks(cards: seq<Card>): seq<nat> {
    Sorted(Ranks(cards))
  }

  function Reversed(xs: seq<nat>): seq<nat> {
    seq(|xs|, i requires 0 <= i < |xs| => xs[|xs| - 1 - i])
  }

  predicate Descending(xs: seq<nat>) {
    forall i, j :: 0 <= i < j < |xs| ==> xs[i] >= xs[j]
  }

  lemma {:induction false} ReversedKeeps(xs: seq<nat>)
    ensures multiset(Reversed(xs)) == multiset(xs)
  {
    if |xs| > 0 {
      ReversedKeeps(xs[1..]);
      assert xs == [xs[0]] + xs[1..];
      assert Reversed(xs) == Reversed(xs[1..]) + [xs[0]];
    }
  }

  function SortedRanksDesc(cards: seq<Card>): (r: seq<nat>)
    ensures |r| == |cards| && Descending(r) && multiset(r) == multiset(Ranks(cards))
  {
    ReversedKeeps(SortedRanks(cards));
    Reversed(SortedRanks(cards))
  }

  /** The in-place reversal of sortedRanksDesc. */
  method ReverseRanks(ranks: array<nat>)
    modifies ranks
    ensures ranks[..] == Reversed(old(ranks[..]))
  {
    var i, j := 0, ranks.Length - 1;
    while i < j
      invariant 0 <= i <= j + 1 <= ranks.Length && i + j == ranks.Length - 1
      invariant forall k :: 0 <= k < i || j < k < ranks.Length ==> ranks[k] == old(ranks[ranks.Length - 1 - k])
      invariant forall k :: i <= k <= j ==> ranks[k] == old(ranks[k])
    {
      ranks[i], ranks[j] := ranks[j], ranks[i];
      i, j := i + 1, j - 1;
    }
  }

  // ----- hand ranks -----

  const HIGH_CARD := 1
  const ONE_PAIR := 2
  const TWO_PAIR := 3
  const THREE_OF_A_KIND := 4
  const STRAIGHT := 5
  const FLUSH := 6
  const FULL_HOUSE := 7
  const FOUR_OF_A_KIND := 8
  const STRAIGHT_FLUSH := 9
  const ROYAL_FLUSH := 10

  predicate IsFlush(cards: seq<Card>)
    requires |cards| == 5
  {
    forall i :: 1 <= i < 5 ==> cards[i].suit == cards[0].suit
  }

  function Distinct(ranks: seq<nat>): set<nat> {
    set r | r in ranks
  }

  /** Over ascending ranks: five in a row, or the ace-low wheel. */
  predicate IsStraight(ranks: seq<nat>)
    requires |ranks| == 5
  {
    || (ranks[4] == ranks[0] + 4 && |Distinct(ranks)| == 5)
    || ranks == [2, 3, 4, 5, 14]
  }

  /** The ranks that occur exactly k times. */
  function Occurring(ranks: seq<nat>, k: nat): set<nat> {
    set r | r in ranks && multiset(ranks)[r] == k
  }

  /** The cascade of rankHand, over what it looks at: one suit or not, and the ascending ranks. */
  function RankOf(flush: bool, ranks: seq<nat>): nat
    requires |ranks| == 5
  {
    if flush && IsStraight(ranks) && ranks[4] == ACE && ranks[0] == TEN then ROYAL_FLUSH
    else if flush && IsStraight(ranks) then STRAIGHT_FLUSH
    else if Occurring(ranks, 4) != {} then FOUR_OF_A_KIND
    else if Occurring(ranks, 3) != {} && Occurring(ranks, 2) != {} then FULL_HOUSE
    else if flush then FLUSH
    else if IsStraight(ranks) then STRAIGHT
    else if Occurring(ranks, 3) != {} then THREE_OF_A_KIND
    else if |Occurring(ranks, 2)| == 2 then TWO_PAIR
    else if Occurring(ranks, 2) != {} then ONE_PAIR
    else HIGH_CARD
  }

  function RankHand(cards: seq<Card>): nat
    requires |cards| == 5
  {
    RankOf(IsFlush(cards), SortedRanks(cards))
  }

  lemma Cascade(flush: bool, ranks: seq<nat>)
    requires |ranks| == 5
    ensures HIGH_CARD <= RankOf(flush, ranks) <= ROYAL_FLUSH
  {}

  /** rankCounts: the counts it builds are the multiplicities of the ranks. */
  method RankCounts(cards: seq<Card>) returns (counts: map<nat, nat>)
    ensures forall r :: r in counts <==> r in multiset(Ranks(cards))
    ensures forall r :: r in counts ==> counts[r] == multiset(Ranks(cards))[r]
  {
    counts := map[];
    for i := 0 to |cards|
      invariant forall r :: r in counts <==> r in multiset(Ranks(cards[..i]))
      invariant forall r :: r in counts ==> counts[r] == multiset(Ranks(cards[..i]))[r]
    {
      var r := cards[i].rank;
      assert Ranks(cards[..i + 1]) == Ranks(cards[..i]) + [r];
      counts := counts[r := (if r in counts then counts[r] else 0) + 1];
    }
    assert cards[..|cards|] == cards;
  }

  function Twos(counts: map<nat, nat>): set<nat> {
    set r | r in counts && counts[r] == 2
  }

  /** The counting loop of isTwoPair, in the arbitrary order of a map iteration. */
  method CountPairs(counts: map<nat, nat>) returns (pairs: nat)
    ensures pairs == |Twos(counts)|
  {
    pairs := 0;
    var todo := counts.Keys;
    ghost var seen := {};
    while todo != {}
      invariant todo <= counts.Keys
      invariant seen == set r | r in counts && r !in todo && counts[r] == 2
      invariant pairs == |seen|
      decreases |todo|
    {
      var r :| r in todo;
      if counts[r] == 2 {
        pairs := pairs + 1;
        seen := seen + {r};
      }
      todo := todo - {r};
    }
    assert seen == Twos(counts);
  }

  lemma OccurringByCounts(xs: seq<nat>, ys: seq<nat>, k: nat)
    requires multiset(xs) == multiset(ys)
    ensures Occurring(xs, k) == Occurring(ys, k)
  {
    assert forall r :: r in xs <==> r in multiset(xs);
    assert forall r :: r in ys <==> r in multiset(ys);
  }

  method IsTwoPair(cards: seq<Card>) returns (b: bool)
    ensures b <==> |Occurring(SortedRanks(cards), 2)| == 2
  {
    var counts := RankCounts(cards);
    var pairs := CountPairs(counts);
    OccurringByCounts(SortedRanks(cards), Ranks(cards), 2);
    assert Twos(counts) == Occurring(Ranks(cards), 2);
    b := pairs == 2;
  }

  // ----- comparing -----

  /** The first difference decides. */
  function CompareRanks(a: seq<nat>, b: seq<nat>): int {
    if |a| == 0 && |b| == 0 then 0
    else if |b| == 0 then 1
    else if |a| == 0 then -1
    else if a[0] > b[0] then 1
    else if a[0] < b[0] then -1
    else CompareRanks(a[1..], b[1..])
  }

  /** The ranks agree before place k, where `a` has the higher one. */
  ghost predicate HigherAt(a: seq<nat>, b: seq<nat>, k: nat) {
    k < |a| && k < |b| && (forall j :: 0 <= j < k ==> a[j] == b[j]) && a[k] > b[k]
  }

  method CompareCards(a: seq<Card>, b: seq<Card>) returns (r: int)
    requires |a| == |b| == 5
    ensures r == CompareRanks(SortedRanksDesc(a), SortedRanksDesc(b))
    ensures r > 0 <==> exists k: nat :: HigherAt(SortedRanksDesc(a), SortedRanksDesc(b), k)
    ensures r < 0 <==> exists k: nat :: HigherAt(SortedRanksDesc(b), SortedRanksDesc(a), k)
  {
    var aRanks, bRanks := SortedRanksDesc(a), SortedRanksDesc(b);
    for i := 0 to 5
      invariant CompareRanks(aRanks[i..], bRanks[i..]) == CompareRanks(aRanks, bRanks)
      invariant forall j :: 0 <= j < i ==> aRanks[j] == bRanks[j]
    {
      if aRanks[i] > bRanks[i] {
        assert HigherAt(aRanks, bRanks, i);
        return 1;
      }
      if aRanks[i] < bRanks[i] {
        assert HigherAt(bRanks, aRanks, i);
        return -1;
      }
      assert aRanks[i..][1..] == aRanks[i + 1..] && bRanks[i..][1..] == bRanks[i + 1..];
    }
    return 0;
  }

  datatype HandResult = HandResult(rank: nat, cards: seq<Card>)

  function Compare(a: HandResult, b: HandResult): int {
    if a.rank > b.rank then 1
    else if a.rank < b.rank then -1
    else CompareRanks(SortedRanksDesc(a.cards), SortedRanksDesc(b.cards))
  }

  lemma {:induction false} RanksOrder(a: seq<nat>, b: seq<nat>, c: seq<nat>)
    ensures CompareRanks(a, b) == -CompareRanks(b, a)
    ensures CompareRanks(a, b) == 0 <==> a == b
    ensures CompareRanks(a, b) >= 0 && CompareRanks(b, c) >= 0 ==> CompareRanks(a, c) >= 0
  {
    if |a| > 0 && |b| > 0 {
      RanksOrder(a[1..], b[1..], if |c| > 0 then c[1..] else c);
      assert a == [a[0]] + a[1..] && b == [b[0]] + b[1..];
    }
  }

  lemma ReversedInjective(x: seq<nat>, y: seq<nat>)
    requires Reversed(x) == Reversed(y)
    ensures x == y
  {
    assert |Reversed(x)| == |x| && |Reversed(y)| == |y|;
    forall i | 0 <= i < |x| ensures x[i] == y[i] {
      assert Reversed(x)[|x| - 1 - i] == x[i];
    }
  }

  /** Compare is zero exactly for equal rank and equal sorted ranks. */
  lemma CompareTies(a: HandResult, b: HandResult)
    ensures Compare(a, b) == 0 <==> a.rank == b.rank && SortedRanks(a.cards) == SortedRanks(b.cards)
  {
    RanksOrder(SortedRanksDesc(a.cards), SortedRanksDesc(b.cards), []);
    if SortedRanksDesc(a.cards) == SortedRanksDesc(b.cards) {
      ReversedInjective(SortedRanks(a.cards), SortedRanks(b.cards));
    }
  }

  /** Compare is a total preorder, as choosing a pot's winners needs. */
  lemma CompareIsPreorder()
    ensures TotalPreorder(Compare)
  {
    forall a, b, c
      ensures Compare(a, b) == -Compare(b, a)
      ensures Compare(a, b) >= 0 && Compare(b, c) >= 0 ==> Compare(a, c) >= 0
    {
      RanksOrder(SortedRanksDesc(a.cards), SortedRanksDesc(b.cards), SortedRanksDesc(c.cards));
    }
  }

  // ----- the order of the cards does not matter -----

  function Without<T>(xs: seq<T>, i: nat): seq<T>
    requires i < |xs|
  {
    xs[..i] + xs[i + 1..]
  }

  lemma WithoutOne<T>(xs: seq<T>, i: nat)
    requires i < |xs|
    ensures multiset(xs) == multiset(Without(xs, i)) + multiset{xs[i]}
  {
    assert xs == xs[..i] + [xs[i]] + xs[i + 1..];
  }

  lemma RanksWithout(xs: seq<Card>, i: nat)
    requires i < |xs|
    ensures Ranks(Without(xs, i)) == Without(Ranks(xs), i)
  {}

  lemma {:induction false} RanksOfPermutation(xs: seq<Card>, ys: seq<Card>)
    requires multiset(xs) == multiset(ys)
    ensures multiset(Ranks(xs)) == multiset(Ranks(ys))
    decreases |xs|
  {
    if |xs| == 0 {
      assert |multiset(ys)| == |ys|;
    } else {
      assert xs[0] in multiset(ys);
      var i :| 0 <= i < |ys| && ys[i] == xs[0];
      WithoutOne(xs, 0);
      WithoutOne(ys, i);
      assert multiset(Without(xs, 0)) == multiset(xs) - multiset{xs[0]} == multiset(Without(ys, i));
      RanksOfPermutation(Without(xs, 0), Without(ys, i));
      RanksWithout(xs, 0);
      RanksWithout(ys, i);
      WithoutOne(Ranks(xs), 0);
      WithoutOne(Ranks(ys), i);
    }
  }

  // ----- which hand is the better one -----

  ghost predicate HighToLow(x: seq<Card>) {
    forall i, j :: 0 <= i < j < |x| ==> x[i].rank >= x[j].rank
  }

  /** The same cards, from the highest rank down. */
  ghost predicate LaidOut(x: seq<Card>, cards: seq<Card>) {
    multiset(x) == multiset(cards) && HighToLow(x)
  }

  lemma PutBetween(high: seq<Card>, c: Card, low: seq<Card>)
    requires HighToLow(high + low)
    requires forall i :: 0 <= i < |high| ==> high[i].rank >= c.rank
    requires |low| > 0 ==> c.rank >= low[0].rank
    ensures HighToLow(high + [c] + low)
  {
    var was, x := high + low, high + [c] + low;
    forall i, j | 0 <= i < j < |x| ensures x[i].rank >= x[j].rank {
      assert i < |high| ==> x[i] == was[i];
      assert i > |high| ==> x[i] == was[i - 1];
      assert j < |high| ==> x[j] == was[j];
      assert j > |high| ==> x[j] == was[j - 1];
      assert j > |high| ==> was[|high|] == low[0] && low[0].rank >= x[j].rank;
    }
  }

  lemma PutIn(rest: seq<Card>, c: Card) returns (x: seq<Card>)
    requires HighToLow(rest)
    ensures HighToLow(x) && multiset(x) == multiset(rest) + multiset{c}
  {
    var k := 0;
    while k < |rest| && rest[k].rank > c.rank
      invariant k <= |rest| && forall i :: 0 <= i < k ==> rest[i].rank > c.rank
    {
      k := k + 1;
    }
    assert rest == rest[..k] + rest[k..];
    PutBetween(rest[..k], c, rest[k..]);
    x := rest[..k] + [c] + rest[k..];
  }

  /** Any cards can be laid out so. */
  lemma {:induction false} LayOut(cards: seq<Card>) returns (x: seq<Card>)
    ensures LaidOut(x, cards)
  {
    if |cards| == 0 {
      x := [];
    } else {
      var last := |cards| - 1;
      var rest := LayOut(cards[..last]);
      assert cards == cards[..last] + [cards[last]];
      x := PutIn(rest, cards[last]);
    }
  }

  lemma LaidOutRanks(x: seq<Card>, cards: seq<Card>)
    requires LaidOut(x, cards)
    ensures Ranks(x) == SortedRanksDesc(cards)
  {
    RanksOfPermutation(x, cards);
    ReversedKeeps(Ranks(x));
    SortedUnique(Reversed(Ranks(x)), SortedRanks(cards));
    assert |Ranks(x)| == |Reversed(Ranks(x))| == |SortedRanks(cards)|;
    forall i | 0 <= i < |Ranks(x)| ensures Ranks(x)[i] == SortedRanksDesc(cards)[i] {
      assert Reversed(Ranks(x))[|x| - 1 - i] == Ranks(x)[i];
    }
  }

  lemma {:induction false} FirstDifference(a: seq<nat>, b: seq<nat>)
    requires |a| == |b|
    ensures CompareRanks(a, b) > 0 <==> exists k: nat :: HigherAt(a, b, k)
  {
    if |a| > 0 {
      FirstDifference(a[1..], b[1..]);
      if a[0] > b[0] {
        assert HigherAt(a, b, 0);
      }
      if k: nat :| HigherAt(a[1..], b[1..], k) && a[0] == b[0] {
        assert HigherAt(a, b, k + 1) by {
          forall j | 0 <= j < k + 1 ensures a[j] == b[j] { assert j > 0 ==> a[1..][j - 1] == b[1..][j - 1]; }
        }
      }
      if k: nat :| HigherAt(a, b, k) {
        if k > 0 {
          assert a[0] == b[0];
          assert HigherAt(a[1..], b[1..], k - 1);
        }
      }
    }
  }

  /** The cards agree in rank before place k, where `x` has the higher one. */
  ghost predicate HigherCardAt(x: seq<Card>, y: seq<Card>, k: nat) {
    k < |x| && k < |y| && (forall j :: 0 <= j < k ==> x[j].rank == y[j].rank) && x[k].rank > y[k].rank
  }

  lemma HigherCard(x: seq<Card>, y: seq<Card>, k: nat)
    ensures HigherAt(Ranks(x), Ranks(y), k) <==> HigherCardAt(x, y, k)
  {
    if HigherAt(Ranks(x), Ranks(y), k) {
      forall j | 0 <= j < k ensures x[j].rank == y[j].rank {
        assert Ranks(x)[j] == Ranks(y)[j];
      }
    }
  }

  /** Which of two hands is better: the higher category; between hands of one category, laid out from the
      highest rank down, the one with the higher rank where they first differ. */
  lemma CompareMeaning(a: HandResult, b: HandResult, x: seq<Card>, y: seq<Card>)
    requires |a.cards| == |b.cards| && LaidOut(x, a.cards) && LaidOut(y, b.cards)
    ensures a.rank != b.rank ==> (Compare(a, b) > 0 <==> a.rank > b.rank)
    ensures a.rank == b.rank ==> (Compare(a, b) > 0 <==> exists k: nat :: HigherCardAt(x, y, k))
  {
    LaidOutRanks(x, a.cards);
    LaidOutRanks(y, b.cards);
    FirstDifference(Ranks(x), Ranks(y));
    forall k: nat ensures HigherAt(Ranks(x), Ranks(y), k) <==> HigherCardAt(x, y, k) {
      HigherCard(x, y, k);
    }
  }

  lemma FlushOfPermutation(xs: seq<Card>, ys: seq<Card>)
    requires |xs| == |ys| == 5 && multiset(xs) == multiset(ys)
    ensures IsFlush(xs) ==> IsFlush(ys)
  {
    if IsFlush(xs) {
      forall i | 0 <= i < 5 ensures ys[i].suit == xs[0].suit {
        assert ys[i] in multiset(xs);
      }
    }
  }

  /** Rank and sorted ranks of a hand depend only on which cards it holds. */
  lemma HandValueOfPermutation(xs: seq<Card>, ys: seq<Card>)
    requires |xs| == |ys| == 5 && multiset(xs) == multiset(ys)
    ensures RankHand(xs) == RankHand(ys) && SortedRanks(xs) == SortedRanks(ys)
  {
    RanksOfPermutation(xs, ys);
    SortedUnique(SortedRanks(xs), SortedRanks(ys));
    FlushOfPermutation(xs, ys);
    FlushOfPermutation(ys, xs);
  }

  // ----- the best hand -----

  const NO_CARDS: seq<Card> := [Card(0, Spades), Card(0, Spades), Card(0, Spades), Card(0, Spades), Card(0, Spades)]

  const NO_HAND := HandResult(0, NO_CARDS)

  function Valued(hand: seq<Card>): HandResult
    requires |hand| == 5
  {
    HandResult(RankHand(hand), hand)
  }

  ghost predicate FiveEach(hands: seq<seq<Card>>) {
    forall i :: 0 <= i < |hands| ==> |hands[i]| == 5
  }

  function Results(hands: seq<seq<Card>>): seq<HandResult>
    requires FiveEach(hands)
  {
    seq(|hands|, i requires 0 <= i < |hands| => Valued(hands[i]))
  }

  lemma HandsAreFive(cards: seq<Card>)
    ensures FiveEach(Hands(cards))
  {
    ChooseSound(5, 0, |cards|);
  }

  /** What Best answers for all of a player's cards. */
  ghost function BestOf(cards: seq<Card>): HandResult {
    HandsAreFive(cards);
    var results := Results(Hands(cards));
    RunningMax(results, |results|, NO_HAND, Compare)
  }

  /** The body of the loop in Best. */
  method Improve(bestRank: nat, bestCards: seq<Card>, combo: seq<Card>) returns (rank: nat, cards: seq<Card>)
    requires |bestCards| == 5 && |combo| == 5
    ensures |cards| == 5
    ensures var best := HandResult(bestRank, bestCards);
      HandResult(rank, cards) == if Compare(Valued(combo), best) > 0 then Valued(combo) else best
  {
    rank, cards := bestRank, bestCards;
    var comboRank := RankHand(combo);
    if comboRank > bestRank {
      rank, cards := comboRank, combo;
    } else if comboRank == bestRank {
      var cmp := CompareCards(combo, bestCards);
      if cmp > 0 {
        cards := combo;
      }
    }
  }

  method Best(hole: (Card, Card), board: seq<Card>) returns (r: HandResult)
    ensures r == BestOf([hole.0, hole.1] + board)
  {
    var combos := FiveCardHands([hole.0, hole.1] + board);
    HandsAreFive([hole.0, hole.1] + board);
    var bestRank, bestCards := BestAmong(combos);
    r := HandResult(bestRank, bestCards);
  }

  method BestAmong(combos: seq<seq<Card>>) returns (bestRank: nat, bestCards: seq<Card>)
    requires FiveEach(combos)
    ensures HandResult(bestRank, bestCards) == RunningMax(Results(combos), |combos|, NO_HAND, Compare)
  {
    bestCards, bestRank := NO_CARDS, 0;
    ghost var results := Results(combos);
    for i := 0 to |combos|
      invariant |bestCards| == 5 && HandResult(bestRank, bestCards) == RunningMax(results, i, NO_HAND, Compare)
    {
      assert results[i] == Valued(combos[i]);
      bestRank, bestCards := Improve(bestRank, bestCards, combos[i]);
    }
  }

  lemma NoneBeatsMax(results: seq<HandResult>, i: nat)
    requires i < |results|
    ensures Compare(RunningMax(results, |results|, NO_HAND, Compare), results[i]) >= 0
  {
    CompareIsPreorder();
    MaxIsUpper(results, |results|, NO_HAND, Compare);
  }

  /** Best is the maximum over all five-card sub-hands, and is one of them. */
  lemma BestIsMaximum(cards: seq<Card>, t: Tuple)
    requires |t| == 5 && Increasing(t, 0, |cards|)
    ensures Compare(BestOf(cards), Valued(Select(cards, t))) >= 0
  {
    HandsAreFive(cards);
    FiveWithin(|cards|);
    ChooseComplete(t, 0, |cards|);
    var ts := Choose(5, 0, |cards|);
    var i :| 0 <= i < |ts| && ts[i] == t;
    var results := Results(Hands(cards));
    assert results[i] == Valued(Select(cards, t));
    NoneBeatsMax(results, i);
  }

  lemma ValuedBeatsNothing(hand: seq<Card>)
    requires |hand| == 5
    ensures Compare(NO_HAND, Valued(hand)) < 0
  {
    Cascade(IsFlush(hand), SortedRanks(hand));
  }

  lemma BestIsListed(cards: seq<Card>) returns (u: Tuple)
    requires |cards| >= 5
    ensures |u| == 5 && Increasing(u, 0, |cards|) && BestOf(cards) == Valued(Select(cards, u))
  {
    var t: Tuple := [0, 1, 2, 3, 4];
    BestIsMaximum(cards, t);
    ValuedBeatsNothing(Select(cards, t));
    HandsAreFive(cards);
    FiveWithin(|cards|);
    ChooseSound(5, 0, |cards|);
    var results := Results(Hands(cards));
    MaxIsListed(results, |results|, NO_HAND, Compare);
    assert BestOf(cards) in results[..|results|];
    var j :| 0 <= j < |results| && results[j] == BestOf(cards);
    u := Choose(5, 0, |cards|)[j];
  }

  lemma NoHands(cards: seq<Card>)
    requires |cards| < 5
    ensures BestOf(cards) == NO_HAND
  {
    NoRoom(5, 0, |cards|);
  }

  // ----- more cards never hurt -----

  lemma {:induction false} SelectedIsSub(cards: seq<Card>, t: Tuple)
    requires Increasing(t, 0, |cards|)
    ensures multiset(Select(cards, t)) <= multiset(cards)
    decreases |cards|
  {
    if |cards| == 0 {
      assert t == [];
    } else {
      var last := |cards| - 1;
      assert cards == cards[..last] + [cards[last]];
      if |t| > 0 && t[|t| - 1] == last {
        var u := t[..|t| - 1];
        SelectedIsSub(cards[..last], u);
        assert Select(cards, t) == Select(cards[..last], u) + [cards[last]];
      } else {
        assert Increasing(t, 0, last) by {
          forall i | 0 <= i < |t| ensures t[i] < last { assert i < |t| - 1 ==> t[i] < t[|t| - 1]; }
        }
        SelectedIsSub(cards[..last], t);
        assert Select(cards, t) == Select(cards[..last], t);
      }
    }
  }

  lemma SelectPrefix(cards: seq<Card>, t: Tuple)
    requires |cards| > 0 && Increasing(t, 0, |cards| - 1)
    ensures Select(cards, t) == Select(cards[..|cards| - 1], t)
    ensures Increasing(t + [|cards| - 1], 0, |cards|)
    ensures Select(cards, t + [|cards| - 1]) == Select(cards[..|cards| - 1], t) + [cards[|cards| - 1]]
  {}

  /** Every sub-multiset of the cards is picked by some increasing indices. */
  lemma {:induction false} SubIsSelected(cards: seq<Card>, m: multiset<Card>) returns (t: Tuple)
    requires m <= multiset(cards)
    ensures Increasing(t, 0, |cards|) && multiset(Select(cards, t)) == m
    decreases |cards|
  {
    if |cards| == 0 {
      t := [];
      assert m == multiset{};
    } else {
      var last := |cards| - 1;
      var c := cards[last];
      assert multiset(cards) == multiset(cards[..last]) + multiset{c} by { assert cards == cards[..last] + [c]; }
      if m <= multiset(cards[..last]) {
        t := SubIsSelected(cards[..last], m);
        SelectPrefix(cards, t);
      } else {
        assert m[c] > 0;
        var u := SubIsSelected(cards[..last], m - multiset{c});
        SelectPrefix(cards, u);
        t := u + [last];
      }
    }
  }

  lemma SameSize(t: Tuple, cards: seq<Card>, hand: seq<Card>)
    requires Increasing(t, 0, |cards|) && multiset(Select(cards, t)) == multiset(hand)
    ensures |t| == |hand|
  {
    assert |multiset(Select(cards, t))| == |t| && |multiset(hand)| == |hand|;
  }

  lemma NothingIsWorst(cards: seq<Card>)
    ensures Compare(BestOf(cards), NO_HAND) >= 0
  {
    CompareIsPreorder();
    HandsAreFive(cards);
    var results := Results(Hands(cards));
    MaxIsUpper(results, |results|, NO_HAND, Compare);
  }

  /** A player holding more cards never has a worse best hand. */
  lemma MoreCardsNeverHurt(few: seq<Card>, many: seq<Card>)
    requires multiset(few) <= multiset(many)
    ensures Compare(BestOf(many), BestOf(few)) >= 0
  {
    if |few| < 5 {
      NoHands(few);
      NothingIsWorst(many);
    } else {
      var u := BestIsListed(few);
      SelectedIsSub(few, u);
      var hand := Select(few, u);
      var t := SubIsSelected(many, multiset(hand));
      SameSize(t, many, hand);
      BestIsMaximum(many, t);
      HandValueOfPermutation(Select(many, t), hand);
      CompareTies(Valued(Select(many, t)), Valued(hand));
      CompareIsPreorder();
    }
  }

  /** The order in which the cards are held does not change what the hand is worth. */
  lemma BestIgnoresOrder(xs: seq<Card>, ys: seq<Card>)
    requires multiset(xs) == multiset(ys)
    ensures BestOf(xs).rank == BestOf(ys).rank && SortedRanks(BestOf(xs).cards) == SortedRanks(BestOf(ys).cards)
  {
    MoreCardsNeverHurt(xs, ys);
    MoreCardsNeverHurt(ys, xs);
    CompareIsPreorder();
    CompareTies(BestOf(xs), BestOf(ys));
  }
}
