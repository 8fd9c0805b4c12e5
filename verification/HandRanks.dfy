/** What the ranking cascade means: a reference that reads a hand off its sorted ranks. */
module HandRanks {
  import opened Domain
  import opened Evaluator

  function Bit(b: bool): nat {
    if b then 1 else 0
  }

  /** Equal neighbours among five ascending ranks. */
  function Ties(r: seq<nat>): nat
    requires |r| == 5
  {
    Bit(r[0] == r[1]) + Bit(r[1] == r[2]) + Bit(r[2] == r[3]) + Bit(r[3] == r[4])
  }

  /** Five in a row, or ace to five. */
  predicate InARow(r: seq<nat>)
    requires |r| == 5
  {
    (forall i :: 0 <= i < 4 ==> r[i + 1] == r[i] + 1) || r == [2, 3, 4, 5, 14]
  }

  predicate FourAlike(r: seq<nat>)
    requires |r| == 5
  {
    r[0] == r[3] || r[1] == r[4]
  }

  predicate ThreeAlike(r: seq<nat>)
    requires |r| == 5
  {
    r[0] == r[2] || r[1] == r[3] || r[2] == r[4]
  }

  /** The reference: the number of ties and the longest run of equal ranks decide. */
  function Reference(flush: bool, r: seq<nat>): nat
    requires |r| == 5
  {
    if flush && InARow(r) then (if r == [10, 11, 12, 13, 14] then ROYAL_FLUSH else STRAIGHT_FLUSH)
    else if Ties(r) == 3 then (if FourAlike(r) then FOUR_OF_A_KIND else FULL_HOUSE)
    else if flush then FLUSH
    else if InARow(r) then STRAIGHT
    else if Ties(r) == 2 then (if ThreeAlike(r) then THREE_OF_A_KIND else TWO_PAIR)
    else if Ties(r) == 1 then ONE_PAIR
    else HIGH_CARD
  }

  // ----- counting -----

  function CountIn(r: seq<nat>, x: nat): nat
    requires |r| == 5
  {
    Bit(r[0] == x) + Bit(r[1] == x) + Bit(r[2] == x) + Bit(r[3] == x) + Bit(r[4] == x)
  }

  lemma CountsAre(r: seq<nat>, x: nat)
    requires |r| == 5
    ensures multiset(r)[x] == CountIn(r, x)
  {
    assert r == [r[0]] + [r[1]] + [r[2]] + [r[3]] + [r[4]];
  }

  lemma OccurringAre(r: seq<nat>, k: nat, x: nat)
    requires |r| == 5
    ensures x in Occurring(r, k) <==> x in r && CountIn(r, x) == k
  {
    CountsAre(r, x);
  }

  lemma NoneOccurs(r: seq<nat>, k: nat)
    requires |r| == 5
    ensures Occurring(r, k) == {} <==> forall i :: 0 <= i < 5 ==> CountIn(r, r[i]) != k
  {
    forall x ensures x in Occurring(r, k) <==> x in r && CountIn(r, x) == k {
      OccurringAre(r, k, x);
    }
    forall i | 0 <= i < 5 ensures r[i] in Occurring(r, k) <==> CountIn(r, r[i]) == k {
      assert r[i] in r;
    }
  }

  /** In ascending ranks every count is the length of a run of neighbours. */
  lemma Each(r: seq<nat>)
    requires |r| == 5 && Ascending(r)
    ensures CountIn(r, r[0]) == 1 + Bit(r[0] == r[1]) + Bit(r[0] == r[2]) + Bit(r[0] == r[3]) + Bit(r[0] == r[4])
    ensures CountIn(r, r[1]) == 1 + Bit(r[0] == r[1]) + Bit(r[1] == r[2]) + Bit(r[1] == r[3]) + Bit(r[1] == r[4])
    ensures CountIn(r, r[2]) == 1 + Bit(r[0] == r[2]) + Bit(r[1] == r[2]) + Bit(r[2] == r[3]) + Bit(r[2] == r[4])
    ensures CountIn(r, r[3]) == 1 + Bit(r[0] == r[3]) + Bit(r[1] == r[3]) + Bit(r[2] == r[3]) + Bit(r[3] == r[4])
    ensures CountIn(r, r[4]) == 1 + Bit(r[0] == r[4]) + Bit(r[1] == r[4]) + Bit(r[2] == r[4]) + Bit(r[3] == r[4])
  {}

  lemma FourOccurs(r: seq<nat>)
    requires |r| == 5 && Ascending(r)
    ensures Occurring(r, 4) != {} <==> Ties(r) == 3 && FourAlike(r)
  {
    NoneOccurs(r, 4);
    Each(r);
  }

  lemma ThreeOccurs(r: seq<nat>)
    requires |r| == 5 && Ascending(r)
    ensures Occurring(r, 3) != {} <==> (Ties(r) == 3 && !FourAlike(r)) || (Ties(r) == 2 && ThreeAlike(r))
  {
    NoneOccurs(r, 3);
    Each(r);
  }

  lemma TwoOccurs(r: seq<nat>)
    requires |r| == 5 && Ascending(r)
    ensures Occurring(r, 2) != {} <==>
      (Ties(r) == 3 && !FourAlike(r)) || (Ties(r) == 2 && !ThreeAlike(r)) || Ties(r) == 1
  {
    NoneOccurs(r, 2);
    Each(r);
  }

  lemma TwoPairs(r: seq<nat>)
    requires |r| == 5 && Ascending(r) && Ties(r) <= 2
    ensures |Occurring(r, 2)| == 2 <==> Ties(r) == 2 && !ThreeAlike(r)
  {
    forall x ensures x in Occurring(r, 2) <==> x in r && CountIn(r, x) == 2 {
      OccurringAre(r, 2, x);
    }
    TwoOccurs(r);
    if Ties(r) == 2 && !ThreeAlike(r) {
      assert Occurring(r, 2) == {r[1], r[3]};
    } else if Ties(r) == 1 {
      var i := if r[0] == r[1] then 0 else if r[1] == r[2] then 1 else if r[2] == r[3] then 2 else 3;
      assert Occurring(r, 2) == {r[i]};
    }
  }

  lemma {:induction false} FewDistinct(xs: seq<nat>)
    ensures |Distinct(xs)| <= |xs|
  {
    if |xs| > 0 {
      var last := |xs| - 1;
      FewDistinct(xs[..last]);
      assert Distinct(xs) == Distinct(xs[..last]) + {xs[last]};
    } else {
      assert Distinct(xs) == {};
    }
  }

  lemma {:induction false} AllDistinct(xs: seq<nat>)
    requires forall i, j :: 0 <= i < j < |xs| ==> xs[i] != xs[j]
    ensures |Distinct(xs)| == |xs|
  {
    if |xs| > 0 {
      var last := |xs| - 1;
      AllDistinct(xs[..last]);
      assert Distinct(xs) == Distinct(xs[..last]) + {xs[last]};
    } else {
      assert Distinct(xs) == {};
    }
  }

  lemma DistinctIffNoTies(r: seq<nat>)
    requires |r| == 5 && Ascending(r)
    ensures |Distinct(r)| == 5 <==> Ties(r) == 0
  {
    if Ties(r) == 0 {
      AllDistinct(r);
    } else {
      var i := if r[0] == r[1] then 0 else if r[1] == r[2] then 1 else if r[2] == r[3] then 2 else 3;
      var rest := Without(r, i);
      assert Distinct(r) == Distinct(rest) by {
        assert rest[i] == r[i];
        forall x | x in r ensures x in rest {
          var k :| 0 <= k < 5 && r[k] == x;
          assert k <= i ==> (if k < i then rest[k] else rest[i]) == x;
          assert k > i ==> rest[k - 1] == x;
        }
      }
      FewDistinct(rest);
    }
  }

  lemma StraightIs(r: seq<nat>)
    requires |r| == 5 && Ascending(r)
    ensures IsStraight(r) <==> InARow(r)
  {
    DistinctIffNoTies(r);
    assert r[1] <= r[2] <= r[3];
  }

  predicate OneSuit(cards: seq<Card>) {
    forall i, j :: 0 <= i < |cards| && 0 <= j < |cards| ==> cards[i].suit == cards[j].suit
  }

  /** The cascade gives exactly the rank the reference reads off: pairs, three and four alike, runs and
      one suit, in the usual order of categories. */
  lemma RankHandMeaning(cards: seq<Card>)
    requires |cards| == 5
    ensures RankHand(cards) == Reference(OneSuit(cards), SortedRanks(cards))
    ensures HIGH_CARD < ONE_PAIR < TWO_PAIR < THREE_OF_A_KIND < STRAIGHT < FLUSH < FULL_HOUSE < FOUR_OF_A_KIND
      < STRAIGHT_FLUSH < ROYAL_FLUSH
  {
    OneSuitIs(cards);
    var r := SortedRanks(cards);
    StraightIs(r);
    FourOccurs(r);
    ThreeOccurs(r);
    TwoOccurs(r);
    if Ties(r) <= 2 {
      TwoPairs(r);
    }
    RunsHaveNoTies(r);
  }

  lemma OneSuitIs(cards: seq<Card>)
    requires |cards| == 5
    ensures IsFlush(cards) <==> OneSuit(cards)
  {
    if IsFlush(cards) {
      assert forall i :: 0 <= i < 5 ==> cards[i].suit == cards[0].suit;
    }
  }

  lemma RunsHaveNoTies(r: seq<nat>)
    requires |r| == 5
    ensures InARow(r) ==> Ties(r) == 0
  {
    if InARow(r) && r != [2, 3, 4, 5, 14] {
      assert r[1] == r[0] + 1 && r[2] == r[1] + 1 && r[3] == r[2] + 1 && r[4] == r[3] + 1;
    }
  }
}
