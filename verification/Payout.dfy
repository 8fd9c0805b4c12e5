/** Finishing a hand: rake, winners per pot, shares and the award. */
module Payout {
  import opened Domain
  import opened SidePots
  import opened Betting
  import opened Order
  import opened Evaluator

  // ----- rake -----

  datatype RakeConfig = RakeConfig(percent: real, cap: int, noFlopNoDrop: bool)

  /** No rake at all. */
  const FREE := RakeConfig(0.0, 0, true)

  ghost predicate ValidRake(c: RakeConfig) {
    0.0 <= c.percent <= 1.0 && c.cap >= 0
  }

  function Rake(pots: seq<Pot>, street: Street, c: RakeConfig): int {
    if c.noFlopNoDrop && street == Preflop then 0
    else if Total(pots) == 0 then 0
    else
      var rake := (Total(pots) as real * c.percent).Floor;
      if rake > c.cap then c.cap else rake
  }

  lemma RakeBounded(pots: seq<Pot>, street: Street, c: RakeConfig)
    requires ValidRake(c) && Total(pots) >= 0
    ensures 0 <= Rake(pots, street, c) <= Total(pots)
    ensures Rake(pots, street, c) <= c.cap
    ensures c.noFlopNoDrop && street == Preflop ==> Rake(pots, street, c) == 0
  {
    Fraction(Total(pots) as real, c.percent);
    FloorWithin(Total(pots) as real * c.percent, Total(pots));
  }

  /** The rake is the most whole chips within both the percentage and the cap. */
  lemma RakeIsLargest(pots: seq<Pot>, street: Street, c: RakeConfig, x: int)
    requires ValidRake(c) && Total(pots) >= 0 && !(c.noFlopNoDrop && street == Preflop)
    ensures Rake(pots, street, c) as real <= Total(pots) as real * c.percent && Rake(pots, street, c) <= c.cap
    ensures x as real <= Total(pots) as real * c.percent && x <= c.cap ==> x <= Rake(pots, street, c)
  {
    Fraction(Total(pots) as real, c.percent);
    RakeBounded(pots, street, c);
    FloorIsLargest(Total(pots) as real * c.percent, x);
  }

  lemma FloorIsLargest(y: real, x: int)
    ensures y.Floor as real <= y && (x as real <= y ==> x <= y.Floor)
  {}

  lemma Fraction(t: real, p: real)
    requires 0.0 <= t && 0.0 <= p <= 1.0
    ensures 0.0 <= t * p <= t
  {
    assert t * (1.0 - p) >= 0.0;
  }

  lemma FloorWithin(x: real, n: int)
    requires 0.0 <= x <= n as real
    ensures 0 <= x.Floor <= n
  {}

  /** What pot i can contribute to the rake still owed. */
  function Deducted(pots: seq<Pot>, i: nat, owed: int): int
    requires i < |pots|
  {
    if owed > pots[i].amount then pots[i].amount else owed
  }

  /** Taking the rake still owed from pots n-1, n-2, .., 0. */
  function RakedFrom(pots: seq<Pot>, n: nat, owed: int): seq<Pot>
    requires n <= |pots|
    decreases n
  {
    if n == 0 || owed <= 0 then pots
    else
      var d := Deducted(pots, n - 1, owed);
      RakedFrom(pots[n - 1 := pots[n - 1].(amount := pots[n - 1].amount - d)], n - 1, owed - d)
  }

  function Raked(pots: seq<Pot>, rake: int): seq<Pot> {
    RakedFrom(pots, |pots|, rake)
  }

  method ApplyRake(pots: seq<Pot>, rake: int) returns (result: seq<Pot>)
    ensures result == Raked(pots, rake)
  {
    result := pots;
    if rake == 0 || |pots| == 0 {
      return;
    }
    var remaining := rake;
    var i := |result| - 1;
    while i >= 0 && remaining > 0
      invariant -1 <= i < |result| == |pots|
      invariant RakedFrom(result, i + 1, remaining) == Raked(pots, rake)
    {
      var deduct := remaining;
      if deduct > result[i].amount {
        deduct := result[i].amount;
      }
      result := result[i := result[i].(amount := result[i].amount - deduct)];
      remaining := remaining - deduct;
      i := i - 1;
    }
  }

  lemma {:induction false} TotalUpdate(pots: seq<Pot>, i: nat, p: Pot)
    requires i < |pots|
    ensures Total(pots[i := p]) == Total(pots) - pots[i].amount + p.amount
  {
    var last := |pots| - 1;
    if i < last {
      TotalUpdate(pots[..last], i, p);
      assert pots[i := p][..last] == pots[..last][i := p];
    } else {
      assert pots[i := p][..last] == pots[..last];
    }
  }

  ghost predicate NoDebt(pots: seq<Pot>) {
    forall k :: 0 <= k < |pots| ==> pots[k].amount >= 0
  }

  lemma {:induction false} RakeTaken(pots: seq<Pot>, n: nat, owed: int)
    requires n <= |pots| && NoDebt(pots) && 0 <= owed <= Total(pots[..n])
    ensures Total(RakedFrom(pots, n, owed)) == Total(pots) - owed
    ensures |RakedFrom(pots, n, owed)| == |pots| && NoDebt(RakedFrom(pots, n, owed))
    ensures forall k :: 0 <= k < |pots| ==> RakedFrom(pots, n, owed)[k].eligible == pots[k].eligible
    decreases n
  {
    if n > 0 && owed > 0 {
      var d := Deducted(pots, n - 1, owed);
      var next := pots[n - 1 := pots[n - 1].(amount := pots[n - 1].amount - d)];
      TotalUpdate(pots, n - 1, next[n - 1]);
      assert pots[..n][..n - 1] == pots[..n - 1] == next[..n - 1];
      TotalNonNegative(pots[..n - 1]);
      RakeTaken(next, n - 1, owed - d);
    }
  }

  /** ApplyRake removes exactly the rake, takes no pot below zero and moves no eligibility. */
  lemma RakeExact(pots: seq<Pot>, rake: int)
    requires 0 <= rake <= Total(pots) && NoDebt(pots)
    ensures Total(Raked(pots, rake)) == Total(pots) - rake
    ensures |Raked(pots, rake)| == |pots| && NoDebt(Raked(pots, rake))
    ensures forall k :: 0 <= k < |pots| ==> Raked(pots, rake)[k].eligible == pots[k].eligible
  {
    assert pots[..|pots|] == pots;
    RakeTaken(pots, |pots|, rake);
  }

  lemma {:induction false} PrefixGrows(pots: seq<Pot>, k: nat, n: nat)
    requires NoDebt(pots) && k <= n <= |pots|
    ensures Total(pots[..k]) <= Total(pots[..n])
  {
    if k < n {
      PrefixGrows(pots, k, n - 1);
      assert pots[..n][..n - 1] == pots[..n - 1];
    }
  }

  lemma {:induction false} RakeStops(pots: seq<Pot>, n: nat, owed: int)
    requires n <= |pots|
    ensures |RakedFrom(pots, n, owed)| == |pots| && RakedFrom(pots, n, owed)[n..] == pots[n..]
    decreases n
  {
    if n > 0 && owed > 0 {
      var d := Deducted(pots, n - 1, owed);
      var next := pots[n - 1 := pots[n - 1].(amount := pots[n - 1].amount - d)];
      RakeStops(next, n - 1, owed - d);
      assert RakedFrom(next, n - 1, owed - d)[n..] == RakedFrom(next, n - 1, owed - d)[n - 1..][1..];
      assert next[n - 1..][1..] == pots[n..];
    }
  }

  function Smaller(x: int, y: int): int {
    if x < y then x else y
  }

  lemma AllRaked(pots: seq<Pot>, n: nat, owed: int)
    requires n <= |pots| && NoDebt(pots) && 0 <= owed <= Total(pots[..n])
    ensures |RakedFrom(pots, n, owed)| == |pots|
    ensures Total(RakedFrom(pots, n, owed)[..n]) == Total(pots[..n]) - owed
  {
    var raked := RakedFrom(pots, n, owed);
    RakeStops(pots, n, owed);
    RakeTaken(pots, n, owed);
    TotalConcat(raked[..n], raked[n..]);
    TotalConcat(pots[..n], pots[n..]);
    assert raked[..n] + raked[n..] == raked && pots[..n] + pots[n..] == pots;
  }

  /** One pot's deduction leaves the pots before it to bear the rest. */
  lemma OneDeducted(pots: seq<Pot>, n: nat, owed: int, k: nat)
    requires 0 < n <= |pots| && NoDebt(pots) && 0 < owed <= Total(pots[..n]) && k < n
    ensures var d := Deducted(pots, n - 1, owed);
      var next := pots[n - 1 := pots[n - 1].(amount := pots[n - 1].amount - d)];
      && NoDebt(next) && 0 <= owed - d <= Total(next[..n - 1]) && next[..k] == pots[..k]
      && Smaller(Total(pots[..k]), Total(next[..n - 1]) - (owed - d))
         == Smaller(Total(pots[..k]), Total(pots[..n]) - owed)
  {
    var d := Deducted(pots, n - 1, owed);
    var next := pots[n - 1 := pots[n - 1].(amount := pots[n - 1].amount - d)];
    assert pots[..n][..n - 1] == pots[..n - 1] == next[..n - 1];
    PrefixGrows(pots, k, n - 1);
    TotalNonNegative(pots[..n - 1]);
  }

  lemma {:induction false} RakeLeaves(pots: seq<Pot>, n: nat, owed: int, k: nat)
    requires k <= n <= |pots| && NoDebt(pots) && 0 <= owed <= Total(pots[..n])
    ensures |RakedFrom(pots, n, owed)| == |pots|
    ensures Total(RakedFrom(pots, n, owed)[..k]) == Smaller(Total(pots[..k]), Total(pots[..n]) - owed)
    decreases n
  {
    if k == n {
      AllRaked(pots, n, owed);
    } else if owed == 0 {
      PrefixGrows(pots, k, n);
    } else {
      OneDeducted(pots, n, owed, k);
      var d := Deducted(pots, n - 1, owed);
      RakeLeaves(pots[n - 1 := pots[n - 1].(amount := pots[n - 1].amount - d)], n - 1, owed - d, k);
    }
  }

  /** The rake comes out of the last pots first: the first k pots together keep all they held, or all that
      is left after the rake if that is less. */
  lemma RakeFromLastPots(pots: seq<Pot>, rake: int, k: nat)
    requires 0 <= rake <= Total(pots) && NoDebt(pots) && k <= |pots|
    ensures |Raked(pots, rake)| == |pots|
    ensures Total(Raked(pots, rake)[..k]) == Smaller(Total(pots[..k]), Total(pots) - rake)
  {
    assert pots[..|pots|] == pots;
    RakeLeaves(pots, |pots|, rake, k);
  }

  lemma {:induction false} TotalNonNegative(pots: seq<Pot>)
    requires forall k :: 0 <= k < |pots| ==> pots[k].amount >= 0
    ensures Total(pots) >= 0
  {
    if |pots| > 0 {
      TotalNonNegative(pots[..|pots| - 1]);
    }
  }

  // ----- winners -----

  /** A pot's eligible players in the order they are gone through. */
  ghost predicate Listing(names: seq<PlayerID>, ids: set<PlayerID>) {
    && (forall i, j :: 0 <= i < j < |names| ==> names[i] != names[j])
    && (forall id :: id in names <==> id in ids)
  }

  /** The best hand of every live player. */
  ghost function HandsOf(ps: seq<Player>, board: seq<Card>): map<PlayerID, HandResult> {
    if |ps| == 0 then map[]
    else
      var p := ps[|ps| - 1];
      var rest := HandsOf(ps[..|ps| - 1], board);
      if Live(p) then rest[p.id := BestOf([p.hole.0, p.hole.1] + board)] else rest
  }

  lemma {:induction false} HandsOfLive(ps: seq<Player>, board: seq<Card>, id: PlayerID)
    ensures id in HandsOf(ps, board) <==> exists i :: 0 <= i < |ps| && Live(ps[i]) && ps[i].id == id
  {
    if |ps| > 0 {
      var front := ps[..|ps| - 1];
      HandsOfLive(front, board, id);
      if i :| 0 <= i < |ps| && Live(ps[i]) && ps[i].id == id {
        assert i < |front| ==> front[i] == ps[i];
      }
      if i :| 0 <= i < |front| && Live(front[i]) && front[i].id == id {
        assert ps[i] == front[i];
      }
    }
  }

  ghost function PotWinners(names: seq<PlayerID>, hands: map<PlayerID, HandResult>): seq<PlayerID> {
    Leaders(names, hands, |names|, Compare)
  }

  method BestHandsInPot(eligible: seq<PlayerID>, hands: map<PlayerID, HandResult>) returns (best: seq<PlayerID>)
    ensures best == PotWinners(eligible, hands)
  {
    best := [];
    for n := 0 to |eligible|
      invariant best == Leaders(eligible, hands, n, Compare)
    {
      var id := eligible[n];
      if id in hands {
        if |best| == 0 {
          best := [id];
        } else {
          var cmp := Compare(hands[id], hands[best[0]]);
          if cmp > 0 {
            best := [id];
          } else if cmp == 0 {
            best := best + [id];
          }
        }
      }
    }
  }

  /** A pot is won by exactly the eligible live players whose hand no other such player beats. */
  lemma PotWinnersExact(names: seq<PlayerID>, hands: map<PlayerID, HandResult>, id: PlayerID)
    ensures id in PotWinners(names, hands) <==>
      && id in names && id in hands
      && forall other :: other in names && other in hands ==> Compare(hands[id], hands[other]) >= 0
  {
    CompareIsPreorder();
    LeadersExact(names, hands, Compare, id);
    if && id in names && id in hands
       && (forall other :: other in names && other in hands ==> Compare(hands[id], hands[other]) >= 0)
    {
      var i :| 0 <= i < |names| && names[i] == id;
      assert Contends(names, hands, |names|, i);
      assert Unbeaten(names, hands, |names|, Compare, id);
    }
    if Unbeaten(names, hands, |names|, Compare, id) {
      forall other | other in names && other in hands ensures Compare(hands[id], hands[other]) >= 0 {
        var j :| 0 <= j < |names| && names[j] == other;
        assert Contends(names, hands, |names|, j);
      }
    }
  }

  // ----- shares -----

  type Winnings = map<PlayerID, int>

  function Look(m: Winnings, id: PlayerID): int {
    if id in m then m[id] else 0
  }

  function Piece(amount: int, winners: nat, j: nat): int
    requires winners > 0
  {
    amount / winners + if j < amount % winners then 1 else 0
  }

  /** The winnings after the first j winners of one pot have been paid. */
  function Credit(m: Winnings, amount: int, winners: seq<PlayerID>, j: nat): Winnings
    requires j <= |winners|
  {
    if j == 0 then m
    else
      var prev := Credit(m, amount, winners, j - 1);
      prev[winners[j - 1] := Look(prev, winners[j - 1]) + Piece(amount, |winners|, j - 1)]
  }

  /** The winnings after the first i pots; a pot without winners is passed over. */
  function WinMap(pots: seq<Pot>, winners: seq<seq<PlayerID>>, i: nat): Winnings
    requires i <= |pots| == |winners|
  {
    if i == 0 then map[]
    else Credit(WinMap(pots, winners, i - 1), pots[i - 1].amount, winners[i - 1], |winners[i - 1]|)
  }

  method WinnersToMap(pots: seq<Pot>, winnersByPot: seq<seq<PlayerID>>) returns (result: Winnings)
    requires |pots| == |winnersByPot|
    requires forall k :: 0 <= k < |pots| ==> pots[k].amount >= 0
    ensures result == WinMap(pots, winnersByPot, |pots|)
  {
    result := map[];
    for i := 0 to |pots|
      invariant result == WinMap(pots, winnersByPot, i)
    {
      var winners := winnersByPot[i];
      if |winners| != 0 {
        var share := pots[i].amount / |winners|;
        var remainder := pots[i].amount % |winners|;
        for j := 0 to |winners|
          invariant result == Credit(WinMap(pots, winnersByPot, i), pots[i].amount, winners, j)
        {
          var id := winners[j];
          result := result[id := Look(result, id) + share];
          if j < remainder {
            result := result[id := result[id] + 1];
          }
        }
      }
    }
  }

  lemma {:induction false} PiecesAll(amount: int, n: nat, j: nat)
    requires n > 0 && j <= n && amount >= 0
    ensures SumPieces(amount, n, j) == j * (amount / n) + (if j < amount % n then j else amount % n)
  {
    if j > 0 {
      PiecesAll(amount, n, j - 1);
      assert j * (amount / n) == (j - 1) * (amount / n) + amount / n;
    }
  }

  /** The shares of one pot add up to the pot. */
  lemma PiecesTotal(amount: int, n: nat)
    requires n > 0 && amount >= 0
    ensures SumPieces(amount, n, n) == amount
  {
    PiecesAll(amount, n, n);
  }

  function SumPieces(amount: int, n: nat, j: nat): int
    requires n > 0
  {
    if j == 0 then 0 else SumPieces(amount, n, j - 1) + Piece(amount, n, j - 1)
  }

  function WinOf(m: Winnings): Player -> int {
    (p: Player) => Look(m, p.id)
  }

  lemma {:induction false} SumBump(ps: seq<Player>, m: Winnings, id: PlayerID, x: int)
    requires DistinctIds(ps) && id in IdSet(ps)
    ensures SumBy(ps, WinOf(m[id := Look(m, id) + x])) == SumBy(ps, WinOf(m)) + x
  {
    var last := |ps| - 1;
    var front, m' := ps[..last], m[id := Look(m, id) + x];
    if ps[last].id == id {
      forall i | 0 <= i < last ensures WinOf(m')(front[i]) == WinOf(m)(front[i]) {}
      SumPointwise(front, front, WinOf(m'), WinOf(m));
    } else {
      var i :| 0 <= i < |ps| && ps[i].id == id;
      assert front[i].id == id;
      SumBump(front, m, id, x);
    }
  }

  /** Paying a pot's winners pays out exactly the pot. */
  lemma {:induction false} CreditSum(ps: seq<Player>, m: Winnings, amount: int, winners: seq<PlayerID>, j: nat)
    requires DistinctIds(ps) && j <= |winners| && |winners| > 0
    requires forall i :: 0 <= i < |winners| ==> winners[i] in IdSet(ps)
    ensures SumBy(ps, WinOf(Credit(m, amount, winners, j))) == SumBy(ps, WinOf(m)) + SumPieces(amount, |winners|, j)
  {
    if j > 0 {
      CreditSum(ps, m, amount, winners, j - 1);
      SumBump(ps, Credit(m, amount, winners, j - 1), winners[j - 1], Piece(amount, |winners|, j - 1));
    }
  }

  ghost predicate Payable(pots: seq<Pot>, winners: seq<seq<PlayerID>>, ids: set<PlayerID>) {
    && |pots| == |winners|
    && (forall k :: 0 <= k < |pots| ==> pots[k].amount >= 0)
    && (forall k, j :: 0 <= k < |pots| && 0 <= j < |winners[k]| ==> winners[k][j] in ids)
  }

  /** The chips in those of the first i pots that have a winner. */
  function WonTotal(pots: seq<Pot>, winners: seq<seq<PlayerID>>, i: nat): int
    requires i <= |pots| == |winners|
  {
    if i == 0 then 0
    else WonTotal(pots, winners, i - 1) + if |winners[i - 1]| > 0 then pots[i - 1].amount else 0
  }

  /** What is paid out is exactly the chips of the pots that have a winner. */
  lemma {:induction false} WinMapSum(ps: seq<Player>, pots: seq<Pot>, winners: seq<seq<PlayerID>>, i: nat)
    requires DistinctIds(ps) && Payable(pots, winners, IdSet(ps)) && i <= |pots|
    ensures SumBy(ps, WinOf(WinMap(pots, winners, i))) == WonTotal(pots, winners, i)
  {
    if i == 0 {
      NothingWon(ps);
    } else {
      WinMapSum(ps, pots, winners, i - 1);
      var w := winners[i - 1];
      if |w| > 0 {
        CreditSum(ps, WinMap(pots, winners, i - 1), pots[i - 1].amount, w, |w|);
        PiecesTotal(pots[i - 1].amount, |w|);
      }
    }
  }

  lemma {:induction false} AllWon(pots: seq<Pot>, winners: seq<seq<PlayerID>>, i: nat)
    requires i <= |pots| == |winners| && forall k :: 0 <= k < |pots| ==> |winners[k]| > 0
    ensures WonTotal(pots, winners, i) == Total(pots[..i])
  {
    if i > 0 {
      AllWon(pots, winners, i - 1);
      assert pots[..i][..i - 1] == pots[..i - 1];
    }
  }

  lemma {:induction false} NothingWon(ps: seq<Player>)
    ensures SumBy(ps, WinOf(map[])) == 0
  {
    if |ps| > 0 {
      NothingWon(ps[..|ps| - 1]);
    }
  }

  lemma {:induction false} CreditNotNegative(m: Winnings, amount: int, winners: seq<PlayerID>, j: nat, id: PlayerID)
    requires j <= |winners| && amount >= 0 && Look(m, id) >= 0
    ensures Look(Credit(m, amount, winners, j), id) >= 0
  {
    if j > 0 {
      CreditNotNegative(m, amount, winners, j - 1, id);
      PieceNotNegative(amount, |winners|, j - 1);
    }
  }

  lemma PieceNotNegative(amount: int, winners: nat, j: nat)
    requires winners > 0 && amount >= 0
    ensures Piece(amount, winners, j) >= 0
  {
    assert amount / winners >= 0;
  }

  /** Nobody wins less than nothing. */
  lemma {:induction false} WonNotNegative(pots: seq<Pot>, winners: seq<seq<PlayerID>>, i: nat, id: PlayerID)
    requires i <= |pots| == |winners| && NoDebt(pots)
    ensures Look(WinMap(pots, winners, i), id) >= 0
  {
    if i > 0 {
      WonNotNegative(pots, winners, i - 1, id);
      CreditNotNegative(WinMap(pots, winners, i - 1), pots[i - 1].amount, winners[i - 1], |winners[i - 1]|, id);
    }
  }

  function Awarded(ps: seq<Player>, m: Winnings): seq<Player> {
    seq(|ps|, i requires 0 <= i < |ps| => if ps[i].id in m then ps[i].(stack := ps[i].stack + m[ps[i].id]) else ps[i])
  }

  method Award(players: seq<Player>, winners: Winnings) returns (paid: seq<Player>)
    ensures paid == Awarded(players, winners)
  {
    paid := players;
    for i := 0 to |players|
      invariant |paid| == |players|
      invariant paid[..i] == Awarded(players, winners)[..i] && paid[i..] == players[i..]
    {
      var p := paid[i];
      assert p == players[i..][0];
      if p.id in winners {
        paid := paid[i := p.(stack := p.stack + winners[p.id])];
      }
      assert paid[i + 1..] == players[i + 1..];
    }
  }

  lemma {:induction false} AwardSum(ps: seq<Player>, m: Winnings)
    ensures SumBy(Awarded(ps, m), StackOf) == SumBy(ps, StackOf) + SumBy(ps, WinOf(m))
  {
    if |ps| > 0 {
      var last := |ps| - 1;
      AwardSum(ps[..last], m);
      assert Awarded(ps, m)[..last] == Awarded(ps[..last], m);
    }
  }

  /** Co-winners of one pot differ by at most one chip, and nobody else is paid. */
  lemma {:induction false} SharesEven(m: Winnings, amount: int, winners: seq<PlayerID>, j: nat, id: PlayerID)
    requires j <= |winners| && amount >= 0
    requires forall a, b :: 0 <= a < b < |winners| ==> winners[a] != winners[b]
    ensures id in winners[..j] ==>
      amount / |winners| <= Look(Credit(m, amount, winners, j), id) - Look(m, id) <= amount / |winners| + 1
    ensures id !in winners[..j] ==> Look(Credit(m, amount, winners, j), id) == Look(m, id)
  {
    if j > 0 {
      SharesEven(m, amount, winners, j - 1, id);
      assert winners[..j] == winners[..j - 1] + [winners[j - 1]];
      assert winners[j - 1] !in winners[..j - 1];
    }
  }

  /** Whoever wins no pot is paid nothing. */
  lemma {:induction false} OthersUnpaid(pots: seq<Pot>, winners: seq<seq<PlayerID>>, i: nat, id: PlayerID)
    requires i <= |pots| == |winners| && (forall k :: 0 <= k < |pots| ==> pots[k].amount >= 0 && id !in winners[k])
    requires forall k, a, b :: 0 <= k < |winners| && 0 <= a < b < |winners[k]| ==> winners[k][a] != winners[k][b]
    ensures Look(WinMap(pots, winners, i), id) == 0
  {
    if i > 0 {
      OthersUnpaid(pots, winners, i - 1, id);
      var w := winners[i - 1];
      SharesEven(WinMap(pots, winners, i - 1), pots[i - 1].amount, w, |w|, id);
      assert w[..|w|] == w;
    }
  }
}
