/** Who wins at showdown and what everyone is paid, said of the cards the players hold. */
module Showdown {
  import opened Domain
  import opened SidePots
  import opened Betting
  import opened Order
  import opened Combinations
  import opened Evaluator
  import opened Payout
  import opened HandInvariant
  import opened HandSteps
  import opened FinishHand

  // ----- who wins -----

  /** The cards a player can make a hand of. */
  function Held(p: Player, board: seq<Card>): seq<Card> {
    [p.hole.0, p.hole.1] + board
  }

  ghost predicate FiveOf(cards: seq<Card>, t: Tuple) {
    |t| == 5 && Increasing(t, 0, |cards|)
  }

  /** The hand a player shows with the five cards picked by `t`. */
  function Shown(p: Player, board: seq<Card>, t: Tuple): HandResult
    requires |t| == 5 && forall i :: 0 <= i < |t| ==> t[i] < |Held(p, board)|
  {
    Valued(Select(Held(p, board), t))
  }

  ghost predicate Contests(ps: seq<Player>, eligible: set<PlayerID>, i: int) {
    0 <= i < |ps| && Live(ps[i]) && ps[i].id in eligible
  }

  /** No five cards of a live eligible player beat these five of player i. */
  ghost predicate StandsUp(ps: seq<Player>, board: seq<Card>, eligible: set<PlayerID>, i: nat, t: Tuple) {
    && i < |ps| && FiveOf(Held(ps[i], board), t)
    && forall j, u :: Contests(ps, eligible, j) && FiveOf(Held(ps[j], board), u) ==>
         Compare(Shown(ps[i], board, t), Shown(ps[j], board, u)) >= 0
  }

  /** Player i contests the pot and holds five cards that nobody's five beat; before the flop is dealt
      nobody holds five cards, and all who contest it tie. */
  ghost predicate Wins(ps: seq<Player>, board: seq<Card>, eligible: set<PlayerID>, i: nat) {
    Contests(ps, eligible, i) && (|board| < 3 || exists t :: StandsUp(ps, board, eligible, i, t))
  }

  /** The same through the best hands. */
  ghost predicate BestStands(ps: seq<Player>, board: seq<Card>, eligible: set<PlayerID>, i: nat) {
    && Contests(ps, eligible, i)
    && forall j :: Contests(ps, eligible, j) ==>
         Compare(BestOf(Held(ps[i], board)), BestOf(Held(ps[j], board))) >= 0
  }

  lemma NoWorse(a: HandResult, b: HandResult, c: HandResult)
    requires Compare(a, b) >= 0 && Compare(b, c) >= 0
    ensures Compare(a, c) >= 0
  {
    CompareIsPreorder();
  }

  lemma StandsThenBest(ps: seq<Player>, board: seq<Card>, eligible: set<PlayerID>, i: nat, t: Tuple, j: nat)
    requires |board| >= 3 && StandsUp(ps, board, eligible, i, t) && Contests(ps, eligible, j)
    ensures Compare(BestOf(Held(ps[i], board)), BestOf(Held(ps[j], board))) >= 0
  {
    BestIsMaximum(Held(ps[i], board), t);
    var u := BestIsListed(Held(ps[j], board));
    NoWorse(BestOf(Held(ps[i], board)), Shown(ps[i], board, t), Shown(ps[j], board, u));
  }

  lemma BestThenStands(ps: seq<Player>, board: seq<Card>, eligible: set<PlayerID>, i: nat) returns (t: Tuple)
    requires |board| >= 3 && BestStands(ps, board, eligible, i)
    ensures StandsUp(ps, board, eligible, i, t)
  {
    t := BestIsListed(Held(ps[i], board));
    forall j, u | Contests(ps, eligible, j) && FiveOf(Held(ps[j], board), u)
      ensures Compare(Shown(ps[i], board, t), Shown(ps[j], board, u)) >= 0
    {
      BestIsMaximum(Held(ps[j], board), u);
      NoWorse(BestOf(Held(ps[i], board)), BestOf(Held(ps[j], board)), Shown(ps[j], board, u));
    }
  }

  lemma NobodyBeaten(ps: seq<Player>, board: seq<Card>, eligible: set<PlayerID>, i: nat)
    requires |board| < 3 && Contests(ps, eligible, i)
    ensures BestStands(ps, board, eligible, i)
  {
    forall j | Contests(ps, eligible, j)
      ensures Compare(BestOf(Held(ps[i], board)), BestOf(Held(ps[j], board))) >= 0
    {
      NoHands(Held(ps[i], board));
      NoHands(Held(ps[j], board));
      CompareTies(NO_HAND, NO_HAND);
    }
  }

  lemma WinsIsBest(ps: seq<Player>, board: seq<Card>, eligible: set<PlayerID>, i: nat)
    ensures Wins(ps, board, eligible, i) <==> BestStands(ps, board, eligible, i)
  {
    if |board| < 3 {
      if Contests(ps, eligible, i) {
        NobodyBeaten(ps, board, eligible, i);
      }
    } else {
      FullBoard(ps, board, eligible, i);
    }
  }

  lemma FullBoard(ps: seq<Player>, board: seq<Card>, eligible: set<PlayerID>, i: nat)
    requires |board| >= 3
    ensures Wins(ps, board, eligible, i) <==> BestStands(ps, board, eligible, i)
  {
    if Wins(ps, board, eligible, i) {
      var t :| StandsUp(ps, board, eligible, i, t);
      forall j | Contests(ps, eligible, j)
        ensures Compare(BestOf(Held(ps[i], board)), BestOf(Held(ps[j], board))) >= 0
      {
        StandsThenBest(ps, board, eligible, i, t, j);
      }
    }
    if BestStands(ps, board, eligible, i) {
      var t := BestThenStands(ps, board, eligible, i);
    }
  }

  lemma {:induction false} HandOfPlayer(ps: seq<Player>, board: seq<Card>, i: nat)
    requires DistinctIds(ps) && i < |ps| && Live(ps[i])
    ensures ps[i].id in HandsOf(ps, board) && HandsOf(ps, board)[ps[i].id] == BestOf(Held(ps[i], board))
  {
    var last := |ps| - 1;
    if i < last {
      HandOfPlayer(ps[..last], board, i);
      assert ps[..last][i] == ps[i] && ps[i].id != ps[last].id;
    }
  }

  lemma BestIsPotWinner(d: State, orders: seq<seq<PlayerID>>, k: nat, i: nat)
    requires DistinctIds(d.players) && Orders(d.pots, orders) && k < |d.pots|
    requires Contests(d.players, d.pots[k].eligible, i)
    ensures d.players[i].id in AllWinners(d, orders)[k] <==> BestStands(d.players, d.board, d.pots[k].eligible, i)
  {
    var ps, hands, eligible := d.players, HandsOf(d.players, d.board), d.pots[k].eligible;
    PotWinnersExact(orders[k], hands, ps[i].id);
    HandOfPlayer(ps, d.board, i);
    forall j | Contests(ps, eligible, j)
      ensures ps[j].id in orders[k] && ps[j].id in hands && hands[ps[j].id] == BestOf(Held(ps[j], d.board))
    {
      HandOfPlayer(ps, d.board, j);
    }
    forall other | other in orders[k] && other in hands
      ensures exists j :: Contests(ps, eligible, j) && ps[j].id == other
    {
      HandsOfLive(ps, d.board, other);
      var j :| 0 <= j < |ps| && Live(ps[j]) && ps[j].id == other;
      assert Contests(ps, eligible, j);
    }
  }

  /** A pot is won by exactly the live eligible players who hold five cards, of their own two and the
      board, that no five cards of any live eligible player beat; by all of them before the flop. */
  lemma ShowdownExact(d: State, orders: seq<seq<PlayerID>>, k: nat, id: PlayerID)
    requires DistinctIds(d.players) && Orders(d.pots, orders) && k < |d.pots|
    ensures id in AllWinners(d, orders)[k] <==>
      exists i: nat :: Wins(d.players, d.board, d.pots[k].eligible, i) && d.players[i].id == id
  {
    var ps, hands, eligible := d.players, HandsOf(d.players, d.board), d.pots[k].eligible;
    if id in AllWinners(d, orders)[k] {
      PotWinnersExact(orders[k], hands, id);
      HandsOfLive(ps, d.board, id);
      var i :| 0 <= i < |ps| && Live(ps[i]) && ps[i].id == id;
      BestIsPotWinner(d, orders, k, i);
      WinsIsBest(ps, d.board, eligible, i);
    }
    if i: nat :| Wins(ps, d.board, eligible, i) && ps[i].id == id {
      BestIsPotWinner(d, orders, k, i);
      WinsIsBest(ps, d.board, eligible, i);
    }
  }

  // ----- in which order -----

  /** The names that are in the set, in their order. */
  function Only(names: seq<PlayerID>, ids: set<PlayerID>): seq<PlayerID> {
    if |names| == 0 then []
    else Only(names[..|names| - 1], ids) + if names[|names| - 1] in ids then [names[|names| - 1]] else []
  }

  lemma {:induction false} OnlySame(names: seq<PlayerID>, a: set<PlayerID>, b: set<PlayerID>)
    requires forall id :: id in names ==> (id in a <==> id in b)
    ensures Only(names, a) == Only(names, b)
  {
    if |names| > 0 {
      var last := |names| - 1;
      assert names[last] in names && forall id :: id in names[..last] ==> id in names;
      OnlySame(names[..last], a, b);
    }
  }

  lemma {:induction false} OnlyNone(names: seq<PlayerID>, a: set<PlayerID>)
    requires forall id :: id in names ==> id !in a
    ensures Only(names, a) == []
  {
    if |names| > 0 {
      var last := |names| - 1;
      assert names[last] in names && forall id :: id in names[..last] ==> id in names;
      OnlyNone(names[..last], a);
    }
  }

  function Named(names: seq<PlayerID>): set<PlayerID> {
    set id | id in names
  }

  lemma LeaderJoins(names: seq<PlayerID>, best: seq<PlayerID>, next: seq<PlayerID>, id: PlayerID)
    requires best == Only(names, Named(best)) && id !in names && (forall w :: w in best ==> w in names)
    requires next == best || next == [id] || next == best + [id]
    ensures next == Only(names + [id], Named(next))
  {
    assert (names + [id])[..|names|] == names;
    if next == best {
      assert id !in Named(best);
    } else if next == [id] {
      OnlyNone(names, Named([id]));
    } else {
      OnlySame(names, Named(best), Named(best + [id]));
    }
  }

  lemma LeaderKind(names: seq<PlayerID>, hands: map<PlayerID, HandResult>, n: nat)
    requires 0 < n <= |names|
    ensures var best, next := Leaders(names, hands, n - 1, Compare), Leaders(names, hands, n, Compare);
      next == best || next == [names[n - 1]] || next == best + [names[n - 1]]
  {}

  ghost predicate NoneTwice(names: seq<PlayerID>) {
    forall i, j :: 0 <= i < j < |names| ==> names[i] != names[j]
  }

  lemma NotBefore(names: seq<PlayerID>, n: nat)
    requires NoneTwice(names) && 0 < n <= |names|
    ensures names[..n] == names[..n - 1] + [names[n - 1]] && names[n - 1] !in names[..n - 1]
  {}

  lemma LeadersAmong(names: seq<PlayerID>, hands: map<PlayerID, HandResult>, n: nat)
    requires NoneTwice(names) && n <= |names|
    ensures forall w :: w in Leaders(names, hands, n, Compare) ==> w in names[..n]
  {
    LeadersDistinct(names, hands, n, Compare);
  }

  /** The leaders stand in the order in which the names are gone through. */
  lemma {:induction false} LeadersInOrder(names: seq<PlayerID>, hands: map<PlayerID, HandResult>, n: nat)
    requires NoneTwice(names) && n <= |names|
    ensures var best := Leaders(names, hands, n, Compare); best == Only(names[..n], Named(best))
  {
    if n > 0 {
      LeadersInOrder(names, hands, n - 1);
      NextLeader(names, hands, n);
    }
  }

  lemma NextLeader(names: seq<PlayerID>, hands: map<PlayerID, HandResult>, n: nat)
    requires NoneTwice(names) && 0 < n <= |names|
    requires var best := Leaders(names, hands, n - 1, Compare); best == Only(names[..n - 1], Named(best))
    ensures var best := Leaders(names, hands, n, Compare); best == Only(names[..n], Named(best))
  {
    var best, next := Leaders(names, hands, n - 1, Compare), Leaders(names, hands, n, Compare);
    LeaderKind(names, hands, n);
    LeadersAmong(names, hands, n - 1);
    NotBefore(names, n);
    LeaderJoins(names[..n - 1], best, next, names[n - 1]);
  }

  /** Everyone who wins pot k. */
  ghost function WinnersIn(d: State, k: nat): set<PlayerID>
    requires k < |d.pots|
  {
    set i | 0 <= i < |d.players| && Wins(d.players, d.board, d.pots[k].eligible, i) :: d.players[i].id
  }

  lemma WinnersListed(d: State, orders: seq<seq<PlayerID>>, k: nat)
    requires DistinctIds(d.players) && Orders(d.pots, orders) && k < |d.pots|
    ensures AllWinners(d, orders)[k] == Only(orders[k], WinnersIn(d, k))
  {
    var hands, names, best := HandsOf(d.players, d.board), orders[k], AllWinners(d, orders)[k];
    LeadersInOrder(names, hands, |names|);
    assert names[..|names|] == names;
    forall id | id in names ensures id in Named(best) <==> id in WinnersIn(d, k) {
      ShowdownExact(d, orders, k, id);
    }
    OnlySame(names, Named(best), WinnersIn(d, k));
  }

  // ----- what they are paid -----

  /** A winner's part of a pot: the even share, and one chip more for the first few of the winners. */
  function Part(amount: int, winners: seq<PlayerID>, id: PlayerID): int {
    if id !in winners then 0
    else
      var left := amount % |winners|;
      amount / |winners| + if id in winners[..left] then 1 else 0
  }

  function PartUpTo(amount: int, winners: seq<PlayerID>, j: nat, id: PlayerID): int
    requires j <= |winners|
  {
    if id !in winners[..j] then 0 else Part(amount, winners, id)
  }

  lemma {:induction false} CreditIs(m: Winnings, amount: int, winners: seq<PlayerID>, j: nat, id: PlayerID)
    requires j <= |winners| && forall a, b :: 0 <= a < b < |winners| ==> winners[a] != winners[b]
    ensures Look(Credit(m, amount, winners, j), id) == Look(m, id) + PartUpTo(amount, winners, j, id)
  {
    if j > 0 {
      CreditIs(m, amount, winners, j - 1, id);
      var left := amount % |winners|;
      assert winners[..j] == winners[..j - 1] + [winners[j - 1]];
      if winners[j - 1] == id {
        assert id !in winners[..j - 1];
        assert id in winners[..left] <==> j - 1 < left by {
          if id in winners[..left] {
            var a :| 0 <= a < left && winners[..left][a] == id;
            assert winners[a] == winners[j - 1];
          }
          if j - 1 < left {
            assert winners[..left][j - 1] == id;
          }
        }
      }
    }
  }

  /** What player i gets out of pot k. */
  ghost function Share(d: State, orders: seq<seq<PlayerID>>, k: nat, id: PlayerID): int
    requires k < |d.pots| == |orders|
  {
    Part(d.pots[k].amount, Only(orders[k], WinnersIn(d, k)), id)
  }

  ghost function Shares(d: State, orders: seq<seq<PlayerID>>, n: nat, id: PlayerID): int
    requires n <= |d.pots| == |orders|
  {
    if n == 0 then 0 else Shares(d, orders, n - 1, id) + Share(d, orders, n - 1, id)
  }

  lemma WinnersDistinct(d: State, orders: seq<seq<PlayerID>>, k: nat)
    requires Orders(d.pots, orders) && k < |d.pots|
    ensures forall a, b :: 0 <= a < b < |AllWinners(d, orders)[k]| ==>
      AllWinners(d, orders)[k][a] != AllWinners(d, orders)[k][b]
  {
    var names, hands := orders[k], HandsOf(d.players, d.board);
    LeadersDistinct(names, hands, |names|, Compare);
    assert AllWinners(d, orders)[k] == Leaders(names, hands, |names|, Compare);
  }

  lemma {:induction false} WinningsAreShares(d: State, orders: seq<seq<PlayerID>>, n: nat, id: PlayerID)
    requires DistinctIds(d.players) && Orders(d.pots, orders) && n <= |d.pots|
    ensures Look(WinMap(d.pots, AllWinners(d, orders), n), id) == Shares(d, orders, n, id)
  {
    if n > 0 {
      WinningsAreShares(d, orders, n - 1, id);
      WinnersListed(d, orders, n - 1);
      WinnersDistinct(d, orders, n - 1);
      var winners := AllWinners(d, orders)[n - 1];
      CreditIs(WinMap(d.pots, AllWinners(d, orders), n - 1), d.pots[n - 1].amount, winners, |winners|, id);
      assert winners[..|winners|] == winners;
    }
  }

  /** A showdown adds to each stack the player's part of every net pot, and nothing else. */
  lemma FinishPays(s: State, c: RakeConfig, orders: seq<seq<PlayerID>>, i: nat)
    requires DistinctIds(s.players) && SumBy(s.players, LiveOf) != 1 && i < |s.players|
    requires Orders(Netted(s, c).pots, orders)
    ensures var d, after := Netted(s, c), FinishHand.Finish(s, c, orders);
      && |after.players| == |s.players| && after.players[i].id == s.players[i].id
      && after.players[i].stack == s.players[i].stack + Shares(d, orders, |d.pots|, s.players[i].id)
  {
    var d := Netted(s, c);
    UncoveredCounts(s.players);
    LiveCount(d.players);
    NettedPeople(s, c);
    WinningsAreShares(d, orders, |d.pots|, d.players[i].id);
  }

  /** Collecting and raking change neither who is in the hand nor what they hold. */
  lemma NettedPeople(s: State, c: RakeConfig)
    requires DistinctIds(s.players)
    ensures var d := Netted(s, c); |d.players| == |s.players| && d.board == s.board && DistinctIds(d.players)
    ensures forall i :: 0 <= i < |s.players| ==>
      Netted(s, c).players[i] == s.players[i].(bet := Netted(s, c).players[i].bet)
  {
    forall i, j | 0 <= i < j < |s.players| ensures Netted(s, c).players[i].id != Netted(s, c).players[j].id {
      assert Netted(s, c).players[i].id == s.players[i].id && Netted(s, c).players[j].id == s.players[j].id;
    }
  }
}
