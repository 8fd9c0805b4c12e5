/** FinishHand: collect, rake, find the winners, award. */
module FinishHand {
  import opened Domain
  import opened SidePots
  import opened Betting
  import opened Order
  import opened Evaluator
  import opened Payout
  import opened HandInvariant
  import opened HandSteps

  function LivePlayers(ps: seq<Player>): seq<Player> {
    if |ps| == 0 then []
    else LivePlayers(ps[..|ps| - 1]) + if Live(ps[|ps| - 1]) then [ps[|ps| - 1]] else []
  }

  method ActivePlayers(players: seq<Player>) returns (result: seq<Player>)
    ensures result == LivePlayers(players)
  {
    result := [];
    for i := 0 to |players|
      invariant result == LivePlayers(players[..i])
    {
      assert players[..i + 1][..i] == players[..i];
      if Live(players[i]) {
        result := result + [players[i]];
      }
    }
    assert players[..|players|] == players;
  }

  lemma {:induction false} LiveCount(ps: seq<Player>)
    ensures |LivePlayers(ps)| == SumBy(ps, LiveOf)
    ensures forall p :: p in LivePlayers(ps) ==> p in ps && Live(p)
  {
    if |ps| > 0 {
      LiveCount(ps[..|ps| - 1]);
    }
  }

  // ----- specification -----

  ghost predicate Orders(pots: seq<Pot>, orders: seq<seq<PlayerID>>) {
    |orders| == |pots| && forall k :: 0 <= k < |pots| ==> Listing(orders[k], pots[k].eligible)
  }

  ghost function RakeOf(s: State, c: RakeConfig): int {
    Rake(Collect(s).pots, s.street, c)
  }

  /** Collected and raked, before anyone is paid. */
  ghost function Netted(s: State, c: RakeConfig): State {
    var d := Collect(s);
    d.(pots := Raked(d.pots, RakeOf(s, c)), eventSequence := s.eventSequence + 1)
  }

  ghost function AllWinners(d: State, orders: seq<seq<PlayerID>>): seq<seq<PlayerID>>
    requires |orders| == |d.pots|
  {
    seq(|d.pots|, k requires 0 <= k < |d.pots| => PotWinners(orders[k], HandsOf(d.players, d.board)))
  }

  ghost function Winners(d: State, orders: seq<seq<PlayerID>>): Winnings
    requires |orders| == |d.pots|
  {
    var live := LivePlayers(d.players);
    if |live| == 1 then map[live[0].id := Total(d.pots)]
    else WinMap(d.pots, AllWinners(d, orders), |d.pots|)
  }

  ghost function Finish(s: State, c: RakeConfig, orders: seq<seq<PlayerID>>): State
    requires |orders| == |Netted(s, c).pots|
  {
    var d := Netted(s, c);
    d.(players := Awarded(d.players, Winners(d, orders)), street := Showdown)
  }

  /** Some order always exists. */
  lemma AnyOrders(pots: seq<Pot>) returns (orders: seq<seq<PlayerID>>)
    ensures Orders(pots, orders)
  {
    orders := [];
    for k := 0 to |pots|
      invariant |orders| == k && forall j :: 0 <= j < k ==> Listing(orders[j], pots[j].eligible)
    {
      var names := SomeListing(pots[k].eligible);
      orders := orders + [names];
    }
  }

  lemma {:induction false} SomeListing(ids: set<PlayerID>) returns (names: seq<PlayerID>)
    ensures Listing(names, ids)
  {
    if ids == {} {
      names := [];
    } else {
      var id :| id in ids;
      var rest := SomeListing(ids - {id});
      names := rest + [id];
    }
  }

  // ----- conservation -----

  lemma CollectedHasNoDebt(s: State)
    requires NoDebt(s.pots)
    ensures NoDebt(Collect(s).pots)
  {
    BetsPositive(s.players);
    LayersDescend(StreetBets(s.players));
  }

  /** No pot is ever in debt, before or after the rake, finished hand or not. */
  lemma NettedHasNoDebt(s: State, c: RakeConfig)
    requires NoDebt(s.pots) && ValidRake(c)
    ensures NoDebt(Collect(s).pots) && NoDebt(Netted(s, c).pots)
  {
    CollectedHasNoDebt(s);
    var pots := Collect(s).pots;
    TotalNonNegative(pots);
    RakeBounded(pots, s.street, c);
    RakeExact(pots, RakeOf(s, c));
  }

  /** Before the award: no bets are out, and stacks, pots and rake hold every chip. */
  lemma NettedConserves(s: State, o: Origin, c: RakeConfig)
    requires Books(s, o) && ValidRake(c)
    ensures var d := Netted(s, c);
      && SumBy(d.players, StackOf) + Total(d.pots) + RakeOf(s, c) == SumInts(o.stacks)
      && DistinctIds(d.players) && IdSet(d.players) == IdSet(s.players) && NoDebt(d.pots)
      && |d.pots| == |Collect(s).pots|
      && forall k :: 0 <= k < |d.pots| ==> d.pots[k].eligible == Collect(s).pots[k].eligible
  {
    CollectConserves(s);
    CollectKeepsChain(s);
    UncoveredCounts(s.players);
    var pots := Collect(s).pots;
    TotalNonNegative(pots);
    RakeBounded(pots, s.street, c);
    RakeExact(pots, RakeOf(s, c));
    forall i, j | 0 <= i < j < |s.players| ensures Uncovered(s.players)[i].id != Uncovered(s.players)[j].id {}
  }

  /** With two or more live players every pot has a live eligible player. */
  lemma NoOrphanPot(s: State, o: Origin) returns (w: nat)
    requires Books(s, o) && HasHeir(s) && SumBy(s.players, LiveOf) != 1
    ensures w < |s.players| && Live(s.players[w]) && InEveryPot(Collect(s).pots, s.players[w].id)
  {
    w :| 0 <= w < |s.players| && Live(s.players[w]) && s.players[w].bet == s.currentBet
         && InEveryPot(s.pots, s.players[w].id);
    TopBettorInEveryPot(s, w);
  }

  lemma WinnersPaid(d: State, orders: seq<seq<PlayerID>>)
    requires DistinctIds(d.players) && Orders(d.pots, orders) && NoDebt(d.pots)
    requires forall k :: 0 <= k < |d.pots| ==> d.pots[k].eligible <= IdSet(d.players)
    ensures Payable(d.pots, AllWinners(d, orders), IdSet(d.players))
  {
    var hands, winners := HandsOf(d.players, d.board), AllWinners(d, orders);
    forall k, j | 0 <= k < |d.pots| && 0 <= j < |winners[k]| ensures winners[k][j] in IdSet(d.players) {
      LeadersDistinct(orders[k], hands, |orders[k]|, Compare);
      assert winners[k][j] in winners[k];
      assert winners[k][j] in orders[k][..|orders[k]|];
    }
  }

  lemma HeirWins(d: State, orders: seq<seq<PlayerID>>, w: nat, k: nat)
    requires Orders(d.pots, orders) && k < |d.pots|
    requires w < |d.players| && Live(d.players[w]) && d.players[w].id in d.pots[k].eligible
    ensures |AllWinners(d, orders)[k]| > 0
  {
    var hands, id := HandsOf(d.players, d.board), d.players[w].id;
    HandsOfLive(d.players, d.board, id);
    assert id in orders[k];
    var i :| 0 <= i < |orders[k]| && orders[k][i] == id;
    CompareIsPreorder();
    LeadersNonEmpty(orders[k], hands, Compare, i);
  }

  lemma SoleWinner(ps: seq<Player>, amount: int)
    requires DistinctIds(ps) && |LivePlayers(ps)| == 1
    ensures SumBy(ps, WinOf(map[LivePlayers(ps)[0].id := amount])) == amount
  {
    LiveCount(ps);
    var p := LivePlayers(ps)[0];
    assert p in LivePlayers(ps);
    var i :| 0 <= i < |ps| && ps[i] == p;
    assert p.id in IdSet(ps);
    SumBump(ps, map[], p.id, amount);
    NothingWon(ps);
  }

  /** The whole net pot is paid out. */
  lemma PayoutExact(d: State, orders: seq<seq<PlayerID>>, w: nat)
    requires DistinctIds(d.players) && Orders(d.pots, orders) && NoDebt(d.pots)
    requires forall k :: 0 <= k < |d.pots| ==> d.pots[k].eligible <= IdSet(d.players)
    requires SumBy(d.players, LiveOf) == 1
             || (w < |d.players| && Live(d.players[w]) && InEveryPot(d.pots, d.players[w].id))
    ensures SumBy(d.players, WinOf(Winners(d, orders))) == Total(d.pots)
  {
    LiveCount(d.players);
    if |LivePlayers(d.players)| == 1 {
      SoleWinner(d.players, Total(d.pots));
    } else {
      var winners := AllWinners(d, orders);
      WinnersPaid(d, orders);
      forall k | 0 <= k < |d.pots| ensures |winners[k]| > 0 {
        HeirWins(d, orders, w, k);
      }
      WinMapSum(d.players, d.pots, winners, |d.pots|);
      AllWon(d.pots, winners, |d.pots|);
      assert d.pots[..|d.pots|] == d.pots;
    }
  }

  lemma FinishAwards(s: State, c: RakeConfig, orders: seq<seq<PlayerID>>)
    requires Orders(Netted(s, c).pots, orders)
    ensures SumBy(Finish(s, c, orders).players, StackOf)
      == SumBy(Netted(s, c).players, StackOf) + SumBy(Netted(s, c).players, WinOf(Winners(Netted(s, c), orders)))
  {
    AwardSum(Netted(s, c).players, Winners(Netted(s, c), orders));
  }

  /** Final stacks and rake are the chips the hand started with. */
  lemma FinishConserves(s: State, o: Origin, c: RakeConfig, orders: seq<seq<PlayerID>>)
    requires Books(s, o) && HasHeir(s) && ValidRake(c) && Orders(Netted(s, c).pots, orders)
    ensures SumBy(Finish(s, c, orders).players, StackOf) + RakeOf(s, c) == SumInts(o.stacks)
  {
    NettedConserves(s, o, c);
    var w := NettedHeir(s, o, c);
    PayoutExact(Netted(s, c), orders, w);
    FinishAwards(s, c, orders);
  }

  /** Rake moves no eligibility, so the heir survives it. */
  lemma NettedHeir(s: State, o: Origin, c: RakeConfig) returns (w: nat)
    requires Books(s, o) && HasHeir(s) && ValidRake(c)
    ensures var d := Netted(s, c);
      && (forall k :: 0 <= k < |d.pots| ==> d.pots[k].eligible <= IdSet(d.players))
      && (SumBy(d.players, LiveOf) == 1
          || (w < |d.players| && Live(d.players[w]) && InEveryPot(d.pots, d.players[w].id)))
  {
    NettedConserves(s, o, c);
    CollectKeepsChain(s);
    UncoveredCounts(s.players);
    w := 0;
    if SumBy(s.players, LiveOf) != 1 {
      w := NoOrphanPot(s, o);
      assert Uncovered(s.players)[w].id == s.players[w].id;
    }
  }

  /** A sole survivor takes the whole net pot; everybody else keeps their stack. */
  lemma SoleSurvivorTakesAll(s: State, o: Origin, c: RakeConfig, orders: seq<seq<PlayerID>>, w: nat, i: nat)
    requires Books(s, o) && ValidRake(c) && Orders(Netted(s, c).pots, orders)
    requires SumBy(s.players, LiveOf) == 1 && w < |s.players| && Live(s.players[w]) && i < |s.players|
    ensures |Finish(s, c, orders).players| == |s.players|
    ensures Finish(s, c, orders).players[i].stack
      == s.players[i].stack + if i == w then Total(Netted(s, c).pots) else 0
  {
    var d := Netted(s, c);
    UncoveredCounts(s.players);
    LiveCount(d.players);
    OneLive(d.players, w);
    assert d.players[i].id == s.players[i].id && d.players[w].id == s.players[w].id;
    assert d.players[i].stack == s.players[i].stack;
  }

  lemma {:induction false} OneLive(ps: seq<Player>, w: nat)
    requires SumBy(ps, LiveOf) == 1 && w < |ps| && Live(ps[w])
    ensures LivePlayers(ps) == [ps[w]]
  {
    var front, last := ps[..|ps| - 1], ps[|ps| - 1];
    if w < |front| {
      assert front[w] == ps[w];
      if Live(last) {
        LiveCounts(front, w);
      } else {
        OneLive(front, w);
      }
    } else {
      LiveCount(front);
    }
  }

  lemma {:induction false} LiveCounts(ps: seq<Player>, w: nat)
    requires w < |ps| && Live(ps[w])
    ensures SumBy(ps, LiveOf) >= 1
  {
    var front := ps[..|ps| - 1];
    SumAtMost(front, LiveOf);
    if w < |front| {
      assert front[w] == ps[w];
      LiveCounts(front, w);
    }
  }

  /** Before the flop is dealt no hand has five cards, so a hand that finishes there is split
      evenly among every live eligible player, whatever they hold. */
  lemma ShortBoardSplits(d: State, orders: seq<seq<PlayerID>>, k: nat, id: PlayerID)
    requires Orders(d.pots, orders) && k < |d.pots| && |d.board| < 3
    ensures id in AllWinners(d, orders)[k] <==> id in d.pots[k].eligible && id in HandsOf(d.players, d.board)
  {
    var hands := HandsOf(d.players, d.board);
    PotWinnersExact(orders[k], hands, id);
    forall a, b | a in hands && b in hands ensures Compare(hands[a], hands[b]) >= 0 {
      NoHandYet(d.players, d.board, a);
      NoHandYet(d.players, d.board, b);
      CompareTies(NO_HAND, NO_HAND);
    }
  }

  lemma {:induction false} NoHandYet(ps: seq<Player>, board: seq<Card>, id: PlayerID)
    requires |board| < 3 && id in HandsOf(ps, board)
    ensures HandsOf(ps, board)[id] == NO_HAND
  {
    var p := ps[|ps| - 1];
    if Live(p) && p.id == id {
      NoHands([p.hole.0, p.hole.1] + board);
    } else {
      NoHandYet(ps[..|ps| - 1], board, id);
    }
  }
}
