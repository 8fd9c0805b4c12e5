/** The exact exceptions: the starts from which a hand can lose chips, and the hands that can stop. */
module HandExceptions {
  import opened Domain
  import opened SidePots
  import opened Betting
  import opened Order
  import opened Evaluator
  import opened Payout
  import opened HandInvariant
  import opened HandSteps
  import opened FinishHand
  import opened StartHand
  import opened HandRun

  // ----- the orphan pot -----

  lemma {:induction false} NobodyActs(ps: seq<Player>)
    requires forall i :: 0 <= i < |ps| ==> !CanAct(ps[i])
    ensures CountCanAct(ps) == 0
  {
    if |ps| > 0 {
      NobodyActs(ps[..|ps| - 1]);
    }
  }

  lemma {:induction false} EverybodyLives(ps: seq<Player>)
    requires forall i :: 0 <= i < |ps| ==> Live(ps[i])
    ensures SumBy(ps, LiveOf) == |ps|
  {
    if |ps| > 0 {
      EverybodyLives(ps[..|ps| - 1]);
    }
  }

  /** The big blind, first to act with nobody else able to, folds. */
  ghost function BigBlindFolds(input: StartInput, deck: seq<Card>): Action
    requires Start(input, deck).Started?
  {
    Action(input.players[BigBlindSeat(input.button, |input.players|)].id, Fold, 0)
  }

  lemma BigBlindToAct(input: StartInput, deck: seq<Card>)
    requires Start(input, deck).Started? && OnlyBigBlindActs(input)
    ensures var s, bb := Start(input, deck).s, BigBlindSeat(input.button, |input.players|);
      && s.active == bb < |s.players| == |input.players|
      && forall i :: 0 <= i < |s.players| ==> (CanAct(s.players[i]) <==> i == bb)
  {
    var s, bb := Start(input, deck).s, BigBlindSeat(input.button, |input.players|);
    forall i | 0 <= i < |input.players| ensures CanAct(s.players[i]) <==> i == bb {
      StartedPlayers(input, deck, i);
    }
    ScanNone(s.players, bb, 1, CanAct);
  }

  lemma FoldEnds(input: StartInput, deck: seq<Card>)
    requires Start(input, deck).Started? && DistinctIds(input.players) && OnlyBigBlindActs(input)
    ensures var s, a, o := Start(input, deck).s, BigBlindFolds(input, deck), OriginOf(input, deck);
      && s.active == BigBlindSeat(input.button, |input.players|) < |s.players| && s.button < |s.players|
      && Books(s, o) && Accepted(s, a) && Execute(s, a) == Ends(Acted(s, a))
  {
    var s, a := Start(input, deck).s, BigBlindFolds(input, deck);
    StartKeepsShape(input, deck);
    StartKeepsMoney(input, deck);
    BigBlindToAct(input, deck);
    StartedPlayers(input, deck, s.active);
    NobodyActs(Acted(s, a).players);
  }

  lemma FoldedPlayer(input: StartInput, deck: seq<Card>, k: nat)
    requires Start(input, deck).Started? && DistinctIds(input.players) && OnlyBigBlindActs(input) && k < |input.players|
    ensures var t, n, c := Acted(Start(input, deck).s, BigBlindFolds(input, deck)), |input.players|, input.config;
      && |t.players| == n && t.players[k].id == input.players[k].id
      && t.players[k].bet == (if k == SmallBlindSeat(input.button, n) then c.smallBlind
                              else if k == BigBlindSeat(input.button, n) then c.bigBlind else 0)
      && (Live(t.players[k]) <==> k != BigBlindSeat(input.button, n))
  {
    FoldEnds(input, deck);
    StartedPlayers(input, deck, k);
    BlindSeatsDiffer(input.button, |input.players|);
  }

  lemma TwoBettors(ps: seq<Player>, i: nat, j: nat)
    requires DistinctIds(ps) && i < |ps| && j < |ps| && i != j && ps[i].bet > 0 && ps[j].bet > 0
    requires forall k :: 0 <= k < |ps| && k != i && k != j ==> ps[k].bet == 0
    ensures StreetBets(ps) == map[ps[i].id := ps[i].bet, ps[j].id := ps[j].bet] && ps[i].id != ps[j].id
  {
    var bets := StreetBets(ps);
    BetRecorded(ps, i);
    BetRecorded(ps, j);
    BetsPositive(ps);
    forall id | id in bets ensures id == ps[i].id || id == ps[j].id {
      var k :| 0 <= k < |ps| && ps[k].id == id && ps[k].bet == bets[id];
    }
  }

  lemma TwoLevels(sb: PlayerID, bb: PlayerID, blind: int)
    requires sb != bb && blind > 0
    ensures LevelsOf([blind, 2 * blind], map[sb := blind, bb := 2 * blind])
  {
    var m: Contributions := map[sb := blind, bb := 2 * blind];
    var levels := [blind, 2 * blind];
    assert m[sb] == levels[0] && m[bb] == levels[1];
    assert Paid(m, levels[0]) && Paid(m, levels[1]);
    assert Listed(levels, m[sb]) && Listed(levels, m[bb]);
  }

  lemma TwoSteps(sb: PlayerID, bb: PlayerID, blind: int)
    requires sb != bb && blind > 0
    ensures var m: Contributions := map[sb := blind, bb := 2 * blind];
      && Step(m, [blind, 2 * blind], 0) == Pot(2 * blind, {sb, bb})
      && Step(m, [blind, 2 * blind], 1) == Pot(blind, {bb})
  {
    var m: Contributions := map[sb := blind, bb := 2 * blind];
    assert Reached(m, blind) == {sb, bb} && Reached(m, 2 * blind) == {bb};
  }

  lemma TwoBlindLayers(sb: PlayerID, bb: PlayerID, blind: int)
    requires sb != bb && blind > 0
    ensures Positive(map[sb := blind, bb := 2 * blind])
    ensures Layers(map[sb := blind, bb := 2 * blind]) == [Pot(2 * blind, {sb, bb}), Pot(blind, {bb})]
  {
    TwoLevels(sb, bb, blind);
    TwoSteps(sb, bb, blind);
    MatchesTwo(map[sb := blind, bb := 2 * blind], blind, 2 * blind);
  }

  lemma MatchesTwo(m: Contributions, x: int, y: int)
    requires Positive(m) && LevelsOf([x, y], m)
    ensures Layers(m) == [Step(m, [x, y], 0), Step(m, [x, y], 1)]
  {
    ClosedForm(m, [x, y]);
  }

  lemma OrphanPots(input: StartInput, deck: seq<Card>)
    requires Start(input, deck).Started? && DistinctIds(input.players) && OnlyBigBlindActs(input)
    ensures var t, n := Acted(Start(input, deck).s, BigBlindFolds(input, deck)), |input.players|;
      var sb, bb := input.players[SmallBlindSeat(input.button, n)].id, input.players[BigBlindSeat(input.button, n)].id;
      Collect(t).pots == [Pot(2 * input.config.smallBlind, {sb, bb}), Pot(input.config.smallBlind, {bb})]
  {
    FoldEnds(input, deck);
    var n, t := |input.players|, Acted(Start(input, deck).s, BigBlindFolds(input, deck));
    var i, j := SmallBlindSeat(input.button, n), BigBlindSeat(input.button, n);
    BlindSeatsDiffer(input.button, n);
    forall k | 0 <= k < n
      ensures t.players[k].id == input.players[k].id
      ensures t.players[k].bet
        == if k == i then input.config.smallBlind else if k == j then input.config.bigBlind else 0
    {
      FoldedPlayer(input, deck, k);
    }
    TwoBettors(t.players, i, j);
    TwoBlindLayers(t.players[i].id, t.players[j].id, input.config.smallBlind);
  }

  lemma EverybodyStarts(input: StartInput, deck: seq<Card>)
    requires Start(input, deck).Started?
    ensures var ps := Start(input, deck).s.players;
      && |ps| == |input.players| && SumBy(ps, LiveOf) == |ps|
      && forall k :: 0 <= k < |ps| ==> Live(ps[k]) && ps[k].id == input.players[k].id
  {
    var s := Start(input, deck).s;
    forall k | 0 <= k < |s.players| ensures Live(s.players[k]) && s.players[k].id == input.players[k].id {
      StartedPlayers(input, deck, k);
    }
    EverybodyLives(s.players);
  }

  lemma OneFolds(ps: seq<Player>, i: nat)
    requires i < |ps| && SumBy(ps, LiveOf) == |ps| && Live(ps[i])
    ensures SumBy(ps[i := ps[i].(status := Folded)], LiveOf) == |ps| - 1
  {
    SumUpdate(ps, i, ps[i].(status := Folded), LiveOf);
  }

  lemma LiveAfterFold(input: StartInput, deck: seq<Card>)
    requires Start(input, deck).Started? && DistinctIds(input.players) && OnlyBigBlindActs(input)
    ensures BigBlindOut(input, Acted(Start(input, deck).s, BigBlindFolds(input, deck)).players)
  {
    BigBlindToAct(input, deck);
    EverybodyStarts(input, deck);
    OneFolds(Start(input, deck).s.players, BigBlindSeat(input.button, |input.players|));
  }

  lemma NoLiveNoWinner(d: State, orders: seq<seq<PlayerID>>, k: nat)
    requires Orders(d.pots, orders) && k < |d.pots|
    requires forall i :: 0 <= i < |d.players| && Live(d.players[i]) ==> d.players[i].id !in d.pots[k].eligible
    ensures AllWinners(d, orders)[k] == []
  {
    var hands, best := HandsOf(d.players, d.board), AllWinners(d, orders)[k];
    forall id ensures id !in best {
      PotWinnersExact(orders[k], hands, id);
      HandsOfLive(d.players, d.board, id);
    }
    FirstIsIn(best);
  }

  lemma FirstIsIn<T>(xs: seq<T>)
    ensures xs == [] || xs[0] in xs
  {}

  /** What is raked before the flop from a pot that holds the two blinds. */
  function BlindsRake(input: StartInput, c: RakeConfig): int {
    Rake([Pot(3 * input.config.smallBlind, {})], Preflop, c)
  }

  /** What the big blind's fold leaves unpaid: the orphan pot, less what the rake took from it first. */
  function Stranded(input: StartInput, c: RakeConfig): int {
    var r, blind := BlindsRake(input, c), input.config.smallBlind;
    if r < blind then blind - r else 0
  }

  /** Without the guard of ChipConservation chips can be lost: when only the big blind of three or more
      players has chips left, the big blind may fold; the pot only they were eligible for is passed
      over, and whatever the rake has not taken out of it is gone. */
  lemma OrphanPotLosesChips(input: StartInput, deck: seq<Card>, c: RakeConfig, orders: seq<seq<PlayerID>>)
    requires Start(input, deck).Started? && DistinctIds(input.players) && OnlyBigBlindActs(input) && ValidRake(c)
    requires Orders(Netted(Acted(Start(input, deck).s, BigBlindFolds(input, deck)), c).pots, orders)
    ensures var s, a := Start(input, deck).s, BigBlindFolds(input, deck);
      s.active < |s.players| && s.button < |s.players| && Execute(s, a) == Ends(Acted(s, a))
    ensures var t := Acted(Start(input, deck).s, BigBlindFolds(input, deck));
      RakeOf(t, c) == BlindsRake(input, c) &&
      SumBy(Finish(t, c, orders).players, StackOf) + RakeOf(t, c)
        == SumBy(input.players, StackOf) - Stranded(input, c)
  {
    FoldEnds(input, deck);
    LosingMoney(input, deck, c);
    var t := Acted(Start(input, deck).s, BigBlindFolds(input, deck));
    LosingPayout(input, deck, c, orders, Netted(t, c));
    FinishAwards(t, c, orders);
  }

  /** A start from which chips can be lost: 0, 1 and 3 chips, blinds of 1 and 2, the first player on
      the button. */
  lemma OrphanPotArises(deck: seq<Card>) returns (input: StartInput)
    requires |deck| >= 6
    ensures Start(input, deck).Started? && DistinctIds(input.players) && OnlyBigBlindActs(input)
    ensures forall c :: ValidRake(c) && c.noFlopNoDrop ==> Stranded(input, c) == 1
  {
    var none := (Card(0, Spades), Card(0, Spades));
    input := StartInput(
      [Player("a", 0, none, Active, 0, 0), Player("b", 1, none, Active, 0, 1), Player("c", 3, none, Active, 0, 2)],
      0, BettingConfig(FixedLimit, 1, 2, 2, 4, 4));
  }

  lemma LosingMoney(input: StartInput, deck: seq<Card>, c: RakeConfig)
    requires Start(input, deck).Started? && DistinctIds(input.players) && OnlyBigBlindActs(input) && ValidRake(c)
    ensures var t := Acted(Start(input, deck).s, BigBlindFolds(input, deck));
      SumBy(Netted(t, c).players, StackOf) + Total(Netted(t, c).pots) + RakeOf(t, c) == SumBy(input.players, StackOf)
  {
    var t, o := Acted(Start(input, deck).s, BigBlindFolds(input, deck)), OriginOf(input, deck);
    FoldedBooks(input, deck);
    NettedConserves(t, o, c);
    StartingTotal(input.players, o.stacks);
  }

  lemma FoldedBooks(input: StartInput, deck: seq<Card>)
    requires Start(input, deck).Started? && DistinctIds(input.players) && OnlyBigBlindActs(input)
    ensures Books(Acted(Start(input, deck).s, BigBlindFolds(input, deck)), OriginOf(input, deck))
  {
    FoldEnds(input, deck);
    var s, a, o := Start(input, deck).s, BigBlindFolds(input, deck), OriginOf(input, deck);
    ApplyKeepsBooks(s, a, o);
    assert Chips(Acted(s, a)) == Chips(Apply(s, a));
  }

  /** Player j has folded and was alone in the second of two pots; player i is eligible for the first. */
  ghost predicate Orphaned(d: State, i: nat, j: nat) {
    && DistinctIds(d.players) && i < |d.players| && j < |d.players| && i != j && SumBy(d.players, LiveOf) >= 2
    && (forall k :: 0 <= k < |d.players| ==> (Live(d.players[k]) <==> k != j))
    && |d.pots| == 2 && NoDebt(d.pots)
    && d.pots[0].eligible == {d.players[i].id, d.players[j].id} && d.pots[1].eligible == {d.players[j].id}
  }

  lemma LosingPayout(input: StartInput, deck: seq<Card>, c: RakeConfig, orders: seq<seq<PlayerID>>, d: State)
    requires Start(input, deck).Started? && DistinctIds(input.players) && OnlyBigBlindActs(input) && ValidRake(c)
    requires d == Netted(Acted(Start(input, deck).s, BigBlindFolds(input, deck)), c) && Orders(d.pots, orders)
    ensures RakeOf(Acted(Start(input, deck).s, BigBlindFolds(input, deck)), c) == BlindsRake(input, c)
    ensures SumBy(d.players, WinOf(Winners(d, orders))) == Total(d.pots) - Stranded(input, c)
  {
    var n := |input.players|;
    NettedOrphan(input, deck, c);
    FoldOrphans(input, deck, c);
    SecondPotSkipped(d, orders, SmallBlindSeat(input.button, n), BigBlindSeat(input.button, n));
  }

  /** Everybody but the big blind is live. */
  ghost predicate BigBlindOut(input: StartInput, ps: seq<Player>) {
    && |input.players| >= 3 && 0 <= input.button < |input.players| && |ps| == |input.players|
    && SumBy(ps, LiveOf) == |ps| - 1
    && forall k :: 0 <= k < |ps| ==>
         ps[k].id == input.players[k].id && (Live(ps[k]) <==> k != BigBlindSeat(input.button, |ps|))
  }

  lemma FoldedDown(input: StartInput, ps: seq<Player>)
    requires BigBlindOut(input, ps)
    ensures BigBlindOut(input, Uncovered(ps))
  {
    UncoveredCounts(ps);
  }

  lemma OutAndOrphaned(input: StartInput, d: State)
    requires BigBlindOut(input, d.players) && DistinctIds(input.players) && |d.pots| == 2 && NoDebt(d.pots)
    requires var n := |input.players|;
      var sb, bb := input.players[SmallBlindSeat(input.button, n)].id, input.players[BigBlindSeat(input.button, n)].id;
      d.pots[0].eligible == {sb, bb} && d.pots[1].eligible == {bb}
    ensures var n := |input.players|; Orphaned(d, SmallBlindSeat(input.button, n), BigBlindSeat(input.button, n))
  {
    BlindSeatsDiffer(input.button, |input.players|);
  }

  lemma FoldOrphans(input: StartInput, deck: seq<Card>, c: RakeConfig)
    requires Start(input, deck).Started? && DistinctIds(input.players) && OnlyBigBlindActs(input) && ValidRake(c)
    ensures var d, n := Netted(Acted(Start(input, deck).s, BigBlindFolds(input, deck)), c), |input.players|;
      Orphaned(d, SmallBlindSeat(input.button, n), BigBlindSeat(input.button, n))
  {
    var t := Acted(Start(input, deck).s, BigBlindFolds(input, deck));
    LiveAfterFold(input, deck);
    FoldedDown(input, t.players);
    NettedOrphan(input, deck, c);
    OutAndOrphaned(input, Netted(t, c));
  }

  /** The two pots after the rake, which comes out of the orphan pot first. */
  lemma NettedOrphan(input: StartInput, deck: seq<Card>, c: RakeConfig)
    requires Start(input, deck).Started? && DistinctIds(input.players) && OnlyBigBlindActs(input) && ValidRake(c)
    ensures var t, n := Acted(Start(input, deck).s, BigBlindFolds(input, deck)), |input.players|;
      var sb, bb := input.players[SmallBlindSeat(input.button, n)].id, input.players[BigBlindSeat(input.button, n)].id;
      var pots := Netted(t, c).pots;
      && RakeOf(t, c) == BlindsRake(input, c)
      && |pots| == 2 && pots[0].eligible == {sb, bb} && pots[1] == Pot(Stranded(input, c), {bb}) && NoDebt(pots)
  {
    OrphanPots(input, deck);
    var n := |input.players|;
    var sb, bb := input.players[SmallBlindSeat(input.button, n)].id, input.players[BigBlindSeat(input.button, n)].id;
    assert Acted(Start(input, deck).s, BigBlindFolds(input, deck)).street == Preflop;
    RakedOrphan(sb, bb, input.config.smallBlind, c);
  }

  lemma RakedOrphan(sb: PlayerID, bb: PlayerID, blind: int, c: RakeConfig)
    requires blind > 0 && ValidRake(c)
    ensures var pots, r := [Pot(2 * blind, {sb, bb}), Pot(blind, {bb})], Rake([Pot(3 * blind, {})], Preflop, c);
      && Rake(pots, Preflop, c) == r
      && |Raked(pots, r)| == 2 && NoDebt(Raked(pots, r)) && Raked(pots, r)[0].eligible == {sb, bb}
      && Raked(pots, r)[1] == Pot(if r < blind then blind - r else 0, {bb})
  {
    var p, q := Pot(2 * blind, {sb, bb}), Pot(blind, {bb});
    TwoPotTotal(p, q);
    OnePotTotal(Pot(3 * blind, {}));
    RakeBounded([p, q], Preflop, c);
    RakedTwo(p, q, Rake([p, q], Preflop, c));
  }

  lemma OnePotTotal(p: Pot)
    ensures Total([p]) == p.amount
  {
    assert [p][..0] == [];
  }

  lemma TwoPotTotal(p: Pot, q: Pot)
    ensures Total([p, q]) == p.amount + q.amount
  {
    assert [p, q][..1] == [p];
    OnePotTotal(p);
  }

  lemma RakedTwo(p: Pot, q: Pot, r: int)
    requires p.amount >= 0 && q.amount >= 0 && 0 <= r <= p.amount + q.amount
    ensures Raked([p, q], r) ==
      if r <= q.amount then [p, q.(amount := q.amount - r)]
      else [p.(amount := p.amount + q.amount - r), q.(amount := 0)]
  {
    if r > 0 {
      var d := if r > q.amount then q.amount else r;
      var next := [p, q.(amount := q.amount - d)];
      assert [p, q][1 := next[1]] == next;
      assert Raked([p, q], r) == RakedFrom(next, 1, r - d);
      if r > d {
        assert next[0 := p.(amount := p.amount - (r - d))] == [p.(amount := p.amount - (r - d)), next[1]];
      }
    }
  }

  /** Only the first pot is paid. */
  lemma SecondPotSkipped(d: State, orders: seq<seq<PlayerID>>, i: nat, j: nat)
    requires Orphaned(d, i, j) && Orders(d.pots, orders)
    ensures SumBy(d.players, WinOf(Winners(d, orders))) == Total(d.pots) - d.pots[1].amount
  {
    OrphansWithin(d, i, j);
    OnlyFirstHasWinner(d, orders, i, j);
    OnlyFirstPaid(d, orders);
  }

  lemma OrphansWithin(d: State, i: nat, j: nat)
    requires Orphaned(d, i, j)
    ensures forall k :: 0 <= k < |d.pots| ==> d.pots[k].eligible <= IdSet(d.players)
  {
    assert d.players[i].id in IdSet(d.players) && d.players[j].id in IdSet(d.players);
  }

  lemma OnlyFirstHasWinner(d: State, orders: seq<seq<PlayerID>>, i: nat, j: nat)
    requires Orphaned(d, i, j) && Orders(d.pots, orders)
    ensures AllWinners(d, orders)[0] != [] && AllWinners(d, orders)[1] == []
  {
    HeirWins(d, orders, i, 0);
    NoLiveNoWinner(d, orders, 1);
  }

  lemma OnlyFirstPaid(d: State, orders: seq<seq<PlayerID>>)
    requires DistinctIds(d.players) && NoDebt(d.pots) && Orders(d.pots, orders) && SumBy(d.players, LiveOf) >= 2
    requires |d.pots| == 2 && forall k :: 0 <= k < |d.pots| ==> d.pots[k].eligible <= IdSet(d.players)
    requires AllWinners(d, orders)[0] != [] && AllWinners(d, orders)[1] == []
    ensures SumBy(d.players, WinOf(Winners(d, orders))) == Total(d.pots) - d.pots[1].amount
  {
    LiveCount(d.players);
    WinnersPaid(d, orders);
    WinMapSum(d.players, d.pots, AllWinners(d, orders), 2);
    OnlyFirstWon(d.pots, AllWinners(d, orders));
  }

  lemma OnlyFirstWon(pots: seq<Pot>, winners: seq<seq<PlayerID>>)
    requires |pots| == |winners| == 2 && winners[0] != [] && winners[1] == []
    ensures WonTotal(pots, winners, 2) == Total(pots) - pots[1].amount
  {
    assert Total(pots) == Total(pots[..1]) + pots[1].amount;
    assert Total(pots[..1]) == Total(pots[..1][..0]) + pots[0].amount;
    assert WonTotal(pots, winners, 1) == pots[0].amount;
  }

  /** If the run ends with this action, all chips are accounted for. */
  ghost predicate EndsRight(states: seq<State>, last: Action, c: RakeConfig, orders: seq<seq<PlayerID>>, total: int)
    requires |states| > 0
  {
    var s := states[|states| - 1];
    Ready(s) && Execute(s, last).Ends? && Orders(Netted(Execute(s, last).final, c).pots, orders) ==>
      SumBy(Finish(Execute(s, last).final, c, orders).players, StackOf) + RakeOf(Execute(s, last).final, c) == total
  }

  ghost predicate AlwaysConserves(input: StartInput, deck: seq<Card>, c: RakeConfig) {
    forall states, actions, last, orders :: Run(input, deck, states, actions) ==>
      EndsRight(states, last, c, orders, SumBy(input.players, StackOf))
  }

  lemma FoldBreaks(input: StartInput, deck: seq<Card>, c: RakeConfig) returns (orders: seq<seq<PlayerID>>)
    requires Start(input, deck).Started? && DistinctIds(input.players) && OnlyBigBlindActs(input)
    requires ValidRake(c) && Stranded(input, c) > 0
    ensures !EndsRight([Start(input, deck).s], BigBlindFolds(input, deck), c, orders, SumBy(input.players, StackOf))
  {
    orders := AnyOrders(Netted(Acted(Start(input, deck).s, BigBlindFolds(input, deck)), c).pots);
    OrphanPotLosesChips(input, deck, c, orders);
  }

  lemma LosingRun(input: StartInput, deck: seq<Card>, c: RakeConfig)
    requires Start(input, deck).Started? && DistinctIds(input.players) && OnlyBigBlindActs(input)
    requires ValidRake(c) && Stranded(input, c) > 0
    ensures !AlwaysConserves(input, deck, c)
  {
    var orders := FoldBreaks(input, deck, c);
    assert Run(input, deck, [Start(input, deck).s], []);
  }

  lemma {:induction false} AtMostOneActs(ps: seq<Player>, i: nat)
    requires forall k :: 0 <= k < |ps| && k != i ==> !CanAct(ps[k])
    ensures CountCanAct(ps) <= 1
  {
    if |ps| > 0 {
      var last := |ps| - 1;
      if i == last {
        NobodyActs(ps[..last]);
      } else {
        AtMostOneActs(ps[..last], i);
      }
    }
  }

  lemma OnlyBigBlindCounts(input: StartInput, deck: seq<Card>)
    requires Start(input, deck).Started? && DistinctIds(input.players) && OnlyBigBlindActs(input)
    ensures CountCanAct(Start(input, deck).s.players) <= 1
  {
    var s, bb := Start(input, deck).s, BigBlindSeat(input.button, |input.players|);
    StartedPlayers(input, deck, bb);
    forall i | 0 <= i < |s.players| && i != bb ensures !CanAct(s.players[i]) {
      StartedPlayers(input, deck, i);
    }
    AtMostOneActs(s.players, bb);
  }

  /** Who has made the top bet and acts without folding is an heir. */
  lemma TopBettorStays(s: State, a: Action, o: Origin)
    requires Shape(s, o) && BetLevels(s) && s.street != Showdown && s.pots == []
    requires Accepted(s, a) && a.kind != Fold && s.players[s.active].bet == s.currentBet
    ensures HasHeir(Acted(s, a))
  {
    ActionEffect(s, a, o);
    var t := Acted(s, a);
    assert Live(t.players[s.active]) && t.players[s.active].bet == t.currentBet;
  }

  /** From that start every accepted action ends the hand at once. */
  lemma BigBlindEndsIt(input: StartInput, deck: seq<Card>, a: Action)
    requires Start(input, deck).Started? && DistinctIds(input.players) && OnlyBigBlindActs(input)
    requires Accepted(Start(input, deck).s, a)
    ensures var s, o := Start(input, deck).s, OriginOf(input, deck);
      s.button < |s.players| && Execute(s, a) == Ends(Acted(s, a)) && Books(Acted(s, a), o)
  {
    FoldEnds(input, deck);
    OnlyBigBlindCounts(input, deck);
    var s := Start(input, deck).s;
    ApplyKeepsBooks(s, a, OriginOf(input, deck));
    assert Chips(Acted(s, a)) == Chips(Apply(s, a));
  }

  lemma BigBlindChoices(input: StartInput, deck: seq<Card>, a: Action)
    requires Start(input, deck).Started? && DistinctIds(input.players) && OnlyBigBlindActs(input)
    requires Accepted(Start(input, deck).s, a)
    ensures var s := Start(input, deck).s;
      if a.kind == Fold then Acted(s, a) == Acted(s, BigBlindFolds(input, deck)) else HasHeir(Acted(s, a))
  {
    FoldEnds(input, deck);
    var bb := BigBlindSeat(input.button, |input.players|);
    StartedPlayers(input, deck, bb);
    BlindSeatsDiffer(input.button, |input.players|);
    if a.kind != Fold {
      TopBettorStays(Start(input, deck).s, a, OriginOf(input, deck));
    }
  }

  /** However the big blind ends it, nothing is lost if the rake takes the whole orphan pot. */
  lemma RakedAway(input: StartInput, deck: seq<Card>, last: Action, c: RakeConfig, orders: seq<seq<PlayerID>>)
    requires Start(input, deck).Started? && DistinctIds(input.players) && OnlyBigBlindActs(input)
    requires ValidRake(c) && Stranded(input, c) == 0 && Accepted(Start(input, deck).s, last)
    requires Orders(Netted(Acted(Start(input, deck).s, last), c).pots, orders)
    ensures var t := Acted(Start(input, deck).s, last);
      SumBy(Finish(t, c, orders).players, StackOf) + RakeOf(t, c) == SumBy(input.players, StackOf)
  {
    BigBlindEndsIt(input, deck, last);
    BigBlindChoices(input, deck, last);
    if last.kind == Fold {
      OrphanPotLosesChips(input, deck, c, orders);
    } else {
      FinishConserves(Acted(Start(input, deck).s, last), OriginOf(input, deck), c, orders);
      StartingTotal(input.players, OriginOf(input, deck).stacks);
    }
  }

  lemma NoSecondState(input: StartInput, deck: seq<Card>, states: seq<State>, actions: seq<Action>)
    requires Run(input, deck, states, actions) && DistinctIds(input.players) && OnlyBigBlindActs(input)
    ensures actions == []
  {
    if |actions| > 0 {
      assert Accepts(states[0], actions[0], states[1]);
      BigBlindEndsIt(input, deck, actions[0]);
      assert false;
    }
  }

  lemma RakedAwayEnds(input: StartInput, deck: seq<Card>, s: State, last: Action, c: RakeConfig,
                      orders: seq<seq<PlayerID>>)
    requires Start(input, deck) == Started(s) && DistinctIds(input.players) && OnlyBigBlindActs(input)
    requires ValidRake(c) && Stranded(input, c) == 0
    ensures EndsRight([s], last, c, orders, SumBy(input.players, StackOf))
  {
    if Ready(s) && Execute(s, last).Ends? && Orders(Netted(Execute(s, last).final, c).pots, orders) {
      BigBlindEndsIt(input, deck, last);
      RakedAway(input, deck, last, c, orders);
    }
  }

  /** The exact guard: every way of playing an accepted start to its end accounts for every chip if and
      only if it is not the case that, of three or more players, the big blind alone has chips left
      after the blinds, and the rake on the two blinds is less than the small blind. */
  lemma ConservationIff(input: StartInput, deck: seq<Card>, c: RakeConfig)
    requires Start(input, deck).Started? && DistinctIds(input.players) && ValidRake(c)
    ensures AlwaysConserves(input, deck, c) <==>
      !(OnlyBigBlindActs(input) && BlindsRake(input, c) < input.config.smallBlind)
  {
    if OnlyBigBlindActs(input) && Stranded(input, c) > 0 {
      LosingRun(input, deck, c);
    } else {
      forall states, actions, last, orders | Run(input, deck, states, actions)
        ensures EndsRight(states, last, c, orders, SumBy(input.players, StackOf))
      {
        if OnlyBigBlindActs(input) {
          NoSecondState(input, deck, states, actions);
          assert states == [states[0]];
          RakedAwayEnds(input, deck, states[0], last, c, orders);
        } else {
          ChipConservation(input, deck, states, actions, last, c, orders);
        }
      }
    }
  }

  // ----- hands that stop -----

  /** A stored hand accepts some action exactly when the player to act can act. */
  lemma StuckIff(s: State)
    requires s.active < |s.players|
    ensures (exists a :: Validate(s, a) == None) <==> CanAct(s.players[s.active])
  {
    if CanAct(s.players[s.active]) {
      assert Validate(s, Action(s.players[s.active].id, Fold, 0)) == None;
    }
  }

  /** Within a street the turn always reaches someone who can act: a hand can stop only where a
      street begins. */
  lemma MidStreetNeverStuck(s: State, a: Action, o: Origin)
    requires Inv(s, o) && Execute(s, a).Continues? && Execute(s, a).next.street == s.street
    ensures CanAct(Execute(s, a).next.players[Execute(s, a).next.active])
  {
    ActedKeeps(s, a, o);
    if RoundOver(Acted(s, a)) {
      AdvanceKeepsBooks(Acted(s, a), o);
      assert false;
    } else {
      TurnMoves(s, a, o);
    }
  }

  /** The first live seat after the button can act. */
  ghost predicate FirstLiveCanAct(ps: seq<Player>, button: nat) {
    && button < |ps|
    && exists k :: 1 <= k <= |ps| && CanAct(ps[At(|ps|, button, k)])
                   && forall j :: 1 <= j < k ==> !Live(ps[At(|ps|, button, j)])
  }

  lemma UncoveredStatus(ps: seq<Player>, i: nat)
    requires i < |ps|
    ensures CanAct(Uncovered(ps)[i]) <==> CanAct(ps[i])
    ensures Live(Uncovered(ps)[i]) <==> Live(ps[i])
  {}

  lemma FirstLiveIs(ps: seq<Player>, button: nat, k: nat)
    requires button < |ps| && 1 <= k <= |ps| && Live(ps[At(|ps|, button, k)])
    requires forall j :: 1 <= j < k ==> !Live(ps[At(|ps|, button, j)])
    ensures FirstLiveCanAct(ps, button) <==> CanAct(ps[At(|ps|, button, k)])
  {
    if FirstLiveCanAct(ps, button) {
      var k' :| 1 <= k' <= |ps| && CanAct(ps[At(|ps|, button, k')])
                && forall j :: 1 <= j < k' ==> !Live(ps[At(|ps|, button, j)]);
      assert k' == k;
    }
  }

  lemma OpensWithFirstLive(t: State, o: Origin)
    requires Advances(t, o) && CountCanAct(t.players) >= 2
    ensures var u := Advance(t).s;
      u.active < |u.players| && (CanAct(u.players[u.active]) <==> FirstLiveCanAct(t.players, t.button))
  {
    var u, n := Advance(t).s, |t.players|;
    var k := StreetOpensAfterButton(t, o);
    assert u.players == Uncovered(t.players) && u.button == t.button;
    forall j | 1 <= j <= n ensures Live(t.players[At(n, t.button, j)]) <==> Live(u.players[At(n, t.button, j)]) {
      UncoveredStatus(t.players, At(n, t.button, j));
    }
    UncoveredStatus(t.players, u.active);
    FirstLiveIs(t.players, t.button, k);
  }

  /** Where a street begins, the hand goes on exactly when the first live seat after the button can act:
      a player who is all in there stops it. */
  lemma StreetStuckIff(s: State, a: Action, o: Origin)
    requires Inv(s, o) && Execute(s, a).Continues? && Execute(s, a).next.street != s.street
    ensures var u := Execute(s, a).next;
      && u.active < |u.players|
      && ((exists b :: Validate(u, b) == None) <==> FirstLiveCanAct(Acted(s, a).players, s.button))
  {
    ActedKeeps(s, a, o);
    OpensWithFirstLive(Acted(s, a), o);
    StuckIff(Execute(s, a).next);
  }

  /** Three players with 100, 2 and 100 chips and blinds of 1 and 2, the first one on the button. */
  function ThreeHanded(): StartInput {
    var none := (Card(0, Spades), Card(0, Spades));
    StartInput(
      [Player("a", 100, none, Active, 0, 0), Player("b", 2, none, Active, 0, 1), Player("c", 100, none, Active, 0, 2)],
      0, BettingConfig(FixedLimit, 1, 2, 2, 4, 4))
  }

  lemma SumOfThree(ps: seq<Player>, f: Player -> int)
    requires |ps| == 3
    ensures SumBy(ps, f) == f(ps[0]) + f(ps[1]) + f(ps[2])
  {
    assert SumBy(ps, f) == SumBy(ps[..2], f) + f(ps[2]);
    assert SumBy(ps[..2], f) == SumBy(ps[..2][..1], f) + f(ps[..2][1]);
    assert SumBy(ps[..2][..1], f) == SumBy(ps[..2][..1][..0], f) + f(ps[..2][..1][0]);
  }

  /** "a" is to act; or, once called, "b". */
  ghost predicate BlindsPosted(s: State, called: bool) {
    && |s.players| == 3 && s.button == 0 && s.street == Preflop && s.currentBet == 2
    && s.active == (if called then 1 else 0)
    && s.players[0].id == "a" && s.players[0].status == Active && s.players[0].stack == (if called then 98 else 100)
    && s.players[0].bet == (if called then 2 else 0)
    && s.players[1].id == "b" && s.players[1].status == Active && s.players[1].stack == 1 && s.players[1].bet == 1
    && s.players[2].id == "c" && s.players[2].status == Active && s.players[2].stack == 98 && s.players[2].bet == 2
  }

  lemma ThreeStart(deck: seq<Card>)
    requires |deck| >= 9
    ensures Start(ThreeHanded(), deck).Started? && Sound(ThreeHanded())
    ensures BlindsPosted(Start(ThreeHanded(), deck).s, false) && |Start(ThreeHanded(), deck).s.deck| >= 3
  {
    var input := ThreeHanded();
    assert Start(input, deck).Started?;
    StartedPlayers(input, deck, 0);
    StartedPlayers(input, deck, 1);
    StartedPlayers(input, deck, 2);
    var s := Start(input, deck).s;
    assert At(3, 2, 1) == 0 && CanAct(s.players[At(3, 2, 1)]);
    PositiveStacksSuffice(input);
  }

  lemma ButtonCalls(s: State)
    requires BlindsPosted(s, false)
    ensures Execute(s, Action("a", Call, 0)).Continues?
    ensures var u := Execute(s, Action("a", Call, 0)).next; BlindsPosted(u, true) && u.deck == s.deck
  {
    var t := Acted(s, Action("a", Call, 0));
    SumOfThree(t.players, ActingOf);
    assert CanAct(t.players[1]) && t.players[1].bet < t.currentBet;
    assert At(3, 0, 1) == 1 && CanAct(t.players[At(3, 0, 1)]);
  }

  lemma SmallBlindCalls(s: State, o: Origin)
    requires BlindsPosted(s, true) && Inv(s, o) && |s.deck| >= 3
    ensures Execute(s, Action("b", Call, 0)).Continues?
    ensures var u := Execute(s, Action("b", Call, 0)).next;
      u.street == Flop && u.active < |u.players| && forall b :: Validate(u, b).Some?
  {
    var a := Action("b", Call, 0);
    var t := Acted(s, a);
    SumOfThree(t.players, ActingOf);
    assert Execute(s, a).Continues?;
    assert At(3, 0, 1) == 1 && Live(t.players[At(3, 0, 1)]) && !CanAct(t.players[1]);
    StreetStuckIff(s, a, o);
  }

  lemma ThreeCalled(deck: seq<Card>) returns (s: State, s': State)
    requires |deck| >= 9
    ensures Start(ThreeHanded(), deck) == Started(s) && Accepts(s, Action("a", Call, 0), s')
    ensures BlindsPosted(s', true) && Inv(s', OriginOf(ThreeHanded(), deck)) && |s'.deck| >= 3
  {
    ThreeStart(deck);
    s := Start(ThreeHanded(), deck).s;
    StartEstablishesInv(ThreeHanded(), deck);
    ButtonCalls(s);
    s' := Execute(s, Action("a", Call, 0)).next;
    StepKeepsInv(s, Action("a", Call, 0), OriginOf(ThreeHanded(), deck));
  }

  /** It happens, with chips left in two stacks: the button calls, the small blind calls all in, and
      on the flop the small blind, first after the button, is waited for. */
  lemma HandCanStop(deck: seq<Card>) returns (states: seq<State>, actions: seq<Action>)
    requires |deck| >= 9
    ensures Run(ThreeHanded(), deck, states, actions) && |actions| == 2 && states[2].street == Flop
    ensures states[2].active < |states[2].players| && forall b :: Validate(states[2], b).Some?
  {
    var s, s' := ThreeCalled(deck);
    SmallBlindCalls(s', OriginOf(ThreeHanded(), deck));
    states := [s, s', Execute(s', Action("b", Call, 0)).next];
    actions := [Action("a", Call, 0), Action("b", Call, 0)];
    assert Accepts(states[1], actions[1], states[2]);
  }

  /** A started hand accepts no action at all exactly when the blinds leave nobody any chips. */
  lemma StartStuckIff(input: StartInput, deck: seq<Card>)
    requires Start(input, deck).Started?
    ensures Start(input, deck).s.active < |Start(input, deck).s.players|
    ensures (forall a :: Validate(Start(input, deck).s, a).Some?) <==>
            (forall i :: 0 <= i < |input.players| ==> LeftAfterBlinds(input, i) <= 0)
  {
    var s, n := Start(input, deck).s, |input.players|;
    var bb := BigBlindSeat(input.button, n);
    forall i | 0 <= i < n ensures CanAct(s.players[i]) <==> LeftAfterBlinds(input, i) > 0 {
      StartedPlayers(input, deck, i);
    }
    StartedPlayers(input, deck, bb);
    StuckIff(s);
    if i :| 0 <= i < n && CanAct(s.players[i]) {
      var m := if i > bb then i - bb else i + n - bb;
      assert At(n, bb, m) == i;
      var k := ScanFinds(s.players, bb, 1, CanAct, m);
    }
  }

  /** Heads-up with 1 and 2 chips and blinds of 1 and 2 it happens, though every stack is positive. */
  lemma StartStuckArises(deck: seq<Card>) returns (input: StartInput)
    requires |deck| >= 4
    ensures Start(input, deck).Started? && Sound(input) && |input.players| == 2
    ensures forall i :: 0 <= i < |input.players| ==> input.players[i].stack > 0
    ensures var s := Start(input, deck).s; s.active < |s.players| && forall a :: Validate(s, a).Some?
  {
    var none := (Card(0, Spades), Card(0, Spades));
    input := StartInput([Player("a", 1, none, Active, 0, 0), Player("b", 2, none, Active, 0, 1)], 0,
                        BettingConfig(FixedLimit, 1, 2, 2, 4, 4));
    StartStuckIff(input, deck);
  }
}
