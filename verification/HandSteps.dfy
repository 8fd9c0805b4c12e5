/** Every accepted action keeps the hand invariant, leaves an heir for every pot when it ends the
    hand, and brings the end nearer. */
module HandSteps {
  import opened Domain
  import opened SidePots
  import opened MapSum
  import opened Betting
  import opened HandInvariant

  // ----- collecting bets -----

  lemma NoBets(ps: seq<Player>)
    requires forall i :: 0 <= i < |ps| ==> ps[i].bet == 0
    ensures StreetBets(ps) == map[]
  {
    BetsPositive(ps);
    assert forall id :: id in StreetBets(ps) ==> StreetBets(ps)[id] > 0;
  }

  lemma UncoveredSums(ps: seq<Player>)
    requires forall i :: 0 <= i < |ps| ==> ps[i].bet >= 0
    ensures SumBy(Uncovered(ps), StackOf) == SumBy(ps, StackOf)
    ensures SumBy(Uncovered(ps), BetOf) == 0
  {
    SumPointwise(Uncovered(ps), ps, StackOf, StackOf);
    NoneBet(Uncovered(ps));
  }

  lemma UncoveredCounts(ps: seq<Player>)
    ensures CountCanAct(Uncovered(ps)) == CountCanAct(ps)
    ensures SumBy(Uncovered(ps), LiveOf) == SumBy(ps, LiveOf)
    ensures IdSet(Uncovered(ps)) == IdSet(ps)
  {
    SumPointwise(Uncovered(ps), ps, ActingOf, ActingOf);
    SumPointwise(Uncovered(ps), ps, LiveOf, LiveOf);
    SameIds(Uncovered(ps), ps);
  }

  lemma {:induction false} NoneBet(ps: seq<Player>)
    requires forall i :: 0 <= i < |ps| ==> ps[i].bet == 0
    ensures SumBy(ps, BetOf) == 0
  {
    if |ps| > 0 {
      NoneBet(ps[..|ps| - 1]);
    }
  }

  /** No chip moves in or out when a street is collected. */
  lemma CollectConserves(t: State)
    requires DistinctIds(t.players) && forall i :: 0 <= i < |t.players| ==> t.players[i].bet >= 0
    ensures Chips(Collect(t)) == Chips(t)
    ensures SumBy(Collect(t).players, BetOf) == 0
  {
    BetsPositive(t.players);
    BetsSum(t.players);
    LayersConserve(StreetBets(t.players));
    MergeTotal(t.pots, Layers(StreetBets(t.players)));
    UncoveredSums(t.players);
  }

  /** Whoever nobody has bet more than, and who is in every older pot, is in everything collected. */
  lemma HighestBettorInEveryPot(t: State, w: nat)
    requires DistinctIds(t.players) && w < |t.players| && InEveryPot(t.pots, t.players[w].id)
    requires forall i :: 0 <= i < |t.players| ==> 0 <= t.players[i].bet <= t.players[w].bet
    ensures InEveryPot(Collect(t).pots, t.players[w].id)
  {
    var bets, id := StreetBets(t.players), t.players[w].id;
    BetsPositive(t.players);
    if t.players[w].bet == 0 {
      NoBets(t.players);
    } else {
      BetRecorded(t.players, w);
      forall q | q in bets ensures bets[q] <= bets[id] {
        var i :| 0 <= i < |t.players| && t.players[i].id == q && t.players[i].bet == bets[q];
      }
      TopEligible(bets, id);
    }
  }

  /** Whoever holds the top bet and every older pot is eligible for everything collected. */
  lemma TopBettorInEveryPot(t: State, w: nat)
    requires DistinctIds(t.players) && BetLevels(t)
    requires w < |t.players| && t.players[w].bet == t.currentBet && InEveryPot(t.pots, t.players[w].id)
    ensures InEveryPot(Collect(t).pots, t.players[w].id)
  {
    HighestBettorInEveryPot(t, w);
  }

  /** Whoever bet on this street was already eligible for the last pot. */
  lemma BettorsCovered(t: State, pot: nat)
    requires Eligibility(t) && pot < |t.pots|
    ensures StreetBets(t.players).Keys <= t.pots[pot].eligible
  {
    var bets := StreetBets(t.players);
    BetsPositive(t.players);
    forall id | id in bets ensures id in t.pots[pot].eligible {
      var i :| 0 <= i < |t.players| && t.players[i].id == id && t.players[i].bet == bets[id];
      assert InEveryPot(t.pots, t.players[i].id);
    }
  }

  lemma MergeKeepsChain(existing: seq<Pot>, added: seq<Pot>, ids: set<PlayerID>)
    requires PotChain(existing, ids) && PotChain(added, ids)
    requires |existing| > 0 && |added| > 0 && added[0].eligible <= existing[|existing| - 1].eligible
    ensures PotChain(MergePots(existing, added), ids)
  {
    var last, pots := |existing| - 1, MergePots(existing, added);
    forall k | 0 <= k < |pots|
      ensures pots[k].amount >= 0
      ensures pots[k].eligible == if k <= last then existing[k].eligible else added[k - last].eligible {}
    forall k, l | 0 <= k < l < |pots| ensures pots[l].eligible <= pots[k].eligible {
      if k <= last < l {
        assert added[l - last].eligible <= added[0].eligible <= existing[last].eligible;
        assert existing[last].eligible <= existing[k].eligible;
      }
    }
  }

  /** Layering on top of the older pots keeps the eligible sets nested. */
  lemma CollectKeepsChain(t: State)
    requires Eligibility(t)
    ensures PotChain(Collect(t).pots, IdSet(t.players))
  {
    var bets := StreetBets(t.players);
    BetsPositive(t.players);
    LayersDescend(bets);
    assert PotChain(Layers(bets), IdSet(t.players));
    if |t.pots| > 0 && |Layers(bets)| > 0 {
      BettorsCovered(t, |t.pots| - 1);
      MergeKeepsChain(t.pots, Layers(bets), IdSet(t.players));
    }
  }

  lemma {:induction false} WinnableConcat(a: seq<Pot>, b: seq<Pot>, id: PlayerID)
    ensures Winnable(a + b, id) == Winnable(a, id) + Winnable(b, id)
  {
    if |a| == 0 {
      assert a + b == b;
    } else {
      WinnableConcat(a[1..], b, id);
      assert (a + b)[1..] == a[1..] + b;
    }
  }

  /** Merging leaves what a player can win of the older pots, adds the first layer for those eligible for
      the last of them and the further layers for those eligible for each. */
  lemma WinnableMerged(existing: seq<Pot>, added: seq<Pot>, id: PlayerID)
    requires |existing| > 0 && |added| > 0
    ensures Winnable(MergePots(existing, added), id) == Winnable(existing, id)
      + (if id in existing[|existing| - 1].eligible then added[0].amount else 0) + Winnable(added[1..], id)
  {
    var last := |existing| - 1;
    var grown := existing[last].(amount := existing[last].amount + added[0].amount);
    WinnableConcat(existing[..last] + [grown], added[1..], id);
    WinnableConcat(existing[..last], [grown], id);
    WinnableConcat(existing[..last], [existing[last]], id);
    assert existing[..last] + [existing[last]] == existing;
    assert [grown][1..] == [] && [existing[last]][1..] == [];
  }

  /** What collecting a street adds to what a player can win. Who bet gets, from everyone's bet, as much as
      was bet by the player. Who did not gets nothing, unless still eligible for the last of the older pots,
      to which the first layer is added: the smallest bet from everyone who bet. */
  lemma CollectWinnable(t: State, id: PlayerID)
    requires Eligibility(t)
    ensures var bets, more := StreetBets(t.players), Winnable(Collect(t).pots, id) - Winnable(t.pots, id);
      && (id in bets ==> more == Sum(Capped(bets, bets[id])))
      && (id !in bets && bets != map[] && |t.pots| > 0 && id in t.pots[|t.pots| - 1].eligible ==>
            more == Least(bets) * |bets|)
      && (id !in bets && (bets == map[] || |t.pots| == 0 || id !in t.pots[|t.pots| - 1].eligible) ==> more == 0)
  {
    var bets := StreetBets(t.players);
    BetsPositive(t.players);
    if id in bets {
      SidePotLaw(bets, id);
    } else {
      NotEligible(bets, id);
    }
    if bets != map[] && |t.pots| > 0 {
      BettorsCovered(t, |t.pots| - 1);
      LayersUnfold(bets);
      WinnableMerged(t.pots, Layers(bets), id);
      LaterLayers(bets, id);
    }
  }

  lemma LaterLayers(bets: Contributions, id: PlayerID)
    requires Positive(bets) && bets != map[]
    ensures Layers(bets) != [] && Layers(bets)[0].amount == Least(bets) * |bets|
    ensures Winnable(Layers(bets), id) == (if id in bets then Layers(bets)[0].amount else 0)
      + Winnable(Layers(bets)[1..], id)
  {
    LayersUnfold(bets);
  }

  // ----- advancing the street -----

  lemma CapArithmetic(r: int, m: int, size: int)
    requires 0 <= r <= m && size >= 0
    ensures r * size <= m * size
  {
    assert m * size - r * size == (m - r) * size;
  }

  lemma PriorCapGrows(s: State, o: Origin)
    requires Shape(s, o) && BetLevels(s) && s.street != Showdown
    ensures PriorCap(s.street, s.config) + s.currentBet <= PriorCap(NextStreet(s.street), s.config)
  {
    var c := s.config;
    CapArithmetic(s.raises, c.maxRaises, BetSize(s.street, c));
    Doubling(c.maxRaises, c.smallBet, c.bigBet);
  }

  /** Whatever the street, what is paid and what is bet stay within the whole hand's limit. */
  lemma WithinHandLimit(s: State, o: Origin)
    requires Shape(s, o) && BetLevels(s) && s.street != Showdown
    ensures PriorCap(s.street, s.config) + s.currentBet <= PriorCap(Showdown, s.config)
  {
    var c := s.config;
    PriorCapGrows(s, o);
    Doubling(c.maxRaises, c.smallBet, c.bigBet);
    CapArithmetic(0, c.maxRaises, c.smallBet);
    CapArithmetic(0, c.maxRaises, c.bigBet);
  }

  lemma Doubling(m: int, x: int, y: int)
    ensures 2 * m * x == m * x + m * x
    ensures 2 * m * (x + y) == 2 * m * x + m * y + m * y
  {}

  lemma {:induction false} HolesLength(ps: seq<Player>)
    ensures |Holes(ps)| == 2 * |ps|
  {
    if |ps| > 0 {
      HolesLength(ps[..|ps| - 1]);
    }
  }

  /** Dealing the next street fails exactly when the shuffled deck was too short for it. */
  lemma DealFailsIff(t: State, o: Origin)
    requires Books(t, o) && t.street != Showdown
    ensures Advance(t).AdvanceError? <==> |o.cards| < 2 * |o.ids| + BoardSize(NextStreet(t.street))
  {
    HolesLength(t.players);
  }

  ghost predicate Advances(t: State, o: Origin) {
    Books(t, o) && t.street != Showdown && RoundOver(t) && Advance(t).Advanced?
  }

  lemma AdvanceKeepsEligibility(t: State, o: Origin)
    requires Advances(t, o)
    ensures Eligibility(Advance(t).s)
  {
    var u := Advance(t).s;
    CollectKeepsChain(t);
    UncoveredCounts(t.players);
    forall i | 0 <= i < |u.players| && (CanAct(u.players[i]) || u.players[i].bet > 0)
      ensures InEveryPot(u.pots, u.players[i].id)
    {
      assert CanAct(t.players[i]);
      TopBettorInEveryPot(t, i);
    }
  }

  lemma DealtOn<T>(h: seq<T>, b: seq<T>, d: seq<T>, n: nat)
    requires n <= |d|
    ensures h + (b + d[..n]) + d[n..] == h + b + d
  {}

  lemma UncoveredHoles(ps: seq<Player>)
    ensures Holes(Uncovered(ps)) == Holes(ps)
  {
    SameHoles(Uncovered(ps), ps);
  }

  lemma AdvanceKeepsCards(t: State, o: Origin)
    requires t.button < |t.players| && CardPartition(t, o) && t.street != Showdown && Advance(t).Advanced?
    ensures CardPartition(Advance(t).s, o)
  {
    var n := StreetCards(t.street);
    UncoveredHoles(t.players);
    if t.street == River {
      assert Advance(t).s.board == t.board && Advance(t).s.deck == t.deck;
    } else {
      DealtOn(Holes(t.players), t.board, t.deck, n);
      assert Advance(t).s.board == t.board + t.deck[..n] && Advance(t).s.deck == t.deck[n..];
    }
  }

  lemma AdvanceKeepsMoney(t: State, o: Origin)
    requires Advances(t, o)
    ensures Conserved(Advance(t).s, o)
    ensures |Advance(t).s.players| == |o.stacks| && Commitment(Advance(t).s, o)
  {
    CollectConserves(t);
    assert Chips(Advance(t).s) == Chips(Collect(t));
    PriorCapGrows(t, o);
    var ps, us := t.players, Advance(t).s.players;
    forall i | 0 <= i < |us| ensures us[i].stack == ps[i].stack && us[i].bet == 0 {}
  }

  lemma Uncovering(ps: seq<Player>, i: nat)
    requires i < |ps| && ps[i].bet >= 0
    ensures Uncovered(ps)[i].id == ps[i].id && Uncovered(ps)[i].bet == 0
  {}

  lemma AdvanceKeepsShape(t: State, o: Origin)
    requires Advances(t, o)
    ensures var u := Advance(t).s; Shape(u, o) && BetLevels(u) && u.currentBet == 0 && u.raises == 0
    ensures var u := Advance(t).s; u.street == NextStreet(t.street) && u.config == t.config
    ensures CountCanAct(Advance(t).s.players) == CountCanAct(t.players)
  {
    UncoveredCounts(t.players);
    var ps, us := t.players, Uncovered(t.players);
    assert Advance(t).s.players == us;
    forall i | 0 <= i < |us| ensures us[i].id == ps[i].id && us[i].bet == 0 {
      Uncovering(ps, i);
    }
  }

  lemma AdvanceKeepsBooks(t: State, o: Origin)
    requires Advances(t, o)
    ensures var u := Advance(t).s; Books(u, o) && u.currentBet == 0 && CountCanAct(u.players) == CountCanAct(t.players)
    ensures var u := Advance(t).s; u.street == NextStreet(t.street) && u.config == t.config && u.raises == 0
  {
    AdvanceKeepsEligibility(t, o);
    AdvanceKeepsCards(t, o);
    AdvanceKeepsMoney(t, o);
    AdvanceKeepsShape(t, o);
  }

  /** A new street opens with the first live player after the button. */
  lemma StreetOpensAfterButton(t: State, o: Origin) returns (k: nat)
    requires Advances(t, o) && CountCanAct(t.players) >= 2
    ensures var u := Advance(t).s;
      && 1 <= k <= |u.players| && u.button < |u.players| && u.active == At(|u.players|, u.button, k)
      && Live(u.players[u.active])
      && forall j :: 1 <= j < k ==> !Live(u.players[At(|u.players|, u.button, j)])
  {
    AdvanceKeepsBooks(t, o);
    var u := Advance(t).s;
    var n := |u.players|;
    var i := AnotherCounts(u.players, ActingOf, 0);
    var m := if i > u.button then i - u.button else i + n - u.button;
    assert At(n, u.button, m) == i;
    k := ScanFinds(u.players, u.button, 1, Live, m);
  }

  // ----- one request -----

  /** The state right after the action, before street or turn move. */
  ghost function Acted(s: State, a: Action): State
    requires s.active < |s.players|
  {
    Apply(s, a).(eventSequence := s.eventSequence + 1)
  }

  lemma ActedKeeps(s: State, a: Action, o: Origin)
    requires Inv(s, o) && Accepted(s, a)
    ensures Books(Acted(s, a), o) && HasHeir(Acted(s, a)) && Acted(s, a).street == s.street
  {
    ApplyKeepsBooks(s, a, o);
    HeirAfterAction(s, a, o);
    var t := Apply(s, a);
    assert Chips(Acted(s, a)) == Chips(t);
  }

  lemma BooksPassTurn(t: State, o: Origin, k: nat)
    requires Books(t, o) && k < |t.players|
    ensures Books(t.(active := k), o)
  {
    assert Chips(t.(active := k)) == Chips(t);
  }

  /** The turn reaches a player who can act, with the last bettor still ahead. */
  lemma TurnAhead(s: State, a: Action, o: Origin)
    requires Inv(s, o) && Accepted(s, a)
    requires CountCanAct(Acted(s, a).players) >= 2 && !RoundOver(Acted(s, a))
    ensures var t := Acted(s, a); var next := Scan(t.players, t.active, 1, CanAct);
      && t.currentBet > 0 && CanAct(t.players[next])
      && exists e: nat :: e > 0 && TurnOrder(t.players, next, t.currentBet, e)
  {
    ActionEffect(s, a, o);
    var t := Acted(s, a);
    var d := ActionSettles(s, a, o);
    TurnPasses(t.players, t.active, t.currentBet, d);
  }

  lemma TurnMoves(s: State, a: Action, o: Origin)
    requires Inv(s, o) && Accepted(s, a)
    requires CountCanAct(Acted(s, a).players) >= 2 && !RoundOver(Acted(s, a))
    ensures var t := Acted(s, a); Inv(t.(active := Scan(t.players, t.active, 1, CanAct)), o)
    ensures var t := Acted(s, a); CanAct(t.players[Scan(t.players, t.active, 1, CanAct)])
    ensures Acted(s, a).currentBet > 0
  {
    var t := Acted(s, a);
    var next := Scan(t.players, t.active, 1, CanAct);
    ActedKeeps(s, a, o);
    TurnAhead(s, a, o);
    BooksPassTurn(t, o, next);
  }

  /** Every accepted action that does not end the hand keeps the invariant. */
  lemma StepKeepsInv(s: State, a: Action, o: Origin)
    requires Inv(s, o) && Execute(s, a).Continues?
    ensures Inv(Execute(s, a).next, o)
  {
    ActedKeeps(s, a, o);
    var t := Acted(s, a);
    if RoundOver(t) {
      AdvanceKeepsBooks(t, o);
    } else {
      TurnMoves(s, a, o);
    }
  }

  lemma RiverHeir(t: State, o: Origin)
    requires Advances(t, o) && CountCanAct(t.players) >= 2
    ensures HasHeir(Advance(t).s)
  {
    AdvanceKeepsBooks(t, o);
    var u := Advance(t).s;
    var w := AnotherCounts(u.players, ActingOf, 0);
    assert InEveryPot(u.pots, u.players[w].id) && u.players[w].bet == 0;
  }

  /** Every accepted action that ends the hand leaves books that balance and an heir. */
  lemma EndHasHeir(s: State, a: Action, o: Origin)
    requires Inv(s, o) && Execute(s, a).Ends?
    ensures Books(Execute(s, a).final, o) && HasHeir(Execute(s, a).final)
  {
    ActedKeeps(s, a, o);
    var t := Acted(s, a);
    if CountCanAct(t.players) > 1 {
      AdvanceKeepsBooks(t, o);
      RiverHeir(t, o);
    }
  }

  // ----- what one request does, told by what stands on the table -----

  ghost predicate TwoCanAct(ps: seq<Player>) {
    exists i, j :: 0 <= i < j < |ps| && CanAct(ps[i]) && CanAct(ps[j])
  }

  lemma TwoCount(ps: seq<Player>, i: nat, j: nat)
    requires i < j < |ps| && CanAct(ps[i]) && CanAct(ps[j])
    ensures CountCanAct(ps) >= 2
  {
    SumUpdate(ps, j, ps[j].(status := Folded), ActingOf);
    var without := ps[j := ps[j].(status := Folded)];
    SumUpdate(without, i, ps[i].(status := Folded), ActingOf);
    SumAtMost(without[i := ps[i].(status := Folded)], ActingOf);
  }

  lemma CountIsTwo(ps: seq<Player>)
    ensures CountCanAct(ps) >= 2 <==> TwoCanAct(ps)
  {
    if CountCanAct(ps) >= 2 {
      var i := AnotherCounts(ps, ActingOf, 0);
      var j := AnotherCounts(ps, ActingOf, i);
      var a, b := if i < j then i else j, if i < j then j else i;
      assert CanAct(ps[a]) && CanAct(ps[b]);
    }
    if i, j :| 0 <= i < j < |ps| && CanAct(ps[i]) && CanAct(ps[j]) {
      TwoCount(ps, i, j);
    }
  }

  ghost predicate SomeoneOwes(t: State) {
    exists i :: 0 <= i < |t.players| && CanAct(t.players[i]) && t.players[i].bet < t.currentBet
  }

  /** Of a hand in play exactly these actions are accepted: of the player to act, who has chips, a fold; a
      check with the bet matched, a call without; below the cap a raise by the street's bet that the chips
      cover. */
  lemma ActionAcceptedIff(s: State, a: Action, o: Origin)
    requires Inv(s, o)
    ensures var p, c := s.players[s.active], s.config;
      Accepted(s, a) <==>
        && p.id == a.playerID && p.status == Active && p.stack > 0
        && match a.kind
           case Fold => true
           case Check => p.bet == s.currentBet
           case Call => p.bet < s.currentBet
           case Raise =>
             && s.raises < c.maxRaises
             && a.amount == s.currentBet + (if s.street == Preflop || s.street == Flop then c.smallBet else c.bigBet)
             && a.amount - p.bet <= p.stack
           case _ => false
  {}

  /** What an accepted action leads to. The hand ends exactly when no two players can act any more, or the
      river's bets are settled; the deal fails exactly when a settled street needs more cards than are left. */
  lemma StepOutcome(s: State, a: Action, o: Origin)
    requires Inv(s, o) && Accepted(s, a)
    ensures var t, n := Acted(s, a), if s.street == Preflop then 3 else 1;
      && (Execute(s, a).Ends? <==> !TwoCanAct(t.players) || (s.street == River && !SomeoneOwes(t)))
      && (Execute(s, a).Rejected? <==>
            TwoCanAct(t.players) && !SomeoneOwes(t) && s.street != River && |s.deck| < n)
  {
    var t := Acted(s, a);
    CountIsTwo(t.players);
    assert RoundOver(t) <==> !SomeoneOwes(t);
  }

  lemma NextThatCanAct(ps: seq<Player>, from: nat) returns (k: nat)
    requires from < |ps| && exists i :: 0 <= i < |ps| && CanAct(ps[i])
    ensures 1 <= k <= |ps| && Scan(ps, from, 1, CanAct) == At(|ps|, from, k) && CanAct(ps[At(|ps|, from, k)])
    ensures forall j :: 1 <= j < k ==> !CanAct(ps[At(|ps|, from, j)])
  {
    var i :| 0 <= i < |ps| && CanAct(ps[i]);
    var m := if i > from then i - from else i + |ps| - from;
    assert At(|ps|, from, m) == i;
    k := ScanFinds(ps, from, 1, CanAct, m);
  }

  lemma OnlyTurnMoves(s: State, a: Action)
    requires s.active < |s.players| && s.button < |s.players| && Execute(s, a).Continues? && !RoundOver(Acted(s, a))
    ensures var t := Acted(s, a); Execute(s, a).next == t.(active := Scan(t.players, t.active, 1, CanAct))
    ensures var t := Acted(s, a); t.active == s.active && |t.players| == |s.players|
    ensures var t := Acted(s, a); t.street == s.street && t.board == s.board && t.pots == s.pots
  {}

  /** While someone owes chips the street, its board and its pots stay and the turn passes to the next seat
      that can act. */
  lemma StreetGoesOn(s: State, a: Action, o: Origin)
    requires Inv(s, o) && Execute(s, a).Continues? && SomeoneOwes(Acted(s, a))
    ensures var t, u, n := Acted(s, a), Execute(s, a).next, |s.players|;
      && u == t.(active := u.active) && u.street == s.street && u.board == s.board && u.pots == s.pots
      && exists k :: 1 <= k <= n && u.active == At(n, s.active, k) && CanAct(t.players[u.active])
                     && forall j :: 1 <= j < k ==> !CanAct(t.players[At(n, s.active, j)])
  {
    OnlyTurnMoves(s, a);
    var k := NextThatCanAct(Acted(s, a).players, s.active);
  }

  /** When nobody owes any, the bets are collected, the next street is dealt from the top of the deck and
      betting starts again with nothing to match. */
  lemma StreetCloses(s: State, a: Action, o: Origin)
    requires Inv(s, o) && Execute(s, a).Continues? && !SomeoneOwes(Acted(s, a))
    ensures var t, u, n := Acted(s, a), Execute(s, a).next, if s.street == Preflop then 3 else 1;
      && |s.deck| >= n && u.board == s.board + s.deck[..n] && u.deck == s.deck[n..]
      && u.street == (if s.street == Preflop then Flop else if s.street == Flop then Turn else River)
      && u.currentBet == 0 && u.raises == 0 && u.pots == Collect(t).pots
      && |u.players| == |s.players|
      && forall i :: 0 <= i < |s.players| ==> u.players[i] == t.players[i].(bet := 0)
  {
    var t := Acted(s, a);
    ActionEffect(s, a, o);
    assert RoundOver(t);
    forall i | 0 <= i < |s.players| ensures Uncovered(t.players)[i] == t.players[i].(bet := 0) {
      assert t.players[i].bet >= 0;
    }
  }

  // ----- termination -----

  function StreetsLeft(street: Street): nat {
    match street case Preflop => 3 case Flop => 2 case Turn => 1 case River | Showdown => 0
  }

  /** Streets left, then raises left, then players who still owe chips, as one number. */
  ghost function Measure(s: State): int {
    var n := |s.players|;
    StreetsLeft(s.street) * (n * (s.config.maxRaises + 1)) + (s.config.maxRaises - s.raises) * n
      + SumBy(s.players, BehindOf(s.currentBet))
  }

  /** The actor never owes anything after acting, so at most the others do. */
  lemma BehindAfter(s: State, a: Action, o: Origin)
    requires Inv(s, o) && Accepted(s, a) && a.kind == Raise
    ensures SumBy(Apply(s, a).players, BehindOf(Apply(s, a).currentBet)) <= |s.players| - 1
  {
    var t := Apply(s, a);
    var f := BehindOf(t.currentBet);
    assert f(t.players[s.active]) == 0;
    LeavesOneOut(t.players, f, s.active);
  }

  lemma {:induction false} LeavesOneOut(ps: seq<Player>, f: Player -> int, i: nat)
    requires forall p :: 0 <= f(p) <= 1
    requires i < |ps| && f(ps[i]) == 0
    ensures SumBy(ps, f) <= |ps| - 1
  {
    var last := |ps| - 1;
    if i < last {
      assert ps[..last][i] == ps[i];
      LeavesOneOut(ps[..last], f, i);
    } else {
      SumAtMost(ps[..last], f);
    }
  }

  lemma AnswerReducesBehind(s: State, a: Action, o: Origin)
    requires Inv(s, o) && Accepted(s, a) && a.kind != Raise && s.currentBet > 0 && !Lame(s)
    ensures SumBy(Apply(s, a).players, BehindOf(s.currentBet)) == SumBy(s.players, BehindOf(s.currentBet)) - 1
  {
    ActorIsBehind(s, o);
    var f := BehindOf(s.currentBet);
    SumUpdate(s.players, s.active, Apply(s, a).players[s.active], f);
  }

  lemma MeasureArithmetic(left: int, left': int, n: int, m: int, r: int, r': int, b: int, b': int)
    requires n >= 2 && m > 0 && 0 <= r <= m && 0 <= r' <= m && b >= 0
    requires || (left' == left && r' == r && b' < b)
             || (left' == left && r' == r + 1 && b' <= n - 1)
             || (left' == left - 1 && r' == 0 && b' <= 0)
    ensures left' * (n * (m + 1)) + (m - r') * n + b' < left * (n * (m + 1)) + (m - r) * n + b
  {
    if left' == left && r' == r + 1 {
      assert (m - r') * n == (m - r) * n - n;
    } else if left' == left - 1 {
      assert (left - 1) * (n * (m + 1)) == left * (n * (m + 1)) - n * (m + 1);
      assert n * (m + 1) == m * n + n;
      assert (m - r) * n >= 0;
    }
  }

  ghost predicate SameTable(s: State, u: State) {
    |u.players| == |s.players| && u.config == s.config
  }

  lemma StreetEndDecreases(s: State, a: Action, o: Origin)
    requires Inv(s, o) && Execute(s, a).Continues? && RoundOver(Acted(s, a))
    ensures var u := Execute(s, a).next;
      SameTable(s, u) && StreetsLeft(u.street) == StreetsLeft(s.street) - 1 && u.raises == 0
      && SumBy(u.players, BehindOf(u.currentBet)) == 0
  {
    ActedKeeps(s, a, o);
    AdvanceKeepsBooks(Acted(s, a), o);
    NobodyBehind(Execute(s, a).next.players);
  }

  lemma AnsweringIsNotLame(s: State, a: Action, o: Origin)
    requires Inv(s, o) && Accepted(s, a) && CountCanAct(Apply(s, a).players) >= 2
    ensures !Lame(s)
  {
    ApplyKeepsBooks(s, a, o);
  }

  lemma MidStreetDecreases(s: State, a: Action, o: Origin)
    requires Inv(s, o) && Execute(s, a).Continues? && !RoundOver(Acted(s, a))
    ensures var u := Execute(s, a).next; SameTable(s, u) && u.street == s.street
    ensures var u := Execute(s, a).next;
      || (u.raises == s.raises && SumBy(u.players, BehindOf(u.currentBet)) < SumBy(s.players, BehindOf(s.currentBet)))
      || (u.raises == s.raises + 1 && SumBy(u.players, BehindOf(u.currentBet)) <= |s.players| - 1)
  {
    ActionEffect(s, a, o);
    if a.kind == Raise {
      BehindAfter(s, a, o);
    } else {
      TurnAhead(s, a, o);
      AnsweringIsNotLame(s, a, o);
      AnswerReducesBehind(s, a, o);
    }
  }

  lemma MeasureNonNegative(s: State, o: Origin)
    requires Shape(s, o)
    ensures 0 <= Measure(s)
  {
    SumAtMost(s.players, BehindOf(s.currentBet));
    assert (s.config.maxRaises - s.raises) * |s.players| >= 0;
    assert StreetsLeft(s.street) * (|s.players| * (s.config.maxRaises + 1)) >= 0;
  }

  lemma SmallerMeasure(s: State, u: State)
    requires SameTable(s, u) && |s.players| >= 2
    requires 0 <= s.raises <= s.config.maxRaises && 0 <= u.raises <= s.config.maxRaises && s.config.maxRaises > 0
    requires var b, b' := SumBy(s.players, BehindOf(s.currentBet)), SumBy(u.players, BehindOf(u.currentBet));
      || (StreetsLeft(u.street) == StreetsLeft(s.street) && u.raises == s.raises && b' < b)
      || (StreetsLeft(u.street) == StreetsLeft(s.street) && u.raises == s.raises + 1 && b' <= |s.players| - 1)
      || (StreetsLeft(u.street) == StreetsLeft(s.street) - 1 && u.raises == 0 && b' <= 0)
    ensures Measure(u) < Measure(s)
  {
    SumAtMost(s.players, BehindOf(s.currentBet));
    MeasureArithmetic(StreetsLeft(s.street), StreetsLeft(u.street), |s.players|, s.config.maxRaises, s.raises, u.raises,
                      SumBy(s.players, BehindOf(s.currentBet)), SumBy(u.players, BehindOf(u.currentBet)));
  }

  /** Each accepted action ends the hand or strictly decreases the measure. */
  lemma MeasureDecreases(s: State, a: Action, o: Origin)
    requires Inv(s, o) && Execute(s, a).Continues?
    ensures 0 <= Measure(Execute(s, a).next) < Measure(s)
  {
    var u := Execute(s, a).next;
    StepKeepsInv(s, a, o);
    MeasureNonNegative(u, o);
    if RoundOver(Acted(s, a)) {
      StreetEndDecreases(s, a, o);
    } else {
      MidStreetDecreases(s, a, o);
    }
    SmallerMeasure(s, u);
  }

  lemma {:induction false} NobodyBehind(ps: seq<Player>)
    requires forall i :: 0 <= i < |ps| ==> ps[i].bet >= 0
    ensures SumBy(ps, BehindOf(0)) == 0
  {
    if |ps| > 0 {
      NobodyBehind(ps[..|ps| - 1]);
    }
  }
}
