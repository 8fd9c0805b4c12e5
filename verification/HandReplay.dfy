/** Requests on a finished hand. Nothing refuses them and its pots are never cleared, so it can pay
    again; exactly when is proved here. */
module HandReplay {
  import opened Domain
  import opened SidePots
  import opened MapSum
  import opened Betting
  import opened Payout
  import opened HandInvariant
  import opened HandSteps
  import opened FinishHand
  import opened StartHand
  import opened HandRun

  // ----- what every later request keeps -----

  /** A hand at showdown, whatever it has been asked since. */
  ghost predicate Standing(s: State) {
    && Ready(s) && s.street == Showdown && s.currentBet >= 0 && DistinctIds(s.players) && NoDebt(s.pots)
    && (forall i :: 0 <= i < |s.players| ==> s.players[i].bet >= 0)
    && (forall k :: 0 <= k < |s.pots| ==> s.pots[k].eligible <= IdSet(s.players))
  }

  /** An accepted action moves chips from the actor's stack to the actor's bet and none elsewhere. */
  lemma ActedChips(s: State, a: Action)
    requires Accepted(s, a)
    ensures Chips(Acted(s, a)) == Chips(s)
  {
    var q := Acted(s, a).players[s.active];
    assert Acted(s, a).players == s.players[s.active := q];
    SumUpdate(s.players, s.active, q, StackOf);
    SumUpdate(s.players, s.active, q, BetOf);
  }

  lemma ActedStands(s: State, a: Action)
    requires Standing(s) && Accepted(s, a)
    ensures Standing(Acted(s, a))
  {
    var ps, qs := s.players, Acted(s, a).players;
    forall i | 0 <= i < |ps| ensures qs[i].id == ps[i].id && qs[i].bet >= 0 {}
    SameIds(qs, ps);
  }

  lemma CollectedPots(s: State)
    requires NoDebt(s.pots) && forall k :: 0 <= k < |s.pots| ==> s.pots[k].eligible <= IdSet(s.players)
    ensures var pots := Collect(s).pots;
      NoDebt(pots) && forall k :: 0 <= k < |pots| ==> pots[k].eligible <= IdSet(s.players)
  {
    BetsPositive(s.players);
    LayersDescend(StreetBets(s.players));
  }

  lemma AdvancedStands(s: State)
    requires Standing(s)
    ensures Advance(s).Advanced? && Standing(Advance(s).s) && Chips(Advance(s).s) == Chips(s)
  {
    CollectedPots(s);
    CollectConserves(s);
    UncoveredCounts(s.players);
    var ps, us := s.players, Uncovered(s.players);
    forall i | 0 <= i < |ps| ensures us[i].id == ps[i].id && us[i].bet >= 0 {}
    assert Chips(Advance(s).s) == Chips(Collect(s));
  }

  /** However it answers, a standing hand stands on and keeps its chips, pots included. */
  lemma AnswerStands(s: State, a: Action)
    requires Standing(s)
    ensures match Execute(s, a)
      case Rejected(_) => true
      case Continues(u) => Standing(u) && Chips(u) == Chips(s)
      case Ends(u) => Standing(u) && Chips(u) == Chips(s)
  {
    if Accepted(s, a) {
      ActedStands(s, a);
      ActedChips(s, a);
      AdvancedStands(Acted(s, a));
      var t := Acted(s, a);
      PassTurn(t, Scan(t.players, t.active, 1, CanAct));
    }
  }

  lemma PassTurn(t: State, k: nat)
    requires Standing(t) && k < |t.players|
    ensures Standing(t.(active := k)) && Chips(t.(active := k)) == Chips(t)
  {}

  lemma {:induction false} StepsStand(states: seq<State>, actions: seq<Action>, i: nat)
    requires Steps(states, actions) && Standing(states[0]) && i < |states|
    ensures Standing(states[i]) && Chips(states[i]) == Chips(states[0])
  {
    if i > 0 {
      StepsStand(states, actions, i - 1);
      assert Accepts(states[i - 1], actions[i - 1], states[i]);
      AnswerStands(states[i - 1], actions[i - 1]);
    }
  }

  // ----- what a finish pays -----

  lemma NettedChips(s: State, c: RakeConfig)
    requires Standing(s) && ValidRake(c)
    ensures var d := Netted(s, c);
      && SumBy(d.players, StackOf) + Total(d.pots) + RakeOf(s, c) == Chips(s)
      && DistinctIds(d.players) && NoDebt(d.pots)
      && |d.pots| == |Collect(s).pots|
      && (forall k :: 0 <= k < |d.pots| ==> d.pots[k].eligible == Collect(s).pots[k].eligible)
      && (forall k :: 0 <= k < |d.pots| ==> d.pots[k].eligible <= IdSet(d.players))
  {
    CollectConserves(s);
    CollectedPots(s);
    UncoveredCounts(s.players);
    var pots := Collect(s).pots;
    TotalNonNegative(pots);
    RakeBounded(pots, s.street, c);
    RakeExact(pots, RakeOf(s, c));
    forall i, j | 0 <= i < j < |s.players| ensures Uncovered(s.players)[i].id != Uncovered(s.players)[j].id {}
  }

  lemma {:induction false} WonAtMost(pots: seq<Pot>, winners: seq<seq<PlayerID>>, i: nat)
    requires i <= |pots| == |winners| && NoDebt(pots)
    ensures WonTotal(pots, winners, i) <= Total(pots[..i])
  {
    if i > 0 {
      WonAtMost(pots, winners, i - 1);
      assert pots[..i][..i - 1] == pots[..i - 1];
    }
  }

  lemma PayoutAtMost(d: State, orders: seq<seq<PlayerID>>)
    requires DistinctIds(d.players) && Orders(d.pots, orders) && NoDebt(d.pots)
    requires forall k :: 0 <= k < |d.pots| ==> d.pots[k].eligible <= IdSet(d.players)
    ensures SumBy(d.players, WinOf(Winners(d, orders))) <= Total(d.pots)
  {
    if |LivePlayers(d.players)| == 1 {
      SoleWinner(d.players, Total(d.pots));
    } else {
      WinnersPaid(d, orders);
      WinMapSum(d.players, d.pots, AllWinners(d, orders), |d.pots|);
      WonAtMost(d.pots, AllWinners(d, orders), |d.pots|);
      assert d.pots[..|d.pots|] == d.pots;
    }
  }

  /** A finish never pays more than the hand holds. */
  lemma FinishAtMost(s: State, c: RakeConfig, orders: seq<seq<PlayerID>>)
    requires Standing(s) && ValidRake(c) && Orders(Netted(s, c).pots, orders)
    ensures SumBy(Finish(s, c, orders).players, StackOf) + RakeOf(s, c) <= Chips(s)
  {
    NettedChips(s, c);
    PayoutAtMost(Netted(s, c), orders);
    FinishAwards(s, c, orders);
  }

  /** With a live player in every pot it pays all of it. */
  lemma FinishPaysAll(s: State, c: RakeConfig, orders: seq<seq<PlayerID>>, w: nat)
    requires Standing(s) && ValidRake(c) && Orders(Netted(s, c).pots, orders)
    requires w < |s.players| && Live(s.players[w]) && InEveryPot(Collect(s).pots, s.players[w].id)
    ensures SumBy(Finish(s, c, orders).players, StackOf) + RakeOf(s, c) == Chips(s)
  {
    NettedChips(s, c);
    assert Uncovered(s.players)[w].id == s.players[w].id;
    PayoutExact(Netted(s, c), orders, w);
    FinishAwards(s, c, orders);
  }

  // ----- paid once -----

  /** A sequence of accepted requests from d on that do not end the hand again. */
  ghost predicate From(d: State, states: seq<State>, actions: seq<Action>) {
    Steps(states, actions) && states[0] == d
  }

  /** If this request ends the hand, no more comes out of it than `total`. */
  ghost predicate PaysNoMore(states: seq<State>, last: Action, c: RakeConfig, orders: seq<seq<PlayerID>>, total: int)
    requires |states| > 0
  {
    var s := states[|states| - 1];
    Ready(s) && Execute(s, last).Ends? && Orders(Netted(Execute(s, last).final, c).pots, orders) ==>
      SumBy(Finish(Execute(s, last).final, c, orders).players, StackOf) + RakeOf(Execute(s, last).final, c) <= total
  }

  /** No further requests, however many, get more out of a finished hand than is in the stacks already. */
  ghost predicate PaidOnce(d: State) {
    forall states, actions, last, c, orders :: From(d, states, actions) && ValidRake(c) ==>
      PaysNoMore(states, last, c, orders, SumBy(d.players, StackOf))
  }

  /** This request ends the hand and pays `total`, rake included, whatever the rake and the order. */
  ghost predicate PaysAll(s: State, last: Action, total: int) {
    && Ready(s) && Execute(s, last).Ends?
    && forall c, orders :: ValidRake(c) && Orders(Netted(Execute(s, last).final, c).pots, orders) ==>
         SumBy(Finish(Execute(s, last).final, c, orders).players, StackOf) + RakeOf(Execute(s, last).final, c) == total
  }

  ghost predicate Pays(states: seq<State>, last: Action, total: int) {
    |states| > 0 && PaysAll(states[|states| - 1], last, total)
  }

  /** Some further requests end the hand and pay `total`. */
  ghost predicate CanPay(s: State, total: int) {
    exists states, actions, last :: From(s, states, actions) && Pays(states, last, total)
  }

  lemma PaysNow(s: State, last: Action, total: int)
    requires PaysAll(s, last, total)
    ensures CanPay(s, total)
  {
    assert From(s, [s], []) && Pays([s], last, total);
  }

  lemma PaysLater(s: State, a: Action, next: State, total: int)
    requires Accepts(s, a, next) && CanPay(next, total)
    ensures CanPay(s, total)
  {
    var states, actions, last :| From(next, states, actions) && Pays(states, last, total);
    FromEarlier(s, a, next, states, actions);
    PaysEarlier(s, states, last, total);
  }

  lemma PaysEarlier(s: State, states: seq<State>, last: Action, total: int)
    requires Pays(states, last, total)
    ensures Pays([s] + states, last, total)
  {
    assert ([s] + states)[|[s] + states| - 1] == states[|states| - 1];
  }

  lemma FromEarlier(s: State, a: Action, next: State, states: seq<State>, actions: seq<Action>)
    requires Accepts(s, a, next) && From(next, states, actions)
    ensures From(s, [s] + states, [a] + actions)
  {
    var ss, aa := [s] + states, [a] + actions;
    forall i {:trigger aa[i]} | 0 <= i < |aa| ensures Accepts(ss[i], aa[i], ss[i + 1]) {
      if i > 0 {
        assert aa[i] == actions[i - 1] && ss[i] == states[i - 1] && ss[i + 1] == states[i];
      }
    }
  }

  lemma NothingLeftToPay(d: State)
    requires Standing(d) && Chips(d) == SumBy(d.players, StackOf)
    ensures PaidOnce(d)
  {
    forall states, actions, last, c, orders | From(d, states, actions) && ValidRake(c)
      ensures PaysNoMore(states, last, c, orders, SumBy(d.players, StackOf))
    {
      var s := states[|states| - 1];
      StepsStand(states, actions, |states| - 1);
      AnswerStands(s, last);
      if Execute(s, last).Ends? && Orders(Netted(Execute(s, last).final, c).pots, orders) {
        FinishAtMost(Execute(s, last).final, c, orders);
      }
    }
  }

  lemma NobodyToAsk(d: State)
    requires d.active < |d.players| && !CanAct(d.players[d.active])
    ensures PaidOnce(d)
  {
    forall states, actions, last, c, orders | From(d, states, actions) && ValidRake(c)
      ensures PaysNoMore(states, last, c, orders, SumBy(d.players, StackOf))
    {
      assert |actions| > 0 ==> Accepts(states[0], actions[0], states[1]);
      assert states[|states| - 1] == d;
    }
  }

  lemma MorePaid(d: State, total: int)
    requires CanPay(d, total) && total > SumBy(d.players, StackOf)
    ensures !PaidOnce(d)
  {
    var states, actions, last :| From(d, states, actions) && Pays(states, last, total);
    var c := RakeConfig(0.0, 0, false);
    var s := states[|states| - 1];
    assert PaysAll(s, last, total);
    var orders := AnyOrders(Netted(Execute(s, last).final, c).pots);
    assert !PaysNoMore(states, last, c, orders, SumBy(d.players, StackOf));
  }

  // ----- paying again: with no bet to match, one check -----

  lemma NothingToCollect(s: State)
    requires forall i :: 0 <= i < |s.players| ==> s.players[i].bet == 0
    ensures Collect(s) == s
  {
    NoBets(s.players);
    assert Uncovered(s.players) == s.players;
  }

  ghost predicate NoBetsOut(s: State) {
    forall i :: 0 <= i < |s.players| ==> s.players[i].bet == 0
  }

  ghost predicate Heir(s: State, w: nat) {
    w < |s.players| && Live(s.players[w]) && InEveryPot(s.pots, s.players[w].id)
  }

  lemma CheckEnds(d: State, a: Action)
    requires Standing(d) && NoBetsOut(d) && d.currentBet == 0 && Accepted(d, a) && a.kind == Check
    ensures Execute(d, a).Ends?
    ensures var u := Execute(d, a).final; u.players == d.players && u.pots == d.pots
  {
    NothingToCollect(Acted(d, a));
  }

  /** Where there is no bet to match, a check by a player who can act ends the hand again and pays every
      chip of its pots once more. */
  lemma SecondPayout(d: State, a: Action, w: nat)
    requires Standing(d) && NoBetsOut(d) && d.currentBet == 0 && Heir(d, w) && Accepted(d, a) && a.kind == Check
    ensures PaysAll(d, a, Chips(d))
  {
    CheckEnds(d, a);
    AnswerStands(d, a);
    var u := Execute(d, a).final;
    NothingToCollect(u);
    forall c, orders | ValidRake(c) && Orders(Netted(u, c).pots, orders)
      ensures SumBy(Finish(u, c, orders).players, StackOf) + RakeOf(u, c) == Chips(d)
    {
      FinishPaysAll(u, c, orders, w);
    }
  }

  // ----- paying again: with a bet to match, a call and then folds -----

  /** Only w has bet, in full unless all in, and w is live and in every pot. */
  ghost predicate Caller(s: State, w: nat) {
    && Standing(s) && Heir(s, w) && s.currentBet > 0 && s.players[w].bet <= s.currentBet
    && (CanAct(s.players[w]) ==> s.players[w].bet == s.currentBet)
    && forall i :: 0 <= i < |s.players| && i != w ==> s.players[i].bet == 0
  }

  lemma CallerCollects(s: State, w: nat)
    requires Caller(s, w)
    ensures InEveryPot(Collect(s).pots, s.players[w].id)
  {
    HighestBettorInEveryPot(s, w);
  }

  lemma CallerPays(s: State, a: Action, w: nat)
    requires s.active < |s.players| && Standing(s) && Accepted(s, a) && Caller(Acted(s, a), w)
    requires CountCanAct(Acted(s, a).players) <= 1
    ensures PaysAll(s, a, Chips(s))
  {
    var t := Acted(s, a);
    ActedChips(s, a);
    CallerCollects(t, w);
    forall c, orders | ValidRake(c) && Orders(Netted(t, c).pots, orders)
      ensures SumBy(Finish(t, c, orders).players, StackOf) + RakeOf(t, c) == Chips(s)
    {
      FinishPaysAll(t, c, orders, w);
    }
  }

  /** With two players able to act the turn passes to one who is. */
  lemma TurnGoesOn(s: State, a: Action, w: nat)
    requires Standing(s) && Accepted(s, a) && Caller(Acted(s, a), w) && CountCanAct(Acted(s, a).players) >= 2
    ensures Execute(s, a).Continues?
    ensures var t, u := Acted(s, a), Execute(s, a).next;
      && u == t.(active := u.active) && Caller(u, w) && CanAct(u.players[u.active])
      && (s.active == w ==> u.active != w)
  {
    var t := Acted(s, a);
    var j := AnotherCounts(t.players, ActingOf, w);
    assert t.players[j].bet < t.currentBet;
    NextToAct(t, j);
    var next := Scan(t.players, t.active, 1, CanAct);
    PassTurn(t, next);
  }

  lemma NextToAct(t: State, j: nat)
    requires t.active < |t.players| && j < |t.players| && CanAct(t.players[j])
    ensures var next := Scan(t.players, t.active, 1, CanAct);
      CanAct(t.players[next]) && (j != t.active ==> next != t.active)
  {
    var n := |t.players|;
    var m := if j > t.active then j - t.active else j + n - t.active;
    assert At(n, t.active, m) == j;
    var k := ScanFinds(t.players, t.active, 1, CanAct, m);
    OtherSeats(n, t.active);
  }

  lemma FoldCounts(s: State, a: Action)
    requires Accepted(s, a) && a.kind == Fold
    ensures CountCanAct(Acted(s, a).players) == CountCanAct(s.players) - 1
  {
    SumUpdate(s.players, s.active, Acted(s, a).players[s.active], ActingOf);
  }

  lemma FoldKeepsCaller(s: State, a: Action, w: nat)
    requires Caller(s, w) && Accepted(s, a) && a.kind == Fold && s.active != w
    ensures Caller(Acted(s, a), w)
  {
    ActedStands(s, a);
  }

  /** Once w has called, the others fold one after another and w is paid every pot. */
  lemma {:induction false} OthersFold(s: State, w: nat)
    requires Caller(s, w) && CanAct(s.players[s.active]) && CountCanAct(s.players) >= 2
    ensures CanPay(s, Chips(s))
    decreases CountCanAct(s.players), if s.active == w then 1 else 0
  {
    var a := Action(s.players[s.active].id, if s.active == w then Check else Fold, 0);
    if s.active == w {
      CheckNext(s, w, a);
    } else {
      FoldNext(s, w, a);
    }
    if CountCanAct(Acted(s, a).players) >= 2 {
      OthersFold(Execute(s, a).next, w);
      PaysLater(s, a, Execute(s, a).next, Chips(s));
    } else {
      PaysNow(s, a, Chips(s));
    }
  }

  lemma CheckNext(s: State, w: nat, a: Action)
    requires Caller(s, w) && s.active == w && CanAct(s.players[w]) && CountCanAct(s.players) >= 2
    requires a == Action(s.players[w].id, Check, 0)
    ensures Accepted(s, a) && CountCanAct(Acted(s, a).players) >= 2 && Execute(s, a).Continues?
    ensures var u := Execute(s, a).next;
      && Caller(u, w) && CanAct(u.players[u.active]) && u.active != w && Chips(u) == Chips(s)
      && CountCanAct(u.players) == CountCanAct(s.players)
  {
    var t := Acted(s, a);
    assert t == s.(eventSequence := t.eventSequence);
    ActedStands(s, a);
    ActedChips(s, a);
    TurnGoesOn(s, a, w);
  }

  lemma FoldNext(s: State, w: nat, a: Action)
    requires Caller(s, w) && s.active != w && Accepted(s, a) && a.kind == Fold
    ensures CountCanAct(Acted(s, a).players) == CountCanAct(s.players) - 1
    ensures CountCanAct(Acted(s, a).players) <= 1 ==> PaysAll(s, a, Chips(s))
    ensures CountCanAct(Acted(s, a).players) >= 2 ==>
      && Execute(s, a).Continues?
      && var u := Execute(s, a).next;
         && Caller(u, w) && CanAct(u.players[u.active]) && Chips(u) == Chips(s)
         && CountCanAct(u.players) == CountCanAct(s.players) - 1
  {
    FoldCounts(s, a);
    FoldKeepsCaller(s, a, w);
    ActedChips(s, a);
    if CountCanAct(Acted(s, a).players) <= 1 {
      CallerPays(s, a, w);
    } else {
      TurnGoesOn(s, a, w);
    }
  }

  /** The actor is to match a bet nobody has matched, and is in every pot. */
  ghost predicate ToCall(d: State) {
    && Standing(d) && NoBetsOut(d) && d.currentBet > 0 && Heir(d, d.active) && CanAct(d.players[d.active])
  }

  lemma CallMakesCaller(d: State)
    requires ToCall(d)
    ensures var a := Action(d.players[d.active].id, Call, 0);
      Accepted(d, a) && Caller(Acted(d, a), d.active) && Chips(Acted(d, a)) == Chips(d)
  {
    var a := Action(d.players[d.active].id, Call, 0);
    ActedStands(d, a);
    ActedChips(d, a);
  }

  lemma CallNext(d: State, a: Action)
    requires ToCall(d) && a == Action(d.players[d.active].id, Call, 0)
    ensures Accepted(d, a)
    ensures CountCanAct(Acted(d, a).players) <= 1 ==> PaysAll(d, a, Chips(d))
    ensures CountCanAct(Acted(d, a).players) >= 2 ==>
      && Execute(d, a).Continues?
      && var u := Execute(d, a).next;
         && Caller(u, d.active) && CanAct(u.players[u.active]) && Chips(u) == Chips(d)
         && CountCanAct(u.players) >= 2
  {
    CallMakesCaller(d);
    if CountCanAct(Acted(d, a).players) <= 1 {
      CallerPays(d, a, d.active);
    } else {
      TurnGoesOn(d, a, d.active);
    }
  }

  /** A call pays at once, or the others fold after it and then it pays. */
  lemma CallThenFolds(d: State)
    requires ToCall(d)
    ensures CanPay(d, Chips(d))
  {
    var a := Action(d.players[d.active].id, Call, 0);
    CallNext(d, a);
    if CountCanAct(Acted(d, a).players) <= 1 {
      PaysNow(d, a, Chips(d));
    } else {
      OthersFold(Execute(d, a).next, d.active);
      PaysLater(d, a, Execute(d, a).next, Chips(d));
    }
  }

  // ----- the exact condition -----

  /** A finished hand, as it is stored. */
  lemma FinishStands(t: State, o: Origin, c: RakeConfig, orders: seq<seq<PlayerID>>)
    requires Books(t, o) && ValidRake(c) && Orders(Netted(t, c).pots, orders)
    ensures var d := Finish(t, c, orders);
      && Standing(d) && NoBetsOut(d) && d.currentBet == t.currentBet
      && d.active == t.active < |t.players| == |d.players|
      && (forall i :: 0 <= i < |d.players| ==>
            d.players[i].id == t.players[i].id && d.players[i].status == t.players[i].status)
      && |d.pots| == |Collect(t).pots|
      && (forall k :: 0 <= k < |d.pots| ==> d.pots[k].eligible == Collect(t).pots[k].eligible)
  {
    NettedConserves(t, o, c);
    CollectedPots(t);
    var d := Finish(t, c, orders);
    forall i | 0 <= i < |d.players|
      ensures d.players[i].id == t.players[i].id && d.players[i].status == t.players[i].status
      ensures d.players[i].bet == 0 {}
    SameIds(d.players, t.players);
  }

  lemma HeirAfterFinish(t: State, o: Origin, c: RakeConfig, orders: seq<seq<PlayerID>>, w: nat)
    requires Books(t, o) && ValidRake(c) && Orders(Netted(t, c).pots, orders)
    requires w < |t.players| && Live(t.players[w]) && InEveryPot(Collect(t).pots, t.players[w].id)
    ensures Heir(Finish(t, c, orders), w)
  {
    FinishStands(t, o, c, orders);
  }

  /** When nobody is left to bet against, an actor still in with chips has made or met the top bet. */
  lemma LastActorOnTop(s: State, a: Action, o: Origin)
    requires Inv(s, o) && Accepted(s, a) && CountCanAct(Acted(s, a).players) <= 1
    requires Acted(s, a).players[s.active].status == Active
    ensures var t := Acted(s, a);
      t.currentBet > 0 && t.players[s.active].bet == t.currentBet && InEveryPot(t.pots, t.players[s.active].id)
  {
    ActionEffect(s, a, o);
    if a.kind == Check {
      assert Acted(s, a).players == s.players;
    }
  }

  lemma CollectedToCall(t: State, o: Origin, c: RakeConfig, orders: seq<seq<PlayerID>>)
    requires Books(t, o) && ValidRake(c) && Orders(Netted(t, c).pots, orders) && t.currentBet > 0
    requires t.players[t.active].status == Active && t.players[t.active].bet == t.currentBet
    requires InEveryPot(t.pots, t.players[t.active].id)
    ensures var d := Finish(t, c, orders);
      d.active < |d.players| && (CanAct(d.players[d.active]) ==> ToCall(d))
  {
    TopBettorInEveryPot(t, t.active);
    HeirAfterFinish(t, o, c, orders, t.active);
    FinishStands(t, o, c, orders);
  }

  lemma OneLeftOver(s: State, a: Action, o: Origin, c: RakeConfig, orders: seq<seq<PlayerID>>)
    requires Inv(s, o) && Accepted(s, a) && CountCanAct(Acted(s, a).players) <= 1 && ValidRake(c)
    requires Orders(Netted(Acted(s, a), c).pots, orders)
    ensures var d := Finish(Acted(s, a), c, orders);
      d.active < |d.players| && (CanAct(d.players[d.active]) ==> ToCall(d))
  {
    var t := Acted(s, a);
    ActedKeeps(s, a, o);
    if t.players[t.active].status == Active {
      LastActorOnTop(s, a, o);
      CollectedToCall(t, o, c, orders);
    } else {
      FinishStands(t, o, c, orders);
    }
  }

  lemma RiverOver(t: State, o: Origin, c: RakeConfig, orders: seq<seq<PlayerID>>) returns (w: nat)
    requires Advances(t, o) && CountCanAct(t.players) >= 2 && Advance(t).s.street == Showdown && ValidRake(c)
    requires Orders(Netted(Advance(t).s, c).pots, orders)
    ensures var d := Finish(Advance(t).s, c, orders);
      Standing(d) && NoBetsOut(d) && d.currentBet == 0 && Heir(d, w)
  {
    AdvanceKeepsBooks(t, o);
    var u := Advance(t).s;
    w := AnotherCounts(u.players, ActingOf, 0);
    NothingToCollect(u);
    FinishStands(u, o, c, orders);
    HeirAfterFinish(u, o, c, orders, w);
  }

  /** Every finished hand whose player to act can act can be made to pay its pots again. */
  lemma PaysAgain(s: State, a: Action, o: Origin, c: RakeConfig, orders: seq<seq<PlayerID>>)
    requires Inv(s, o) && Execute(s, a).Ends? && ValidRake(c)
    requires Orders(Netted(Execute(s, a).final, c).pots, orders)
    ensures var d := Finish(Execute(s, a).final, c, orders);
      d.active < |d.players| && (CanAct(d.players[d.active]) ==> CanPay(d, Chips(d)))
  {
    ActedKeeps(s, a, o);
    var t := Acted(s, a);
    var d := Finish(Execute(s, a).final, c, orders);
    if CountCanAct(t.players) <= 1 {
      OneLeftOver(s, a, o, c, orders);
      if CanAct(d.players[d.active]) {
        CallThenFolds(d);
      }
    } else {
      var w := RiverOver(t, o, c, orders);
      if CanAct(d.players[d.active]) {
        var again := Action(d.players[d.active].id, Check, 0);
        SecondPayout(d, again, w);
        PaysNow(d, again, Chips(d));
      }
    }
  }

  /** The exact condition, for every finish of every reachable hand: no further requests get any more out
      of it if and only if the player to act cannot act or the pots were all raked away. */
  lemma PaidOnceIff(s: State, a: Action, o: Origin, c: RakeConfig, orders: seq<seq<PlayerID>>)
    requires Inv(s, o) && Execute(s, a).Ends? && ValidRake(c)
    requires Orders(Netted(Execute(s, a).final, c).pots, orders)
    ensures var d := Finish(Execute(s, a).final, c, orders);
      d.active < |d.players| && (PaidOnce(d) <==> !CanAct(d.players[d.active]) || Total(d.pots) == 0)
  {
    var t := Execute(s, a).final;
    var d := Finish(t, c, orders);
    EndHasHeir(s, a, o);
    FinishStands(t, o, c, orders);
    NoneBet(d.players);
    TotalNonNegative(d.pots);
    PaysAgain(s, a, o, c, orders);
    if !CanAct(d.players[d.active]) {
      NobodyToAsk(d);
    } else if Total(d.pots) == 0 {
      NothingLeftToPay(d);
    } else {
      MorePaid(d, Chips(d));
    }
  }

  // ----- it happens -----

  /** Heads-up, 100 chips each, blinds of 1 and 2. */
  function EvenHands(): StartInput {
    var none := (Card(0, Spades), Card(0, Spades));
    StartInput([Player("a", 100, none, Active, 0, 0), Player("b", 100, none, Active, 0, 1)], 0,
               BettingConfig(FixedLimit, 1, 2, 2, 4, 4))
  }

  ghost predicate Seats(s: State, stackA: int, betA: int, betB: int) {
    && |s.players| == 2 && s.button == 0
    && s.players[0].id == "a" && s.players[0].status == Active
    && s.players[0].stack == stackA && s.players[0].bet == betA
    && s.players[1].id == "b" && s.players[1].status == Active
    && s.players[1].stack == 98 && s.players[1].bet == betB
  }

  /** A later street on which nobody has bet; "b", after the button, is to act. */
  ghost predicate Quiet(s: State, street: Street) {
    Seats(s, 98, 0, 0) && s.street == street && s.currentBet == 0 && s.active == 1
  }

  lemma TwoCanAct(ps: seq<Player>)
    requires |ps| == 2 && CanAct(ps[0]) && CanAct(ps[1])
    ensures CountCanAct(ps) == 2
  {
    SumOfTwo(ps, ActingOf);
  }

  lemma EvenStart(deck: seq<Card>) returns (s: State)
    requires |deck| >= 9
    ensures Start(EvenHands(), deck) == Started(s) && Inv(s, OriginOf(EvenHands(), deck))
    ensures Seats(s, 99, 1, 2) && s.street == Preflop && s.currentBet == 2 && s.active == 0 && |s.deck| >= 5
  {
    var input := EvenHands();
    assert Start(input, deck).Started?;
    s := Start(input, deck).s;
    StartedPlayers(input, deck, 0);
    StartedPlayers(input, deck, 1);
    assert At(2, 1, 1) == 0 && CanAct(s.players[At(2, 1, 1)]);
    StartEstablishesInv(input, deck);
  }

  lemma OpensOnB(t: State, betA: nat, betB: nat)
    requires Seats(t, 98, betA, betB) && t.street != Showdown
    requires t.street == River || |t.deck| >= StreetCards(t.street)
    ensures Advance(t).Advanced? && Quiet(Advance(t).s, NextStreet(t.street))
    ensures |Advance(t).s.deck| == |t.deck| - StreetCards(t.street)
  {
    var us := Uncovered(t.players);
    assert At(2, 0, 1) == 1 && Live(us[At(2, 0, 1)]);
  }

  lemma CallOpensFlop(s: State, o: Origin) returns (u: State)
    requires Seats(s, 99, 1, 2) && s.street == Preflop && s.currentBet == 2 && s.active == 0 && |s.deck| >= 5
    requires Inv(s, o)
    ensures Accepts(s, Action("a", Call, 0), u) && Quiet(u, Flop) && |u.deck| >= 2 && Inv(u, o)
  {
    var t := Acted(s, Action("a", Call, 0));
    TwoCanAct(t.players);
    OpensOnB(t, 2, 2);
    StepKeepsInv(s, Action("a", Call, 0), o);
    u := Execute(s, Action("a", Call, 0)).next;
  }

  lemma CheckMovesOn(s: State, o: Origin) returns (u: State)
    requires Quiet(s, s.street) && (s.street == Flop || s.street == Turn) && |s.deck| >= 1 && Inv(s, o)
    ensures Accepts(s, Action("b", Check, 0), u) && Quiet(u, NextStreet(s.street)) && |u.deck| == |s.deck| - 1
    ensures Inv(u, o)
  {
    var t := Acted(s, Action("b", Check, 0));
    TwoCanAct(t.players);
    OpensOnB(t, 0, 0);
    StepKeepsInv(s, Action("b", Check, 0), o);
    u := Execute(s, Action("b", Check, 0)).next;
  }

  lemma CheckFinishes(s: State)
    requires Quiet(s, River)
    ensures Execute(s, Action("b", Check, 0)).Ends? && Quiet(Execute(s, Action("b", Check, 0)).final, Showdown)
  {
    var t := Acted(s, Action("b", Check, 0));
    TwoCanAct(t.players);
    OpensOnB(t, 0, 0);
  }

  lemma RiverRun(deck: seq<Card>) returns (states: seq<State>, actions: seq<Action>)
    requires |deck| >= 9
    ensures Run(EvenHands(), deck, states, actions) && |actions| == 3
    ensures actions == [Action("a", Call, 0), Action("b", Check, 0), Action("b", Check, 0)]
    ensures Quiet(states[3], River) && Inv(states[3], OriginOf(EvenHands(), deck))
  {
    var s0, s1 := EvenFlop(deck);
    var s2, s3 := TwoChecks(s1, OriginOf(EvenHands(), deck));
    states, actions := ThreeSteps(s0, s1, s2, s3, Action("a", Call, 0), Action("b", Check, 0));
  }

  lemma EvenFlop(deck: seq<Card>) returns (s0: State, s1: State)
    requires |deck| >= 9
    ensures Start(EvenHands(), deck) == Started(s0) && Accepts(s0, Action("a", Call, 0), s1)
    ensures Quiet(s1, Flop) && |s1.deck| >= 2 && Inv(s1, OriginOf(EvenHands(), deck))
  {
    s0 := EvenStart(deck);
    s1 := CallOpensFlop(s0, OriginOf(EvenHands(), deck));
  }

  lemma TwoChecks(s1: State, o: Origin) returns (s2: State, s3: State)
    requires Quiet(s1, Flop) && |s1.deck| >= 2 && Inv(s1, o)
    ensures Accepts(s1, Action("b", Check, 0), s2) && Accepts(s2, Action("b", Check, 0), s3)
    ensures Quiet(s3, River) && Inv(s3, o)
  {
    s2 := CheckMovesOn(s1, o);
    s3 := CheckMovesOn(s2, o);
  }

  lemma ThreeSteps(s0: State, s1: State, s2: State, s3: State, a: Action, b: Action)
    returns (states: seq<State>, actions: seq<Action>)
    requires Accepts(s0, a, s1) && Accepts(s1, b, s2) && Accepts(s2, b, s3)
    ensures From(s0, states, actions) && actions == [a, b, b] && states[3] == s3
  {
    FromEarlier(s2, b, s3, [s3], []);
    FromEarlier(s1, b, s2, [s2] + [s3], [b] + []);
    FromEarlier(s0, a, s1, [s1] + ([s2] + [s3]), [b] + ([b] + []));
    states, actions := [s0] + ([s1] + ([s2] + [s3])), [a] + ([b] + ([b] + []));
  }

  lemma FreeRake(t: State)
    requires NoDebt(t.pots)
    ensures RakeOf(t, FREE) == 0
  {
    NettedHasNoDebt(t, FREE);
    TotalNonNegative(Collect(t).pots);
    RakeBounded(Collect(t).pots, t.street, FREE);
  }

  /** Four chips are in the pots of the finished hand and "b" can act in it. */
  lemma FinishedEven(t: State, o: Origin, orders: seq<seq<PlayerID>>)
    requires Books(t, o) && HasHeir(t) && Quiet(t, Showdown) && SumInts(o.stacks) == 200
    requires Orders(Netted(t, FREE).pots, orders)
    ensures var d := Finish(t, FREE, orders);
      && |d.players| == 2 && d.active == 1 && d.players[1].id == "b" && CanAct(d.players[1])
      && SumBy(d.players, StackOf) == 200 && Total(d.pots) == 4
  {
    var d := Netted(t, FREE);
    NettedConserves(t, o, FREE);
    FreeRake(t);
    FinishConserves(t, o, FREE, orders);
    FinishStands(t, o, FREE, orders);
    SumOfTwo(d.players, StackOf);
    WinnerStack(d, orders, 1);
  }

  lemma WinnerStack(d: State, orders: seq<seq<PlayerID>>, i: nat)
    requires NoDebt(d.pots) && Orders(d.pots, orders) && i < |d.players|
    ensures Awarded(d.players, Winners(d, orders))[i].stack >= d.players[i].stack
  {
    TotalNonNegative(d.pots);
    WonNotNegative(d.pots, AllWinners(d, orders), |d.pots|, d.players[i].id);
  }

  /** Heads-up with 200 chips: a call, three checks and a showdown, and one more check pays 204. */
  lemma SecondPayoutArises(deck: seq<Card>)
    returns (states: seq<State>, actions: seq<Action>, orders: seq<seq<PlayerID>>)
    requires |deck| >= 9
    ensures Run(EvenHands(), deck, states, actions)
    ensures actions == [Action("a", Call, 0), Action("b", Check, 0), Action("b", Check, 0)]
    ensures var s, check := states[3], Action("b", Check, 0);
      && Ready(s) && Execute(s, check).Ends?
      && var t := Execute(s, check).final;
         && Orders(Netted(t, FREE).pots, orders)
         && var d := Finish(t, FREE, orders); SumBy(d.players, StackOf) == 200 && PaysAll(d, check, 204)
  {
    states, actions := RiverRun(deck);
    orders := RiverPaysAgain(states[3], OriginOf(EvenHands(), deck));
  }

  lemma RiverPaysAgain(s: State, o: Origin) returns (orders: seq<seq<PlayerID>>)
    requires Inv(s, o) && Quiet(s, River) && o.stacks == [100, 100]
    ensures var check := Action("b", Check, 0);
      && Execute(s, check).Ends?
      && var t := Execute(s, check).final;
         && Orders(Netted(t, FREE).pots, orders)
         && var d := Finish(t, FREE, orders); SumBy(d.players, StackOf) == 200 && PaysAll(d, check, 204)
  {
    CheckFinishes(s);
    orders := RiverFinish(s, o);
    EvenPaysAgain(s, Execute(s, Action("b", Check, 0)).final, o, orders);
  }

  lemma RiverFinish(s: State, o: Origin) returns (orders: seq<seq<PlayerID>>)
    requires Inv(s, o) && Quiet(s, River) && o.stacks == [100, 100]
    requires Execute(s, Action("b", Check, 0)).Ends? && Quiet(Execute(s, Action("b", Check, 0)).final, Showdown)
    ensures var t := Execute(s, Action("b", Check, 0)).final;
      && Orders(Netted(t, FREE).pots, orders)
      && var d := Finish(t, FREE, orders);
         && |d.players| == 2 && d.active == 1 && d.players[1].id == "b" && CanAct(d.players[1])
         && SumBy(d.players, StackOf) == 200 && Total(d.pots) == 4
  {
    EndHasHeir(s, Action("b", Check, 0), o);
    var t := Execute(s, Action("b", Check, 0)).final;
    orders := AnyOrders(Netted(t, FREE).pots);
    TwoHundred(o.stacks);
    FinishedEven(t, o, orders);
  }

  lemma TwoHundred(stacks: seq<int>)
    requires stacks == [100, 100]
    ensures SumInts(stacks) == 200
  {
    assert SumInts(stacks) == SumInts(stacks[..1]) + 100;
    assert SumInts(stacks[..1]) == SumInts(stacks[..1][..0]) + 100;
  }

  lemma EvenPaysAgain(s: State, t: State, o: Origin, orders: seq<seq<PlayerID>>)
    requires Inv(s, o) && Quiet(s, River) && Execute(s, Action("b", Check, 0)) == Ends(t)
    requires Orders(Netted(t, FREE).pots, orders)
    requires var d := Finish(t, FREE, orders);
      && |d.players| == 2 && d.active == 1 && d.players[1].id == "b" && CanAct(d.players[1])
      && SumBy(d.players, StackOf) == 200 && Total(d.pots) == 4
    ensures PaysAll(Finish(t, FREE, orders), Action("b", Check, 0), 204)
  {
    var check, d := Action("b", Check, 0), Finish(t, FREE, orders);
    TwoCanAct(Acted(s, check).players);
    ActedKeeps(s, check, o);
    var w := RiverOver(Acted(s, check), o, FREE, orders);
    NoneBet(d.players);
    SecondPayout(d, check, w);
  }
}
