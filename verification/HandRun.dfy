/** Whole hands: from an accepted start through any accepted actions to the first finish. */
module HandRun {
  import opened Domain
  import opened SidePots
  import opened Betting
  import opened Order
  import opened Evaluator
  import opened Payout
  import opened HandInvariant
  import opened HandSteps
  import opened FinishHand
  import opened StartHand
  import Sh = Shuffle

  /** states[0] is the start; each accepted action leads to the next state. Refused requests store
      nothing and are left out. */
  ghost predicate Run(input: StartInput, deck: seq<Card>, states: seq<State>, actions: seq<Action>) {
    Steps(states, actions) && Start(input, deck) == Started(states[0])
  }

  ghost predicate Steps(states: seq<State>, actions: seq<Action>) {
    && |states| == |actions| + 1
    && forall i {:trigger actions[i]} :: 0 <= i < |actions| ==> Accepts(states[i], actions[i], states[i + 1])
  }

  ghost predicate Ready(s: State) {
    s.active < |s.players| && s.button < |s.players|
  }

  ghost predicate Accepts(s: State, a: Action, next: State) {
    Ready(s) && Execute(s, a) == Continues(next)
  }

  ghost predicate Sound(input: StartInput) {
    && DistinctIds(input.players)
    && (0 <= input.button < |input.players| && |input.players| >= 2 ==> !OnlyBigBlindActs(input))
  }

  ghost predicate InvAt(states: seq<State>, i: nat, o: Origin) {
    i < |states| && Inv(states[i], o)
  }

  /** Every state of every run satisfies the invariant: chips conserved, bets at the level fixed by
      the raises, pots nested, cards partitioned, the turn before the last bettor. */
  lemma RunInvariant(input: StartInput, deck: seq<Card>, states: seq<State>, actions: seq<Action>, i: nat)
    requires Run(input, deck, states, actions) && Sound(input) && i < |states|
    ensures InvAt(states, i, OriginOf(input, deck))
  {
    RunBegins(input, deck, states, actions);
    StepsKeepInv(states, actions, i, OriginOf(input, deck));
  }

  lemma {:induction false} StepsKeepInv(states: seq<State>, actions: seq<Action>, i: nat, o: Origin)
    requires Steps(states, actions) && InvAt(states, 0, o) && i < |states|
    ensures InvAt(states, i, o)
  {
    if i > 0 {
      StepsKeepInv(states, actions, i - 1, o);
      RunStep(states, actions, i, o);
    }
  }

  lemma RunBegins(input: StartInput, deck: seq<Card>, states: seq<State>, actions: seq<Action>)
    requires Run(input, deck, states, actions) && Sound(input)
    ensures InvAt(states, 0, OriginOf(input, deck))
  {
    StartEstablishesInv(input, deck);
  }

  lemma RunStep(states: seq<State>, actions: seq<Action>, i: nat, o: Origin)
    requires Steps(states, actions) && 0 < i < |states| && InvAt(states, i - 1, o)
    ensures InvAt(states, i, o)
  {
    assert Accepts(states[i - 1], actions[i - 1], states[i]);
    KeepsInv(states[i - 1], actions[i - 1], states[i], o);
  }

  lemma KeepsInv(s: State, a: Action, next: State, o: Origin)
    requires Inv(s, o) && Accepts(s, a, next)
    ensures Inv(next, o)
  {
    StepKeepsInv(s, a, o);
  }

  /** Chip conservation over a whole hand: in every unfinished state stacks, bets and pots hold the
      starting total, and after the finish final stacks plus rake do, whatever order each pot's
      winners are gone through in. */
  lemma ChipConservation(input: StartInput, deck: seq<Card>, states: seq<State>, actions: seq<Action>,
                         last: Action, c: RakeConfig, orders: seq<seq<PlayerID>>)
    requires Run(input, deck, states, actions) && Sound(input) && ValidRake(c)
    ensures forall i :: 0 <= i < |states| ==> Chips(states[i]) == SumBy(input.players, StackOf)
    ensures var s := states[|states| - 1];
      s.active < |s.players| && s.button < |s.players| && Execute(s, last).Ends?
        && Orders(Netted(Execute(s, last).final, c).pots, orders) ==>
      SumBy(Finish(Execute(s, last).final, c, orders).players, StackOf) + RakeOf(Execute(s, last).final, c)
        == SumBy(input.players, StackOf)
  {
    var o := OriginOf(input, deck);
    StartingTotal(input.players, o.stacks);
    forall i | 0 <= i < |states| ensures Chips(states[i]) == SumBy(input.players, StackOf) {
      RunInvariant(input, deck, states, actions, i);
    }
    var s := states[|states| - 1];
    RunInvariant(input, deck, states, actions, |states| - 1);
    if Execute(s, last).Ends? && Orders(Netted(Execute(s, last).final, c).pots, orders) {
      EndHasHeir(s, last, o);
      FinishConserves(Execute(s, last).final, o, c, orders);
    }
  }

  lemma {:induction false} StartingTotal(ps: seq<Player>, xs: seq<int>)
    requires |ps| == |xs| && forall i :: 0 <= i < |ps| ==> xs[i] == ps[i].stack
    ensures SumInts(xs) == SumBy(ps, StackOf)
  {
    if |ps| > 0 {
      StartingTotal(ps[..|ps| - 1], xs[..|xs| - 1]);
    }
  }

  /** No orphan pot: a run that ends with two or more live players has one of them eligible for
      every pot. */
  lemma RunHasNoOrphanPot(input: StartInput, deck: seq<Card>, states: seq<State>, actions: seq<Action>, last: Action)
    requires Run(input, deck, states, actions) && Sound(input)
    requires var s := states[|states| - 1]; s.active < |s.players| && s.button < |s.players| && Execute(s, last).Ends?
    ensures var t := Execute(states[|states| - 1], last).final;
      SumBy(t.players, LiveOf) == 1
      || exists w :: 0 <= w < |t.players| && Live(t.players[w]) && InEveryPot(Collect(t).pots, t.players[w].id)
  {
    var o, s := OriginOf(input, deck), states[|states| - 1];
    RunInvariant(input, deck, states, actions, |states| - 1);
    EndHasHeir(s, last, o);
    var t := Execute(s, last).final;
    if SumBy(t.players, LiveOf) != 1 {
      var w := NoOrphanPot(t, o);
    }
  }

  // ----- termination -----

  lemma MeasureDrops(input: StartInput, deck: seq<Card>, states: seq<State>, actions: seq<Action>, i: nat)
    requires Run(input, deck, states, actions) && Sound(input) && i < |actions|
    ensures 0 <= Measure(states[i + 1]) < Measure(states[i])
  {
    RunInvariant(input, deck, states, actions, i);
    assert Accepts(states[i], actions[i], states[i + 1]);
    MeasureDecreases(states[i], actions[i], OriginOf(input, deck));
  }

  lemma MeasureStarts(input: StartInput, deck: seq<Card>, states: seq<State>, actions: seq<Action>)
    requires Run(input, deck, states, actions) && Sound(input)
    ensures 0 <= Measure(states[0])
  {
    RunInvariant(input, deck, states, actions, 0);
    MeasureNonNegative(states[0], OriginOf(input, deck));
  }

  lemma {:induction false} MeasureDropsAlong(input: StartInput, deck: seq<Card>, states: seq<State>,
                                             actions: seq<Action>, i: nat)
    requires Run(input, deck, states, actions) && Sound(input) && i < |states|
    ensures 0 <= Measure(states[i]) && Measure(states[i]) + i <= Measure(states[0])
  {
    if i == 0 {
      MeasureStarts(input, deck, states, actions);
    } else {
      MeasureDropsAlong(input, deck, states, actions, i - 1);
      MeasureDrops(input, deck, states, actions, i - 1);
    }
  }

  lemma StartMeasure(input: StartInput, deck: seq<Card>)
    requires Start(input, deck).Started?
    ensures Measure(Start(input, deck).s) <= 4 * |input.players| * (input.config.maxRaises + 1) - 1
  {
    var s, n, m := Start(input, deck).s, |input.players|, input.config.maxRaises;
    var bb, f := BigBlindSeat(input.button, n), BehindOf(s.currentBet);
    StartedPlayers(input, deck, bb);
    BlindSeatsDiffer(input.button, n);
    assert f(s.players[bb]) == 0;
    LeavesOneOut(s.players, f, bb);
    StartArithmetic(n, m);
  }

  lemma StartArithmetic(n: int, m: int)
    ensures 3 * (n * (m + 1)) + (m - 0) * n + (n - 1) == 4 * n * (m + 1) - 1
  {
    assert n * (m + 1) == m * n + n;
    assert 4 * n * (m + 1) == 4 * (n * (m + 1));
  }

  /** Every hand terminates: counting the one that ends it, a hand of n players takes at most
      4 n (maxRaises + 1) accepted actions. */
  lemma HandTerminates(input: StartInput, deck: seq<Card>, states: seq<State>, actions: seq<Action>)
    requires Run(input, deck, states, actions) && Sound(input)
    ensures |actions| + 1 <= 4 * |input.players| * (input.config.maxRaises + 1)
  {
    MeasureDropsAlong(input, deck, states, actions, |actions|);
    StartMeasure(input, deck);
  }

  // ----- commitments and cards -----

  lemma CommittedWithin(s: State, o: Origin, p: nat)
    requires Inv(s, o) && p < |s.players|
    ensures 0 <= o.stacks[p] - s.players[p].stack <= PriorCap(Showdown, o.config)
    ensures o.stacks[p] >= 0 ==> s.players[p].stack >= 0
  {
    WithinHandLimit(s, o);
  }

  /** The same of the chips behind when the hand ends. */
  lemma CommittedAtEnd(s: State, a: Action, o: Origin, p: nat)
    requires Inv(s, o) && Execute(s, a).Ends? && p < |o.stacks|
    ensures |Execute(s, a).final.players| == |o.stacks|
    ensures var final := Execute(s, a).final;
      && 0 <= o.stacks[p] - final.players[p].stack <= PriorCap(Showdown, o.config)
      && (o.stacks[p] >= 0 ==> final.players[p].stack >= 0)
  {
    EndHasHeir(s, a, o);
    if Execute(s, a).final.street != Showdown {
      WithinHandLimit(Execute(s, a).final, o);
    }
  }

  /** No player ever commits more than the big blind and all the raises of the four streets, the action
      that ends the hand included. */
  lemma CommitmentBound(input: StartInput, deck: seq<Card>, states: seq<State>, actions: seq<Action>, i: nat,
                        last: Action, p: nat)
    requires Run(input, deck, states, actions) && Sound(input) && i < |states| && p < |input.players|
    ensures |states[i].players| == |input.players|
    ensures var c := input.config; var committed := input.players[p].stack - states[i].players[p].stack;
      0 <= committed <= c.bigBlind + 2 * c.maxRaises * (c.smallBet + c.bigBet)
    ensures input.players[p].stack >= 0 ==> states[i].players[p].stack >= 0
    ensures Ready(states[i]) && Execute(states[i], last).Ends? ==>
      var c, final := input.config, Execute(states[i], last).final;
      && |final.players| == |input.players|
      && 0 <= input.players[p].stack - final.players[p].stack
           <= c.bigBlind + 2 * c.maxRaises * (c.smallBet + c.bigBet)
      && (input.players[p].stack >= 0 ==> final.players[p].stack >= 0)
  {
    var o := OriginOf(input, deck);
    assert o.stacks[p] == input.players[p].stack && o.config == input.config;
    CommittedAlong(input, deck, states, actions, i, p, o);
    if Ready(states[i]) && Execute(states[i], last).Ends? {
      CommittedByEnd(input, deck, states, actions, i, last, p, o);
    }
  }

  lemma CommittedByEnd(input: StartInput, deck: seq<Card>, states: seq<State>, actions: seq<Action>, i: nat,
                       last: Action, p: nat, o: Origin)
    requires Run(input, deck, states, actions) && Sound(input) && i < |states| && p < |input.players|
    requires o == OriginOf(input, deck) && Ready(states[i]) && Execute(states[i], last).Ends?
    ensures |Execute(states[i], last).final.players| == |o.stacks|
    ensures var final := Execute(states[i], last).final;
      && 0 <= o.stacks[p] - final.players[p].stack <= PriorCap(Showdown, o.config)
      && (o.stacks[p] >= 0 ==> final.players[p].stack >= 0)
  {
    RunInvariant(input, deck, states, actions, i);
    CommittedAtEnd(states[i], last, o, p);
  }

  lemma CommittedAlong(input: StartInput, deck: seq<Card>, states: seq<State>, actions: seq<Action>, i: nat, p: nat,
                       o: Origin)
    requires Run(input, deck, states, actions) && Sound(input) && i < |states| && p < |input.players|
    requires o == OriginOf(input, deck)
    ensures |states[i].players| == |o.stacks|
    ensures 0 <= o.stacks[p] - states[i].players[p].stack <= PriorCap(Showdown, o.config)
    ensures o.stacks[p] >= 0 ==> states[i].players[p].stack >= 0
  {
    RunInvariant(input, deck, states, actions, i);
    CommittedWithin(states[i], o, p);
  }

  lemma EnoughCards(s: State, a: Action, o: Origin)
    requires Inv(s, o) && |o.cards| >= 2 * |o.ids| + 5
    ensures Execute(s, a).Rejected? <==> Validate(s, a).Some?
  {
    if Validate(s, a) == None {
      ActedKeeps(s, a, o);
      DealFailsIff(Acted(s, a), o);
    }
  }

  /** With at most 23 players and a full deck, a valid action is never refused for want of cards. */
  lemma DealNeverFails(input: StartInput, deck: seq<Card>, states: seq<State>, actions: seq<Action>, a: Action)
    requires Run(input, deck, states, actions) && Sound(input) && |deck| == 52 && |input.players| <= 23
    ensures var s := states[|states| - 1];
      s.active < |s.players| && s.button < |s.players| && (Execute(s, a).Rejected? <==> Validate(s, a).Some?)
  {
    RunInvariant(input, deck, states, actions, |states| - 1);
    EnoughCards(states[|states| - 1], a, OriginOf(input, deck));
  }

  lemma {:induction false} CountsOnce<T>(xs: seq<T>, x: T)
    requires Sh.NoRepeats(xs)
    ensures multiset(xs)[x] == if x in xs then 1 else 0
  {
    if |xs| > 0 {
      var last := |xs| - 1;
      assert xs == xs[..last] + [xs[last]];
      CountsOnce(xs[..last], x);
    }
  }

  /** In every state of a hand dealt from a shuffled fresh deck, hole cards, board and stub together
      hold each of the 52 cards exactly once, and the street fixes the size of the board. */
  lemma RunCards(input: StartInput, draws: seq<nat>, states: seq<State>, actions: seq<Action>, i: nat, c: Card)
    requires Sh.Draws(draws, 52)
    requires Run(input, Sh.Shuffled(Sh.NewDeck(), draws), states, actions) && Sound(input) && i < |states|
    ensures var s := states[i];
      && |s.board| == BoardSize(s.street)
      && multiset(Holes(s.players) + s.board + s.deck)[c] == if TWO <= c.rank <= ACE then 1 else 0
  {
    var deck := Sh.Shuffled(Sh.NewDeck(), draws);
    RunInvariant(input, deck, states, actions, i);
    Sh.ShuffleIsPermutation(Sh.NewDeck(), draws);
    Sh.FreshDeck();
    CountsOnce(Sh.NewDeck(), c);
  }

  /** In every state of every run the bet to match is the street's opening bet plus one street bet
      per raise, nobody has bet more, and the eligible sets of the pots are nested. */
  lemma RunBetLevels(input: StartInput, deck: seq<Card>, states: seq<State>, actions: seq<Action>, i: nat)
    requires Run(input, deck, states, actions) && Sound(input) && i < |states|
    ensures var s := states[i];
      && s.currentBet == (if s.street == Preflop then input.config.bigBlind else 0)
           + s.raises * (if s.street == Preflop || s.street == Flop then input.config.smallBet else input.config.bigBet)
      && 0 <= s.raises <= input.config.maxRaises
      && (forall p :: 0 <= p < |s.players| ==> 0 <= s.players[p].bet <= s.currentBet)
      && (forall k, l :: 0 <= k < l < |s.pots| ==> s.pots[l].eligible <= s.pots[k].eligible)
      && (forall p, k :: 0 <= p < |s.players| && 0 <= k < |s.pots| && CanAct(s.players[p]) ==>
            s.players[p].id in s.pots[k].eligible)
  {
    RunInvariant(input, deck, states, actions, i);
    LevelsOfInv(states[i], OriginOf(input, deck));
  }

  lemma LevelsOfInv(s: State, o: Origin)
    requires Inv(s, o)
    ensures s.currentBet
      == (if s.street == Preflop then o.config.bigBlind else 0) + s.raises * BetSize(s.street, o.config)
    ensures 0 <= s.raises <= o.config.maxRaises
    ensures forall p :: 0 <= p < |s.players| ==> 0 <= s.players[p].bet <= s.currentBet
    ensures forall k, l :: 0 <= k < l < |s.pots| ==> s.pots[l].eligible <= s.pots[k].eligible
    ensures forall p, k :: 0 <= p < |s.players| && 0 <= k < |s.pots| && CanAct(s.players[p]) ==>
      s.players[p].id in s.pots[k].eligible
  {
    forall p, k | 0 <= p < |s.players| && 0 <= k < |s.pots| && CanAct(s.players[p])
      ensures s.players[p].id in s.pots[k].eligible
    {
      assert InEveryPot(s.pots, s.players[p].id);
    }
  }

  // ----- event numbers -----

  lemma StepNumbered(s: State, a: Action)
    requires Ready(s)
    ensures Execute(s, a).Continues? ==> Execute(s, a).next.eventSequence == s.eventSequence + 1
    ensures Execute(s, a).Ends? ==> Execute(s, a).final.eventSequence == s.eventSequence + 1
  {}

  lemma AcceptedNumbered(s: State, a: Action, next: State)
    requires Accepts(s, a, next)
    ensures next.eventSequence == s.eventSequence + 1
  {
    StepNumbered(s, a);
  }

  lemma {:induction false} StatesNumbered(input: StartInput, deck: seq<Card>, states: seq<State>,
                                          actions: seq<Action>, i: nat)
    requires Run(input, deck, states, actions) && i < |states|
    ensures states[i].eventSequence == i + 1
  {
    if i > 0 {
      StatesNumbered(input, deck, states, actions, i - 1);
      assert Accepts(states[i - 1], actions[i - 1], states[i]);
      AcceptedNumbered(states[i - 1], actions[i - 1], states[i]);
    }
  }

  /** The start is event 1 and each accepted action takes the next number, so no two events of a hand
      share one; the finish takes the number after the action that ended it. */
  lemma EventsNumbered(input: StartInput, deck: seq<Card>, states: seq<State>, actions: seq<Action>, i: nat,
                       last: Action, c: RakeConfig, orders: seq<seq<PlayerID>>)
    requires Run(input, deck, states, actions) && i < |states|
    ensures states[i].eventSequence == i + 1
    ensures Ready(states[i]) && Execute(states[i], last).Ends? ==>
      var t := Execute(states[i], last).final;
      && t.eventSequence == i + 2
      && (|orders| == |Netted(t, c).pots| ==> Finish(t, c, orders).eventSequence == i + 3)
  {
    StatesNumbered(input, deck, states, actions, i);
    if Ready(states[i]) {
      StepNumbered(states[i], last);
    }
  }
}
