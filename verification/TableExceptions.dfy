/** A run of a table that leaves a finished hand unsettled: its stacks are never copied back. */
module TableExceptions {
  import opened Domain
  import B = Betting
  import opened Payout
  import opened HandInvariant
  import HS = HandSteps
  import F = FinishHand
  import St = StartHand
  import opened Table
  import opened TableRun

  // ----- a finished hand that is never copied back -----

  function TwoSeats(a: int, b: int): seq<Seat> {
    [Seat(0, "a", a), Seat(1, "b", b)]
  }

  /** A table for two with blinds of 1 and 2. */
  function HeadsUp(phase: Phase, handId: string, button: nat, a: int, b: int): TableRow {
    TableRow(phase, 1, 2, button, handId, TwoSeats(a, b))
  }

  lemma BothPlayable(a: int, b: int)
    requires a > 0 && b > 0
    ensures PlayablePlayers(TwoSeats(a, b)) == TwoSeats(a, b)
  {
    var seats := TwoSeats(a, b);
    assert seats[..1] == [seats[0]] && seats[..1][..0] == [];
    assert PlayablePlayers(seats[..1]) == [seats[0]];
  }

  lemma OnePlayable(a: int)
    ensures |PlayablePlayers([Seat(0, "a", a), Seat(1, NOBODY, 0)])| <= 1
  {
    var seats := [Seat(0, "a", a), Seat(1, NOBODY, 0)];
    assert seats[..1] == [seats[0]] && seats[..1][..0] == [];
    assert |PlayablePlayers(seats[..1])| <= 1 && !Playable(seats[1]);
  }

  lemma ButtonPlaces(a: int, b: int, button: nat)
    requires a > 0 && b > 0 && button < 2
    ensures NormalizedButton(TwoSeats(a, b), button) == button && ButtonPlace(TwoSeats(a, b), button) == button
  {
    var seats := TwoSeats(a, b);
    assert seats[..1] == [seats[0]];
  }

  function Empty(): System {
    System(Created(2, 1, 2).value, NoHand, 0, 0, 0, true)
  }

  function FirstJoin(deck: seq<Card>): Event {
    Join("a", 0, 2, true, "h1", deck, true)
  }

  function SecondJoin(deck: seq<Card>): Event {
    Join("b", 1, 4, true, "h1", deck, true)
  }

  function OneSits(): System {
    System(TableRow(Idle, 1, 2, 0, "", [Seat(0, "a", 2), Seat(1, NOBODY, 0)]), NoHand, 2, 0, 0, true)
  }

  lemma FirstSits(deck: seq<Card>)
    ensures Empty().table.seats == [Seat(0, NOBODY, 0), Seat(1, NOBODY, 0)]
    ensures Joined(Empty(), FirstJoin(deck)) == OneSits()
  {
    OnePlayable(2);
    var seats := Empty().table.seats;
    assert seats == [Seat(0, NOBODY, 0), Seat(1, NOBODY, 0)];
    assert FindPlayer(seats, "a", 0).None?;
    assert seats[0 := Seat(0, "a", 2)] == OneSits().table.seats;
  }

  /** The table right before the second join opens a hand. */
  function TwoSit(): TableRow {
    HeadsUp(Idle, "", 0, 2, 4)
  }

  ghost function Sitting(deck: seq<Card>): System
    requires |deck| >= 4
  {
    HandOpens(deck);
    System(HeadsUp(InHand, "h1", 0, 2, 4), OpenHand(TwoSit(), "h1", deck).hand, 6, 0, 0, true)
  }

  lemma SecondSits(deck: seq<Card>)
    requires |deck| >= 4
    ensures Joined(OneSits(), SecondJoin(deck)) == Sitting(deck)
  {
    var seats := OneSits().table.seats;
    assert FindPlayer(seats, "b", 0).None?;
    assert seats[1 := Seat(1, "b", 4)] == TwoSeats(2, 4);
    BothPlayable(2, 4);
    HandOpens(deck);
    assert CanAutoStart(TwoSit());
  }

  lemma OneSitsIsSound(deck: seq<Card>)
    ensures SysInv(OneSits())
  {
    FirstSits(deck);
    EmptySeats(Empty().table.seats);
    JoinKeepsInv(Empty(), FirstJoin(deck));
  }

  /** The second join opens a hand in which "a" is to act with one chip left. */
  lemma SittingIsSound(deck: seq<Card>)
    requires |deck| >= 4
    ensures SysInv(Sitting(deck))
  {
    OneSitsIsSound(deck);
    SecondSits(deck);
    JoinKeepsInv(OneSits(), SecondJoin(deck));
  }

  /** "a" on the button has posted 1 and "b" 2. */
  ghost predicate HandOfTwo(s: State) {
    && |s.players| == 2 && s.active == 0 && s.button == 0 && s.street == Preflop
    && s.players[0].id == "a" && s.players[0].stack == 1 && s.players[0].status == Active
    && s.players[1].id == "b" && s.players[1].stack == 2 && s.players[1].status == Active
  }

  lemma HandOpens(deck: seq<Card>)
    requires |deck| >= 4
    ensures St.Start(HandInput(TwoSit()), deck).Started? && HandOfTwo(St.Start(HandInput(TwoSit()), deck).s)
  {
    BothPlayable(2, 4);
    ButtonPlaces(2, 4, 0);
    var input := HandInput(TwoSit());
    assert St.Start(input, deck).Started?;
    St.StartedPlayers(input, deck, 0);
    St.StartedPlayers(input, deck, 1);
    var s := St.Start(input, deck).s;
    assert B.At(2, 1, 1) == 0 && CanAct(s.players[B.At(2, 1, 1)]);
  }

  lemma FoldEndsIt(s: State)
    requires HandOfTwo(s)
    ensures var a := Action("a", Fold, 0);
      B.Execute(s, a) == B.Ends(HS.Acted(s, a)) && SumBy(HS.Acted(s, a).players, LiveOf) == 1
  {
    var ps := HS.Acted(s, Action("a", Fold, 0)).players;
    SumOfTwo(ps, ActingOf);
    SumOfTwo(ps, LiveOf);
  }

  /** After the fold "a" has one chip and "b" at least two. */
  lemma FoldLeaves(s: State, o: Origin, t: State, orders: seq<seq<PlayerID>>)
    requires Inv(s, o) && HandOfTwo(s) && t == HS.Acted(s, Action("a", Fold, 0))
    requires F.Orders(F.Netted(t, FREE).pots, orders)
    ensures OneChipLeft(F.Finish(t, FREE, orders).players)
  {
    FoldEndsIt(s);
    HS.ActedKeeps(s, Action("a", Fold, 0), o);
    SurvivorPaid(t, o, orders);
  }

  ghost predicate OneChipLeft(ps: seq<Player>) {
    |ps| == 2 && ps[0].id == "a" && ps[0].stack == 1 && ps[1].id == "b" && ps[1].stack >= 2
  }

  lemma SurvivorPaid(t: State, o: Origin, orders: seq<seq<PlayerID>>)
    requires Books(t, o) && F.Orders(F.Netted(t, FREE).pots, orders) && SumBy(t.players, LiveOf) == 1
    requires OneChipLeft(t.players) && Live(t.players[1])
    ensures OneChipLeft(F.Finish(t, FREE, orders).players)
  {
    F.NettedConserves(t, o, FREE);
    TotalNonNegative(F.Netted(t, FREE).pots);
    F.SoleSurvivorTakesAll(t, o, FREE, orders, 1, 0);
    F.SoleSurvivorTakesAll(t, o, FREE, orders, 1, 1);
    assert F.Netted(t, FREE).players[0].id == "a" && F.Netted(t, FREE).players[1].id == "b";
  }

  lemma SettledTable(players: seq<Player>)
    requires OneChipLeft(players)
    ensures TableRun.Settled(HeadsUp(InHand, "h1", 0, 2, 4), players) == HeadsUp(Idle, "", 1, 1, players[1].stack)
  {
    var x := players[1].stack;
    var seats := TwoSeats(2, 4);
    assert WithStack(seats, "a", 1) == TwoSeats(1, 4);
    assert WithStack(TwoSeats(1, 4), "b", x) == TwoSeats(1, x);
    assert CopiedBack(seats, players, 1) == TwoSeats(1, 4);
    assert Unseated(TwoSeats(1, x)) == TwoSeats(1, x);
    BothPlayable(1, x);
    assert Playable(TwoSeats(1, x)[B.At(2, 0, 1)]);
  }

  lemma NextHandCannotOpen(b: int, deck: seq<Card>)
    requires b >= 2
    ensures CannotOpen(HeadsUp(Idle, "", 1, 1, b), deck)
  {
    BothPlayable(1, b);
    ButtonPlaces(1, b, 1);
  }

  lemma FoldLeavesUnsettled(deck: seq<Card>) returns (e: Event, after: System)
    requires |deck| >= 4
    ensures e.Act? && e.saved && Next(Sitting(deck), e, after)
    ensures after.hand.Over? && after.table == Sitting(deck).table
  {
    var sys := Sitting(deck);
    SittingIsSound(deck);
    HandOpens(deck);
    var t := HS.Acted(sys.hand.s, Action("a", Fold, 0));
    var orders := F.AnyOrders(F.Netted(t, FREE).pots);
    FoldEndsIt(sys.hand.s);
    FoldLeaves(sys.hand.s, sys.hand.o, t, orders);
    e := Act("a", Fold, 0, FREE, orders, "h2", deck, true);
    after := Acted(sys, e);
    StaysUnsettled(sys, e, after, t);
  }

  lemma StaysUnsettled(sys: System, e: Event, after: System, t: State)
    requires SysInv(sys) && sys.hand.Playing? && sys.table == HeadsUp(InHand, "h1", 0, 2, 4)
    requires e.Act? && e.player == "a" && Next(sys, e, after)
    requires B.Execute(sys.hand.s, Action(e.player, e.kind, e.amount)) == B.Ends(t)
    requires OneChipLeft(F.Finish(t, e.rake, e.orders).players)
    ensures after.hand.Over? && after.table == sys.table
  {
    var players := F.Finish(t, e.rake, e.orders).players;
    SettledTable(players);
    NextHandCannotOpen(players[1].stack, e.deck);
    UnopenableNextHand(sys, e, after, t);
  }

  /** It happens: two players join with 2 and 4 chips, blinds of 1 and 2, and the first one folds. Every
      call succeeds but the opening of the next hand, whose big blind has one chip: the stacks are
      never copied back. */
  lemma UnsettledHandArises(deck: seq<Card>) returns (states: seq<System>, events: seq<Event>)
    requires |deck| >= 4
    ensures Run(states, events) && |events| == 3
    ensures events[0] == FirstJoin(deck) && events[1] == SecondJoin(deck) && events[2].Act? && events[2].saved
    ensures states[3].hand.Over? && states[3].table == HeadsUp(InHand, "h1", 0, 2, 4)
  {
    FirstSits(deck);
    SecondSits(deck);
    var e, after := FoldLeavesUnsettled(deck);
    states := [Empty(), OneSits(), Sitting(deck), after];
    events := [FirstJoin(deck), SecondJoin(deck), e];
    RunOfThree(states, events);
  }

  lemma RunOfThree(states: seq<System>, events: seq<Event>)
    requires |states| == 4 && |events| == 3 && states[0] == Empty()
    requires Next(states[0], events[0], states[1]) && Next(states[1], events[1], states[2])
    requires Next(states[2], events[2], states[3])
    ensures Run(states, events)
  {
    assert Created(2, 1, 2) == Some(states[0].table);
  }
}
