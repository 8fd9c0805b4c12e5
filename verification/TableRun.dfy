/** The table service over whole runs: joins, leaves and actions that drive engine hands. */
module TableRun {
  import opened Domain
  import B = Betting
  import opened Payout
  import opened HandInvariant
  import HS = HandSteps
  import F = FinishHand
  import St = StartHand
  import HR = HandRun
  import opened Table

  datatype Phase = Idle | InHand

  datatype TableRow = TableRow(
    phase: Phase, smallBlind: int, bigBlind: int, button: nat, activeHand: string, seats: seq<Seat>)

  /** The engine's side of the active hand. Over: finished there, not yet copied back. */
  datatype Hand = NoHand | Playing(s: State, o: Origin) | Over(s: State, o: Origin)

  /** The saved table, its hand, and what has been bought in, cashed out and raked so far. `intact`
      until a finished hand accepts another request. */
  datatype System = System(table: TableRow, hand: Hand, bought: int, cashed: int, raked: int, intact: bool)

  // ----- starting a hand -----

  predicate CanAutoStart(t: TableRow) {
    t.phase == Idle && |PlayablePlayers(t.seats)| >= 2
  }

  function ToPlayer(s: Seat): Player {
    Player(s.player, s.stack, (Card(0, Spades), Card(0, Spades)), Active, 0, s.index)
  }

  /** The place of the button's seat among the players, 0 if it is not there. */
  function ButtonPlace(ps: seq<Seat>, seat: nat): (r: nat)
    ensures r == 0 || r < |ps|
  {
    if |ps| == 0 then 0
    else if ps[|ps| - 1].index == seat then |ps| - 1
    else ButtonPlace(ps[..|ps| - 1], seat)
  }

  function HandInput(t: TableRow): St.StartInput {
    var ps := PlayablePlayers(t.seats);
    St.StartInput(
      seq(|ps|, i requires 0 <= i < |ps| => ToPlayer(ps[i])),
      ButtonPlace(ps, NormalizedButton(t.seats, t.button)),
      BettingConfig(FixedLimit, t.smallBlind, t.bigBlind, t.bigBlind, t.bigBlind * 2, 4))
  }

  datatype Opened = Opened(table: TableRow, hand: Hand) | OpenError

  /** startHand: an engine error leaves the table unsaved. */
  function OpenHand(t: TableRow, handId: string, deck: seq<Card>): Opened {
    match St.Start(HandInput(t), deck)
    case StartError(_) => OpenError
    case Started(s) => Opened(t.(activeHand := handId, phase := InHand), Playing(s, St.OriginOf(HandInput(t), deck)))
  }

  // ----- requests -----

  /** `saved`: nothing failed after the wallet's or the engine's part, neither publication nor saving. */
  datatype Event =
    | Join(player: PlayerID, seat: int, buyIn: int, debited: bool, handId: string, deck: seq<Card>, saved: bool)
    | Leave(player: PlayerID, credited: bool, saved: bool)
    | Act(player: PlayerID, kind: ActionType, amount: int, rake: RakeConfig, orders: seq<seq<PlayerID>>,
          handId: string, deck: seq<Card>, saved: bool)

  /** Save the table, first opening a hand if it can start; nothing is saved if that fails. */
  function SaveOrStart(sys: System, t: TableRow, handId: string, deck: seq<Card>): Option<System> {
    if CanAutoStart(t) then
      match OpenHand(t, handId, deck)
      case OpenError => None
      case Opened(t', hand) => Some(sys.(table := t', hand := hand))
    else Some(sys.(table := t))
  }

  predicate JoinRefused(t: TableRow, player: PlayerID, seat: int, buyIn: int, debited: bool) {
    || buyIn <= 0 || seat < 0 || seat >= |t.seats|
    || FindPlayer(t.seats, player, 0).Some?
    || Occupied(t.seats[seat])
    || !debited
  }

  function Joined(sys: System, e: Event): System
    requires e.Join?
  {
    var t := sys.table;
    if JoinRefused(t, e.player, e.seat, e.buyIn, e.debited) || !e.saved then sys
    else
      var sat := t.(seats := t.seats[e.seat := t.seats[e.seat].(player := e.player, stack := e.buyIn)]);
      match SaveOrStart(sys, sat, e.handId, e.deck)
      case None => sys
      case Some(next) => next.(bought := sys.bought + e.buyIn)
  }

  function Left(sys: System, e: Event): System
    requires e.Leave?
  {
    var t := sys.table;
    if t.phase == InHand || !e.credited || !e.saved then sys
    else
      match FindPlayer(t.seats, e.player, 0)
      case None => sys
      case Some(i) =>
        sys.(table := t.(seats := t.seats[i := t.seats[i].(player := NOBODY, stack := 0)]),
             cashed := sys.cashed + t.seats[i].stack)
  }

  /** The table after a showdown: stacks copied back, busted players unseated, button moved. */
  function Settled(t: TableRow, players: seq<Player>): TableRow {
    var seats := Unseated(CopiedBack(t.seats, players, |players|));
    t.(seats := seats, activeHand := "", phase := Idle, button := Advanced(seats, t.button))
  }

  /** If this action ends the hand, the pots are gone through in the orders given. */
  ghost predicate OrdersFit(s: State, e: Event) {
    && e.Act? && HR.Ready(s)
    && var r := B.Execute(s, Action(e.player, e.kind, e.amount));
       r.Ends? ==> F.Orders(F.Netted(r.final, e.rake).pots, e.orders)
  }

  /** What the engine answers: a refusal, a hand still in play, or one that stands at showdown. */
  datatype Answer = Refusal | InPlay(s: State) | Shown(s: State, rake: int)

  ghost function AnswerTo(s: State, e: Event): Answer
    requires OrdersFit(s, e)
  {
    match B.Execute(s, Action(e.player, e.kind, e.amount))
    case Rejected(_) => Refusal
    case Continues(next) => if next.street == Showdown then Shown(next, 0) else InPlay(next)
    case Ends(final) => Shown(F.Finish(final, e.rake, e.orders), F.RakeOf(final, e.rake))
  }

  /** The engine does not refuse a request because its hand is finished. */
  ghost function Acted(sys: System, e: Event): System
    requires e.Act? && !sys.hand.NoHand? && OrdersFit(sys.hand.s, e)
  {
    var t, o := sys.table, sys.hand.o;
    if t.activeHand == "" || FindPlayer(t.seats, e.player, 0).None? then sys
    else
      match AnswerTo(sys.hand.s, e)
      case Refusal => sys
      case InPlay(next) => sys.(hand := Playing(next, o))
      case Shown(done, rake) =>
        var marked := sys.(intact := sys.intact && sys.hand.Playing?);
        var settled := SaveOrStart(marked.(hand := NoHand), Settled(t, done.players), e.handId, e.deck);
        if settled.None? || !e.saved then marked.(hand := Over(done, o))
        else settled.value.(raked := sys.raked + rake)
  }

  ghost predicate Next(sys: System, e: Event, sys': System) {
    match e
    case Join(_, _, _, _, handId, _, _) => handId != "" && sys' == Joined(sys, e)
    case Leave(_, _, _) => sys' == Left(sys, e)
    case Act(player, kind, amount, rake, orders, handId, _, _) =>
      && handId != "" && ValidRake(rake)
      && if sys.hand.NoHand? then sys' == sys else OrdersFit(sys.hand.s, e) && sys' == Acted(sys, e)
  }

  // ----- invariant -----

  /** Everyone in the hand still sits at the table with the stack they brought to it. */
  ghost predicate HandSeats(seats: seq<Seat>, o: Origin) {
    && |o.ids| == |o.stacks|
    && (forall k, l :: 0 <= k < l < |o.ids| ==> o.ids[k] != o.ids[l])
    && (forall k :: 0 <= k < |o.ids| ==> SitsWith(seats, o.ids[k], o.stacks[k]))
  }

  ghost predicate SitsWith(seats: seq<Seat>, player: PlayerID, stack: int) {
    player != NOBODY && exists i :: 0 <= i < |seats| && seats[i].player == player && seats[i].stack == stack
  }

  ghost predicate TableValid(t: TableRow) {
    && SeatsValid(t.seats) && t.smallBlind > 0 && t.bigBlind == 2 * t.smallBlind
    && (t.phase == InHand <==> t.activeHand != "")
    && (t.phase == Idle ==> |PlayablePlayers(t.seats)| < 2)
  }

  ghost predicate HandValid(t: TableRow, h: Hand) {
    match h
    case NoHand => t.phase == Idle
    case Playing(s, o) => t.phase == InHand && Inv(s, o) && HandSeats(t.seats, o)
    case Over(s, o) => t.phase == InHand && HandSeats(t.seats, o) && Finished(s, o)
  }

  ghost predicate SamePlayers(s: State, o: Origin) {
    |s.players| == |o.ids| && forall k :: 0 <= k < |s.players| ==> s.players[k].id == o.ids[k]
  }

  /** What is left of a hand that has been to showdown, whatever it has been asked since. */
  ghost predicate Finished(s: State, o: Origin) {
    HR.Ready(s) && s.street == Showdown && NoDebt(s.pots) && SamePlayers(s, o)
  }

  /** Table and hand agree and, as long as no finished hand was played on, the seats hold what was
      bought in less what was cashed out or raked. */
  ghost predicate SysInv(sys: System) {
    && TableValid(sys.table) && HandValid(sys.table, sys.hand)
    && (sys.intact ==> SeatTotal(sys.table.seats) == sys.bought - sys.cashed - sys.raked)
  }

  // ----- seat arithmetic -----

  lemma {:induction false} TotalSet(seats: seq<Seat>, i: nat, s: Seat)
    requires i < |seats|
    ensures SeatTotal(seats[i := s]) == SeatTotal(seats) - seats[i].stack + s.stack
  {
    var last := |seats| - 1;
    if i < last {
      TotalSet(seats[..last], i, s);
      assert seats[i := s][..last] == seats[..last][i := s];
    } else {
      assert seats[i := s][..last] == seats[..last];
    }
  }

  lemma {:induction false} SameStacks(a: seq<Seat>, b: seq<Seat>)
    requires |a| == |b| && forall i :: 0 <= i < |a| ==> a[i].stack == b[i].stack
    ensures SeatTotal(a) == SeatTotal(b)
  {
    if |a| > 0 {
      SameStacks(a[..|a| - 1], b[..|b| - 1]);
    }
  }

  /** The same people in the same seats, empty ones still empty-handed. */
  ghost predicate SamePeople(a: seq<Seat>, b: seq<Seat>) {
    && |a| == |b|
    && (forall i :: 0 <= i < |a| ==> b[i].index == a[i].index && b[i].player == a[i].player)
    && (forall i :: 0 <= i < |a| && !Occupied(a[i]) ==> b[i].stack == a[i].stack)
  }

  lemma SetStack(seats: seq<Seat>, player: PlayerID, before: int, stack: int)
    requires SeatsValid(seats) && SitsWith(seats, player, before)
    ensures SamePeople(seats, WithStack(seats, player, stack))
    ensures SeatTotal(WithStack(seats, player, stack)) == SeatTotal(seats) - before + stack
    ensures forall p, x :: p != player && SitsWith(seats, p, x) ==> SitsWith(WithStack(seats, player, stack), p, x)
  {
    var i := FindPlayer(seats, player, 0).value;
    var j :| 0 <= j < |seats| && seats[j].player == player && seats[j].stack == before;
    assert i == j;
    TotalSet(seats, i, seats[i].(stack := stack));
    forall p, x | p != player && SitsWith(seats, p, x) ensures SitsWith(WithStack(seats, player, stack), p, x) {
      var k :| 0 <= k < |seats| && seats[k].player == p && seats[k].stack == x;
      assert WithStack(seats, player, stack)[k] == seats[k];
    }
  }

  lemma SamePeopleValid(a: seq<Seat>, b: seq<Seat>)
    requires SeatsValid(a) && SamePeople(a, b)
    ensures SeatsValid(b)
  {}

  lemma PrefixSums(players: seq<Player>, stacks: seq<int>, n: nat)
    requires 0 < n <= |players| == |stacks|
    ensures SumBy(players[..n], StackOf) == SumBy(players[..n - 1], StackOf) + players[n - 1].stack
    ensures SumInts(stacks[..n]) == SumInts(stacks[..n - 1]) + stacks[n - 1]
  {
    assert players[..n][..n - 1] == players[..n - 1] && stacks[..n][..n - 1] == stacks[..n - 1];
  }

  /** Who is still waiting to be paid after n players. */
  ghost predicate Waiting(seats: seq<Seat>, o: Origin, n: nat) {
    |o.ids| == |o.stacks| && forall k :: n <= k < |o.ids| ==> SitsWith(seats, o.ids[k], o.stacks[k])
  }

  lemma PayOne(seats: seq<Seat>, prev: seq<Seat>, o: Origin, n: nat, stack: int)
    requires SeatsValid(seats) && SamePeople(seats, prev) && HandSeats(seats, o) && n < |o.ids| && Waiting(prev, o, n)
    ensures var next := WithStack(prev, o.ids[n], stack);
      SamePeople(seats, next) && SeatTotal(next) == SeatTotal(prev) - o.stacks[n] + stack && Waiting(next, o, n + 1)
  {
    SamePeopleValid(seats, prev);
    SetStack(prev, o.ids[n], o.stacks[n], stack);
  }

  /** Copying back the first n stacks moves the total by what those n players won or lost. */
  lemma {:induction false} CopyBackTotal(seats: seq<Seat>, players: seq<Player>, o: Origin, n: nat)
    requires SeatsValid(seats) && HandSeats(seats, o) && n <= |players| == |o.ids|
    requires forall k :: 0 <= k < |players| ==> players[k].id == o.ids[k]
    ensures SamePeople(seats, CopiedBack(seats, players, n))
    ensures SeatTotal(CopiedBack(seats, players, n)) ==
      SeatTotal(seats) + SumBy(players[..n], StackOf) - SumInts(o.stacks[..n])
    ensures Waiting(CopiedBack(seats, players, n), o, n)
  {
    if n > 0 {
      CopyBackTotal(seats, players, o, n - 1);
      PayOne(seats, CopiedBack(seats, players, n - 1), o, n - 1, players[n - 1].stack);
      PrefixSums(players, o.stacks, n);
    }
  }

  lemma CopyAll(seats: seq<Seat>, players: seq<Player>, o: Origin)
    requires SeatsValid(seats) && HandSeats(seats, o) && |players| == |o.ids|
    requires forall k :: 0 <= k < |players| ==> players[k].id == o.ids[k]
    ensures SeatsValid(CopiedBack(seats, players, |players|))
    ensures SeatTotal(CopiedBack(seats, players, |players|))
      == SeatTotal(seats) + SumBy(players, StackOf) - SumInts(o.stacks)
  {
    var n := |players|;
    CopyBackTotal(seats, players, o, n);
    SamePeopleValid(seats, CopiedBack(seats, players, n));
    assert players[..n] == players && o.stacks[..n] == o.stacks;
  }

  lemma UnseatKeeps(seats: seq<Seat>)
    requires SeatsValid(seats)
    ensures SeatsValid(Unseated(seats)) && SeatTotal(Unseated(seats)) == SeatTotal(seats)
  {
    SameStacks(Unseated(seats), seats);
  }

  /** Settling a finished hand changes the seats' total by what its players won or lost. */
  lemma SettleTotal(t: TableRow, players: seq<Player>, o: Origin)
    requires SeatsValid(t.seats) && HandSeats(t.seats, o) && |players| == |o.ids|
    requires forall k :: 0 <= k < |players| ==> players[k].id == o.ids[k]
    ensures SeatsValid(Settled(t, players).seats)
    ensures SeatTotal(Settled(t, players).seats) == SeatTotal(t.seats) + SumBy(players, StackOf) - SumInts(o.stacks)
  {
    CopyAll(t.seats, players, o);
    UnseatKeeps(CopiedBack(t.seats, players, |players|));
  }

  // ----- a hand opened by the table -----

  lemma HandInputSound(t: TableRow)
    requires SeatsValid(t.seats) && |PlayablePlayers(t.seats)| >= 2
    ensures HR.Sound(HandInput(t))
  {
    var ps := PlayablePlayers(t.seats);
    var input := HandInput(t);
    PlayableExact(t.seats);
    forall i, j | 0 <= i < j < |ps| ensures input.players[i].id != input.players[j].id {
      assert ps[i].index < ps[j].index && t.seats[ps[i].index] == ps[i] && t.seats[ps[j].index] == ps[j];
    }
    forall i | 0 <= i < |ps| ensures input.players[i].stack > 0 {
      assert Playable(ps[i]);
    }
    St.PositiveStacksSuffice(input);
  }

  lemma OpenedHand(t: TableRow, handId: string, deck: seq<Card>)
    requires SeatsValid(t.seats) && CanAutoStart(t) && OpenHand(t, handId, deck).Opened?
    ensures var h := OpenHand(t, handId, deck).hand; Inv(h.s, h.o) && HandSeats(t.seats, h.o)
  {
    HandInputSound(t);
    St.StartEstablishesInv(HandInput(t), deck);
    OpenedSeats(t, deck);
  }

  lemma OpenedSeats(t: TableRow, deck: seq<Card>)
    requires SeatsValid(t.seats)
    ensures HandSeats(t.seats, St.OriginOf(HandInput(t), deck))
  {
    var ps, o := PlayablePlayers(t.seats), St.OriginOf(HandInput(t), deck);
    PlayableExact(t.seats);
    forall k | 0 <= k < |ps| ensures SitsWith(t.seats, o.ids[k], o.stacks[k]) {
      assert Playable(ps[k]) && t.seats[ps[k].index] == ps[k];
    }
    forall k, l | 0 <= k < l < |ps| ensures o.ids[k] != o.ids[l] {
      assert ps[k].index < ps[l].index && t.seats[ps[k].index] == ps[k] && t.seats[ps[l].index] == ps[l];
    }
  }

  /** Saving or starting from a table that is right except perhaps for two waiting players. */
  lemma SaveOrStartKeeps(sys: System, t: TableRow, handId: string, deck: seq<Card>)
    requires handId != "" && SeatsValid(t.seats) && t.smallBlind > 0 && t.bigBlind == 2 * t.smallBlind
    requires (t.phase == InHand <==> t.activeHand != "") && HandValid(t, sys.hand)
    ensures var r := SaveOrStart(sys, t, handId, deck); r.Some? ==>
      && TableValid(r.value.table) && HandValid(r.value.table, r.value.hand)
      && r.value.table.seats == t.seats
      && r.value.bought == sys.bought && r.value.cashed == sys.cashed && r.value.raked == sys.raked
      && r.value.intact == sys.intact
  {
    if CanAutoStart(t) && OpenHand(t, handId, deck).Opened? {
      OpenedHand(t, handId, deck);
    }
  }

  // ----- every request keeps the invariant -----

  lemma SitDown(seats: seq<Seat>, i: nat, player: PlayerID, buyIn: int)
    requires SeatsValid(seats) && i < |seats| && !Occupied(seats[i]) && FindPlayer(seats, player, 0).None?
    ensures var sat := seats[i := seats[i].(player := player, stack := buyIn)];
      && player != NOBODY && SeatsValid(sat) && SeatTotal(sat) == SeatTotal(seats) + buyIn
      && forall o :: HandSeats(seats, o) ==> HandSeats(sat, o)
  {
    var sat := seats[i := seats[i].(player := player, stack := buyIn)];
    TotalSet(seats, i, sat[i]);
    forall o | HandSeats(seats, o) ensures HandSeats(sat, o) {
      forall k | 0 <= k < |o.ids| ensures SitsWith(sat, o.ids[k], o.stacks[k]) {
        assert SitsWith(seats, o.ids[k], o.stacks[k]);
        var j :| 0 <= j < |seats| && seats[j].player == o.ids[k] && seats[j].stack == o.stacks[k];
        assert sat[j] == seats[j];
      }
    }
  }

  lemma JoinKeepsInv(sys: System, e: Event)
    requires SysInv(sys) && e.Join? && e.handId != ""
    ensures SysInv(Joined(sys, e))
  {
    var t := sys.table;
    if !JoinRefused(t, e.player, e.seat, e.buyIn, e.debited) {
      SitDown(t.seats, e.seat, e.player, e.buyIn);
      var sat := t.(seats := t.seats[e.seat := t.seats[e.seat].(player := e.player, stack := e.buyIn)]);
      SaveOrStartKeeps(sys, sat, e.handId, e.deck);
    }
  }

  lemma {:induction false} FewerPlayable(seats: seq<Seat>, i: nat, s: Seat)
    requires i < |seats| && !Playable(s)
    ensures |PlayablePlayers(seats[i := s])| <= |PlayablePlayers(seats)|
  {
    var last := |seats| - 1;
    if i < last {
      FewerPlayable(seats[..last], i, s);
      assert seats[i := s][..last] == seats[..last][i := s];
    } else {
      assert seats[i := s][..last] == seats[..last];
    }
  }

  lemma LeaveKeepsInv(sys: System, e: Event)
    requires SysInv(sys) && e.Leave?
    ensures SysInv(Left(sys, e))
  {
    var t := sys.table;
    var found := FindPlayer(t.seats, e.player, 0);
    if found.Some? {
      var gone := t.seats[found.value].(player := NOBODY, stack := 0);
      TotalSet(t.seats, found.value, gone);
      FewerPlayable(t.seats, found.value, gone);
    }
  }

  /** A finish leaves a finished hand of the same players. */
  lemma FinishFinishes(final: State, o: Origin, c: RakeConfig, orders: seq<seq<PlayerID>>)
    requires HR.Ready(final) && NoDebt(final.pots) && SamePlayers(final, o) && ValidRake(c)
    requires F.Orders(F.Netted(final, c).pots, orders)
    ensures Finished(F.Finish(final, c, orders), o)
  {
    F.NettedHasNoDebt(final, c);
  }

  lemma ActedFinished(s: State, o: Origin, a: Action)
    requires Finished(s, o)
    ensures Finished(HS.Acted(s, a), o)
  {}

  lemma AdvancedFinished(s: State, o: Origin)
    requires Finished(s, o)
    ensures B.Advance(s).Advanced? && Finished(B.Advance(s).s, o)
  {
    F.NettedHasNoDebt(s, RakeConfig(0.0, 0, false));
  }

  lemma ExecuteFinished(s: State, o: Origin, a: Action)
    requires Finished(s, o)
    ensures match B.Execute(s, a)
      case Rejected(_) => true
      case Continues(next) => Finished(next, o)
      case Ends(final) => Finished(final, o)
  {
    ActedFinished(s, o, a);
    AdvancedFinished(HS.Acted(s, a), o);
  }

  /** What a finished hand answers to an action is a refusal or a finished hand again. */
  lemma FinishedStays(s: State, o: Origin, e: Event)
    requires Finished(s, o) && OrdersFit(s, e) && ValidRake(e.rake)
    ensures AnswerTo(s, e).Refusal? || (AnswerTo(s, e).Shown? && Finished(AnswerTo(s, e).s, o))
  {
    var a := Action(e.player, e.kind, e.amount);
    ExecuteFinished(s, o, a);
    if B.Execute(s, a).Ends? {
      FinishFinishes(B.Execute(s, a).final, o, e.rake, e.orders);
    }
  }

  /** What a hand in play answers: a refusal, a hand in play, or a finished one. */
  lemma PlayingAnswers(s: State, o: Origin, e: Event)
    requires Inv(s, o) && OrdersFit(s, e) && ValidRake(e.rake)
    ensures match AnswerTo(s, e)
      case Refusal => true
      case InPlay(next) => Inv(next, o)
      case Shown(done, _) => Finished(done, o) && B.Execute(s, Action(e.player, e.kind, e.amount)).Ends?
  {
    var a := Action(e.player, e.kind, e.amount);
    match B.Execute(s, a)
    case Rejected(_) =>
    case Continues(_) => HS.StepKeepsInv(s, a, o);
    case Ends(final) =>
      HS.EndHasHeir(s, a, o);
      FinishFinishes(final, o, e.rake, e.orders);
  }

  /** From a hand's start to its showdown the seats lose exactly the rake. */
  lemma ShowdownTakesRake(sys: System, e: Event, final: State)
    requires SysInv(sys) && e.Act? && ValidRake(e.rake) && sys.hand.Playing?
    requires B.Execute(sys.hand.s, Action(e.player, e.kind, e.amount)) == B.Ends(final)
    requires F.Orders(F.Netted(final, e.rake).pots, e.orders)
    ensures var done := F.Finish(final, e.rake, e.orders);
      && SeatsValid(Settled(sys.table, done.players).seats)
      && SeatTotal(Settled(sys.table, done.players).seats) == SeatTotal(sys.table.seats) - F.RakeOf(final, e.rake)
  {
    var o := sys.hand.o;
    HS.EndHasHeir(sys.hand.s, Action(e.player, e.kind, e.amount), o);
    F.FinishConserves(final, o, e.rake, e.orders);
    FinishFinishes(final, o, e.rake, e.orders);
    SettleTotal(sys.table, F.Finish(final, e.rake, e.orders).players, o);
  }

  /** Settling a shown hand, first answer or later. */
  lemma ShownKeepsInv(sys: System, e: Event, done: State, rake: int)
    requires SysInv(sys) && e.Act? && ValidRake(e.rake) && e.handId != "" && !sys.hand.NoHand?
    requires OrdersFit(sys.hand.s, e) && AnswerTo(sys.hand.s, e) == Shown(done, rake) && Finished(done, sys.hand.o)
    requires sys.hand.Playing? ==> B.Execute(sys.hand.s, Action(e.player, e.kind, e.amount)).Ends?
    ensures SysInv(Acted(sys, e))
  {
    var next := Settled(sys.table, done.players);
    SettleTotal(sys.table, done.players, sys.hand.o);
    SaveOrStartKeeps(sys.(hand := NoHand, intact := sys.intact && sys.hand.Playing?), next, e.handId, e.deck);
    if sys.hand.Playing? {
      ShowdownTakesRake(sys, e, B.Execute(sys.hand.s, Action(e.player, e.kind, e.amount)).final);
    }
  }

  lemma ActKeepsInv(sys: System, e: Event, sys': System)
    requires SysInv(sys) && e.Act? && Next(sys, e, sys')
    ensures SysInv(sys')
  {
    if !sys.hand.NoHand? {
      var s, o := sys.hand.s, sys.hand.o;
      if sys.hand.Playing? {
        PlayingAnswers(s, o, e);
      } else {
        FinishedStays(s, o, e);
      }
      match AnswerTo(s, e)
      case Refusal =>
      case InPlay(_) =>
      case Shown(done, rake) => ShownKeepsInv(sys, e, done, rake);
    }
  }

  lemma NextKeepsInv(sys: System, e: Event, sys': System)
    requires SysInv(sys) && Next(sys, e, sys')
    ensures SysInv(sys')
  {
    match e
    case Join(_, _, _, _, _, _, _) => JoinKeepsInv(sys, e);
    case Leave(_, _, _) => LeaveKeepsInv(sys, e);
    case Act(_, _, _, _, _, _, _, _) => ActKeepsInv(sys, e, sys');
  }

  // ----- runs -----

  /** CreateTable. */
  function Created(seatCount: int, smallBlind: int, bigBlind: int): Option<TableRow> {
    if seatCount < 2 || smallBlind <= 0 || bigBlind <= 0 || bigBlind != smallBlind * 2 then None
    else
      var seats := seq(seatCount, i requires 0 <= i < seatCount => Seat(i, NOBODY, 0));
      Some(TableRow(Idle, smallBlind, bigBlind, 0, "", seats))
  }

  ghost predicate Run(states: seq<System>, events: seq<Event>) {
    && |states| == |events| + 1
    && (exists n, sb, bb :: Created(n, sb, bb) == Some(states[0].table))
    && states[0] == System(states[0].table, NoHand, 0, 0, 0, true)
    && forall i {:trigger events[i]} :: 0 <= i < |events| ==> Next(states[i], events[i], states[i + 1])
  }

  lemma {:induction false} EmptySeats(seats: seq<Seat>)
    requires forall i :: 0 <= i < |seats| ==> seats[i].player == NOBODY && seats[i].stack == 0
    ensures SeatTotal(seats) == 0 && PlayablePlayers(seats) == []
  {
    if |seats| > 0 {
      EmptySeats(seats[..|seats| - 1]);
    }
  }

  /** The table invariant over every run: distinct seated players, in a hand exactly when there is an
      active hand id, never idle with two playable players; and, until a finished hand accepts another
      request, the seats hold exactly the buy-ins less the cash-outs and the rakes of the hands played. */
  lemma {:induction false} TableInvariant(states: seq<System>, events: seq<Event>, i: nat)
    requires Run(states, events) && i < |states|
    ensures SysInv(states[i])
  {
    if i == 0 {
      EmptySeats(states[0].table.seats);
    } else {
      TableInvariant(states, events, i - 1);
      assert Next(states[i - 1], events[i - 1], states[i]);
      NextKeepsInv(states[i - 1], events[i - 1], states[i]);
    }
  }

  /** While a hand is on nobody can leave, so nothing is cashed out. */
  lemma {:induction false} NoCashoutInHand(states: seq<System>, events: seq<Event>, i: nat, j: nat)
    requires Run(states, events) && i <= j < |states|
    requires forall k :: i <= k < j ==> states[k].table.phase == InHand
    ensures states[j].cashed == states[i].cashed
  {
    if i < j {
      NoCashoutInHand(states, events, i, j - 1);
      assert Next(states[j - 1], events[j - 1], states[j]);
    }
  }

  lemma {:induction false} IntactBefore(states: seq<System>, events: seq<Event>, i: nat, j: nat)
    requires Run(states, events) && i <= j < |states| && states[j].intact
    ensures states[i].intact
  {
    if i < j {
      assert Next(states[j - 1], events[j - 1], states[j]);
      IntactBefore(states, events, i, j - 1);
    }
  }

  /** Seat-stack composition: over any stretch of a run in which the table stays in a hand, from the
      hand's start to the table saved after its showdown, the seats change by the buy-ins of players
      who joined meanwhile less the rake taken meanwhile, and by nothing else. */
  lemma SeatStackComposition(states: seq<System>, events: seq<Event>, i: nat, j: nat)
    requires Run(states, events) && i <= j < |states| && states[j].intact
    requires forall k :: i <= k < j ==> states[k].table.phase == InHand
    ensures SeatTotal(states[j].table.seats) - SeatTotal(states[i].table.seats)
      == (states[j].bought - states[i].bought) - (states[j].raked - states[i].raked)
  {
    TableInvariant(states, events, i);
    TableInvariant(states, events, j);
    NoCashoutInHand(states, events, i, j);
    IntactBefore(states, events, i, j);
  }

  // ----- hands left unsettled -----

  /** No next hand: too few cards, or a blind seat that cannot pay its blind in full. */
  ghost predicate CannotOpen(t: TableRow, deck: seq<Card>) {
    var ps := PlayablePlayers(t.seats);
    && |ps| >= 2
    && var b := ButtonPlace(ps, NormalizedButton(t.seats, t.button));
       || |deck| < 2 * |ps|
       || ps[St.SmallBlindSeat(b, |ps|)].stack < t.smallBlind
       || ps[St.BigBlindSeat(b, |ps|)].stack < t.bigBlind
  }

  lemma SaveFailsIff(sys: System, t: TableRow, handId: string, deck: seq<Card>)
    requires t.smallBlind > 0 && t.bigBlind == 2 * t.smallBlind && t.phase == Idle
    ensures SaveOrStart(sys, t, handId, deck).None? <==> CannotOpen(t, deck)
    ensures SaveOrStart(sys, t, handId, deck).Some? && !sys.hand.Over? ==>
      !SaveOrStart(sys, t, handId, deck).value.hand.Over?
  {}

  lemma ShownOutcome(sys: System, e: Event, done: State, rake: int)
    requires e.Act? && sys.hand.Playing? && OrdersFit(sys.hand.s, e) && AnswerTo(sys.hand.s, e) == Shown(done, rake)
    requires sys.table.activeHand != "" && FindPlayer(sys.table.seats, e.player, 0).Some?
    requires sys.table.smallBlind > 0 && sys.table.bigBlind == 2 * sys.table.smallBlind
    ensures Acted(sys, e) == sys.(hand := Over(done, sys.hand.o)) <==>
      !e.saved || CannotOpen(Settled(sys.table, done.players), e.deck)
  {
    SaveFailsIff(sys.(hand := NoHand), Settled(sys.table, done.players), e.handId, e.deck);
  }

  /** Counter-example to prompt settlement: a finished hand's stacks are not copied back, and the table
      stays saved as being in that hand, exactly when saving fails or the next hand must start and the
      deck is short or a blind seat cannot pay its blind. */
  lemma UnopenableNextHand(sys: System, e: Event, sys': System, final: State)
    requires SysInv(sys) && e.Act? && Next(sys, e, sys') && sys.hand.Playing?
    requires B.Execute(sys.hand.s, Action(e.player, e.kind, e.amount)) == B.Ends(final)
    requires FindPlayer(sys.table.seats, e.player, 0).Some?
    ensures var done := F.Finish(final, e.rake, e.orders);
      sys' == sys.(hand := Over(done, sys.hand.o)) <==> !e.saved || CannotOpen(Settled(sys.table, done.players), e.deck)
  {
    ShownOutcome(sys, e, F.Finish(final, e.rake, e.orders), F.RakeOf(final, e.rake));
  }
}
