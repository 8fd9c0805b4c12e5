/** What the table's requests do to the seats and the button, and the terms on which it opens a hand, told
    seat by seat. */
module TableTerms {
  import opened Domain
  import B = Betting
  import opened Payout
  import F = FinishHand
  import St = StartHand
  import opened Table
  import opened TableRun

  // ----- the hand a table opens -----

  ghost predicate Numbered(seats: seq<Seat>) {
    forall i :: 0 <= i < |seats| ==> seats[i].index == i
  }

  /** Seat x is where the button counts from: the button's own seat if someone can play there, otherwise
      the first seat where someone can. */
  ghost predicate CountsFrom(seats: seq<Seat>, button: nat, x: nat) {
    && PlayableAt(seats, x)
    && (PlayableAt(seats, button) ==> x == button)
    && (!PlayableAt(seats, button) ==> forall j :: 0 <= j < x ==> !Playable(seats[j]))
  }

  lemma {:induction false} FirstPlayableIs(seats: seq<Seat>, i: nat)
    requires i <= |seats|
    ensures FirstPlayable(seats, i) <= |seats|
    ensures forall j :: i <= j < FirstPlayable(seats, i) ==> !Playable(seats[j])
    decreases |seats| - i
  {
    if i < |seats| && !Playable(seats[i]) {
      FirstPlayableIs(seats, i + 1);
    }
  }

  lemma NormalizedIs(seats: seq<Seat>, button: nat)
    requires Numbered(seats) && |PlayablePlayers(seats)| > 0
    ensures CountsFrom(seats, button, NormalizedButton(seats, button))
  {
    PlayableExact(seats);
    var p := PlayablePlayers(seats)[0];
    FirstPlayableFinds(seats, 0, p.index);
    FirstPlayableIs(seats, 0);
  }

  lemma {:induction false} PlaceIs(ps: seq<Seat>, seat: nat, k: nat)
    requires k < |ps| && ps[k].index == seat
    requires forall i, j :: 0 <= i < j < |ps| ==> ps[i].index < ps[j].index
    ensures ButtonPlace(ps, seat) == k
  {
    var last := |ps| - 1;
    if k < last {
      assert ps[..last][k] == ps[k];
      PlaceIs(ps[..last], seat, k);
    }
  }

  /** The player plays for the seat at the player's position, with its stack. */
  ghost predicate PlaysFor(seats: seq<Seat>, p: Player) {
    && 0 <= p.position < |seats| && Playable(seats[p.position])
    && p.id == seats[p.position].player && p.stack + p.bet == seats[p.position].stack
  }

  ghost predicate HasPlayer(s: State, seat: int) {
    exists k :: 0 <= k < |s.players| && s.players[k].position == seat
  }

  lemma StartedSeat(input: St.StartInput, deck: seq<Card>, k: nat)
    requires St.Start(input, deck).Started? && k < |input.players|
    ensures var s := St.Start(input, deck).s;
      && |s.players| == |input.players| && s.players[k].id == input.players[k].id
      && s.players[k].position == input.players[k].position
      && s.players[k].stack + s.players[k].bet == input.players[k].stack
  {
    St.BlindsPosted(input, deck, k);
  }

  lemma OpenedPlayers(t: TableRow, deck: seq<Card>)
    requires SeatsValid(t.seats) && St.Start(HandInput(t), deck).Started?
    ensures var s, ps := St.Start(HandInput(t), deck).s, PlayablePlayers(t.seats);
      && |s.players| == |ps|
      && forall k :: 0 <= k < |ps| ==> s.players[k].position == ps[k].index && PlaysFor(t.seats, s.players[k])
  {
    var input, s, ps := HandInput(t), St.Start(HandInput(t), deck).s, PlayablePlayers(t.seats);
    PlayableExact(t.seats);
    StartedSeat(input, deck, 0);
    forall k | 0 <= k < |ps|
      ensures s.players[k].position == ps[k].index && PlaysFor(t.seats, s.players[k])
    {
      StartedSeat(input, deck, k);
    }
  }

  lemma OpenedButton(t: TableRow) returns (b: nat)
    requires SeatsValid(t.seats) && |PlayablePlayers(t.seats)| > 0
    ensures b < |PlayablePlayers(t.seats)| && HandInput(t).button == b
    ensures CountsFrom(t.seats, t.button, PlayablePlayers(t.seats)[b].index)
  {
    var ps, x := PlayablePlayers(t.seats), NormalizedButton(t.seats, t.button);
    PlayableExact(t.seats);
    NormalizedIs(t.seats, t.button);
    assert t.seats[x] in ps;
    b :| 0 <= b < |ps| && ps[b] == t.seats[x];
    PlaceIs(ps, x, b);
  }

  ghost predicate InSeatOrder(ps: seq<Player>) {
    forall k, l :: 0 <= k < l < |ps| ==> ps[k].position < ps[l].position
  }

  /** The players are those who can play, in seat order, each with the seat's stack; the button is where it
      counts from. */
  ghost predicate PlayedBy(s: State, t: TableRow) {
    && InSeatOrder(s.players)
    && (forall k :: 0 <= k < |s.players| ==> PlaysFor(t.seats, s.players[k]))
    && (forall i :: 0 <= i < |t.seats| && Playable(t.seats[i]) ==> HasPlayer(s, i))
    && s.button < |s.players| && s.players[s.button].position >= 0
    && CountsFrom(t.seats, t.button, s.players[s.button].position)
  }

  lemma OpenedFor(t: TableRow, deck: seq<Card>)
    requires SeatsValid(t.seats) && St.Start(HandInput(t), deck).Started?
    ensures PlayedBy(St.Start(HandInput(t), deck).s, t)
  {
    var s, ps := St.Start(HandInput(t), deck).s, PlayablePlayers(t.seats);
    PlayableExact(t.seats);
    OpenedPlayers(t, deck);
    var b := OpenedButton(t);
    assert s.button == b && s.players[b].position == ps[b].index;
    forall i | 0 <= i < |t.seats| && Playable(t.seats[i]) ensures HasPlayer(s, i) {
      var k :| 0 <= k < |ps| && ps[k] == t.seats[i];
      assert s.players[k].position == i;
    }
  }

  /** The hand a table opens is played by those who can play, in seat order, from the button's seat on; its
      limits are the table's blinds, a small bet of one big blind, a big bet of two, and four raises a street. */
  lemma OpenedTerms(t: TableRow, handId: string, deck: seq<Card>)
    requires SeatsValid(t.seats) && CanAutoStart(t) && OpenHand(t, handId, deck).Opened?
    ensures OpenHand(t, handId, deck).table == t.(activeHand := handId, phase := InHand)
    ensures var s := OpenHand(t, handId, deck).hand.s;
      && s.config == BettingConfig(FixedLimit, t.smallBlind, t.bigBlind, t.bigBlind, 2 * t.bigBlind, 4)
      && PlayedBy(s, t)
  {
    OpenedFor(t, deck);
  }

  // ----- joining and leaving -----

  ghost predicate Seated(seats: seq<Seat>, player: PlayerID) {
    exists i :: 0 <= i < |seats| && seats[i].player == player
  }

  /** A join is accepted exactly when it is a new player's positive buy-in for an empty seat, the wallet
      was debited, nothing failed afterwards, and no hand that would have to start cannot. Then the seat,
      the books and, if two can play now, the hand change, and nothing else; otherwise nothing does. */
  lemma JoinExact(sys: System, e: Event)
    requires SysInv(sys) && e.Join?
    ensures var t := sys.table;
      var fits := && e.buyIn > 0 && 0 <= e.seat < |t.seats| && e.player != NOBODY && !Seated(t.seats, e.player)
                  && t.seats[e.seat].player == NOBODY && e.debited && e.saved;
      if !fits then Joined(sys, e) == sys
      else
        var sat := t.(seats := t.seats[e.seat := Seat(e.seat, e.player, e.buyIn)]);
        if t.phase == Idle && CannotOpen(sat, e.deck) then Joined(sys, e) == sys
        else
          var next := Joined(sys, e);
          && next.bought == sys.bought + e.buyIn && next.table.seats == sat.seats
          && next.cashed == sys.cashed && next.raked == sys.raked && next.intact == sys.intact
          && next.table == sat.(phase := next.table.phase, activeHand := next.table.activeHand)
          && (if t.phase == Idle && |PlayablePlayers(sat.seats)| >= 2
              then next.hand.Playing? && next.table.phase == InHand && next.table.activeHand == e.handId
              else next.hand == sys.hand && next.table == sat)
  {
    var t := sys.table;
    if 0 <= e.seat < |t.seats| {
      var sat := t.(seats := t.seats[e.seat := t.seats[e.seat].(player := e.player, stack := e.buyIn)]);
      assert t.seats[e.seat].(player := e.player, stack := e.buyIn) == Seat(e.seat, e.player, e.buyIn);
      if t.phase == Idle {
        SaveFailsIff(sys, sat, e.handId, e.deck);
      }
    }
  }

  /** Leaving empties the player's seat and pays out its stack, between hands and when nothing fails;
      otherwise, or when the player has no seat, nothing happens. */
  lemma LeaveExact(sys: System, e: Event, i: nat)
    requires SysInv(sys) && e.Leave? && i < |sys.table.seats|
    ensures sys.table.seats[i].player == e.player != NOBODY ==>
      Left(sys, e) ==
        if sys.table.phase == Idle && e.credited && e.saved then
          sys.(table := sys.table.(seats := sys.table.seats[i := Seat(i, NOBODY, 0)]),
               cashed := sys.cashed + sys.table.seats[i].stack)
        else sys
    ensures e.player == NOBODY || !Seated(sys.table.seats, e.player) ==> Left(sys, e) == sys
  {
    var t, found := sys.table, FindPlayer(sys.table.seats, e.player, 0);
    if found.Some? && e.player == NOBODY {
      var j := found.value;
      assert t.seats[j := t.seats[j].(player := NOBODY, stack := 0)] == t.seats;
    }
  }

  // ----- settling a hand -----

  lemma {:induction false} CopiedSeat(seats: seq<Seat>, players: seq<Player>, n: nat, i: nat)
    requires SeatsValid(seats) && DistinctIds(players) && n <= |players| && i < |seats|
    requires forall k :: 0 <= k < |players| ==> players[k].id != NOBODY
    ensures |CopiedBack(seats, players, n)| == |seats|
    ensures CopiedBack(seats, players, n)[i] == seats[i].(stack := CopiedBack(seats, players, n)[i].stack)
    ensures forall k :: 0 <= k < n && players[k].id == seats[i].player ==>
      CopiedBack(seats, players, n)[i].stack == players[k].stack
    ensures (forall k :: 0 <= k < n ==> players[k].id != seats[i].player) ==>
      CopiedBack(seats, players, n)[i] == seats[i]
  {
    if n > 0 {
      var prev, p := CopiedBack(seats, players, n - 1), players[n - 1];
      CopiedSeat(seats, players, n - 1, i);
      var found := FindPlayer(prev, p.id, 0);
      if found.Some? {
        CopiedSeat(seats, players, n - 1, found.value);
      }
    }
  }

  /** Settling gives each seat of the hand its player's final stack, frees exactly the seats whose occupant
      has no chips then, and changes no other seat. */
  lemma SettledSeat(t: TableRow, players: seq<Player>, i: nat)
    requires SeatsValid(t.seats) && DistinctIds(players) && i < |t.seats|
    requires forall k :: 0 <= k < |players| ==> players[k].id != NOBODY
    ensures var before := t.seats[i];
      && |Settled(t, players).seats| == |t.seats|
      && var after := Settled(t, players).seats[i];
         && after.index == before.index
         && (forall k :: 0 <= k < |players| && players[k].id == before.player ==> after.stack == players[k].stack)
         && ((forall k :: 0 <= k < |players| ==> players[k].id != before.player) ==> after.stack == before.stack)
         && after.player == if after.stack == 0 then NOBODY else before.player
    ensures var done := Settled(t, players);
      done == t.(seats := done.seats, button := done.button, activeHand := "", phase := Idle)
  {
    CopiedSeat(t.seats, players, |players|, i);
  }

  lemma {:induction false} CopiedNumbers(seats: seq<Seat>, players: seq<Player>, n: nat)
    requires Numbered(seats) && n <= |players|
    ensures Numbered(CopiedBack(seats, players, n))
  {
    if n > 0 {
      CopiedNumbers(seats, players, n - 1);
    }
  }

  lemma {:induction false} NextPlayableFinds(seats: seq<Seat>, start: nat, offset: nat, m: nat) returns (k: nat)
    requires start < |seats| && offset <= m <= |seats| && Playable(seats[B.At(|seats|, start, m)])
    ensures offset <= k <= m && NextPlayable(seats, start, offset) == B.At(|seats|, start, k)
    ensures Playable(seats[B.At(|seats|, start, k)])
    ensures forall j :: offset <= j < k ==> !Playable(seats[B.At(|seats|, start, j)])
    decreases |seats| - offset
  {
    if Playable(seats[B.At(|seats|, start, offset)]) {
      k := offset;
    } else {
      k := NextPlayableFinds(seats, start, offset + 1, m);
    }
  }

  /** The button is k seats on from where it counts from, at the first seat where someone can play. */
  ghost predicate MovedOn(seats: seq<Seat>, button: nat, x: nat, k: nat, next: nat) {
    && CountsFrom(seats, button, x) && 1 <= k <= |seats| && next == B.At(|seats|, x, k)
    && PlayableAt(seats, next) && forall j :: 1 <= j < k ==> !Playable(seats[B.At(|seats|, x, j)])
  }

  lemma AdvancedIs(seats: seq<Seat>, button: nat) returns (x: nat, k: nat)
    requires Numbered(seats)
    ensures (forall i :: 0 <= i < |seats| ==> !Playable(seats[i])) ==> Advanced(seats, button) == 0
    ensures (exists i :: 0 <= i < |seats| && Playable(seats[i])) ==>
      MovedOn(seats, button, x, k, Advanced(seats, button))
  {
    PlayableExact(seats);
    x, k := 0, 0;
    if |PlayablePlayers(seats)| > 0 {
      NormalizedIs(seats, button);
      x := NormalizedButton(seats, button);
      assert B.At(|seats|, x, |seats|) == x;
      k := NextPlayableFinds(seats, x, 1, |seats|);
      assert Playable(PlayablePlayers(seats)[0]);
    }
  }

  /** After settling the button is at the next seat where someone can play, counted over the seats as they
      are once stacks are copied back and busted players gone; at seat 0 when nobody can. */
  lemma SettledButton(t: TableRow, players: seq<Player>) returns (x: nat, k: nat)
    requires SeatsValid(t.seats)
    ensures var done := Settled(t, players);
      && ((forall i :: 0 <= i < |done.seats| ==> !Playable(done.seats[i])) ==> done.button == 0)
      && ((exists i :: 0 <= i < |done.seats| && Playable(done.seats[i])) ==>
            MovedOn(done.seats, t.button, x, k, done.button))
  {
    CopiedNumbers(t.seats, players, |players|);
    x, k := AdvancedIs(Settled(t, players).seats, t.button);
  }

  // ----- acting -----

  /** A shown hand is settled: the books take the rake, and the next hand is on if two can play. */
  ghost predicate Settles(sys: System, done: TableRow, rake: int, handId: string, sys': System) {
    && sys'.raked == sys.raked + rake
    && sys'.bought == sys.bought && sys'.cashed == sys.cashed && sys'.intact == sys.intact
    && sys'.table == done.(phase := sys'.table.phase, activeHand := sys'.table.activeHand)
    && if |PlayablePlayers(done.seats)| >= 2
       then sys'.hand.Playing? && sys'.table.phase == InHand && sys'.table.activeHand == handId
       else sys'.hand == NoHand && sys'.table == done
  }

  lemma SettlesUnlessStuck(sys: System, e: Event, shown: State, rake: int)
    requires e.Act? && sys.hand.Playing? && OrdersFit(sys.hand.s, e) && AnswerTo(sys.hand.s, e) == Shown(shown, rake)
    requires sys.table.activeHand != "" && FindPlayer(sys.table.seats, e.player, 0).Some?
    requires sys.table.smallBlind > 0 && sys.table.bigBlind == 2 * sys.table.smallBlind
    ensures var done := Settled(sys.table, shown.players);
      if !e.saved || CannotOpen(done, e.deck) then Acted(sys, e) == sys.(hand := Over(shown, sys.hand.o))
      else Settles(sys, done, rake, e.handId, Acted(sys, e))
  {
    SaveFailsIff(sys.(hand := NoHand), Settled(sys.table, shown.players), e.handId, e.deck);
  }

  /** What an action on a hand in play does to the table. A spectator's or a refused one does nothing, one
      that does not end the hand moves only the hand. One that ends it leaves the table as settled; if the
      next hand cannot be opened or saving fails, only the hand is over. */
  lemma ActExact(sys: System, e: Event, sys': System)
    requires SysInv(sys) && e.Act? && Next(sys, e, sys') && sys.hand.Playing?
    ensures var r := B.Execute(sys.hand.s, Action(e.player, e.kind, e.amount));
      && (e.player != NOBODY && !Seated(sys.table.seats, e.player) ==> sys' == sys)
      && (r.Rejected? ==> sys' == sys)
      && (r.Continues? && Seated(sys.table.seats, e.player) ==> sys' == sys.(hand := Playing(r.next, sys.hand.o)))
      && (r.Ends? && Seated(sys.table.seats, e.player) ==>
            var shown := F.Finish(r.final, e.rake, e.orders);
            var done := Settled(sys.table, shown.players);
            if !e.saved || CannotOpen(done, e.deck) then sys' == sys.(hand := Over(shown, sys.hand.o))
            else Settles(sys, done, F.RakeOf(r.final, e.rake), e.handId, sys'))
  {
    var r := B.Execute(sys.hand.s, Action(e.player, e.kind, e.amount));
    PlayingAnswers(sys.hand.s, sys.hand.o, e);
    if r.Ends? && Seated(sys.table.seats, e.player) {
      SettlesUnlessStuck(sys, e, F.Finish(r.final, e.rake, e.orders), F.RakeOf(r.final, e.rake));
    }
  }
}
