/** The hand as the engine keeps it: an object whose methods update it in place, each proved
    against the step functions of Betting, StartHand and FinishHand. */
module Engine {
  import opened Domain
  import opened SidePots
  import B = Betting
  import opened Evaluator
  import opened Payout
  import F = FinishHand
  import St = StartHand
  import Sh = Shuffle
  import opened HandInvariant
  import HS = HandSteps

  datatype Reply = Refused(error: Error) | Stored | Finished(rake: int, winners: Winnings)

  /** Draws an order for a pot's eligible players, as a map iteration does. */
  method ListEligible(ids: set<PlayerID>) returns (names: seq<PlayerID>)
    ensures Listing(names, ids)
  {
    names := [];
    var todo := ids;
    while todo != {}
      invariant todo <= ids
      invariant forall i, j :: 0 <= i < j < |names| ==> names[i] != names[j]
      invariant forall id :: id in names <==> id in ids && id !in todo
      decreases |todo|
    {
      var id :| id in todo;
      names := names + [id];
      todo := todo - {id};
    }
  }

  method EvaluateLive(players: seq<Player>, board: seq<Card>) returns (hands: map<PlayerID, HandResult>)
    ensures hands == HandsOf(players, board)
  {
    hands := map[];
    for i := 0 to |players|
      invariant hands == HandsOf(players[..i], board)
    {
      assert players[..i + 1][..i] == players[..i];
      if Live(players[i]) {
        var best := Best(players[i].hole, board);
        hands := hands[players[i].id := best];
      }
    }
    assert players[..|players|] == players;
  }

  method CalculateRake(pots: seq<Pot>, street: Street, config: RakeConfig) returns (rake: int)
    ensures rake == Rake(pots, street, config)
  {
    if config.noFlopNoDrop && street == Preflop {
      return 0;
    }
    var total := TotalOf(pots);
    if total == 0 {
      return 0;
    }
    rake := (total as real * config.percent).Floor;
    if rake > config.cap {
      rake := config.cap;
    }
  }

  class GameState {
    var players: seq<Player>
    var board: seq<Card>
    var pots: seq<Pot>
    var street: Street
    var currentBet: int
    var activePlayer: nat
    var button: nat
    var eventSequence: int
    var config: BettingConfig
    var raisesThisStreet: int
    var deck: seq<Card>

    function Snapshot(): State
      reads this
    {
      State(players, board, pots, street, currentBet, activePlayer, button, eventSequence, config, raisesThisStreet,
            deck)
    }

    constructor (s: State)
      ensures Snapshot() == s
    {
      players, board, pots, street, currentBet := s.players, s.board, s.pots, s.street, s.currentBet;
      activePlayer, button, eventSequence := s.active, s.button, s.eventSequence;
      config, raisesThisStreet, deck := s.config, s.raises, s.deck;
    }

    /** A new hand from a deck shuffled with the given draws. */
    static method StartHand(input: St.StartInput, draws: seq<nat>) returns (r: GameState?, error: Option<Error>)
      requires Sh.Draws(draws, 52)
      ensures match St.Start(input, Sh.Shuffled(Sh.NewDeck(), draws))
        case Started(s) => r != null && fresh(r) && r.Snapshot() == s
        case StartError(e) => r == null && error == Some(e)
    {
      error := St.ValidateInput(input);
      if error.Some? {
        return null, error;
      }
      var cards := Sh.BuildDeck();
      cards := Sh.ShuffleCards(cards, draws);
      ghost var deck := cards;
      var short, ps, left := St.DealHoleCards(input.players, cards);
      if short.Some? {
        return null, short;
      }
      var n := |ps|;
      var sb, bb := St.SmallBlindSeat(input.button, n), St.BigBlindSeat(input.button, n);
      St.BlindSeatsDiffer(input.button, n);
      if ps[sb].stack < input.config.smallBlind {
        return null, Some(InsufficientStack);
      }
      ps := ps[sb := St.Post(ps[sb], input.config.smallBlind)];
      if ps[bb].stack < input.config.bigBlind {
        return null, Some(InsufficientStack);
      }
      ps := ps[bb := St.Post(ps[bb], input.config.bigBlind)];
      var first := B.FirstAfter(ps, bb, CanAct);
      var c := input.config;
      r := new GameState(State(ps, [], [], Preflop, c.bigBlind, first, input.button, 1, c, 0, left));
      assert ps == St.Posted(St.DealtHoles(input.players, deck), sb, bb, input.config);
    }

    method ApplyAction(action: Action)
      requires activePlayer < |players|
      modifies this`players, this`currentBet, this`raisesThisStreet
      ensures Snapshot() == B.Apply(old(Snapshot()), action)
    {
      var p := players[activePlayer];
      match action.kind {
        case Fold =>
          p := p.(status := Folded);
        case Check | PushAllIn | Unknown =>
          return;
        case Call =>
          var amount := currentBet - p.bet;
          if amount >= p.stack {
            amount := p.stack;
            p := p.(status := AllIn);
          }
          p := p.(stack := p.stack - amount, bet := p.bet + amount);
        case Raise =>
          var amount := action.amount - p.bet;
          p := p.(stack := p.stack - amount, bet := action.amount);
          currentBet := action.amount;
          raisesThisStreet := raisesThisStreet + 1;
          if p.stack == 0 {
            p := p.(status := AllIn);
          }
      }
      players := players[activePlayer := p];
    }

    /** Takes every street bet off the table. */
    method GatherBets() returns (contributions: Contributions)
      modifies this`players
      ensures contributions == B.StreetBets(old(players)) && players == B.Uncovered(old(players))
    {
      contributions := map[];
      ghost var before, after := players, B.Uncovered(players);
      for i := 0 to |players|
        invariant |players| == |before| && before == old(players)
        invariant contributions == B.StreetBets(before[..i])
        invariant forall k :: 0 <= k < |before| ==> players[k] == if k < i then after[k] else before[k]
      {
        assert before[..i + 1][..i] == before[..i];
        var p := players[i];
        if p.bet > 0 {
          contributions := contributions[p.id := p.bet];
          players := players[i := p.(bet := 0)];
        }
      }
      assert before[..|before|] == before;
    }

    method CollectBets()
      modifies this`players, this`pots
      ensures Snapshot() == B.Collect(old(Snapshot()))
    {
      B.BetsPositive(players);
      var contributions := GatherBets();
      AllPaidIn(contributions);
      var newPots := Calculate(contributions);
      pots := B.MergePots(pots, newPots);
    }

    method DealToBoard(n: nat) returns (ok: bool)
      modifies this`board, this`deck
      ensures match B.Deal(old(deck), n)
        case Dealt(cards, left) => ok && board == old(board) + cards && deck == left
        case DealError(_) => !ok && board == old(board) && deck == old(deck)
    {
      match B.Deal(deck, n) {
        case Dealt(cards, left) =>
          board, deck := board + cards, left;
          ok := true;
        case DealError(_) =>
          ok := false;
      }
    }

    /** The next street; a failed deal is reported and the object must not be stored. */
    method AdvanceStreet() returns (ok: bool)
      requires button < |players|
      modifies this
      ensures ok <==> B.Advance(old(Snapshot())).Advanced?
      ensures ok ==> Snapshot() == B.Advance(old(Snapshot())).s
    {
      CollectBets();
      currentBet := 0;
      raisesThisStreet := 0;
      activePlayer := B.FirstAfter(players, button, Live);
      match street {
        case Preflop | Flop | Turn =>
          ok := DealToBoard(B.StreetCards(street));
          if ok {
            street := B.NextStreet(street);
          }
        case River | Showdown =>
          street := Showdown;
          ok := true;
      }
    }

    method DetermineWinners() returns (winners: Winnings, ghost orders: seq<seq<PlayerID>>)
      requires NoDebt(pots)
      modifies this`players
      ensures F.Orders(pots, orders)
      ensures winners == F.Winners(old(Snapshot()), orders)
      ensures players == Awarded(old(players), winners)
    {
      var live := F.ActivePlayers(players);
      if |live| == 1 {
        var total := TotalOf(pots);
        winners := map[live[0].id := total];
        orders := F.AnyOrders(pots);
      } else {
        var winnersByPot: seq<seq<PlayerID>>;
        winnersByPot, orders := ShowdownWinners();
        winners := WinnersToMap(pots, winnersByPot);
      }
      players := Award(players, winners);
    }

    method ShowdownWinners() returns (winnersByPot: seq<seq<PlayerID>>, ghost orders: seq<seq<PlayerID>>)
      ensures F.Orders(pots, orders) && winnersByPot == F.AllWinners(Snapshot(), orders)
    {
      var hands := EvaluateLive(players, board);
      winnersByPot := [];
      orders := [];
      for k := 0 to |pots|
        invariant |winnersByPot| == |orders| == k
        invariant forall j :: 0 <= j < k ==> Listing(orders[j], pots[j].eligible)
        invariant forall j :: 0 <= j < k ==> winnersByPot[j] == PotWinners(orders[j], hands)
      {
        var names := ListEligible(pots[k].eligible);
        var best := BestHandsInPot(names, hands);
        winnersByPot := winnersByPot + [best];
        orders := orders + [names];
      }
    }

    method FinishHand(rakeConfig: RakeConfig)
      returns (rake: int, winners: Winnings, ghost orders: seq<seq<PlayerID>>)
      requires NoDebt(pots) && ValidRake(rakeConfig)
      modifies this
      ensures PaysOut(old(Snapshot()), rakeConfig, rake, winners, orders)
      ensures Snapshot() == F.Finish(old(Snapshot()), rakeConfig, orders)
    {
      F.NettedHasNoDebt(Snapshot(), rakeConfig);
      CollectBets();
      rake := CalculateRake(pots, street, rakeConfig);
      pots := ApplyRake(pots, rake);
      eventSequence := eventSequence + 1;
      assert Snapshot() == F.Netted(old(Snapshot()), rakeConfig);
      winners, orders := DetermineWinners();
      street := Showdown;
    }

    /** One request, on a hand in play or, since nothing stops it, on a finished one. A refusal stores
        nothing, whatever the object then holds. */
    method Execute(action: Action, rakeConfig: RakeConfig)
      returns (reply: Reply, ghost orders: seq<seq<PlayerID>>)
      requires activePlayer < |players| && button < |players| && NoDebt(pots) && ValidRake(rakeConfig)
      modifies this
      ensures Answers(old(Snapshot()), action, rakeConfig, reply, orders, Snapshot())
    {
      orders := [];
      ghost var s := Snapshot();
      var invalid := B.Validate(Snapshot(), action);
      if invalid.Some? {
        return Refused(invalid.value), orders;
      }
      ApplyAction(action);
      eventSequence := eventSequence + 1;
      reply, orders := Proceed(rakeConfig, s, action);
    }

    /** What follows an applied action: the finish, the next street or the next player. */
    method Proceed(rakeConfig: RakeConfig, ghost s: State, ghost action: Action)
      returns (reply: Reply, ghost orders: seq<seq<PlayerID>>)
      requires s.button < |s.players| && Accepted(s, action) && NoDebt(pots) && ValidRake(rakeConfig)
      requires Snapshot() == HS.Acted(s, action)
      modifies this
      ensures Answers(s, action, rakeConfig, reply, orders, Snapshot())
    {
      orders := [];
      var rake, winners;
      var canAct := B.CountPlayersWhoCanAct(players);
      if canAct <= 1 {
        rake, winners, orders := FinishHand(rakeConfig);
        return Finished(rake, winners), orders;
      }
      var over := B.IsBettingRoundOver(players, currentBet);
      if over {
        F.NettedHasNoDebt(Snapshot(), rakeConfig);
        var ok := AdvanceStreet();
        if !ok {
          return Refused(NotEnoughCards), orders;
        }
        if street == Showdown {
          rake, winners, orders := FinishHand(rakeConfig);
          return Finished(rake, winners), orders;
        }
      } else {
        activePlayer := B.FirstAfter(players, activePlayer, CanAct);
      }
      return Stored, orders;
    }
  }

  /** The rake and the winnings are those of finishing `t` in some order. */
  ghost predicate PaysOut(t: State, c: RakeConfig, rake: int, winners: Winnings, orders: seq<seq<PlayerID>>) {
    && rake == F.RakeOf(t, c)
    && F.Orders(F.Netted(t, c).pots, orders)
    && winners == F.Winners(F.Netted(t, c), orders)
  }

  ghost predicate Answers(s: State, a: Action, c: RakeConfig, reply: Reply, orders: seq<seq<PlayerID>>, after: State) {
    && s.active < |s.players| && s.button < |s.players|
    && match B.Execute(s, a)
       case Rejected(_) => reply.Refused?
       case Continues(next) => reply == Stored && after == next
       case Ends(t) =>
         reply.Finished? && PaysOut(t, c, reply.rake, reply.winners, orders) && after == F.Finish(t, c, orders)
  }

  /** On a reachable hand, what is stored is reachable again and what is finished has paid out every
      chip but the rake. */
  lemma AnswersKeepHand(s: State, a: Action, c: RakeConfig, reply: Reply, orders: seq<seq<PlayerID>>, after: State,
                        o: Origin)
    requires Inv(s, o) && ValidRake(c) && Answers(s, a, c, reply, orders, after)
    ensures reply.Stored? ==> Inv(after, o)
    ensures reply.Finished? ==> SumBy(after.players, StackOf) + reply.rake == SumInts(o.stacks)
  {
    if reply.Stored? {
      HS.StepKeepsInv(s, a, o);
    } else if reply.Finished? {
      HS.EndHasHeir(s, a, o);
      F.FinishConserves(B.Execute(s, a).final, o, c, orders);
    }
  }
}
