/** StartHand: validation, hole cards, blinds, the first player to act. */
module StartHand {
  import opened Domain
  import opened SidePots
  import opened Betting
  import opened HandInvariant

  datatype StartInput = StartInput(players: seq<Player>, button: int, config: BettingConfig)

  datatype Started = Started(s: State) | StartError(error: Error)

  function ValidateInput(input: StartInput): Option<Error> {
    var c := input.config;
    if |input.players| < 2 then Some(NotEnoughPlayers)
    else if c.structure != FixedLimit then Some(InvalidInput)
    else if c.smallBlind <= 0 || c.bigBlind <= 0 then Some(InvalidInput)
    else if c.smallBet <= 0 || c.bigBet <= 0 then Some(InvalidInput)
    else if c.bigBlind != c.smallBlind * 2 then Some(InvalidInput)
    else if c.smallBet < c.bigBlind then Some(InvalidInput)
    else if c.bigBet < c.smallBet then Some(InvalidInput)
    else if c.maxRaises <= 0 then Some(InvalidInput)
    else if input.button < 0 || input.button >= |input.players| then Some(InvalidInput)
    else None
  }

  function SmallBlindSeat(button: nat, n: nat): nat
    requires button < n && n >= 2
  {
    if n == 2 then button else At(n, button, 1)
  }

  function BigBlindSeat(button: nat, n: nat): nat
    requires button < n && n >= 2
  {
    if n == 2 then At(n, button, 1) else At(n, button, 2)
  }

  function Seated(p: Player, a: Card, b: Card): Player {
    p.(hole := (a, b), status := Active, bet := 0)
  }

  /** Two cards each from the top of the deck, in seat order. */
  function DealtHoles(ps: seq<Player>, deck: seq<Card>): seq<Player>
    requires |deck| >= 2 * |ps|
  {
    seq(|ps|, i requires 0 <= i < |ps| => Seated(ps[i], deck[2 * i], deck[2 * i + 1]))
  }

  function ShortDeck(deck: seq<Card>): Error {
    if |deck| % 2 == 0 then EmptyDeck else NotEnoughCards
  }

  /** The deal fails exactly when the deck does not cover two cards a seat. */
  method DealHoleCards(ps: seq<Player>, deck: seq<Card>)
    returns (error: Option<Error>, players: seq<Player>, left: seq<Card>)
    ensures error == if |deck| >= 2 * |ps| then None else Some(ShortDeck(deck))
    ensures error == None ==> players == DealtHoles(ps, deck) && left == deck[2 * |ps|..]
  {
    players, left := ps, deck;
    for i := 0 to |ps|
      invariant |deck| >= 2 * i && left == deck[2 * i..] && |players| == |ps|
      invariant forall k :: 0 <= k < i ==> players[k] == Seated(ps[k], deck[2 * k], deck[2 * k + 1])
      invariant forall k :: i <= k < |ps| ==> players[k] == ps[k]
    {
      match Deal(left, 2) {
        case DealError(e) =>
          assert |deck| == 2 * i + |left|;
          return Some(e), players, left;
        case Dealt(cards, rest) =>
          players := players[i := Seated(players[i], cards[0], cards[1])];
          left := rest;
      }
    }
    return None, players, left;
  }

  function Post(p: Player, blind: int): Player {
    p.(stack := p.stack - blind, bet := blind)
  }

  function Posted(ps: seq<Player>, sb: nat, bb: nat, c: BettingConfig): seq<Player>
    requires sb < |ps| && bb < |ps|
  {
    var after := ps[sb := Post(ps[sb], c.smallBlind)];
    after[bb := Post(after[bb], c.bigBlind)]
  }

  function Start(input: StartInput, deck: seq<Card>): Started {
    match ValidateInput(input)
    case Some(e) => StartError(e)
    case None =>
      var ps, n, c := input.players, |input.players|, input.config;
      if |deck| < 2 * n then StartError(ShortDeck(deck))
      else
        var sb, bb := SmallBlindSeat(input.button, n), BigBlindSeat(input.button, n);
        if ps[sb].stack < c.smallBlind || ps[bb].stack < c.bigBlind then StartError(InsufficientStack)
        else
          var players := Posted(DealtHoles(ps, deck), sb, bb, c);
          Started(State(players, [], [], Preflop, c.bigBlind, Scan(players, bb, 1, CanAct), input.button, 1, c, 0,
                        deck[2 * n..]))
  }

  function OriginOf(input: StartInput, deck: seq<Card>): Origin {
    var ps := input.players;
    Origin(seq(|ps|, i requires 0 <= i < |ps| => ps[i].id), seq(|ps|, i requires 0 <= i < |ps| => ps[i].stack), deck,
           input.config)
  }

  /** Chips seat i has left once the blinds are posted. */
  function LeftAfterBlinds(input: StartInput, i: nat): int
    requires 0 <= input.button < |input.players| && |input.players| >= 2 && i < |input.players|
  {
    var n := |input.players|;
    input.players[i].stack
      - (if i == SmallBlindSeat(input.button, n) then input.config.smallBlind else 0)
      - (if i == BigBlindSeat(input.button, n) then input.config.bigBlind else 0)
  }

  /** Three or more players, and only the big blind has chips left to act with. */
  ghost predicate OnlyBigBlindActs(input: StartInput)
    requires 0 <= input.button < |input.players| && |input.players| >= 2
  {
    var bb := BigBlindSeat(input.button, |input.players|);
    && |input.players| >= 3
    && LeftAfterBlinds(input, bb) > 0
    && forall i :: 0 <= i < |input.players| && i != bb ==> LeftAfterBlinds(input, i) <= 0
  }

  // ----- the started hand satisfies the invariant -----

  lemma BlindSeatsDiffer(button: nat, n: nat)
    requires button < n && n >= 2
    ensures SmallBlindSeat(button, n) != BigBlindSeat(button, n)
  {}

  lemma StartedPlayers(input: StartInput, deck: seq<Card>, i: nat)
    requires Start(input, deck).Started? && i < |input.players|
    ensures |Start(input, deck).s.players| == |input.players|
    ensures var p, n := Start(input, deck).s.players[i], |input.players|;
      && p.id == input.players[i].id && p.status == Active && p.hole == (deck[2 * i], deck[2 * i + 1])
      && p.stack == LeftAfterBlinds(input, i)
      && p.bet == (if i == SmallBlindSeat(input.button, n) then input.config.smallBlind
                   else if i == BigBlindSeat(input.button, n) then input.config.bigBlind else 0)
  {
    BlindSeatsDiffer(input.button, |input.players|);
  }

  /** Where the blinds sit: heads-up the button posts the small blind and the other player the big one;
      with more players the next seat posts the small blind and the one after it the big one. */
  lemma BlindsPosted(input: StartInput, deck: seq<Card>, i: nat)
    requires Start(input, deck).Started? && i < |input.players|
    ensures |Start(input, deck).s.players| == |input.players|
    ensures var n, b, c := |input.players|, input.button, input.config;
      var p := Start(input, deck).s.players[i];
      && n >= 2 && p.stack + p.bet == input.players[i].stack
      && (n == 2 ==> p.bet == if i == b then c.smallBlind else c.bigBlind)
      && (n > 2 ==>
            p.bet == if i == (b + 1) % n then c.smallBlind else if i == (b + 2) % n then c.bigBlind else 0)
  {
    StartedPlayers(input, deck, i);
    BlindSeatsDiffer(input.button, |input.players|);
  }

  /** The first to act is the next seat after the big blind that can act; the big blind itself if none can. */
  lemma FirstToAct(input: StartInput, deck: seq<Card>)
    requires Start(input, deck).Started?
    ensures var s, n := Start(input, deck).s, |input.players|;
      && |s.players| == n >= 2 && s.active < n
      && var big := At(n, input.button, if n == 2 then 1 else 2);
         && ((exists i :: 0 <= i < n && CanAct(s.players[i])) ==>
               && CanAct(s.players[s.active])
               && exists k :: 1 <= k <= n && s.active == At(n, big, k)
                              && forall j :: 1 <= j < k ==> !CanAct(s.players[At(n, big, j)]))
         && ((forall i :: 0 <= i < n ==> !CanAct(s.players[i])) ==> s.active == big)
  {
    var s, n := Start(input, deck).s, |input.players|;
    var bb := BigBlindSeat(input.button, n);
    if i :| 0 <= i < n && CanAct(s.players[i]) {
      var m := if i > bb then i - bb else i + n - bb;
      assert At(n, bb, m) == i;
      var k := ScanFinds(s.players, bb, 1, CanAct, m);
    } else {
      ScanNone(s.players, bb, 1, CanAct);
    }
  }

  /** Exactly the starts that are accepted: enough players and cards, a fixed-limit structure whose sizes
      fit together, a button at the table, and both blinds payable in full where they sit. */
  lemma StartAcceptedIff(input: StartInput, deck: seq<Card>)
    ensures Start(input, deck).Started? <==>
      && |input.players| >= 2 && |deck| >= 2 * |input.players| && 0 <= input.button < |input.players|
      && input.config.structure == FixedLimit && input.config.maxRaises >= 1
      && 0 < 2 * input.config.smallBlind == input.config.bigBlind <= input.config.smallBet <= input.config.bigBet
      && var n, b := |input.players|, input.button;
         && input.players[if n == 2 then b else (b + 1) % n].stack >= input.config.smallBlind
         && input.players[if n == 2 then (b + 1) % n else (b + 2) % n].stack >= input.config.bigBlind
  {
    var n, b := |input.players|, input.button;
    if n >= 2 && 0 <= b < n {
      assert At(n, b, 1) == (b + 1) % n && At(n, b, 2) == (b + 2) % n;
    }
  }

  lemma {:induction false} HolesOfDeal(ps: seq<Player>, deck: seq<Card>)
    requires |deck| >= 2 * |ps|
    requires forall i :: 0 <= i < |ps| ==> ps[i].hole == (deck[2 * i], deck[2 * i + 1])
    ensures Holes(ps) == deck[..2 * |ps|]
  {
    if |ps| > 0 {
      var last := |ps| - 1;
      HolesOfDeal(ps[..last], deck);
      assert deck[..2 * |ps|] == deck[..2 * last] + [deck[2 * last], deck[2 * last + 1]];
    }
  }

  lemma {:induction false} StacksSum(ps: seq<Player>, xs: seq<int>)
    requires |ps| == |xs| && forall i :: 0 <= i < |ps| ==> ps[i].stack + ps[i].bet == xs[i]
    ensures SumBy(ps, StackOf) + SumBy(ps, BetOf) == SumInts(xs)
  {
    if |ps| > 0 {
      StacksSum(ps[..|ps| - 1], xs[..|xs| - 1]);
    }
  }

  lemma StartKeepsShape(input: StartInput, deck: seq<Card>)
    requires Start(input, deck).Started? && DistinctIds(input.players)
    ensures var s, o := Start(input, deck).s, OriginOf(input, deck);
      Shape(s, o) && BetLevels(s) && Eligibility(s) && s.street == Preflop
  {
    var s, o := Start(input, deck).s, OriginOf(input, deck);
    forall i | 0 <= i < |input.players|
      ensures s.players[i].id == input.players[i].id && 0 <= s.players[i].bet <= s.currentBet
    {
      StartedPlayers(input, deck, i);
    }
  }

  lemma StartKeepsMoney(input: StartInput, deck: seq<Card>)
    requires Start(input, deck).Started?
    ensures var s, o := Start(input, deck).s, OriginOf(input, deck);
      |s.players| == |o.stacks| && Conserved(s, o) && Commitment(s, o) && CardPartition(s, o)
  {
    var s, o := Start(input, deck).s, OriginOf(input, deck);
    forall i | 0 <= i < |input.players|
      ensures s.players[i].stack + s.players[i].bet == o.stacks[i] && (o.stacks[i] >= 0 ==> s.players[i].stack >= 0)
      ensures s.players[i].hole == (deck[2 * i], deck[2 * i + 1])
    {
      BlindSeatsDiffer(input.button, |input.players|);
      StartedPlayers(input, deck, i);
    }
    StacksSum(s.players, o.stacks);
    HolesOfDeal(s.players, deck);
    assert deck[..2 * |s.players|] + [] + deck[2 * |s.players|..] == deck;
  }

  /** The big blind made the last bet: everyone else is below it. */
  lemma StartSettled(input: StartInput, deck: seq<Card>)
    requires Start(input, deck).Started?
    ensures var s, n := Start(input, deck).s, |input.players|;
      Settled(s.players, BigBlindSeat(input.button, n), s.currentBet, n)
  {
    var s, n := Start(input, deck).s, |input.players|;
    var bb := BigBlindSeat(input.button, n);
    OtherSeats(n, bb);
    StartedPlayers(input, deck, bb);
    BlindSeatsDiffer(input.button, n);
    forall j | 1 <= j < n ensures s.players[At(n, bb, j)].bet < s.currentBet {
      StartedPlayers(input, deck, At(n, bb, j));
    }
  }

  lemma {:induction false} ScanNone(ps: seq<Player>, from: nat, i: nat, want: Player -> bool)
    requires from < |ps| && 1 <= i <= |ps| + 1
    requires forall k :: 0 <= k < |ps| && k != from ==> !want(ps[k])
    ensures Scan(ps, from, i, want) == from
    decreases |ps| + 1 - i
  {
    if i <= |ps| {
      ScanNone(ps, from, i + 1, want);
    }
  }

  lemma StartTurn(input: StartInput, deck: seq<Card>)
    requires Start(input, deck).Started? && !OnlyBigBlindActs(input)
    ensures TurnInv(Start(input, deck).s)
  {
    var s, n := Start(input, deck).s, |input.players|;
    var ps, bb := s.players, BigBlindSeat(input.button, n);
    StartSettled(input, deck);
    forall i | 0 <= i < n ensures ps[i].status == Active && ps[i].stack == LeftAfterBlinds(input, i) {
      StartedPlayers(input, deck, i);
    }
    StartedPlayers(input, deck, bb);
    if j :| 0 <= j < n && j != bb && CanAct(ps[j]) {
      StartedPlayers(input, deck, j);
      TurnPasses(ps, bb, s.currentBet, n);
      var e: nat :| e > 0 && TurnOrder(ps, s.active, s.currentBet, e);
    } else {
      ScanNone(ps, bb, 1, CanAct);
      OtherSeats(n, bb);
      if CountCanAct(ps) >= 2 {
        var j := AnotherCounts(ps, ActingOf, bb);
        assert false;
      }
      assert TurnOrder(ps, s.active, s.currentBet, 0);
      assert Lame(s);
    }
  }

  /** Every accepted start, other than one where only the big blind of three or more players has
      chips left, satisfies the hand invariant. */
  lemma StartEstablishesInv(input: StartInput, deck: seq<Card>)
    requires Start(input, deck).Started? && DistinctIds(input.players) && !OnlyBigBlindActs(input)
    ensures Inv(Start(input, deck).s, OriginOf(input, deck))
  {
    StartKeepsShape(input, deck);
    StartKeepsMoney(input, deck);
    StartTurn(input, deck);
  }

  /** With a chip behind every blind-free seat the exception cannot arise. */
  lemma PositiveStacksSuffice(input: StartInput)
    requires 0 <= input.button < |input.players| && |input.players| >= 2
    requires forall i :: 0 <= i < |input.players| ==> input.players[i].stack > 0
    ensures !OnlyBigBlindActs(input)
  {
    var n := |input.players|;
    if n >= 3 {
      var other := At(n, input.button, 0);
      assert LeftAfterBlinds(input, other) > 0;
    }
  }
}
