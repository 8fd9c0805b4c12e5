/** Values shared by the engine modules: cards, players, pots and the state of one hand. */
module Domain {
  type PlayerID = string

  datatype Option<+T> = None | Some(value: T)

  datatype Suit = Spades | Hearts | Diamonds | Clubs

  /** Ranks are 2..14; rank 0 occurs only in the zero card of an empty evaluation. */
  datatype Card = Card(rank: nat, suit: Suit)

  const TWO := 2
  const TEN := 10
  const ACE := 14

  datatype Status = Active | Folded | AllIn | SittingOut

  datatype Player = Player(id: PlayerID, stack: int, hole: (Card, Card), status: Status, bet: int, position: int)

  datatype Street = Preflop | Flop | Turn | River | Showdown

  datatype Structure = FixedLimit | OtherStructure

  datatype BettingConfig = BettingConfig(
    structure: Structure, smallBlind: int, bigBlind: int, smallBet: int, bigBet: int, maxRaises: int)

  /** The source keeps eligible players in a slice whose order comes from map iteration; the
      order is chosen where it matters, when a pot is paid out. */
  datatype Pot = Pot(amount: int, eligible: set<PlayerID>)

  datatype State = State(
    players: seq<Player>, board: seq<Card>, pots: seq<Pot>, street: Street, currentBet: int,
    active: nat, button: nat, eventSequence: int, config: BettingConfig, raises: int, deck: seq<Card>)

  datatype ActionType = Fold | Check | Call | Raise | PushAllIn | Unknown

  datatype Action = Action(playerID: PlayerID, kind: ActionType, amount: int)

  datatype Error =
    | NotPlayerTurn | PlayerNotActive | InvalidAction | RaiseCapReached | InvalidRaiseAmount
    | InsufficientStack | EmptyDeck | NotEnoughCards | NotEnoughPlayers | InvalidInput

  predicate CanAct(p: Player) {
    p.status == Active && p.stack > 0
  }

  /** Still competing for the pots: active or all-in. */
  predicate Live(p: Player) {
    p.status == Active || p.status == AllIn
  }

  ghost predicate DistinctIds(ps: seq<Player>) {
    forall i, j :: 0 <= i < j < |ps| ==> ps[i].id != ps[j].id
  }

  function IdSet(ps: seq<Player>): set<PlayerID> {
    set i | 0 <= i < |ps| :: ps[i].id
  }

  function StackOf(p: Player): int { p.stack }

  function BetOf(p: Player): int { p.bet }

  function ActingOf(p: Player): int { if CanAct(p) then 1 else 0 }

  function LiveOf(p: Player): int { if Live(p) then 1 else 0 }

  /** 1 for a player who can act and has not matched `level`. */
  function BehindOf(level: int): Player -> int {
    p => if CanAct(p) && p.bet < level then 1 else 0
  }

  function SumBy(ps: seq<Player>, f: Player -> int): int {
    if |ps| == 0 then 0 else SumBy(ps[..|ps| - 1], f) + f(ps[|ps| - 1])
  }

  /** len(PlayersWhoCanAct()) */
  function CountCanAct(ps: seq<Player>): int { SumBy(ps, ActingOf) }

  function Total(pots: seq<Pot>): int {
    if |pots| == 0 then 0 else Total(pots[..|pots| - 1]) + pots[|pots| - 1].amount
  }

  /** All chips of an unfinished hand: stacks, street bets and collected pots. */
  function Chips(s: State): int {
    SumBy(s.players, StackOf) + SumBy(s.players, BetOf) + Total(s.pots)
  }

  lemma {:induction false} SumUpdate(ps: seq<Player>, i: nat, q: Player, f: Player -> int)
    requires i < |ps|
    ensures SumBy(ps[i := q], f) == SumBy(ps, f) - f(ps[i]) + f(q)
  {
    var last := |ps| - 1;
    if i < last {
      SumUpdate(ps[..last], i, q, f);
      assert ps[i := q][..last] == ps[..last][i := q];
    } else {
      assert ps[i := q][..last] == ps[..last];
    }
  }

  lemma SumOfTwo(ps: seq<Player>, f: Player -> int)
    requires |ps| == 2
    ensures SumBy(ps, f) == f(ps[0]) + f(ps[1])
  {
    assert SumBy(ps, f) == SumBy(ps[..1], f) + f(ps[1]);
    assert SumBy(ps[..1], f) == SumBy(ps[..1][..0], f) + f(ps[..1][0]);
  }

  lemma {:induction false} SumPointwise(ps: seq<Player>, qs: seq<Player>, f: Player -> int, g: Player -> int)
    requires |ps| == |qs|
    requires forall i :: 0 <= i < |ps| ==> f(ps[i]) == g(qs[i])
    ensures SumBy(ps, f) == SumBy(qs, g)
  {
    if |ps| > 0 {
      var last := |ps| - 1;
      forall i | 0 <= i < last ensures f(ps[..last][i]) == g(qs[..last][i]) {
        assert f(ps[i]) == g(qs[i]);
      }
      SumPointwise(ps[..last], qs[..last], f, g);
    }
  }

  lemma {:induction false} SumAtMost(ps: seq<Player>, f: Player -> int)
    requires forall p :: 0 <= f(p) <= 1
    ensures 0 <= SumBy(ps, f) <= |ps|
  {
    if |ps| > 0 {
      SumAtMost(ps[..|ps| - 1], f);
    }
  }

  /** With a 0/1 sum of at least two, some index other than `i` contributes. */
  lemma {:induction false} AnotherCounts(ps: seq<Player>, f: Player -> int, i: nat) returns (j: nat)
    requires forall p :: 0 <= f(p) <= 1
    requires SumBy(ps, f) >= 2
    ensures j < |ps| && j != i && f(ps[j]) == 1
  {
    var last := |ps| - 1;
    if last != i && f(ps[last]) == 1 {
      j := last;
    } else if last == i {
      j := SomeCounts(ps[..last], f);
    } else {
      j := AnotherCounts(ps[..last], f, i);
    }
  }

  lemma {:induction false} SomeCounts(ps: seq<Player>, f: Player -> int) returns (j: nat)
    requires forall p :: 0 <= f(p) <= 1
    requires SumBy(ps, f) >= 1
    ensures j < |ps| && f(ps[j]) == 1
  {
    var last := |ps| - 1;
    if f(ps[last]) == 1 {
      j := last;
    } else {
      j := SomeCounts(ps[..last], f);
    }
  }

  lemma SameIds(ps: seq<Player>, qs: seq<Player>)
    requires |ps| == |qs| && forall i :: 0 <= i < |ps| ==> ps[i].id == qs[i].id
    ensures IdSet(ps) == IdSet(qs)
  {
    forall id ensures id in IdSet(ps) <==> id in IdSet(qs) {
      if i :| 0 <= i < |ps| && ps[i].id == id { assert qs[i].id in IdSet(qs); }
      if i :| 0 <= i < |qs| && qs[i].id == id { assert ps[i].id in IdSet(ps); }
    }
  }

  lemma {:induction false} TotalConcat(a: seq<Pot>, b: seq<Pot>)
    ensures Total(a + b) == Total(a) + Total(b)
  {
    if |b| == 0 {
      assert a + b == a;
    } else {
      assert (a + b)[..|a + b| - 1] == a + b[..|b| - 1];
      TotalConcat(a, b[..|b| - 1]);
    }
  }
}
