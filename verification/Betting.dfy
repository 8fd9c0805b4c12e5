/** One betting step of a hand: validation, the effect of an action, whose turn is next, the end of
    a street. The functions are the specification of the methods of `Engine.GameState`. */
module Betting {
  import opened Domain
  import opened SidePots
  import opened MapSum

  // ----- the cyclic table -----

  /** The seat `j` places after seat `c` of `n`. */
  function At(n: nat, c: nat, j: nat): (i: nat)
    requires c < n && j <= n
    ensures i < n && i == (c + j) % n
  {
    CyclicIndex(n, c + j);
    if c + j < n then c + j else c + j - n
  }

  lemma CyclicIndex(n: nat, x: nat)
    requires 0 < n && x < 2 * n
    ensures x % n == if x < n then x else x - n
  {
    var q := x / n;
    assert x == q * n + x % n;
    assert q >= 2 ==> q * n >= 2 * n;
    assert q == 0 ==> q * n == 0;
    assert q == 0 || q == 1;
  }

  /** The first wanted seat among those i, i+1, .., n places after `from`, or `from`. */
  function Scan(ps: seq<Player>, from: nat, i: nat, want: Player -> bool): (r: nat)
    requires from < |ps| && i <= |ps| + 1
    ensures r < |ps|
    decreases |ps| + 1 - i
  {
    if i > |ps| then from
    else if want(ps[At(|ps|, from, i)]) then At(|ps|, from, i)
    else Scan(ps, from, i + 1, want)
  }

  lemma {:induction false} ScanFinds(ps: seq<Player>, from: nat, i: nat, want: Player -> bool, m: nat)
    returns (k: nat)
    requires from < |ps| && i <= m <= |ps| && want(ps[At(|ps|, from, m)])
    ensures i <= k <= m && Scan(ps, from, i, want) == At(|ps|, from, k) && want(ps[At(|ps|, from, k)])
    ensures forall j :: i <= j < k ==> !want(ps[At(|ps|, from, j)])
    decreases |ps| - i
  {
    if want(ps[At(|ps|, from, i)]) {
      k := i;
    } else {
      k := ScanFinds(ps, from, i + 1, want, m);
    }
  }

  /** NextActivePlayer, FirstActiveAfterButton and nextActiveIndex are this loop with their own test. */
  method FirstAfter(ps: seq<Player>, from: nat, want: Player -> bool) returns (idx: nat)
    requires from < |ps|
    ensures idx == Scan(ps, from, 1, want)
  {
    var n := |ps|;
    var i := 1;
    while i <= n
      invariant 1 <= i <= n + 1
      invariant Scan(ps, from, i, want) == Scan(ps, from, 1, want)
    {
      idx := At(n, from, i);
      if want(ps[idx]) {
        return;
      }
      i := i + 1;
    }
    idx := from;
  }

  // ----- actions -----

  function BetSize(street: Street, config: BettingConfig): int {
    match street
    case Preflop | Flop => config.smallBet
    case Turn | River => config.bigBet
    case Showdown => 0
  }

  function Validate(s: State, a: Action): Option<Error>
    requires s.active < |s.players|
  {
    var p := s.players[s.active];
    if p.id != a.playerID then Some(NotPlayerTurn)
    else if !CanAct(p) then Some(PlayerNotActive)
    else match a.kind
      case Check => if s.currentBet > p.bet then Some(InvalidAction) else None
      case Call => if s.currentBet == p.bet then Some(InvalidAction) else None
      case Raise =>
        if s.raises >= s.config.maxRaises then Some(RaiseCapReached)
        else if a.amount != s.currentBet + BetSize(s.street, s.config) then Some(InvalidRaiseAmount)
        else if a.amount > p.stack + p.bet then Some(InsufficientStack)
        else None
      case Fold => None
      case PushAllIn | Unknown => Some(InvalidAction)
  }

  function Apply(s: State, a: Action): State
    requires s.active < |s.players|
  {
    var p := s.players[s.active];
    match a.kind
    case Fold => s.(players := s.players[s.active := p.(status := Folded)])
    case Call =>
      var owed := s.currentBet - p.bet;
      var amount := if owed >= p.stack then p.stack else owed;
      var status := if owed >= p.stack then AllIn else p.status;
      s.(players := s.players[s.active := p.(stack := p.stack - amount, bet := p.bet + amount, status := status)])
    case Raise =>
      var left := p.stack - (a.amount - p.bet);
      var status := if left == 0 then AllIn else p.status;
      s.(players := s.players[s.active := p.(stack := left, bet := a.amount, status := status)],
         currentBet := a.amount, raises := s.raises + 1)
    case Check | PushAllIn | Unknown => s
  }

  predicate RoundOver(s: State) {
    forall i :: 0 <= i < |s.players| && CanAct(s.players[i]) ==> s.players[i].bet >= s.currentBet
  }

  method IsBettingRoundOver(players: seq<Player>, currentBet: int) returns (over: bool)
    ensures over <==> forall i :: 0 <= i < |players| && CanAct(players[i]) ==> players[i].bet >= currentBet
  {
    for i := 0 to |players|
      invariant forall j :: 0 <= j < i && CanAct(players[j]) ==> players[j].bet >= currentBet
    {
      if CanAct(players[i]) && players[i].bet < currentBet {
        return false;
      }
    }
    return true;
  }

  method CountPlayersWhoCanAct(players: seq<Player>) returns (count: int)
    ensures count == CountCanAct(players)
  {
    count := 0;
    for i := 0 to |players|
      invariant count == CountCanAct(players[..i])
    {
      assert players[..i + 1][..i] == players[..i];
      if CanAct(players[i]) {
        count := count + 1;
      }
    }
    assert players[..|players|] == players;
  }

  // ----- collecting a street -----

  function StreetBets(ps: seq<Player>): Contributions {
    if |ps| == 0 then map[]
    else
      var p := ps[|ps| - 1];
      var rest := StreetBets(ps[..|ps| - 1]);
      if p.bet > 0 then rest[p.id := p.bet] else rest
  }

  function Uncovered(ps: seq<Player>): seq<Player> {
    seq(|ps|, i requires 0 <= i < |ps| => if ps[i].bet > 0 then ps[i].(bet := 0) else ps[i])
  }

  function MergePots(existing: seq<Pot>, added: seq<Pot>): seq<Pot> {
    if |existing| == 0 then added
    else if |added| == 0 then existing
    else
      var last := |existing| - 1;
      existing[..last] + [existing[last].(amount := existing[last].amount + added[0].amount)] + added[1..]
  }

  lemma {:induction false} BetsPositive(ps: seq<Player>)
    ensures Positive(StreetBets(ps))
    ensures StreetBets(ps).Keys <= IdSet(ps)
    ensures forall id :: id in StreetBets(ps) ==>
      exists i :: 0 <= i < |ps| && ps[i].id == id && ps[i].bet == StreetBets(ps)[id]
  {
    if |ps| > 0 {
      var last := |ps| - 1;
      BetsPositive(ps[..last]);
      assert forall i :: 0 <= i < last ==> ps[..last][i] == ps[i];
      forall id | id in StreetBets(ps)
        ensures exists i :: 0 <= i < |ps| && ps[i].id == id && ps[i].bet == StreetBets(ps)[id]
      {
        if id != ps[last].id || ps[last].bet <= 0 {
          var i :| 0 <= i < last && ps[..last][i].id == id && ps[..last][i].bet == StreetBets(ps[..last])[id];
        }
      }
    }
  }

  lemma {:induction false} BetRecorded(ps: seq<Player>, i: nat)
    requires DistinctIds(ps) && i < |ps|
    ensures ps[i].id in StreetBets(ps) <==> ps[i].bet > 0
    ensures ps[i].bet > 0 ==> StreetBets(ps)[ps[i].id] == ps[i].bet
  {
    var last := |ps| - 1;
    BetsPositive(ps[..last]);
    if i < last {
      BetRecorded(ps[..last], i);
      assert ps[..last][i] == ps[i];
    } else {
      assert forall j :: 0 <= j < last ==> ps[..last][j].id != ps[i].id;
    }
  }

  /** With distinct ids no contribution overwrites another. */
  lemma {:induction false} BetsSum(ps: seq<Player>)
    requires DistinctIds(ps)
    requires forall i :: 0 <= i < |ps| ==> ps[i].bet >= 0
    ensures Sum(StreetBets(ps)) == SumBy(ps, BetOf)
  {
    if |ps| > 0 {
      var last := |ps| - 1;
      BetsSum(ps[..last]);
      BetsPositive(ps[..last]);
      var p := ps[last];
      if p.bet > 0 {
        assert p.id !in StreetBets(ps[..last]) by {
          assert forall j :: 0 <= j < last ==> ps[..last][j].id != p.id;
        }
        SumRemove(StreetBets(ps), p.id);
        assert StreetBets(ps) - {p.id} == StreetBets(ps[..last]);
      }
    }
  }

  lemma MergeSum(existing: seq<Pot>, added: seq<Pot>)
    ensures Total(MergePots(existing, added)) == Total(existing) + Total(added)
  {
    if |existing| > 0 && |added| > 0 {
      var last := |existing| - 1;
      var grown := existing[last].(amount := existing[last].amount + added[0].amount);
      TotalConcat(existing[..last] + [grown], added[1..]);
      assert (existing[..last] + [grown])[..last] == existing[..last];
      TotalConcat(added[..1], added[1..]);
      assert added[..1] + added[1..] == added && added[..1][..0] == [];
    }
  }

  /** A later street adds its first layer to the last of the older pots, whose eligible players stay, lists
      its other layers after it, and touches no other pot; no chip is made or lost. */
  lemma MergeTotal(existing: seq<Pot>, added: seq<Pot>)
    ensures Total(MergePots(existing, added)) == Total(existing) + Total(added)
    ensures |existing| == 0 ==> MergePots(existing, added) == added
    ensures |added| == 0 ==> MergePots(existing, added) == existing
    ensures |existing| > 0 && |added| > 0 ==>
      var pots, last := MergePots(existing, added), |existing| - 1;
      && |pots| == last + |added|
      && (forall k :: 0 <= k < last ==> pots[k] == existing[k])
      && pots[last] == Pot(existing[last].amount + added[0].amount, existing[last].eligible)
      && (forall k :: 1 <= k < |added| ==> pots[last + k] == added[k])
  {
    MergeSum(existing, added);
  }

  ghost function Collect(s: State): State {
    BetsPositive(s.players);
    s.(players := Uncovered(s.players), pots := MergePots(s.pots, Layers(StreetBets(s.players))))
  }

  // ----- dealing and street advance -----

  datatype Dealt = Dealt(cards: seq<Card>, left: seq<Card>) | DealError(error: Error)

  function Deal(deck: seq<Card>, n: int): Dealt {
    if n <= 0 then DealError(InvalidInput)
    else if |deck| == 0 then DealError(EmptyDeck)
    else if |deck| < n then DealError(NotEnoughCards)
    else Dealt(deck[..n], deck[n..])
  }

  function StreetCards(street: Street): nat {
    match street case Preflop => 3 case Flop | Turn => 1 case River | Showdown => 0
  }

  function NextStreet(street: Street): Street {
    match street
    case Preflop => Flop case Flop => Turn case Turn => River case River | Showdown => Showdown
  }

  datatype Advanced = Advanced(s: State) | AdvanceError(error: Error)

  ghost function Advance(s: State): Advanced
    requires s.button < |s.players|
  {
    var c := Collect(s);
    var d := c.(currentBet := 0, raises := 0, active := Scan(c.players, c.button, 1, Live));
    if s.street == River then Advanced(d.(street := Showdown))
    else if s.street == Showdown then Advanced(d)
    else match Deal(d.deck, StreetCards(s.street))
      case Dealt(cards, left) => Advanced(d.(board := d.board + cards, deck := left, street := NextStreet(s.street)))
      case DealError(e) => AdvanceError(e)
  }

  /** What a request does: it is refused and nothing is stored, the hand goes on, or the hand is
      handed to FinishHand. */
  datatype Outcome = Rejected(error: Error) | Continues(next: State) | Ends(final: State)

  ghost function Execute(s: State, a: Action): Outcome
    requires s.active < |s.players| && s.button < |s.players|
  {
    match Validate(s, a)
    case Some(e) => Rejected(e)
    case None =>
      var t := Apply(s, a).(eventSequence := s.eventSequence + 1);
      if CountCanAct(t.players) <= 1 then Ends(t)
      else if RoundOver(t) then
        match Advance(t)
        case AdvanceError(e) => Rejected(e)
        case Advanced(u) => if u.street == Showdown then Ends(u) else Continues(u)
      else Continues(t.(active := Scan(t.players, t.active, 1, CanAct)))
  }
}
