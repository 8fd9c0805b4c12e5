/** What a player can win of the pots over a whole hand: what the others paid against the player, chip for
    chip, and what is added to an all-in player's pot on later streets. */
module HandEntitlement {
  import opened Domain
  import opened SidePots
  import opened MapSum
  import opened Betting
  import opened HandInvariant
  import opened HandSteps
  import opened StartHand
  import opened HandRun
  import P = Payout

  // ----- the law over a whole hand -----

  /** What each player has paid into the collected pots. */
  function PaidBy(s: State, o: Origin): seq<int>
    requires |s.players| == |o.stacks|
  {
    seq(|s.players|, i requires 0 <= i < |s.players| => o.stacks[i] - s.players[i].stack - s.players[i].bet)
  }

  /** The smaller of each payment and `x`, added up. */
  function Matched(paid: seq<int>, x: int): int {
    if |paid| == 0 then 0 else Matched(paid[..|paid| - 1], x) + P.Smaller(paid[|paid| - 1], x)
  }

  /** Whoever is still betting has paid the same, and nobody more. */
  ghost predicate Level(s: State, o: Origin, most: int) {
    && |s.players| == |o.stacks|
    && forall i :: 0 <= i < |s.players| ==>
         && PaidBy(s, o)[i] <= most
         && (CanAct(s.players[i]) || s.players[i].bet > 0 ==> PaidBy(s, o)[i] == most)
  }

  /** The first layer of a street that goes to the last older pot, for a player eligible for that pot who
      did not bet on the street. */
  ghost function LateLayer(t: State, id: PlayerID): int {
    var bets := StreetBets(t.players);
    if id !in bets && bets != map[] && |t.pots| > 0 && id in t.pots[|t.pots| - 1].eligible
    then BetsPositive(t.players); Least(bets) * |bets|
    else 0
  }

  ghost predicate Entitled(s: State, o: Origin, p: nat, late: int) {
    && p < |s.players| == |o.stacks|
    && Winnable(s.pots, s.players[p].id) == Matched(PaidBy(s, o), PaidBy(s, o)[p]) + late
  }

  function CappedPlayers(ps: seq<Player>, limit: int): seq<Player> {
    seq(|ps|, i requires 0 <= i < |ps| => ps[i].(bet := P.Smaller(ps[i].bet, limit)))
  }

  lemma {:induction false} CappedBets(ps: seq<Player>, limit: int)
    requires limit > 0
    ensures StreetBets(CappedPlayers(ps, limit)) == Capped(StreetBets(ps), limit)
  {
    if |ps| > 0 {
      var last := |ps| - 1;
      CappedBets(ps[..last], limit);
      assert CappedPlayers(ps, limit)[..last] == CappedPlayers(ps[..last], limit);
    }
  }

  function BetSeq(ps: seq<Player>): seq<int> {
    seq(|ps|, i requires 0 <= i < |ps| => ps[i].bet)
  }

  lemma {:induction false} CappedSum(ps: seq<Player>, limit: int)
    ensures SumBy(CappedPlayers(ps, limit), BetOf) == Matched(BetSeq(ps), limit)
  {
    if |ps| > 0 {
      var last := |ps| - 1;
      CappedSum(ps[..last], limit);
      assert CappedPlayers(ps, limit)[..last] == CappedPlayers(ps[..last], limit);
      assert BetSeq(ps)[..last] == BetSeq(ps[..last]);
    }
  }

  /** Of one street, the smaller of both bets over all the players. */
  lemma StreetMatched(ps: seq<Player>, limit: int)
    requires DistinctIds(ps) && limit > 0 && forall i :: 0 <= i < |ps| ==> ps[i].bet >= 0
    ensures Sum(Capped(StreetBets(ps), limit)) == Matched(BetSeq(ps), limit)
  {
    var capped := CappedPlayers(ps, limit);
    CappedBets(ps, limit);
    CappedSum(ps, limit);
    forall i, j | 0 <= i < j < |capped| ensures capped[i].id != capped[j].id {
      assert ps[i].id != ps[j].id;
    }
    BetsSum(capped);
  }

  /** Every payment grows by its bet; those who bet had paid the most. */
  ghost predicate Grows(paid: seq<int>, bets: seq<int>, after: seq<int>, most: int) {
    && |paid| == |bets| == |after|
    && forall i :: 0 <= i < |paid| ==>
         after[i] == paid[i] + bets[i] && bets[i] >= 0 && paid[i] <= most && (bets[i] > 0 ==> paid[i] == most)
  }

  lemma {:induction false} MatchedGrows(paid: seq<int>, bets: seq<int>, after: seq<int>, most: int, x: int, b: int)
    requires Grows(paid, bets, after, most) && b >= 0 && x <= most && (b > 0 ==> x == most)
    ensures Matched(after, x + b) == Matched(paid, x) + if b > 0 then Matched(bets, b) else 0
  {
    if |paid| > 0 {
      var last := |paid| - 1;
      MatchedGrows(paid[..last], bets[..last], after[..last], most, x, b);
    }
  }

  lemma PaidAfter(t: State, o: Origin, most: int)
    requires Level(t, o, most) && forall i :: 0 <= i < |t.players| ==> t.players[i].bet >= 0
    ensures |Collect(t).players| == |o.stacks|
    ensures Grows(PaidBy(t, o), BetSeq(t.players), PaidBy(Collect(t), o), most)
  {
    var after := PaidBy(Collect(t), o);
    forall i | 0 <= i < |t.players| ensures after[i] == PaidBy(t, o)[i] + t.players[i].bet {
      assert Uncovered(t.players)[i].bet == 0 && Uncovered(t.players)[i].stack == t.players[i].stack;
    }
  }

  /** What the bets of the street add up to against player p's own. */
  function BetMatched(ps: seq<Player>, p: nat): int
    requires p < |ps|
  {
    if ps[p].bet > 0 then Matched(BetSeq(ps), ps[p].bet) else 0
  }

  lemma StreetAdds(t: State, o: Origin, p: nat)
    requires Books(t, o) && p < |t.players|
    ensures Winnable(Collect(t).pots, t.players[p].id)
      == Winnable(t.pots, t.players[p].id) + BetMatched(t.players, p) + LateLayer(t, t.players[p].id)
  {
    CollectWinnable(t, t.players[p].id);
    BetRecorded(t.players, p);
    if t.players[p].bet > 0 {
      StreetMatched(t.players, t.players[p].bet);
    }
  }

  lemma PaidAdds(t: State, o: Origin, p: nat, most: int)
    requires Level(t, o, most) && p < |t.players| && forall i :: 0 <= i < |t.players| ==> t.players[i].bet >= 0
    ensures |Collect(t).players| == |o.stacks|
    ensures var after := PaidBy(Collect(t), o);
      Matched(after, after[p]) == Matched(PaidBy(t, o), PaidBy(t, o)[p]) + BetMatched(t.players, p)
  {
    PaidAfter(t, o, most);
    var ps := t.players;
    MatchedGrows(PaidBy(t, o), BetSeq(ps), PaidBy(Collect(t), o), most, PaidBy(t, o)[p], ps[p].bet);
  }

  /** Collecting a street keeps the law, with its late layer added for whom it concerns. */
  lemma CollectEntitles(t: State, o: Origin, p: nat, late: int, most: int)
    requires Books(t, o) && Level(t, o, most) && Entitled(t, o, p, late)
    ensures Entitled(Collect(t), o, p, late + LateLayer(t, t.players[p].id))
  {
    StreetAdds(t, o, p);
    PaidAdds(t, o, p, most);
    assert Collect(t).players[p].id == t.players[p].id;
  }

  lemma ActedLevel(s: State, a: Action, o: Origin, most: int)
    requires Inv(s, o) && Accepted(s, a) && Level(s, o, most)
    ensures Level(Acted(s, a), o, most) && PaidBy(Acted(s, a), o) == PaidBy(s, o)
    ensures Acted(s, a).pots == s.pots
    ensures forall i :: 0 <= i < |s.players| ==> Acted(s, a).players[i].id == s.players[i].id
  {
    ActionEffect(s, a, o);
    var t := Acted(s, a);
    forall i | 0 <= i < |s.players|
      ensures PaidBy(t, o)[i] == PaidBy(s, o)[i] && t.players[i].id == s.players[i].id
      ensures CanAct(t.players[i]) || t.players[i].bet > 0 ==> CanAct(s.players[i]) || s.players[i].bet > 0
    {
      assert i != s.active ==> t.players[i] == s.players[i];
    }
  }

  lemma AdvanceLevel(t: State, o: Origin, most: int)
    requires Advances(t, o) && Level(t, o, most)
    ensures Level(Advance(t).s, o, most + t.currentBet)
    ensures Advance(t).s.players == Collect(t).players && Advance(t).s.pots == Collect(t).pots
  {
    PaidAfter(t, o, most);
    var u := Advance(t).s;
    assert PaidBy(u, o) == PaidBy(Collect(t), o);
    forall i | 0 <= i < |t.players|
      ensures PaidBy(u, o)[i] <= most + t.currentBet
      ensures CanAct(u.players[i]) || u.players[i].bet > 0 ==> PaidBy(u, o)[i] == most + t.currentBet
    {
      assert PaidBy(Collect(t), o)[i] == PaidBy(t, o)[i] + t.players[i].bet;
      assert Uncovered(t.players)[i].bet == 0 && (CanAct(u.players[i]) ==> CanAct(t.players[i]));
    }
  }

  /** What the street just closed adds for the player, if one was. */
  ghost function LateIn(s: State, a: Action, next: State, p: nat): int
    requires s.active < |s.players| && p < |s.players|
  {
    if next.street == s.street then 0 else LateLayer(Acted(s, a), s.players[p].id)
  }

  lemma ActedEntitles(s: State, a: Action, o: Origin, p: nat, late: int, most: int)
    requires Inv(s, o) && Accepted(s, a) && Level(s, o, most) && Entitled(s, o, p, late)
    ensures Level(Acted(s, a), o, most) && Entitled(Acted(s, a), o, p, late)
    ensures Books(Acted(s, a), o) && Acted(s, a).players[p].id == s.players[p].id
  {
    ActedKeeps(s, a, o);
    ActedLevel(s, a, o, most);
  }

  lemma ClosingEntitles(t: State, o: Origin, p: nat, late: int, most: int)
    requires Advances(t, o) && Level(t, o, most) && Entitled(t, o, p, late)
    ensures Level(Advance(t).s, o, most + t.currentBet)
    ensures Entitled(Advance(t).s, o, p, late + LateLayer(t, t.players[p].id))
  {
    CollectEntitles(t, o, p, late, most);
    AdvanceLevel(t, o, most);
    CollectedThenAdvanced(t, o, p, late + LateLayer(t, t.players[p].id));
  }

  lemma TurnEntitles(t: State, k: nat, o: Origin, p: nat, late: int, most: int)
    requires Level(t, o, most) && Entitled(t, o, p, late)
    ensures Level(t.(active := k), o, most) && Entitled(t.(active := k), o, p, late)
  {
    assert PaidBy(t.(active := k), o) == PaidBy(t, o);
  }

  lemma StepEntitles(s: State, a: Action, next: State, o: Origin, p: nat, late: int, most: int) returns (most': int)
    requires Inv(s, o) && Accepts(s, a, next) && Level(s, o, most) && Entitled(s, o, p, late)
    ensures Level(next, o, most') && Entitled(next, o, p, late + LateIn(s, a, next, p))
  {
    var t := Acted(s, a);
    ActedEntitles(s, a, o, p, late, most);
    if RoundOver(t) {
      most' := most + t.currentBet;
      StreetTurns(s, a);
      ClosingEntitles(t, o, p, late, most);
    } else {
      most' := most;
      OnlyTurnMoves(s, a);
      TurnEntitles(t, next.active, o, p, late, most);
    }
  }

  lemma StreetTurns(s: State, a: Action)
    requires s.active < |s.players| && s.button < |s.players| && s.street != Showdown
    requires Execute(s, a).Continues? && RoundOver(Acted(s, a))
    ensures Advance(Acted(s, a)) == Advanced(Execute(s, a).next) && Acted(s, a).street == s.street
    ensures Execute(s, a).next.street != s.street
  {}

  lemma CollectedThenAdvanced(t: State, o: Origin, p: nat, late: int)
    requires t.button < |t.players| && Advance(t).Advanced? && Entitled(Collect(t), o, p, late)
    ensures Entitled(Advance(t).s, o, p, late)
  {
    assert Advance(t).s.players == Collect(t).players && Advance(t).s.pots == Collect(t).pots;
    assert PaidBy(Advance(t).s, o) == PaidBy(Collect(t), o);
  }

  // ----- over every run -----

  /** What later streets have added to the player's pots in the first i steps of a run. */
  ghost function Late(states: seq<State>, actions: seq<Action>, i: nat, p: nat): int
    requires i < |states| == |actions| + 1
  {
    if i == 0 then 0
    else
      var s := states[i - 1];
      Late(states, actions, i - 1, p)
        + if s.active < |s.players| && p < |s.players| then LateIn(s, actions[i - 1], states[i], p) else 0
  }

  lemma {:induction false} NothingMatched(paid: seq<int>)
    requires forall i :: 0 <= i < |paid| ==> paid[i] == 0
    ensures Matched(paid, 0) == 0
  {
    if |paid| > 0 {
      NothingMatched(paid[..|paid| - 1]);
    }
  }

  lemma StartEntitles(input: StartInput, deck: seq<Card>, p: nat)
    requires Start(input, deck).Started? && p < |input.players|
    ensures var s, o := Start(input, deck).s, OriginOf(input, deck); Level(s, o, 0) && Entitled(s, o, p, 0)
  {
    var s, o := Start(input, deck).s, OriginOf(input, deck);
    BlindsPosted(input, deck, p);
    forall i | 0 <= i < |s.players| ensures PaidBy(s, o)[i] == 0 {
      BlindsPosted(input, deck, i);
    }
    NothingMatched(PaidBy(s, o));
  }

  ghost predicate LawAt(states: seq<State>, actions: seq<Action>, i: nat, o: Origin, p: nat, most: int) {
    && i < |states| == |actions| + 1
    && Level(states[i], o, most) && Entitled(states[i], o, p, Late(states, actions, i, p))
  }

  lemma LawNext(states: seq<State>, actions: seq<Action>, i: nat, o: Origin, p: nat, most: int) returns (most': int)
    requires 0 < i && LawAt(states, actions, i - 1, o, p, most) && i < |states| && InvAt(states, i - 1, o)
    requires Accepts(states[i - 1], actions[i - 1], states[i])
    ensures LawAt(states, actions, i, o, p, most')
  {
    most' := NextEntitles(states[i - 1], actions[i - 1], states[i], o, p, Late(states, actions, i - 1, p), most);
  }

  lemma RunAccepts(states: seq<State>, actions: seq<Action>, i: nat)
    requires Steps(states, actions) && 0 < i < |states|
    ensures Accepts(states[i - 1], actions[i - 1], states[i])
  {
    assert actions[i - 1] == actions[i - 1];
  }

  lemma NextEntitles(s: State, a: Action, next: State, o: Origin, p: nat, late: int, most: int) returns (most': int)
    requires Inv(s, o) && Accepts(s, a, next) && Level(s, o, most) && Entitled(s, o, p, late)
    ensures Level(next, o, most')
    ensures s.active < |s.players| && p < |s.players| && Entitled(next, o, p, late + LateIn(s, a, next, p))
  {
    most' := StepEntitles(s, a, next, o, p, late, most);
  }

  /** This step closes a street on which others bet and the player did not, and the player is still eligible
      for the last of the older pots. */
  ghost predicate AddsLate(s: State, a: Action, next: State, p: nat) {
    && s.active < |s.players| && next.street != s.street
    && var t := Acted(s, a);
       && p < |t.players| && t.players[p].bet == 0
       && (exists q :: 0 <= q < |t.players| && t.players[q].bet > 0)
       && |t.pots| > 0 && t.players[p].id in t.pots[|t.pots| - 1].eligible
  }

  lemma SomeoneBet(ps: seq<Player>)
    requires DistinctIds(ps)
    ensures StreetBets(ps) != map[] <==> exists q :: 0 <= q < |ps| && ps[q].bet > 0
  {
    BetsPositive(ps);
    if q :| 0 <= q < |ps| && ps[q].bet > 0 {
      BetRecorded(ps, q);
    }
    if StreetBets(ps) != map[] {
      var id :| id in StreetBets(ps);
      var i :| 0 <= i < |ps| && ps[i].id == id && ps[i].bet == StreetBets(ps)[id];
    }
  }

  lemma LayerPositive(bets: Contributions)
    requires Positive(bets) && bets != map[]
    ensures Least(bets) * |bets| > 0
  {
    var id :| id in bets && bets[id] == Least(bets);
  }

  lemma WasNotIn(ps: seq<Player>, p: nat)
    requires DistinctIds(ps) && p < |ps| && ps[p].bet >= 0
    ensures ps[p].id !in StreetBets(ps) <==> ps[p].bet == 0
  {
    BetRecorded(ps, p);
  }

  lemma LateLayerPays(t: State, p: nat)
    requires DistinctIds(t.players) && p < |t.players| && forall i :: 0 <= i < |t.players| ==> t.players[i].bet >= 0
    ensures LateLayer(t, t.players[p].id) >= 0
    ensures LateLayer(t, t.players[p].id) > 0 <==>
      && t.players[p].bet == 0 && (exists q :: 0 <= q < |t.players| && t.players[q].bet > 0)
      && |t.pots| > 0 && t.players[p].id in t.pots[|t.pots| - 1].eligible
  {
    var bets := StreetBets(t.players);
    WasNotIn(t.players, p);
    SomeoneBet(t.players);
    BetsPositive(t.players);
    if bets != map[] {
      LayerPositive(bets);
    }
  }

  lemma LateInPays(s: State, a: Action, next: State, o: Origin, p: nat)
    requires Inv(s, o) && Accepts(s, a, next) && p < |s.players|
    ensures LateIn(s, a, next, p) >= 0 && (LateIn(s, a, next, p) > 0 <==> AddsLate(s, a, next, p))
  {
    ActedBets(s, a, o, p);
    LateLayerPays(Acted(s, a), p);
  }

  lemma ActedBets(s: State, a: Action, o: Origin, p: nat)
    requires Inv(s, o) && Accepted(s, a) && p < |s.players|
    ensures var ps := Acted(s, a).players;
      && DistinctIds(ps) && |ps| == |s.players| && ps[p].id == s.players[p].id
      && forall i :: 0 <= i < |ps| ==> ps[i].bet >= 0
  {
    ActedKeeps(s, a, o);
    ActionEffect(s, a, o);
  }

  /** One of the first i steps added to the player's pots. */
  ghost predicate AddedLate(states: seq<State>, actions: seq<Action>, i: nat, p: nat)
    requires i < |states| == |actions| + 1
  {
    exists j {:trigger actions[j]} :: 0 <= j < i && AddsLate(states[j], actions[j], states[j + 1], p)
  }

  lemma AddedLateNext(states: seq<State>, actions: seq<Action>, i: nat, p: nat)
    requires 0 < i < |states| == |actions| + 1
    ensures AddedLate(states, actions, i, p) <==>
      AddedLate(states, actions, i - 1, p) || AddsLate(states[i - 1], actions[i - 1], states[i], p)
  {}

  lemma LateNext(states: seq<State>, actions: seq<Action>, i: nat, o: Origin, p: nat)
    requires 0 < i < |states| == |actions| + 1 && InvAt(states, i - 1, o) && p < |o.ids|
    requires Accepts(states[i - 1], actions[i - 1], states[i])
    ensures Late(states, actions, i, p) >= Late(states, actions, i - 1, p)
    ensures Late(states, actions, i, p) > Late(states, actions, i - 1, p) <==>
      AddsLate(states[i - 1], actions[i - 1], states[i], p)
  {
    LateInPays(states[i - 1], actions[i - 1], states[i], o, p);
  }

  ghost predicate LateRight(states: seq<State>, actions: seq<Action>, i: nat, p: nat) {
    && i < |states| == |actions| + 1 && Late(states, actions, i, p) >= 0
    && (Late(states, actions, i, p) > 0 <==> AddedLate(states, actions, i, p))
  }

  ghost predicate Kept(states: seq<State>, actions: seq<Action>, i: nat, o: Origin, p: nat) {
    && InvAt(states, i, o) && p < |o.ids| && LateRight(states, actions, i, p)
    && exists most :: LawAt(states, actions, i, o, p, most)
  }

  lemma LateStep(states: seq<State>, actions: seq<Action>, i: nat, o: Origin, p: nat)
    requires Steps(states, actions) && 0 < i < |states| && InvAt(states, i - 1, o) && p < |o.ids|
    requires LateRight(states, actions, i - 1, p)
    ensures LateRight(states, actions, i, p)
  {
    AddedLateNext(states, actions, i, p);
    RunAccepts(states, actions, i);
    LateNext(states, actions, i, o, p);
  }

  lemma LawStep(states: seq<State>, actions: seq<Action>, i: nat, o: Origin, p: nat, most: int)
    requires Steps(states, actions) && 0 < i < |states| && InvAt(states, i - 1, o)
    requires LawAt(states, actions, i - 1, o, p, most)
    ensures exists more :: LawAt(states, actions, i, o, p, more)
  {
    RunAccepts(states, actions, i);
    var more := LawNext(states, actions, i, o, p, most);
  }

  lemma KeptNext(states: seq<State>, actions: seq<Action>, i: nat, o: Origin, p: nat)
    requires Steps(states, actions) && 0 < i < |states| && Kept(states, actions, i - 1, o, p)
    ensures Kept(states, actions, i, o, p)
  {
    RunStep(states, actions, i, o);
    LateStep(states, actions, i, o, p);
    var most :| LawAt(states, actions, i - 1, o, p, most);
    LawStep(states, actions, i, o, p, most);
  }

  /** What holds at first and is kept by every step holds all along. */
  lemma {:induction false} AllAlong(good: nat -> bool, n: nat, i: nat)
    requires good(0) && i < n && forall k: nat :: k + 1 < n && good(k) ==> good(k + 1)
    ensures good(i)
  {
    if i > 0 {
      AllAlong(good, n, i - 1);
    }
  }

  ghost predicate KeptAt(states: seq<State>, actions: seq<Action>, i: nat, o: Origin, p: nat) {
    i < |states| && Kept(states, actions, i, o, p)
  }

  lemma KeptOnce(states: seq<State>, actions: seq<Action>, i: nat, o: Origin, p: nat)
    requires Steps(states, actions) && i + 1 < |states| && KeptAt(states, actions, i, o, p)
    ensures KeptAt(states, actions, i + 1, o, p)
  {
    KeptNext(states, actions, i + 1, o, p);
  }

  lemma KeptByAll(states: seq<State>, actions: seq<Action>, o: Origin, p: nat, good: nat -> bool)
    requires Steps(states, actions) && forall k: nat :: good(k) <==> KeptAt(states, actions, k, o, p)
    ensures forall k: nat :: k + 1 < |states| && good(k) ==> good(k + 1)
  {
    forall k: nat | k + 1 < |states| && good(k) ensures good(k + 1) {
      KeptOnce(states, actions, k, o, p);
    }
  }

  lemma KeptAlong(states: seq<State>, actions: seq<Action>, i: nat, o: Origin, p: nat)
    requires Steps(states, actions) && KeptAt(states, actions, 0, o, p) && i < |states|
    ensures KeptAt(states, actions, i, o, p)
  {
    var good := (k: nat) => KeptAt(states, actions, k, o, p);
    KeptByAll(states, actions, o, p, good);
    AllAlong(good, |states|, i);
  }

  lemma RunLaw(input: StartInput, deck: seq<Card>, states: seq<State>, actions: seq<Action>, i: nat, p: nat)
    requires Run(input, deck, states, actions) && Sound(input) && i < |states| && p < |input.players|
    ensures KeptAt(states, actions, i, OriginOf(input, deck), p)
  {
    RunBegins(input, deck, states, actions);
    StartEntitles(input, deck, p);
    assert LawAt(states, actions, 0, OriginOf(input, deck), p, 0);
    KeptAlong(states, actions, i, OriginOf(input, deck), p);
  }

  /** The side-pot law over a whole hand, exactly as far as it holds: in every reachable state what a player
      can win of the pots is at least what everybody paid against the player, chip for chip, and it is more
      if and only if some street closed on which others bet, the player did not, and the player was still
      eligible for the last pot. */
  lemma SidePotLawIff(input: StartInput, deck: seq<Card>, states: seq<State>, actions: seq<Action>, i: nat, p: nat)
    requires Run(input, deck, states, actions) && Sound(input) && i < |states| && p < |input.players|
    ensures |states[i].players| == |input.players|
    ensures var s, paid := states[i], PaidBy(states[i], OriginOf(input, deck));
      && Winnable(s.pots, s.players[p].id) == Matched(paid, paid[p]) + Late(states, actions, i, p)
      && Winnable(s.pots, s.players[p].id) >= Matched(paid, paid[p])
      && (Winnable(s.pots, s.players[p].id) > Matched(paid, paid[p]) <==> AddedLate(states, actions, i, p))
  {
    RunLaw(input, deck, states, actions, i, p);
  }

  /** The same of the pots the hand is finished with. */
  lemma SidePotLawAtEnd(input: StartInput, deck: seq<Card>, states: seq<State>, actions: seq<Action>, last: Action,
                        p: nat)
    requires Run(input, deck, states, actions) && Sound(input) && p < |input.players|
    requires Ready(states[|actions|]) && Execute(states[|actions|], last).Ends?
    ensures |Execute(states[|actions|], last).final.players| == |input.players|
    ensures |states[|actions|].players| == |input.players|
    ensures var s, u := states[|actions|], Collect(Execute(states[|actions|], last).final);
      var paid, id := PaidBy(u, OriginOf(input, deck)), s.players[p].id;
      Winnable(u.pots, id)
      == Matched(paid, paid[p]) + Late(states, actions, |actions|, p) + LateLayer(Acted(s, last), id)
  {
    var s, o := states[|actions|], OriginOf(input, deck);
    RunLaw(input, deck, states, actions, |actions|, p);
    var most :| LawAt(states, actions, |actions|, o, p, most);
    EndEntitles(s, last, o, p, Late(states, actions, |actions|, p), most);
  }

  lemma EndEntitles(s: State, a: Action, o: Origin, p: nat, late: int, most: int)
    requires Inv(s, o) && Execute(s, a).Ends? && Level(s, o, most) && Entitled(s, o, p, late)
    ensures var u := Collect(Execute(s, a).final);
      && Entitled(u, o, p, late + LateLayer(Acted(s, a), s.players[p].id))
      && |u.players| == |s.players| && u.players[p].id == s.players[p].id
  {
    var t := Acted(s, a);
    ActedEntitles(s, a, o, p, late, most);
    CollectEntitles(t, o, p, late, most);
    CollectedOnce(s, a, o);
    SameEntitled(Collect(t), Collect(Execute(s, a).final), o, p, late + LateLayer(t, t.players[p].id));
  }

  lemma SameEntitled(t: State, u: State, o: Origin, p: nat, late: int)
    requires u.players == t.players && u.pots == t.pots && Entitled(t, o, p, late)
    ensures Entitled(u, o, p, late)
  {
    assert PaidBy(u, o) == PaidBy(t, o);
  }

  lemma NothingMore(u: State)
    requires forall i :: 0 <= i < |u.players| ==> u.players[i].bet == 0
    ensures Collect(u).players == u.players && Collect(u).pots == u.pots
  {
    NoBets(u.players);
  }

  /** A settled river is collected when it closes, and finishing collects no more. */
  lemma CollectedOnce(s: State, a: Action, o: Origin)
    requires Inv(s, o) && Execute(s, a).Ends?
    ensures var t, u := Acted(s, a), Execute(s, a).final;
      Collect(u).players == Collect(t).players && Collect(u).pots == Collect(t).pots
  {
    var t, u := Acted(s, a), Execute(s, a).final;
    ActedKeeps(s, a, o);
    if CountCanAct(t.players) > 1 {
      assert u.players == Collect(t).players && u.pots == Collect(t).pots;
      forall i | 0 <= i < |t.players| ensures u.players[i].bet == 0 {
        Uncovering(t.players, i);
      }
      NothingMore(u);
    }
  }

  // ----- a run that shows it -----

  /** Players with 2, 100 and 100 chips and blinds of 1 and 2, the short stack on the button. */
  function ShortButton(): StartInput {
    var none := (Card(0, Spades), Card(0, Spades));
    StartInput(
      [Player("a", 2, none, Active, 0, 0), Player("b", 100, none, Active, 0, 1), Player("c", 100, none, Active, 0, 2)],
      0, BettingConfig(FixedLimit, 1, 2, 2, 4, 4))
  }

  const TRIO: set<PlayerID> := {"a", "b", "c"}

  ghost predicate Sits(p: Player, id: PlayerID, stack: int, bet: int) {
    p.id == id && p.stack == stack && p.bet == bet && p.status == if stack == 0 then AllIn else Active
  }

  /** Stacks and bets of the three, on the given street, with enough cards to go on. */
  ghost predicate Trio(s: State, a: (int, int), b: (int, int), c: (int, int), street: Street, bet: int, active: nat) {
    && |s.players| == 3 && s.button == 0 && s.config == ShortButton().config
    && Sits(s.players[0], "a", a.0, a.1) && Sits(s.players[1], "b", b.0, b.1) && Sits(s.players[2], "c", c.0, c.1)
    && s.street == street && s.currentBet == bet && s.active == active
    && 0 <= s.raises < 4 && |s.deck| >= if street == Preflop then 4 else if street == Flop then 1 else 0
  }

  lemma CountThree(ps: seq<Player>, f: Player -> int)
    requires |ps| == 3
    ensures SumBy(ps, f) == f(ps[0]) + f(ps[1]) + f(ps[2])
  {
    SumOfTwo(ps[..2], f);
  }

  lemma ShortStart(deck: seq<Card>)
    requires |deck| >= 10
    ensures Start(ShortButton(), deck).Started? && Sound(ShortButton())
    ensures var s := Start(ShortButton(), deck).s; Trio(s, (2, 0), (99, 1), (98, 2), Preflop, 2, 0) && s.pots == []
  {
    var input := ShortButton();
    assert Start(input, deck).Started?;
    StartedPlayers(input, deck, 0);
    StartedPlayers(input, deck, 1);
    StartedPlayers(input, deck, 2);
    assert At(3, 2, 1) == 0 && CanAct(Start(input, deck).s.players[At(3, 2, 1)]);
    PositiveStacksSuffice(input);
  }

  lemma ShortCalls(s: State) returns (u: State)
    requires Trio(s, (2, 0), (99, 1), (98, 2), Preflop, 2, 0)
    ensures Accepts(s, Action("a", Call, 0), u)
    ensures Trio(u, (0, 2), (99, 1), (98, 2), Preflop, 2, 1) && u.pots == s.pots
  {
    var t := Acted(s, Action("a", Call, 0));
    CountThree(t.players, ActingOf);
    assert CanAct(t.players[1]) && t.players[1].bet < t.currentBet;
    assert At(3, 0, 1) == 1 && CanAct(t.players[At(3, 0, 1)]);
    u := Execute(s, Action("a", Call, 0)).next;
  }

  /** Everyone who bet on the street bet the same. */
  lemma EvenLayer(bets: Contributions, x: int)
    requires bets != map[] && x > 0 && forall id :: id in bets ==> bets[id] == x
    ensures Layers(bets) == [Pot(x * |bets|, bets.Keys)]
  {
    LayersUnfold(bets);
    assert Peel(bets, Least(bets)) == map[];
  }

  lemma BetsAre(ps: seq<Player>, id: PlayerID)
    requires DistinctIds(ps)
    ensures id in StreetBets(ps) <==> exists i :: 0 <= i < |ps| && ps[i].id == id && ps[i].bet > 0
    ensures forall i :: 0 <= i < |ps| && ps[i].id == id && ps[i].bet > 0 ==>
      id in StreetBets(ps) && StreetBets(ps)[id] == ps[i].bet
  {
    BetsPositive(ps);
    forall i | 0 <= i < |ps| && ps[i].id == id && ps[i].bet > 0
      ensures id in StreetBets(ps) && StreetBets(ps)[id] == ps[i].bet
    {
      BetRecorded(ps, i);
    }
  }

  lemma PreflopPot(t: State)
    requires Trio(t, (0, 2), (98, 2), (98, 2), Preflop, 2, 1) && t.pots == []
    ensures Collect(t).pots == [Pot(6, TRIO)]
  {
    var bets := StreetBets(t.players);
    forall id ensures id in bets <==> id in TRIO { BetsAre(t.players, id); }
    forall id | id in bets ensures bets[id] == 2 { BetsAre(t.players, id); }
    assert bets.Keys == TRIO && |TRIO| == 3;
    EvenLayer(bets, 2);
  }

  lemma SmallBlindCalls(s: State) returns (u: State)
    requires Trio(s, (0, 2), (99, 1), (98, 2), Preflop, 2, 1) && s.pots == []
    ensures Accepts(s, Action("b", Call, 0), u)
    ensures Trio(u, (0, 0), (98, 0), (98, 0), Flop, 0, 1) && u.raises == 0 && u.pots == [Pot(6, TRIO)]
  {
    var t := Acted(s, Action("b", Call, 0));
    CountThree(t.players, ActingOf);
    PreflopPot(t);
    assert At(3, 0, 1) == 1 && Live(Collect(t).players[At(3, 0, 1)]);
    u := Execute(s, Action("b", Call, 0)).next;
  }

  lemma FlopRaise(s: State) returns (u: State)
    requires Trio(s, (0, 0), (98, 0), (98, 0), Flop, 0, 1) && s.raises == 0
    ensures Accepts(s, Action("b", Raise, 2), u)
    ensures Trio(u, (0, 0), (96, 2), (98, 0), Flop, 2, 2) && u.pots == s.pots
  {
    var t := Acted(s, Action("b", Raise, 2));
    CountThree(t.players, ActingOf);
    assert CanAct(t.players[2]) && t.players[2].bet < t.currentBet;
    assert At(3, 1, 1) == 2 && CanAct(t.players[At(3, 1, 1)]);
    u := Execute(s, Action("b", Raise, 2)).next;
  }

  lemma FlopPot(t: State)
    requires Trio(t, (0, 0), (96, 2), (96, 2), Flop, 2, 2) && t.pots == [Pot(6, TRIO)]
    ensures Collect(t).pots == [Pot(10, TRIO)]
  {
    var bets := StreetBets(t.players);
    forall id ensures id in bets <==> id in {"b", "c"} { BetsAre(t.players, id); }
    forall id | id in bets ensures bets[id] == 2 { BetsAre(t.players, id); }
    assert bets.Keys == {"b", "c"} && |{"b", "c"}| == 2;
    EvenLayer(bets, 2);
    MergeTotal(t.pots, Layers(bets));
  }

  lemma BigBlindCalls(s: State) returns (u: State)
    requires Trio(s, (0, 0), (96, 2), (98, 0), Flop, 2, 2) && s.pots == [Pot(6, TRIO)]
    ensures Accepts(s, Action("c", Call, 0), u)
    ensures Trio(u, (0, 0), (96, 0), (96, 0), Turn, 0, 1) && u.pots == [Pot(10, TRIO)]
  {
    var t := Acted(s, Action("c", Call, 0));
    CountThree(t.players, ActingOf);
    FlopPot(t);
    assert At(3, 0, 1) == 1 && Live(Collect(t).players[At(3, 0, 1)]);
    u := Execute(s, Action("c", Call, 0)).next;
  }

  lemma LateRun(deck: seq<Card>) returns (states: seq<State>, actions: seq<Action>, last: State)
    requires |deck| >= 10
    ensures Run(ShortButton(), deck, states, actions) && Sound(ShortButton()) && |actions| == 4 && states[4] == last
    ensures Trio(last, (0, 0), (96, 0), (96, 0), Turn, 0, 1) && last.pots == [Pot(10, TRIO)]
  {
    ShortStart(deck);
    var s0 := Start(ShortButton(), deck).s;
    var s1 := ShortCalls(s0);
    var s2 := SmallBlindCalls(s1);
    var s3 := FlopRaise(s2);
    last := BigBlindCalls(s3);
    states, actions := [s0], [];
    OneMoreStep(states, actions, Action("a", Call, 0), s1);
    states, actions := states + [s1], actions + [Action("a", Call, 0)];
    OneMoreStep(states, actions, Action("b", Call, 0), s2);
    states, actions := states + [s2], actions + [Action("b", Call, 0)];
    OneMoreStep(states, actions, Action("b", Raise, 2), s3);
    states, actions := states + [s3], actions + [Action("b", Raise, 2)];
    OneMoreStep(states, actions, Action("c", Call, 0), last);
    states, actions := states + [last], actions + [Action("c", Call, 0)];
  }

  /** A player can win more than everyone paid against the player's own chips: the button calls all in with
      2, the two others match it and then bet 2 each on the flop, and all 10 are in a pot the button can
      win, where the smaller of both payments adds up to 6. */
  lemma LateLayerArises(deck: seq<Card>) returns (states: seq<State>, actions: seq<Action>)
    requires |deck| >= 10
    ensures Run(ShortButton(), deck, states, actions) && Sound(ShortButton()) && |actions| == 4
    ensures |states[4].players| == 3 && states[4].players[0].id == "a" && Winnable(states[4].pots, "a") == 10
    ensures PaidBy(states[4], OriginOf(ShortButton(), deck)) == [2, 4, 4] && Matched([2, 4, 4], 2) == 6
  {
    var s4;
    states, actions, s4 := LateRun(deck);
    TrioPaid(s4, deck);
    MatchedThree(2, 4, 4, 2);
  }

  lemma TrioPaid(s: State, deck: seq<Card>)
    requires Trio(s, (0, 0), (96, 0), (96, 0), Turn, 0, 1) && s.pots == [Pot(10, TRIO)]
    ensures PaidBy(s, OriginOf(ShortButton(), deck)) == [2, 4, 4]
    ensures |s.players| == 3 && s.players[0].id == "a" && Winnable(s.pots, "a") == 10
  {
    assert OriginOf(ShortButton(), deck).stacks == [2, 100, 100];
    OneWinnable(Pot(10, TRIO), "a");
  }

  lemma OneMoreStep(states: seq<State>, actions: seq<Action>, a: Action, u: State)
    requires Steps(states, actions) && Accepts(states[|states| - 1], a, u)
    ensures Steps(states + [u], actions + [a])
  {
    var ss, acts := states + [u], actions + [a];
    forall i {:trigger acts[i]} | 0 <= i < |acts| ensures Accepts(ss[i], acts[i], ss[i + 1]) {
      if i < |actions| {
        assert acts[i] == actions[i] && ss[i] == states[i] && ss[i + 1] == states[i + 1];
      }
    }
  }

  lemma OneWinnable(p: Pot, id: PlayerID)
    requires id in p.eligible
    ensures Winnable([p], id) == p.amount
  {
    assert [p][1..] == [];
  }

  lemma MatchedThree(a: int, b: int, c: int, x: int)
    ensures Matched([a, b, c], x) == P.Smaller(a, x) + P.Smaller(b, x) + P.Smaller(c, x)
  {
    assert [a, b, c][..2] == [a, b] && [a, b][..1] == [a];
    assert Matched([a, b, c], x) == Matched([a, b], x) + P.Smaller(c, x);
    assert Matched([a, b], x) == Matched([a], x) + P.Smaller(b, x);
    assert Matched([a], x) == Matched([a][..0], x) + P.Smaller(a, x);
  }
}
