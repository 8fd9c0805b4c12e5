/** What every reachable unfinished hand satisfies, and that every accepted action keeps it. */
module HandInvariant {
  import opened Domain
  import opened SidePots
  import opened Betting

  /** What a hand started from: who sat where with how much, the shuffled deck, the limits. */
  datatype Origin = Origin(ids: seq<PlayerID>, stacks: seq<int>, cards: seq<Card>, config: BettingConfig)

  ghost predicate ValidConfig(c: BettingConfig) {
    && c.structure == FixedLimit
    && c.smallBlind > 0 && c.bigBlind == 2 * c.smallBlind
    && c.smallBet >= c.bigBlind && c.bigBet >= c.smallBet
    && c.maxRaises > 0
  }

  ghost predicate Shape(s: State, o: Origin) {
    && |s.players| == |o.ids| == |o.stacks| >= 2
    && (forall i :: 0 <= i < |o.ids| ==> s.players[i].id == o.ids[i])
    && DistinctIds(s.players)
    && s.active < |s.players| && s.button < |s.players|
    && s.config == o.config && ValidConfig(o.config)
    && 0 <= s.raises <= s.config.maxRaises
  }

  function OpeningBet(street: Street, c: BettingConfig): int {
    if street == Preflop then c.bigBlind else 0
  }

  /** The bet to match is fixed by the street and the number of raises, and nobody is above it. */
  ghost predicate BetLevels(s: State) {
    && s.currentBet == OpeningBet(s.street, s.config) + s.raises * BetSize(s.street, s.config)
    && forall i :: 0 <= i < |s.players| ==> 0 <= s.players[i].bet <= s.currentBet
  }

  /** Eligible sets only narrow from one pot to the next. */
  ghost predicate PotChain(pots: seq<Pot>, ids: set<PlayerID>) {
    && (forall k :: 0 <= k < |pots| ==> pots[k].amount >= 0 && pots[k].eligible <= ids)
    && (forall k, l :: 0 <= k < l < |pots| ==> pots[l].eligible <= pots[k].eligible)
  }

  ghost predicate InEveryPot(pots: seq<Pot>, id: PlayerID) {
    forall k :: 0 <= k < |pots| ==> id in pots[k].eligible
  }

  /** Whoever can act, or has bet on this street, is eligible for every collected pot. */
  ghost predicate Eligibility(s: State) {
    && PotChain(s.pots, IdSet(s.players))
    && forall i :: 0 <= i < |s.players| && (CanAct(s.players[i]) || s.players[i].bet > 0) ==>
         InEveryPot(s.pots, s.players[i].id)
  }

  /** The most a player can have paid before the given street. */
  function PriorCap(street: Street, c: BettingConfig): int {
    match street
    case Preflop => 0
    case Flop => c.bigBlind + c.maxRaises * c.smallBet
    case Turn => c.bigBlind + 2 * c.maxRaises * c.smallBet
    case River => c.bigBlind + 2 * c.maxRaises * c.smallBet + c.maxRaises * c.bigBet
    case Showdown => c.bigBlind + 2 * c.maxRaises * (c.smallBet + c.bigBet)
  }

  ghost predicate Commitment(s: State, o: Origin)
    requires |s.players| == |o.stacks|
  {
    forall i :: 0 <= i < |s.players| ==>
      && 0 <= o.stacks[i] - s.players[i].stack - s.players[i].bet <= PriorCap(s.street, s.config)
      && (o.stacks[i] >= 0 ==> s.players[i].stack >= 0)
  }

  function Holes(ps: seq<Player>): seq<Card> {
    if |ps| == 0 then []
    else Holes(ps[..|ps| - 1]) + [ps[|ps| - 1].hole.0, ps[|ps| - 1].hole.1]
  }

  function BoardSize(street: Street): nat {
    match street case Preflop => 0 case Flop => 3 case Turn => 4 case River | Showdown => 5
  }

  /** Hole cards, board and stub are the shuffled deck, in the order it was dealt. */
  ghost predicate CardPartition(s: State, o: Origin) {
    && Holes(s.players) + s.board + s.deck == o.cards
    && |s.board| == BoardSize(s.street)
  }

  function SumInts(xs: seq<int>): int {
    if |xs| == 0 then 0 else SumInts(xs[..|xs| - 1]) + xs[|xs| - 1]
  }

  ghost predicate Conserved(s: State, o: Origin) {
    Chips(s) == SumInts(o.stacks)
  }

  /** The player `d` places after the one to act made the last bet; everyone before them still has
      to answer it, everyone after them who can act has. */
  ghost predicate TurnOrder(ps: seq<Player>, c: nat, level: int, d: nat) {
    && c < |ps| && d < |ps|
    && Live(ps[At(|ps|, c, d)]) && ps[At(|ps|, c, d)].bet == level
    && (forall j :: 0 <= j < d ==> ps[At(|ps|, c, j)].bet < level)
    && (forall j :: d < j < |ps| && CanAct(ps[At(|ps|, c, j)]) ==> ps[At(|ps|, c, j)].bet == level)
  }

  /** The one start where the last bettor is to act: nobody else has chips left. */
  ghost predicate Lame(s: State) {
    && CountCanAct(s.players) <= 1 && s.pots == []
    && (forall i :: 0 <= i < |s.players| ==> s.players[i].status == Active)
    && (|s.players| == 2 || (s.active < |s.players| && !CanAct(s.players[s.active])))
  }

  ghost predicate TurnInv(s: State) {
    if s.currentBet == 0 then CountCanAct(s.players) >= 2
    else exists d: nat :: TurnOrder(s.players, s.active, s.currentBet, d) && (d == 0 ==> Lame(s))
  }

  /** Everything but the turn. */
  ghost predicate Books(s: State, o: Origin) {
    && Shape(s, o) && BetLevels(s) && Eligibility(s) && Commitment(s, o) && CardPartition(s, o) && Conserved(s, o)
  }

  ghost predicate Inv(s: State, o: Origin) {
    Books(s, o) && s.street != Showdown && TurnInv(s)
  }

  // ----- the effect of one accepted action -----

  ghost predicate Accepted(s: State, a: Action) {
    s.active < |s.players| && Validate(s, a) == None
  }

  /** One player moves chips from stack to bet, or folds. */
  ghost predicate Moves(p: Player, q: Player) {
    && q.id == p.id && q.hole == p.hole && q.position == p.position
    && q.stack + q.bet == p.stack + p.bet && q.bet >= p.bet && q.stack >= 0
    && CanAct(p)
  }

  lemma ActionEffect(s: State, a: Action, o: Origin)
    requires Shape(s, o) && BetLevels(s) && s.street != Showdown && Accepted(s, a)
    ensures var t := Apply(s, a);
      && t.players == s.players[s.active := t.players[s.active]]
      && Moves(s.players[s.active], t.players[s.active])
      && t == s.(players := t.players, currentBet := t.currentBet, raises := t.raises)
      && s.currentBet <= t.currentBet && 0 <= t.raises <= s.config.maxRaises
      && BetLevels(t)
    ensures var p, q := s.players[s.active], Apply(s, a).players[s.active];
      && (a.kind == Fold <==> q.status == Folded)
      && (a.kind == Call ==> q.bet == s.currentBet || (q.bet < s.currentBet && q.stack == 0))
      && (a.kind == Raise ==> q.bet == Apply(s, a).currentBet == s.currentBet + BetSize(s.street, s.config))
      && (a.kind == Call || a.kind == Raise ==> (q.status == AllIn <==> q.stack == 0))
      && (a.kind == Check ==> p.bet == s.currentBet && q == p)
  {
    var t := Apply(s, a);
    var size := BetSize(s.street, s.config);
    assert (s.raises + 1) * size == s.raises * size + size;
    assert forall i :: 0 <= i < |s.players| && i != s.active ==> t.players[i] == s.players[i];
  }

  lemma {:induction false} SameHoles(ps: seq<Player>, qs: seq<Player>)
    requires |ps| == |qs| && forall i :: 0 <= i < |ps| ==> ps[i].hole == qs[i].hole
    ensures Holes(ps) == Holes(qs)
  {
    if |ps| > 0 {
      SameHoles(ps[..|ps| - 1], qs[..|qs| - 1]);
    }
  }

  lemma ApplyKeepsBooks(s: State, a: Action, o: Origin)
    requires Books(s, o) && s.street != Showdown && Accepted(s, a)
    ensures Books(Apply(s, a), o)
    ensures CountCanAct(Apply(s, a).players) <= CountCanAct(s.players)
  {
    var t := Apply(s, a);
    ActionEffect(s, a, o);
    var p, q := s.players[s.active], t.players[s.active];
    SumUpdate(s.players, s.active, q, StackOf);
    SumUpdate(s.players, s.active, q, BetOf);
    SumUpdate(s.players, s.active, q, ActingOf);
    SameHoles(s.players, t.players);
    assert forall i :: 0 <= i < |s.players| ==> t.players[i].id == s.players[i].id;
    SameIds(t.players, s.players);
    assert InEveryPot(s.pots, p.id);
    assert Eligibility(t);
  }

  // ----- someone can always collect -----

  /** Some live player matches the top bet and is eligible for every collected pot, or a single
      live player is left and takes everything. */
  ghost predicate HasHeir(t: State) {
    || (exists w :: 0 <= w < |t.players| && Live(t.players[w]) && t.players[w].bet == t.currentBet
                    && InEveryPot(t.pots, t.players[w].id))
    || SumBy(t.players, LiveOf) == 1
  }

  lemma ActorIsBehind(s: State, o: Origin)
    requires Inv(s, o) && s.currentBet > 0 && !Lame(s)
    ensures s.players[s.active].bet < s.currentBet
  {
    var d: nat :| TurnOrder(s.players, s.active, s.currentBet, d) && (d == 0 ==> Lame(s));
    assert s.players[At(|s.players|, s.active, 0)].bet < s.currentBet;
  }

  lemma HeirAfterAction(s: State, a: Action, o: Origin)
    requires Inv(s, o) && Accepted(s, a)
    ensures HasHeir(Apply(s, a))
  {
    var t := Apply(s, a);
    if a.kind == Raise {
      assert Live(t.players[s.active]) && t.players[s.active].bet == t.currentBet;
    } else if s.currentBet == 0 {
      var j := AnotherCounts(s.players, ActingOf, s.active);
      assert t.players[j] == s.players[j] && t.players[j].bet == 0;
    } else {
      var d: nat :| TurnOrder(s.players, s.active, s.currentBet, d) && (d == 0 ==> Lame(s));
      var w := At(|s.players|, s.active, d);
      if d > 0 {
        assert s.players[At(|s.players|, s.active, 0)].bet < s.currentBet;
        assert w != s.active && t.players[w] == s.players[w];
      } else {
        LameHeir(s, a, o);
      }
    }
  }

  lemma LameHeir(s: State, a: Action, o: Origin)
    requires Books(s, o) && Accepted(s, a) && a.kind != Raise
    requires Lame(s) && s.players[s.active].bet == s.currentBet
    ensures HasHeir(Apply(s, a))
  {
    var t := Apply(s, a);
    if a.kind == Fold {
      assert |t.players| == 2;
      assert t.players[..1][..0] == [] && t.players == [t.players[0], t.players[1]];
      assert SumBy(t.players, LiveOf) == SumBy(t.players[..1], LiveOf) + LiveOf(t.players[1]);
      assert SumBy(t.players[..1], LiveOf) == SumBy(t.players[..1][..0], LiveOf) + LiveOf(t.players[0]);
    } else {
      assert t.players[s.active].bet == t.currentBet && Live(t.players[s.active]);
    }
  }

  // ----- the turn -----

  /** After an action and before the turn moves: the last bettor sits `d` places on, where n
      places on is the actor. */
  ghost predicate Settled(ps: seq<Player>, c: nat, level: int, d: nat) {
    && c < |ps| && 1 <= d <= |ps|
    && Live(ps[At(|ps|, c, d)]) && ps[At(|ps|, c, d)].bet == level
    && (forall j :: 1 <= j < d ==> ps[At(|ps|, c, j)].bet < level)
    && (forall j :: d < j <= |ps| && CanAct(ps[At(|ps|, c, j)]) ==> ps[At(|ps|, c, j)].bet == level)
  }

  lemma OtherSeats(n: nat, c: nat)
    requires c < n
    ensures At(n, c, n) == c && At(n, c, 0) == c
    ensures forall j :: 1 <= j < n ==> At(n, c, j) != c
  {}

  lemma RaiseSettles(s: State, a: Action, o: Origin)
    requires Shape(s, o) && BetLevels(s) && s.street != Showdown && Accepted(s, a) && a.kind == Raise
    ensures Settled(Apply(s, a).players, s.active, Apply(s, a).currentBet, |s.players|)
  {
    var t, n := Apply(s, a), |s.players|;
    OtherSeats(n, s.active);
    assert BetSize(s.street, s.config) > 0;
    forall j | 1 <= j < n ensures t.players[At(n, s.active, j)].bet < t.currentBet {
      assert t.players[At(n, s.active, j)] == s.players[At(n, s.active, j)];
    }
  }

  lemma AnswerSettles(s: State, a: Action, d: nat)
    requires Accepted(s, a) && a.kind != Raise && 0 < d
    requires TurnOrder(s.players, s.active, s.currentBet, d)
    ensures Settled(Apply(s, a).players, s.active, s.currentBet, d)
  {
    var t, n := Apply(s, a), |s.players|;
    OtherSeats(n, s.active);
    assert s.players[At(n, s.active, 0)].bet < s.currentBet;
    forall j | 1 <= j < n ensures t.players[At(n, s.active, j)] == s.players[At(n, s.active, j)] {}
  }

  lemma ActionSettles(s: State, a: Action, o: Origin) returns (d: nat)
    requires Inv(s, o) && Accepted(s, a)
    requires Apply(s, a).currentBet > 0 && CountCanAct(Apply(s, a).players) >= 2
    ensures Settled(Apply(s, a).players, s.active, Apply(s, a).currentBet, d)
  {
    if a.kind == Raise {
      d := |s.players|;
      RaiseSettles(s, a, o);
    } else {
      ApplyKeepsBooks(s, a, o);
      d :| TurnOrder(s.players, s.active, s.currentBet, d) && (d == 0 ==> Lame(s));
      AnswerSettles(s, a, d);
    }
  }

  lemma TurnPasses(ps: seq<Player>, c: nat, level: int, d: nat)
    requires Settled(ps, c, level, d)
    requires exists i :: 0 <= i < |ps| && CanAct(ps[i]) && ps[i].bet < level
    ensures exists e: nat :: e > 0 && TurnOrder(ps, Scan(ps, c, 1, CanAct), level, e)
    ensures CanAct(ps[Scan(ps, c, 1, CanAct)])
  {
    var n := |ps|;
    var i :| 0 <= i < n && CanAct(ps[i]) && ps[i].bet < level;
    var m := if i > c then i - c else i + n - c;
    assert At(n, c, m) == i;
    assert m < d;
    var k := ScanFinds(ps, c, 1, CanAct, m);
    var c' := At(n, c, k);
    var e := d - k;
    forall j | 0 <= j < n ensures At(n, c', j) == if k + j <= n then At(n, c, k + j) else At(n, c, k + j - n) {
    }
    assert TurnOrder(ps, c', level, e);
  }
}
