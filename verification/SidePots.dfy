/** Side-pot layering: domain.Calculate over one street's contributions. */
module SidePots {
  import opened Domain
  import opened MapSum

  /** What every player put in on one street. */
  type Contributions = map<PlayerID, int>

  ghost predicate Positive(m: Contributions) {
    forall id :: id in m ==> m[id] > 0
  }

  /** Taking the same amount from everyone, where those left with nothing are dropped. */
  lemma {:induction false} SumLevel(m: Contributions, m': Contributions, c: int)
    requires m'.Keys <= m.Keys
    requires forall id :: id in m ==> m[id] == c + (if id in m' then m'[id] else 0)
    ensures Sum(m) == c * |m| + Sum(m')
    decreases |m|
  {
    if m == map[] {
      assert m' == map[];
    } else {
      var id :| id in m;
      SumRemove(m, id);
      SumLevel(m - {id}, m' - {id}, c);
      SumWithout(m', id);
      OneMore(m, id, c);
    }
  }

  lemma OneMore(m: Contributions, id: PlayerID, c: int)
    requires id in m
    ensures c * |m| == c * |m - {id}| + c
  {
    assert m.Keys == (m - {id}).Keys + {id};
    assert |m| == |m - {id}| + 1;
  }

  // ----- specification: one layer per distinct contribution level -----

  lemma LeastExists(m: Contributions)
    requires m != map[]
    ensures exists id :: id in m && forall q :: q in m ==> m[id] <= m[q]
    decreases |m|
  {
    var x :| x in m;
    var rest := m - {x};
    if rest == map[] {
      assert forall q :: q in m ==> q == x || q in rest;
    } else {
      LeastExists(rest);
      var y :| y in rest && forall q :: q in rest ==> rest[y] <= rest[q];
      var least := if m[x] <= m[y] then x else y;
      assert forall q :: q in m ==> q == x || q in rest;
      assert forall q :: q in m ==> m[least] <= m[q];
    }
  }

  ghost function Least(m: Contributions): int
    requires m != map[]
    ensures exists id :: id in m && m[id] == Least(m)
    ensures forall id :: id in m ==> Least(m) <= m[id]
  {
    LeastExists(m);
    var id :| id in m && forall q :: q in m ==> m[id] <= m[q];
    m[id]
  }

  function Peel(m: Contributions, c: int): Contributions {
    map id | id in m && m[id] != c :: m[id] - c
  }

  /** Every distinct level, lowest first, makes one pot for everyone who reached it. */
  ghost function Layers(m: Contributions): seq<Pot>
    requires Positive(m)
    decreases |m|
  {
    if m == map[] then []
    else
      var c := Least(m);
      PeelShrinks(m);
      [Pot(c * |m|, m.Keys)] + Layers(Peel(m, c))
  }

  lemma PeelShrinks(m: Contributions)
    requires m != map[] && Positive(m)
    ensures Positive(Peel(m, Least(m))) && |Peel(m, Least(m))| < |m|
  {
    var c := Least(m);
    var low :| low in m && m[low] == c;
    assert Peel(m, c).Keys <= m.Keys - {low};
    Cardinality(Peel(m, c).Keys, m.Keys - {low});
  }

  lemma {:induction false} Cardinality<T>(a: set<T>, b: set<T>)
    requires a <= b
    ensures |a| <= |b|
  {
    if a != {} {
      var x :| x in a;
      Cardinality(a - {x}, b - {x});
    }
  }

  // ----- laws -----

  /** No chip is lost or made by layering. */
  lemma {:induction false} LayersConserve(m: Contributions)
    requires Positive(m)
    ensures Total(Layers(m)) == Sum(m)
    decreases |m|
  {
    if m != map[] {
      var c := Least(m);
      PeelShrinks(m);
      LayersConserve(Peel(m, c));
      TotalConcat([Pot(c * |m|, m.Keys)], Layers(Peel(m, c)));
      SumLevel(m, Peel(m, c), c);
      assert [Pot(c * |m|, m.Keys)][..0] == [];
    }
  }

  /** Layers only ever narrow, hold positive amounts and are reached only by contributors. */
  lemma {:induction false} LayersDescend(m: Contributions)
    requires Positive(m)
    ensures m != map[] ==> Layers(m) != []
    ensures forall k :: 0 <= k < |Layers(m)| ==> Layers(m)[k].eligible <= m.Keys && Layers(m)[k].amount > 0
    ensures forall k :: 0 <= k < |Layers(m)| ==> Layers(m)[k].eligible != {}
    ensures forall k, l :: 0 <= k < l < |Layers(m)| ==> Layers(m)[l].eligible < Layers(m)[k].eligible
    decreases |m|
  {
    if m != map[] {
      var c := Least(m);
      PeelShrinks(m);
      LayersDescend(Peel(m, c));
      var low :| low in m && m[low] == c;
      assert low !in Peel(m, c);
      assert c * |m| > 0;
    }
  }

  /** Whoever put in the most is eligible for every layer. */
  lemma {:induction false} TopEligible(m: Contributions, id: PlayerID)
    requires Positive(m) && id in m
    requires forall q :: q in m ==> m[q] <= m[id]
    ensures forall k :: 0 <= k < |Layers(m)| ==> id in Layers(m)[k].eligible
    decreases |m|
  {
    var c := Least(m);
    PeelShrinks(m);
    if m[id] != c {
      TopEligible(Peel(m, c), id);
    } else {
      assert Peel(m, c) == map[];
    }
  }

  /** The pots a player can win, summed. */
  ghost function Winnable(pots: seq<Pot>, id: PlayerID): int {
    if |pots| == 0 then 0
    else (if id in pots[0].eligible then pots[0].amount else 0) + Winnable(pots[1..], id)
  }

  ghost function Capped(m: Contributions, limit: int): Contributions {
    map q | q in m :: if m[q] < limit then m[q] else limit
  }

  /** The side-pot law: a player can win from each opponent at most what the player put in. */
  lemma {:induction false} SidePotLaw(m: Contributions, id: PlayerID)
    requires Positive(m) && id in m
    ensures Winnable(Layers(m), id) == Sum(Capped(m, m[id]))
    decreases |m|
  {
    var c := Least(m);
    PeelShrinks(m);
    var rest := Peel(m, c);
    assert Layers(m)[1..] == Layers(rest);
    if m[id] == c {
      NotEligible(rest, id);
      SumLevel(Capped(m, c), map[], c);
      assert Capped(m, c).Keys == m.Keys;
    } else {
      SidePotLaw(rest, id);
      SumLevel(Capped(m, m[id]), Capped(rest, rest[id]), c);
      assert Capped(m, m[id]).Keys == m.Keys;
    }
  }

  lemma {:induction false} NotEligible(m: Contributions, id: PlayerID)
    requires Positive(m) && id !in m
    ensures Winnable(Layers(m), id) == 0
    decreases |m|
  {
    if m != map[] {
      PeelShrinks(m);
      NotEligible(Peel(m, Least(m)), id);
      assert Layers(m)[1..] == Layers(Peel(m, Least(m)));
    }
  }

  ghost predicate StrictlyIncreasing(levels: seq<int>) {
    forall i, j :: 0 <= i < j < |levels| ==> levels[i] < levels[j]
  }

  /** The players whose contribution reached `level`. */
  function Reached(m: Contributions, level: int): set<PlayerID> {
    set id | id in m && m[id] >= level
  }

  /** The levels above the lowest one, measured from it. */
  ghost function Above(levels: seq<int>, c: int): seq<int>
    requires levels != []
  {
    seq(|levels| - 1, i requires 0 <= i < |levels| - 1 => levels[i + 1] - c)
  }

  /** `levels` lists the distinct contributions in increasing order. */
  ghost predicate LevelsOf(levels: seq<int>, m: Contributions) {
    && StrictlyIncreasing(levels)
    && (forall i :: 0 <= i < |levels| ==> Paid(m, levels[i]))
    && (forall id :: id in m ==> Listed(levels, m[id]))
  }

  ghost predicate Paid(m: Contributions, x: int) {
    exists id :: id in m && m[id] == x
  }

  ghost predicate Listed(levels: seq<int>, x: int) {
    exists i :: 0 <= i < |levels| && levels[i] == x
  }

  lemma LowestFirst(m: Contributions, levels: seq<int>)
    requires m != map[] && LevelsOf(levels, m)
    ensures levels != [] && levels[0] == Least(m)
  {
    var low :| low in m && m[low] == Least(m);
    assert Listed(levels, m[low]);
    assert Paid(m, levels[0]);
  }

  lemma LowestLevel(m: Contributions, levels: seq<int>)
    requires m != map[] && Positive(m) && LevelsOf(levels, m)
    ensures levels != [] && levels[0] == Least(m)
    ensures LevelsOf(Above(levels, Least(m)), Peel(m, Least(m)))
  {
    LowestFirst(m, levels);
    var c := Least(m);
    var tail, rest := Above(levels, c), Peel(m, c);
    forall i | 0 <= i < |tail| ensures Paid(rest, tail[i]) {
      assert Paid(m, levels[i + 1]);
      var id :| id in m && m[id] == levels[i + 1];
      assert id in rest;
    }
    forall id | id in rest ensures Listed(tail, rest[id]) {
      assert Listed(levels, m[id]);
      var i :| 0 <= i < |levels| && levels[i] == m[id];
      assert tail[i - 1] == rest[id];
    }
  }

  /** The pot between two neighbouring levels. */
  ghost function Step(m: Contributions, levels: seq<int>, k: nat): Pot
    requires k < |levels|
  {
    var below := if k == 0 then 0 else levels[k - 1];
    Pot((levels[k] - below) * |Reached(m, levels[k])|, Reached(m, levels[k]))
  }

  lemma StepAbove(m: Contributions, levels: seq<int>, k: nat)
    requires m != map[] && Positive(m) && 1 <= k < |levels|
    requires StrictlyIncreasing(levels) && levels[0] == Least(m)
    ensures Step(m, levels, k) == Step(Peel(m, Least(m)), Above(levels, Least(m)), k - 1)
  {
    var c := Least(m);
    assert levels[0] < levels[k];
    assert Reached(Peel(m, c), levels[k] - c) == Reached(m, levels[k]);
  }

  lemma NoLevels(m: Contributions, levels: seq<int>)
    requires m == map[] && LevelsOf(levels, m)
    ensures levels == []
  {
    assert levels != [] ==> Paid(m, levels[0]);
  }

  lemma StepLowest(m: Contributions, levels: seq<int>)
    requires m != map[] && levels != [] && levels[0] == Least(m)
    ensures Step(m, levels, 0) == Pot(Least(m) * |m|, m.Keys)
  {
    assert Reached(m, levels[0]) == m.Keys;
  }

  lemma LayersUnfold(m: Contributions)
    requires m != map[] && Positive(m)
    ensures Positive(Peel(m, Least(m))) && |Peel(m, Least(m))| < |m|
    ensures Layers(m) == [Pot(Least(m) * |m|, m.Keys)] + Layers(Peel(m, Least(m)))
  {
    PeelShrinks(m);
  }

  ghost predicate Matches(pots: seq<Pot>, m: Contributions, levels: seq<int>) {
    |pots| == |levels| && forall k :: 0 <= k < |levels| ==> pots[k] == Step(m, levels, k)
  }

  lemma MatchesCons(pots: seq<Pot>, m: Contributions, levels: seq<int>)
    requires m != map[] && Positive(m) && levels != [] && levels[0] == Least(m) && StrictlyIncreasing(levels)
    requires Matches(pots, Peel(m, Least(m)), Above(levels, Least(m)))
    ensures Matches([Pot(Least(m) * |m|, m.Keys)] + pots, m, levels)
  {
    StepLowest(m, levels);
    forall k | 1 <= k < |levels| ensures Step(m, levels, k) == pots[k - 1] {
      StepAbove(m, levels, k);
    }
  }

  /** Closed form: pot k is the k-th step between sorted distinct contributions, times the number
      of players who reached it. Nothing in it depends on an iteration order. */
  lemma {:induction false} ClosedForm(m: Contributions, levels: seq<int>)
    requires Positive(m) && LevelsOf(levels, m)
    ensures Matches(Layers(m), m, levels)
    decreases |m|
  {
    if m == map[] {
      NoLevels(m, levels);
    } else {
      LowestLevel(m, levels);
      LayersUnfold(m);
      var rest, tail := Peel(m, Least(m)), Above(levels, Least(m));
      ClosedForm(rest, tail);
      MatchesCons(Layers(rest), m, levels);
    }
  }

  // ----- the loop itself -----

  /** Only positive contributions count. */
  function PaidIn(contributions: Contributions): Contributions {
    map id | id in contributions && contributions[id] > 0 :: contributions[id]
  }

  lemma AllPaidIn(m: Contributions)
    requires Positive(m)
    ensures PaidIn(m) == m
  {}

  /** Map iteration has no fixed order, so each pass takes its keys in an arbitrary one. */
  method Calculate(contributions: Contributions) returns (pots: seq<Pot>)
    ensures Positive(PaidIn(contributions)) && pots == Layers(PaidIn(contributions))
  {
    var remaining := PaidIn(contributions);
    ghost var paid := remaining;
    pots := [];
    while remaining != map[]
      invariant Positive(remaining) && Positive(paid)
      invariant pots + Layers(remaining) == Layers(paid)
      decreases |remaining|
    {
      var minContrib := MinContribution(remaining);
      pots := pots + [Pot(minContrib * |remaining|, remaining.Keys)];
      ghost var before := remaining;
      PeelShrinks(before);
      remaining := Subtract(remaining, minContrib);
      assert Layers(before) == [Pot(minContrib * |before|, before.Keys)] + Layers(remaining);
    }
  }

  method MinContribution(remaining: Contributions) returns (minContrib: int)
    requires remaining != map[] && Positive(remaining)
    ensures minContrib == Least(remaining)
  {
    minContrib := -1;
    var todo := remaining.Keys;
    while todo != {}
      invariant todo <= remaining.Keys
      invariant minContrib == -1 <==> todo == remaining.Keys
      invariant minContrib != -1 ==> minContrib in remaining.Values
      invariant minContrib != -1 ==> forall id :: id in remaining && id !in todo ==> minContrib <= remaining[id]
      decreases |todo|
    {
      var id :| id in todo;
      if minContrib == -1 || remaining[id] < minContrib {
        minContrib := remaining[id];
      }
      todo := todo - {id};
    }
  }

  method Subtract(m: Contributions, c: int) returns (remaining: Contributions)
    ensures remaining == Peel(m, c)
  {
    remaining := m;
    var todo := m.Keys;
    while todo != {}
      invariant todo <= m.Keys && todo <= remaining.Keys <= m.Keys
      invariant forall id :: id in todo ==> remaining[id] == m[id]
      invariant forall id :: id in m && id !in todo ==> (id in remaining <==> m[id] != c)
      invariant forall id :: id in remaining && id !in todo ==> remaining[id] == m[id] - c
      decreases |todo|
    {
      var id :| id in todo;
      remaining := remaining[id := remaining[id] - c];
      if remaining[id] == 0 {
        remaining := remaining - {id};
      }
      todo := todo - {id};
    }
  }

  method TotalOf(pots: seq<Pot>) returns (total: int)
    ensures total == Total(pots)
  {
    total := 0;
    for i := 0 to |pots|
      invariant total == Total(pots[..i])
    {
      assert pots[..i + 1][..i] == pots[..i];
      total := total + pots[i].amount;
    }
    assert pots[..|pots|] == pots;
  }
}
