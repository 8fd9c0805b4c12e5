/** Running maxima under a comparison function that returns a sign. */
module Order {
  ghost predicate TotalPreorder<T(!new)>(cmp: (T, T) -> int) {
    && (forall a, b :: cmp(a, b) == -cmp(b, a))
    && (forall a, b, c :: cmp(a, b) >= 0 && cmp(b, c) >= 0 ==> cmp(a, c) >= 0)
  }

  /** The running best of the first n values: a later value replaces it only when it beats it. */
  function RunningMax<T>(xs: seq<T>, n: nat, start: T, cmp: (T, T) -> int): T
    requires n <= |xs|
  {
    if n == 0 then start
    else
      var best := RunningMax(xs, n - 1, start, cmp);
      if cmp(xs[n - 1], best) > 0 then xs[n - 1] else best
  }

  lemma {:induction false} MaxIsUpper<T(!new)>(xs: seq<T>, n: nat, start: T, cmp: (T, T) -> int)
    requires n <= |xs| && TotalPreorder(cmp)
    ensures cmp(RunningMax(xs, n, start, cmp), start) >= 0
    ensures forall i :: 0 <= i < n ==> cmp(RunningMax(xs, n, start, cmp), xs[i]) >= 0
  {
    if n == 0 {
      assert cmp(start, start) == -cmp(start, start);
    } else {
      MaxIsUpper(xs, n - 1, start, cmp);
      var best, top := RunningMax(xs, n - 1, start, cmp), RunningMax(xs, n, start, cmp);
      assert cmp(top, top) == -cmp(top, top);
      assert cmp(top, best) >= 0 && cmp(top, xs[n - 1]) >= 0;
      forall i | 0 <= i < n ensures cmp(top, xs[i]) >= 0 {
        assert i < n - 1 ==> cmp(best, xs[i]) >= 0;
      }
    }
  }

  lemma {:induction false} MaxIsListed<T>(xs: seq<T>, n: nat, start: T, cmp: (T, T) -> int)
    requires n <= |xs|
    ensures RunningMax(xs, n, start, cmp) == start || RunningMax(xs, n, start, cmp) in xs[..n]
  {
    if n > 0 {
      MaxIsListed(xs, n - 1, start, cmp);
      assert xs[..n] == xs[..n - 1] + [xs[n - 1]];
    }
  }

  // ----- all the maximal ones -----

  /** The contenders among the first n names that nobody before them beats, in listing order; a
      name without a result is passed over. */
  function Leaders<K(==), T>(names: seq<K>, results: map<K, T>, n: nat, cmp: (T, T) -> int): (best: seq<K>)
    requires n <= |names|
    ensures forall i :: 0 <= i < |best| ==> best[i] in results
  {
    if n == 0 then []
    else
      var best := Leaders(names, results, n - 1, cmp);
      var id := names[n - 1];
      if id !in results then best
      else if |best| == 0 then [id]
      else
        var c := cmp(results[id], results[best[0]]);
        if c > 0 then [id] else if c == 0 then best + [id] else best
  }

  ghost predicate Contends<K, T>(names: seq<K>, results: map<K, T>, n: nat, i: int) {
    0 <= i < n <= |names| && names[i] in results
  }

  /** `id` is a contender that no contender beats. */
  ghost predicate Unbeaten<K, T>(names: seq<K>, results: map<K, T>, n: nat, cmp: (T, T) -> int, id: K) {
    && (exists i :: Contends(names, results, n, i) && names[i] == id)
    && (forall j :: Contends(names, results, n, j) ==> id in results && cmp(results[id], results[names[j]]) >= 0)
  }

  ghost predicate LeadersInv<K, T>(names: seq<K>, results: map<K, T>, n: nat, cmp: (T, T) -> int, best: seq<K>) {
    && (forall w :: w in best ==> Unbeaten(names, results, n, cmp, w))
    && (forall i :: Contends(names, results, n, i) ==>
          |best| > 0 && best[0] in results && (cmp(results[names[i]], results[best[0]]) >= 0 ==> names[i] in best))
  }

  lemma LeadersStep<K, T(!new)>(names: seq<K>, results: map<K, T>, n: nat, cmp: (T, T) -> int)
    requires n < |names| && TotalPreorder(cmp)
    requires LeadersInv(names, results, n, cmp, Leaders(names, results, n, cmp))
    ensures LeadersInv(names, results, n + 1, cmp, Leaders(names, results, n + 1, cmp))
  {
    var best, next := Leaders(names, results, n, cmp), Leaders(names, results, n + 1, cmp);
    var id := names[n];
    assert forall i ::
      Contends(names, results, n + 1, i) <==> Contends(names, results, n, i) || (i == n && id in results);
    if id !in results {
      assert next == best;
      forall w | w in best ensures Unbeaten(names, results, n + 1, cmp, w) {
        assert Unbeaten(names, results, n, cmp, w);
      }
    } else {
      assert Contends(names, results, n + 1, n);
      assert cmp(results[id], results[id]) == -cmp(results[id], results[id]);
      if |best| > 0 {
        var top := best[0];
        assert Unbeaten(names, results, n, cmp, top);
        assert cmp(results[id], results[top]) == -cmp(results[top], results[id]);
        LeadersJoin(names, results, n, cmp, best, next);
      }
    }
  }

  lemma LeadersJoin<K, T(!new)>(names: seq<K>, results: map<K, T>, n: nat, cmp: (T, T) -> int,
                                best: seq<K>, next: seq<K>)
    requires n < |names| && TotalPreorder(cmp) && names[n] in results && |best| > 0
    requires best == Leaders(names, results, n, cmp) && next == Leaders(names, results, n + 1, cmp)
    requires LeadersInv(names, results, n, cmp, best)
    ensures LeadersInv(names, results, n + 1, cmp, next)
  {
    var id, top := names[n], best[0];
    assert Unbeaten(names, results, n, cmp, top);
    assert cmp(results[id], results[id]) == 0 && cmp(results[top], results[top]) == 0;
    forall w | w in next ensures Unbeaten(names, results, n + 1, cmp, w) {
      var i := IndexOf(names, results, n, cmp, best, w);
      assert Contends(names, results, n + 1, i) && names[i] == w;
      assert w in best ==> Unbeaten(names, results, n, cmp, w) && cmp(results[w], results[top]) >= 0;
      forall j | Contends(names, results, n + 1, j) ensures cmp(results[w], results[names[j]]) >= 0 {
        assert j < n ==> Contends(names, results, n, j) && cmp(results[top], results[names[j]]) >= 0;
      }
    }
    forall i | Contends(names, results, n + 1, i) && cmp(results[names[i]], results[next[0]]) >= 0
      ensures names[i] in next
    {
      assert i < n ==> Contends(names, results, n, i) && cmp(results[top], results[names[i]]) >= 0;
    }
  }

  lemma IndexOf<K, T>(names: seq<K>, results: map<K, T>, n: nat, cmp: (T, T) -> int, best: seq<K>, w: K)
    returns (i: nat)
    requires n < |names| && names[n] in results
    requires w in best || w == names[n]
    requires w in best ==> Unbeaten(names, results, n, cmp, w)
    ensures i <= n && names[i] == w && w in results
  {
    if w == names[n] {
      i := n;
    } else {
      i :| Contends(names, results, n, i) && names[i] == w;
    }
  }

  ghost predicate LeadersRight<K, T>(names: seq<K>, results: map<K, T>, n: nat, cmp: (T, T) -> int)
    requires n <= |names|
  {
    LeadersInv(names, results, n, cmp, Leaders(names, results, n, cmp))
  }

  lemma LeadersOneMore<K, T(!new)>(names: seq<K>, results: map<K, T>, n: nat, cmp: (T, T) -> int)
    requires 0 < n <= |names| && TotalPreorder(cmp) && LeadersRight(names, results, n - 1, cmp)
    ensures LeadersRight(names, results, n, cmp)
  {
    LeadersStep(names, results, n - 1, cmp);
  }

  lemma {:induction false} LeadersKeepInv<K, T(!new)>(names: seq<K>, results: map<K, T>, n: nat, cmp: (T, T) -> int)
    requires n <= |names| && TotalPreorder(cmp)
    ensures LeadersRight(names, results, n, cmp)
  {
    if n == 0 {
      LeadersStart(names, results, cmp);
    } else {
      LeadersKeepInv(names, results, n - 1, cmp);
      LeadersOneMore(names, results, n, cmp);
    }
  }

  lemma LeadersStart<K, T>(names: seq<K>, results: map<K, T>, cmp: (T, T) -> int)
    ensures LeadersRight(names, results, 0, cmp)
  {}

  /** The leaders are exactly the contenders nobody beats. */
  lemma LeadersExact<K, T(!new)>(names: seq<K>, results: map<K, T>, cmp: (T, T) -> int, id: K)
    requires TotalPreorder(cmp)
    ensures id in Leaders(names, results, |names|, cmp) <==> Unbeaten(names, results, |names|, cmp, id)
  {
    var best := Leaders(names, results, |names|, cmp);
    LeadersKeepInv(names, results, |names|, cmp);
    if Unbeaten(names, results, |names|, cmp, id) {
      var i :| Contends(names, results, |names|, i) && names[i] == id;
      assert best[0] in best;
      assert Unbeaten(names, results, |names|, cmp, best[0]);
      var j :| Contends(names, results, |names|, j) && names[j] == best[0];
      assert cmp(results[id], results[names[j]]) >= 0;
    }
  }

  lemma {:induction false} LeadersDistinct<K, T>(names: seq<K>, results: map<K, T>, n: nat, cmp: (T, T) -> int)
    requires n <= |names| && forall i, j :: 0 <= i < j < |names| ==> names[i] != names[j]
    ensures var best := Leaders(names, results, n, cmp);
      && (forall w :: w in best ==> w in names[..n])
      && (forall i, j :: 0 <= i < j < |best| ==> best[i] != best[j])
  {
    if n > 0 {
      LeadersDistinct(names, results, n - 1, cmp);
      assert names[..n] == names[..n - 1] + [names[n - 1]];
      assert names[n - 1] !in names[..n - 1];
    }
  }

  lemma LeadersNonEmpty<K, T(!new)>(names: seq<K>, results: map<K, T>, cmp: (T, T) -> int, i: nat)
    requires TotalPreorder(cmp) && i < |names| && names[i] in results
    ensures Leaders(names, results, |names|, cmp) != []
  {
    LeadersKeepInv(names, results, |names|, cmp);
    assert Contends(names, results, |names|, i);
  }
}
