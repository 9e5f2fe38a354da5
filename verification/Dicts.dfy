/**
 * Insertion-ordered dictionaries, and the accumulation loop `d[k] = step(d.get(k, zero), v)`
 * that the aggregation code is made of.
 */
module Dicts {

  datatype Dict<K(==), V> = Dict(keys: seq<K>, vals: map<K, V>) {
    function Get(k: K, zero: V): V {
      if k in vals then vals[k] else zero
    }

    function Put(k: K, v: V): Dict<K, V> {
      Dict(if k in vals then keys else keys + [k], vals[k := v])
    }
  }

  function Empty<K(==), V>(): Dict<K, V> {
    Dict([], map[])
  }

  /** The loop, started on d. */
  function GroupFrom<K(==), V, A>(d: Dict<K, A>, xs: seq<(K, V)>, zero: A, step: (A, V) -> A): Dict<K, A> {
    if |xs| == 0 then d
    else
      var e, x := GroupFrom(d, xs[..|xs| - 1], zero, step), xs[|xs| - 1];
      e.Put(x.0, step(e.Get(x.0, zero), x.1))
  }

  function Group<K(==), V, A>(xs: seq<(K, V)>, zero: A, step: (A, V) -> A): Dict<K, A> {
    GroupFrom(Empty(), xs, zero, step)
  }

  lemma GroupFromSnoc<K, V, A>(d: Dict<K, A>, xs: seq<(K, V)>, k: K, v: V, zero: A, step: (A, V) -> A)
    ensures GroupFrom(d, xs + [(k, v)], zero, step)
         == GroupFrom(d, xs, zero, step).Put(k, step(GroupFrom(d, xs, zero, step).Get(k, zero), v))
  {
    assert (xs + [(k, v)])[..|xs|] == xs;
  }

  lemma {:induction false} GroupFromAppend<K, V, A>(
      d: Dict<K, A>, xs: seq<(K, V)>, ys: seq<(K, V)>, zero: A, step: (A, V) -> A)
    ensures GroupFrom(GroupFrom(d, xs, zero, step), ys, zero, step) == GroupFrom(d, xs + ys, zero, step)
  {
    if |ys| == 0 {
      assert xs + ys == xs;
    } else {
      var front := ys[..|ys| - 1];
      GroupFromAppend(d, xs, front, zero, step);
      assert (xs + ys)[..|xs + ys| - 1] == xs + front;
    }
  }

  // ---------- what the loop computes ----------

  function Keys<K, V>(xs: seq<(K, V)>): seq<K> {
    seq(|xs|, i requires 0 <= i < |xs| => xs[i].0)
  }

  /** The values filed under k, in order. */
  function Values<K(==), V>(xs: seq<(K, V)>, k: K): seq<V> {
    if |xs| == 0 then []
    else Values(xs[..|xs| - 1], k) + (if xs[|xs| - 1].0 == k then [xs[|xs| - 1].1] else [])
  }

  function Fold<V, A>(vs: seq<V>, zero: A, step: (A, V) -> A): A {
    if |vs| == 0 then zero else step(Fold(vs[..|vs| - 1], zero, step), vs[|vs| - 1])
  }

  /** The distinct elements, by first occurrence. */
  function FirstSeen<K(==)>(ks: seq<K>): seq<K> {
    if |ks| == 0 then []
    else
      var front, k := FirstSeen(ks[..|ks| - 1]), ks[|ks| - 1];
      if k in front then front else front + [k]
  }

  ghost predicate Distinct<K(!new)>(ks: seq<K>) {
    forall i, j :: 0 <= i < j < |ks| ==> ks[i] != ks[j]
  }

  lemma {:induction false} FirstSeenIsDistinct<K(!new)>(ks: seq<K>)
    ensures Distinct(FirstSeen(ks))
    ensures forall k :: k in FirstSeen(ks) <==> k in ks
  {
    if |ks| > 0 {
      FirstSeenIsDistinct(ks[..|ks| - 1]);
      assert ks == ks[..|ks| - 1] + [ks[|ks| - 1]];
    }
  }

  lemma {:induction false} FirstSeenAgain<K(!new)>(ks: seq<K>, more: seq<K>)
    requires forall k :: k in more ==> k in ks
    ensures FirstSeen(ks + more) == FirstSeen(ks)
  {
    if |more| == 0 {
      assert ks + more == ks;
    } else {
      var front := more[..|more| - 1];
      assert more == front + [more[|more| - 1]];
      FirstSeenAgain(ks, front);
      assert (ks + more)[..|ks + more| - 1] == ks + front;
      FirstSeenIsDistinct(ks);
    }
  }

  lemma {:induction false} ValuesAppend<K, V>(xs: seq<(K, V)>, ys: seq<(K, V)>, k: K)
    ensures Values(xs + ys, k) == Values(xs, k) + Values(ys, k)
  {
    if |ys| == 0 {
      assert xs + ys == xs;
    } else {
      ValuesAppend(xs, ys[..|ys| - 1], k);
      assert (xs + ys)[..|xs + ys| - 1] == xs + ys[..|ys| - 1];
    }
  }

  lemma KeysFront<K, V>(xs: seq<(K, V)>)
    requires |xs| > 0
    ensures Keys(xs)[..|xs| - 1] == Keys(xs[..|xs| - 1])
    ensures Keys(xs)[|xs| - 1] == xs[|xs| - 1].0
  {
  }

  /** The keys come out distinct, in order of first use. */
  lemma {:induction false} GroupKeys<K(!new), V, A>(xs: seq<(K, V)>, zero: A, step: (A, V) -> A)
    ensures Group(xs, zero, step).keys == FirstSeen(Keys(xs))
    ensures forall k :: k in Group(xs, zero, step).vals <==> k in FirstSeen(Keys(xs))
  {
    if |xs| > 0 {
      GroupKeys(xs[..|xs| - 1], zero, step);
      KeysFront(xs);
    }
  }

  /** Each key holds the fold of its own values, whatever else was filed in between. */
  lemma {:induction false} GroupAt<K, V, A>(xs: seq<(K, V)>, zero: A, step: (A, V) -> A, k: K)
    ensures k in Group(xs, zero, step).vals <==> |Values(xs, k)| > 0
    ensures Group(xs, zero, step).Get(k, zero) == Fold(Values(xs, k), zero, step)
  {
    if |xs| > 0 {
      var front, x := xs[..|xs| - 1], xs[|xs| - 1];
      GroupAt(front, zero, step, k);
      if x.0 == k {
        assert Values(xs, k)[..|Values(xs, k)| - 1] == Values(front, k);
      } else {
        assert Values(xs, k) == Values(front, k);
      }
    }
  }

  // ---------- conservation ----------

  function Weight<K, V>(xs: seq<(K, V)>, weight: (K, V) -> int): int {
    if |xs| == 0 then 0 else Weight(xs[..|xs| - 1], weight) + weight(xs[|xs| - 1].0, xs[|xs| - 1].1)
  }

  /** What is summed over the entries of a dictionary. */
  function Total<K(==), A>(d: Dict<K, A>, zero: A, measure: (K, A) -> int): int {
    TotalOf(d.keys, d, zero, measure)
  }

  function TotalOf<K(==), A>(ks: seq<K>, d: Dict<K, A>, zero: A, measure: (K, A) -> int): int {
    if |ks| == 0 then 0
    else TotalOf(ks[..|ks| - 1], d, zero, measure) + measure(ks[|ks| - 1], d.Get(ks[|ks| - 1], zero))
  }

  lemma {:induction false} TotalAfterPut<K(!new), A>(
      ks: seq<K>, d: Dict<K, A>, zero: A, measure: (K, A) -> int, k: K, a: A)
    requires Distinct(ks)
    ensures TotalOf(ks, d.Put(k, a), zero, measure)
         == TotalOf(ks, d, zero, measure) + (if k in ks then measure(k, a) - measure(k, d.Get(k, zero)) else 0)
  {
    if |ks| > 0 {
      var front := ks[..|ks| - 1];
      assert ks == front + [ks[|ks| - 1]];
      TotalAfterPut(front, d, zero, measure, k, a);
    }
  }

  ghost predicate Counts<K(!new), V(!new), A(!new)>(zero: A, step: (A, V) -> A, measure: (K, A) -> int, weight: (K, V) -> int) {
    && (forall k :: measure(k, zero) == 0)
    && (forall k, a, v {:trigger measure(k, step(a, v))} :: measure(k, step(a, v)) == measure(k, a) + weight(k, v))
  }

  /** A measure that each step raises by a weight adds up to the weights: nothing is lost between the keys. */
  lemma {:induction false} GroupConserves<K(!new), V(!new), A(!new)>(
      xs: seq<(K, V)>, zero: A, step: (A, V) -> A, measure: (K, A) -> int, weight: (K, V) -> int)
    requires Counts(zero, step, measure, weight)
    ensures Total(Group(xs, zero, step), zero, measure) == Weight(xs, weight)
  {
    if |xs| > 0 {
      var front, x := xs[..|xs| - 1], xs[|xs| - 1];
      GroupConserves(front, zero, step, measure, weight);
      GroupKeys(front, zero, step);
      FirstSeenIsDistinct(Keys(front));
      var d := Group(front, zero, step);
      TotalAfterPut(d.keys, d, zero, measure, x.0, step(d.Get(x.0, zero), x.1));
    }
  }
}
