/** Python dictionaries as the backend uses them: string keys, `d.get(k, default)`,
    and `d[k] = v`, which keeps an existing key in its place and appends a new key
    at the end (insertion order). On top of that, the group-by fold that the
    statistics code writes by hand three times:
        if key not in d: d[key] = <zero>
        d[key] = <add>(d[key], item)
    for every item of a stream. */
module Dict {

  datatype Entry<V> = Entry(key: string, value: V)

  type Dict<V> = seq<Entry<V>>

  function Keys<V>(d: Dict<V>): (ks: seq<string>)
    ensures |ks| == |d|
    ensures forall i :: 0 <= i < |d| ==> ks[i] == d[i].key
  {
    if d == [] then [] else [d[0].key] + Keys(d[1..])
  }

  predicate DistinctKeys<V>(d: Dict<V>) {
    forall i, j :: 0 <= i < j < |d| ==> d[i].key != d[j].key
  }

  /** `d.get(k, default)` */
  function Get<V>(d: Dict<V>, k: string, default: V): V {
    if d == [] then default
    else if d[0].key == k then d[0].value
    else Get(d[1..], k, default)
  }

  /** `d[k] = v` */
  function Put<V>(d: Dict<V>, k: string, v: V): Dict<V> {
    if d == [] then [Entry(k, v)]
    else if d[0].key == k then [Entry(k, v)] + d[1..]
    else [d[0]] + Put(d[1..], k, v)
  }

  /** The sum of `f` over the values of `d` */
  function Total<V>(d: Dict<V>, f: V -> int): int {
    if d == [] then 0 else f(d[0].value) + Total(d[1..], f)
  }

  lemma {:induction false} GetAbsent<V>(d: Dict<V>, k: string, default: V)
    requires k !in Keys(d)
    ensures Get(d, k, default) == default
  {
    if d != [] {
      assert Keys(d) == [d[0].key] + Keys(d[1..]);
      GetAbsent(d[1..], k, default);
    }
  }

  lemma {:induction false} GetPut<V>(d: Dict<V>, k: string, v: V, k': string, default: V)
    ensures Get(Put(d, k, v), k', default) == if k' == k then v else Get(d, k', default)
  {
    if d != [] && d[0].key != k {
      GetPut(d[1..], k, v, k', default);
    }
  }

  lemma {:induction false} KeysPut<V>(d: Dict<V>, k: string, v: V)
    ensures Keys(Put(d, k, v)) == if k in Keys(d) then Keys(d) else Keys(d) + [k]
  {
    if d != [] {
      assert Keys(d) == [d[0].key] + Keys(d[1..]);
      if d[0].key != k {
        KeysPut(d[1..], k, v);
        assert Put(d, k, v) == [d[0]] + Put(d[1..], k, v);
        assert Keys(Put(d, k, v)) == [d[0].key] + Keys(Put(d[1..], k, v));
      } else {
        assert Keys(Put(d, k, v)) == [k] + Keys(d[1..]);
      }
    }
  }

  lemma DistinctPut<V>(d: Dict<V>, k: string, v: V)
    requires DistinctKeys(d)
    ensures DistinctKeys(Put(d, k, v))
  {
    KeysPut(d, k, v);
    var d' := Put(d, k, v);
    forall i, j | 0 <= i < j < |d'| ensures d'[i].key != d'[j].key {
      assert Keys(d')[i] == d'[i].key && Keys(d')[j] == d'[j].key;
      if j >= |d| {
        assert k !in Keys(d) && d'[j].key == k;
        assert Keys(d)[i] == d[i].key;
      } else {
        assert Keys(d)[i] == d[i].key && Keys(d)[j] == d[j].key;
      }
    }
  }

  lemma {:induction false} TotalPut<V>(d: Dict<V>, k: string, v: V, zero: V, f: V -> int)
    requires f(zero) == 0
    ensures Total(Put(d, k, v), f) + f(Get(d, k, zero)) == Total(d, f) + f(v)
  {
    if d == [] {
    } else if d[0].key == k {
      assert Put(d, k, v)[1..] == d[1..];
    } else {
      TotalPut(d[1..], k, v, zero, f);
      assert Put(d, k, v)[1..] == Put(d[1..], k, v);
    }
  }

  // ---- the group-by fold ----

  /** The items of `xs` whose key is `k`, in stream order */
  function Select<X>(xs: seq<X>, key: X -> string, k: string): (ys: seq<X>)
    ensures |ys| <= |xs|
  {
    if xs == [] then []
    else
      var ys := Select(xs[..|xs| - 1], key, k);
      if key(xs[|xs| - 1]) == k then ys + [xs[|xs| - 1]] else ys
  }

  /** `v = zero; for x in xs: v = add(v, x)` */
  function Fold<X, V>(xs: seq<X>, zero: V, add: (V, X) -> V): V {
    if xs == [] then zero else add(Fold(xs[..|xs| - 1], zero, add), xs[|xs| - 1])
  }

  /** `sum(g(x) for x in xs)` */
  function SumOf<X(!new)>(xs: seq<X>, g: X -> int): (s: int)
    ensures (forall x :: g(x) >= 0) ==> s >= 0
  {
    if xs == [] then 0 else SumOf(xs[..|xs| - 1], g) + g(xs[|xs| - 1])
  }

  /** The dictionary the group-by loop builds from the stream `xs` */
  function Tally<X, V>(xs: seq<X>, key: X -> string, zero: V, add: (V, X) -> V): Dict<V> {
    if xs == [] then []
    else
      var d := Tally(xs[..|xs| - 1], key, zero, add);
      var x := xs[|xs| - 1];
      Put(d, key(x), add(Get(d, key(x), zero), x))
  }

  /** One loop step: the dictionary after `xs + [x]` is the old one with `x` added */
  lemma TallySnoc<X, V>(xs: seq<X>, x: X, key: X -> string, zero: V, add: (V, X) -> V)
    ensures Tally(xs + [x], key, zero, add)
         == Put(Tally(xs, key, zero, add), key(x), add(Get(Tally(xs, key, zero, add), key(x), zero), x))
  {
    assert (xs + [x])[..|xs|] == xs;
  }

  /** Each key holds the fold of exactly the items with that key */
  lemma {:induction false} TallyGet<X, V>(xs: seq<X>, key: X -> string, zero: V, add: (V, X) -> V, k: string)
    ensures Get(Tally(xs, key, zero, add), k, zero) == Fold(Select(xs, key, k), zero, add)
  {
    if xs != [] {
      var init := xs[..|xs| - 1];
      var x := xs[|xs| - 1];
      var d := Tally(init, key, zero, add);
      TallyGet(init, key, zero, add, k);
      GetPut(d, key(x), add(Get(d, key(x), zero), x), k, zero);
      if key(x) == k {
        TallyGet(init, key, zero, add, key(x));
        var s := Select(init, key, k);
        assert Select(xs, key, k) == s + [x];
        assert (s + [x])[..|s|] == s;
      }
    }
  }

  /** The keys are exactly the keys that occur in the stream, each once */
  lemma {:induction false} TallyKeys<X, V>(xs: seq<X>, key: X -> string, zero: V, add: (V, X) -> V)
    ensures DistinctKeys(Tally(xs, key, zero, add))
    ensures forall k :: k in Keys(Tally(xs, key, zero, add)) <==> exists i :: 0 <= i < |xs| && key(xs[i]) == k
  {
    if xs != [] {
      var init := xs[..|xs| - 1];
      var x := xs[|xs| - 1];
      var d := Tally(init, key, zero, add);
      TallyKeys(init, key, zero, add);
      var v := add(Get(d, key(x), zero), x);
      KeysPut(d, key(x), v);
      DistinctPut(d, key(x), v);
      forall k ensures k in Keys(Put(d, key(x), v)) <==> exists i :: 0 <= i < |xs| && key(xs[i]) == k {
        if k in Keys(Put(d, key(x), v)) {
          if k == key(x) {
            assert key(xs[|xs| - 1]) == k;
          } else {
            assert k in Keys(d);
            var i :| 0 <= i < |init| && key(init[i]) == k;
            assert key(xs[i]) == k;
          }
        } else {
          forall i | 0 <= i < |xs| ensures key(xs[i]) != k {
            if i < |init| {
              assert init[i] == xs[i];
            }
          }
        }
      }
    }
  }

  /** A measure that every added item raises by `g(item)` sums to `g` over the stream */
  lemma {:induction false} TallyTotal<X(!new), V>(xs: seq<X>, key: X -> string, zero: V, add: (V, X) -> V, f: V -> int, g: X -> int)
    requires f(zero) == 0
    requires forall v, x :: f(add(v, x)) == f(v) + g(x)
    ensures Total(Tally(xs, key, zero, add), f) == SumOf(xs, g)
  {
    if xs != [] {
      var init := xs[..|xs| - 1];
      var x := xs[|xs| - 1];
      var d := Tally(init, key, zero, add);
      TallyTotal(init, key, zero, add, f, g);
      TotalPut(d, key(x), add(Get(d, key(x), zero), x), zero, f);
    }
  }

  lemma SelectSnoc<X>(xs: seq<X>, x: X, key: X -> string, k: string)
    ensures Select(xs + [x], key, k) == if key(x) == k then Select(xs, key, k) + [x] else Select(xs, key, k)
  {
    assert (xs + [x])[..|xs|] == xs;
  }

  lemma SumOfSnoc<X(!new)>(xs: seq<X>, x: X, g: X -> int)
    ensures SumOf(xs + [x], g) == SumOf(xs, g) + g(x)
  {
    assert (xs + [x])[..|xs|] == xs;
  }

  lemma FoldSnoc<X, V>(xs: seq<X>, x: X, zero: V, add: (V, X) -> V)
    ensures Fold(xs + [x], zero, add) == add(Fold(xs, zero, add), x)
  {
    assert (xs + [x])[..|xs|] == xs;
  }
}
