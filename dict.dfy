/** Python's insertion-ordered `dict`: the keys in insertion order beside a
    map from key to value.

    Assigning to a key that is present replaces its value and leaves the key
    where it stands; assigning to a new key appends it; `del` removes it. */
module Dict {

  datatype Option<T> = None | Some(value: T)

  /** Every dictionary of the program is keyed by strings. */
  type K = string

  datatype Dict<V> = Dict(keys: seq<K>, vals: map<K, V>)

  predicate Distinct(ks: seq<K>) {
    forall i, j :: 0 <= i < j < |ks| ==> ks[i] != ks[j]
  }

  /** No key twice, and exactly the listed keys carry a value. */
  predicate Valid<V>(d: Dict<V>) {
    Distinct(d.keys) && (forall k :: k in d.vals ==> k in d.keys) && (forall k :: k in d.keys ==> k in d.vals)
  }

  /** `{}` */
  function Empty<V>(): (d: Dict<V>)
    ensures Valid(d) && d.keys == []
  {
    Dict([], map[])
  }

  /** `d[k] = v`: an existing key keeps its position, a new key goes last. */
  function Put<V>(d: Dict<V>, k: K, v: V): (r: Dict<V>)
    ensures r.keys == if k in d.keys then d.keys else d.keys + [k]
    ensures r.vals == d.vals[k := v]
    ensures Valid(d) ==> Valid(r)
  {
    var r := Dict(if k in d.keys then d.keys else d.keys + [k], d.vals[k := v]);
    assert Valid(d) && k !in d.keys ==> Distinct(r.keys) by {
      if Valid(d) && k !in d.keys {
        forall i, j | 0 <= i < j < |r.keys| ensures r.keys[i] != r.keys[j] {
          if j == |d.keys| { assert r.keys[i] == d.keys[i]; }
        }
      }
    }
    r
  }

  /** `ks` without `k`. */
  function Without(ks: seq<K>, k: K): (r: seq<K>)
    ensures |r| <= |ks|
  {
    if ks == [] then []
    else if ks[0] == k then Without(ks[1..], k)
    else [ks[0]] + Without(ks[1..], k)
  }

  /** `Without` drops every `k` and keeps the other keys, and keeps them
      distinct. */
  lemma {:induction false} WithoutSpec(ks: seq<K>, k: K)
    ensures k !in Without(ks, k)
    ensures forall x :: x in Without(ks, k) <==> x in ks && x != k
    ensures Distinct(ks) ==> Distinct(Without(ks, k))
  {
    if ks != [] {
      WithoutSpec(ks[1..], k);
      assert forall x :: x in ks <==> x == ks[0] || x in ks[1..];
      if ks[0] != k {
        var t := Without(ks[1..], k);
        var r := [ks[0]] + t;
        if Distinct(ks) {
          assert ks[0] !in ks[1..];
          forall i, j | 0 <= i < j < |r| ensures r[i] != r[j] {
            if i == 0 { assert r[j] == t[j - 1] && t[j - 1] in t; }
            else { assert r[i] == t[i - 1] && r[j] == t[j - 1]; }
          }
        }
      }
    }
  }

  /** `del d[k]` */
  function Delete<V>(d: Dict<V>, k: K): (r: Dict<V>)
    ensures r.keys == Without(d.keys, k)
    ensures r.vals == d.vals - {k}
    ensures Valid(d) ==> Valid(r)
  {
    WithoutSpec(d.keys, k);
    Dict(Without(d.keys, k), d.vals - {k})
  }

  lemma {:induction false} WithoutAbsent(ks: seq<K>, k: K)
    requires k !in ks
    ensures Without(ks, k) == ks
  {
    if ks != [] {
      WithoutAbsent(ks[1..], k);
      assert ks == [ks[0]] + ks[1..];
    }
  }

  lemma {:induction false} WithoutAppend(a: seq<K>, b: seq<K>, k: K)
    ensures Without(a + b, k) == Without(a, k) + Without(b, k)
  {
    if a == [] {
      assert a + b == b;
    } else {
      var x, t := a[0], a[1..];
      WithoutAppend(t, b, k);
      var u, v := Without(t, k), Without(b, k);
      assert (a + b)[0] == x && (a + b)[1..] == t + b;
      if x != k {
        ConsAssoc(x, u, v);
      }
    }
  }

  lemma ConsAssoc(x: K, u: seq<K>, v: seq<K>)
    ensures [x] + (u + v) == [x] + u + v
  {
  }

  /** `Without` on a sequence with a first element. */
  lemma WithoutCons(x: K, t: seq<K>, k: K)
    ensures Without([x] + t, k) == if x == k then Without(t, k) else [x] + Without(t, k)
  {
    assert ([x] + t)[0] == x && ([x] + t)[1..] == t;
  }

  /** Deleting `k` from the keys kept outside `drop` is keeping them outside
      `drop + {k}`. */
  lemma {:induction false} WithoutKept(ks: seq<K>, drop: set<K>, k: K)
    ensures Without(Kept(ks, drop), k) == Kept(ks, drop + {k})
  {
    if ks != [] {
      var init, x := ks[..|ks| - 1], ks[|ks| - 1];
      WithoutKept(init, drop, k);
      var e := if x in drop then [] else [x];
      WithoutAppend(Kept(init, drop), e, k);
      if e != [] {
        assert Without(e, k) == if x == k then [] else [x] by {
          assert e[1..] == [];
        }
      }
    }
  }

  /** Deleting a key that occurs once closes the gap it leaves. */
  lemma {:induction false} WithoutAt(a: seq<K>, k: K, b: seq<K>)
    requires k !in a && k !in b
    ensures Without(a + [k] + b, k) == a + b
  {
    WithoutAppend(a + [k], b, k);
    WithoutAppend(a, [k], k);
    WithoutAbsent(a, k);
    WithoutAbsent(b, k);
    WithoutCons(k, [], k);
    assert [k] + [] == [k];
    assert Without([], k) == [];
  }
  /** The dictionary built by assigning the pairs of `ps` in turn. */
  function FromPairs<V>(ps: seq<(K, V)>): (d: Dict<V>)
    ensures Valid(d)
  {
    if ps == [] then Empty() else Put(FromPairs(ps[..|ps| - 1]), ps[|ps| - 1].0, ps[|ps| - 1].1)
  }

  function Firsts<V>(ps: seq<(K, V)>): (ks: seq<K>)
    ensures |ks| == |ps| && forall i :: 0 <= i < |ps| ==> ks[i] == ps[i].0
  {
    seq(|ps|, i requires 0 <= i < |ps| => ps[i].0)
  }

  /** The distinct elements of `ks`, each where it first occurs. */
  function Dedup(ks: seq<K>): (r: seq<K>)
    ensures Distinct(r)
    ensures forall x :: x in r <==> x in ks
  {
    if ks == [] then []
    else
      var d := Dedup(ks[..|ks| - 1]);
      assert ks == ks[..|ks| - 1] + [ks[|ks| - 1]];
      if ks[|ks| - 1] in d then d
      else
        var r := d + [ks[|ks| - 1]];
        assert Distinct(r) by {
          forall i, j | 0 <= i < j < |r| ensures r[i] != r[j] {
            if j == |d| { assert r[i] == d[i]; }
          }
        }
        r
  }

  /** The index at which `x` first occurs in `ks`. */
  function FirstIndex(ks: seq<K>, x: K): (i: nat)
    requires x in ks
    ensures i < |ks| && ks[i] == x && x !in ks[..i]
  {
    if ks[0] == x then 0 else FirstIndex(ks[1..], x) + 1
  }

  lemma {:induction false} FirstIndexPrefix(a: seq<K>, b: seq<K>, x: K)
    requires x in a
    ensures FirstIndex(a + b, x) == FirstIndex(a, x)
  {
    if a[0] != x {
      assert (a + b)[1..] == a[1..] + b;
      FirstIndexPrefix(a[1..], b, x);
    }
  }

  /** `Dedup` lists the elements in the order of their first occurrence. */
  lemma {:induction false} DedupOrder(ks: seq<K>)
    ensures forall i, j :: 0 <= i < j < |Dedup(ks)| ==>
      FirstIndex(ks, Dedup(ks)[i]) < FirstIndex(ks, Dedup(ks)[j])
  {
    if ks != [] {
      var init, x := ks[..|ks| - 1], ks[|ks| - 1];
      DedupOrder(init);
      assert ks == init + [x];
      forall y | y in init ensures FirstIndex(ks, y) == FirstIndex(init, y) {
        FirstIndexPrefix(init, [x], y);
      }
      if x !in init {
        assert FirstIndex(ks, x) == |init| by {
          assert forall m :: 0 <= m < |init| ==> ks[m] == init[m] && ks[m] in init;
        }
      }
    }
  }

  /** The value of the last pair of `ps` with key `k`. */
  function LastValue<V>(ps: seq<(K, V)>, k: K): Option<V> {
    if ps == [] then None
    else if ps[|ps| - 1].0 == k then Some(ps[|ps| - 1].1)
    else LastValue(ps[..|ps| - 1], k)
  }

  /** `d.get(k)` */
  function Get<V>(d: Dict<V>, k: K): Option<V> {
    if k in d.vals then Some(d.vals[k]) else None
  }

  /** Building a dictionary from pairs: its keys are the distinct keys in
      order of first occurrence, and each maps to the LAST value given. */
  lemma FromPairsSpec<V>(ps: seq<(K, V)>)
    ensures FromPairs(ps).keys == Dedup(Firsts(ps))
    ensures forall k :: Get(FromPairs(ps), k) == LastValue(ps, k)
  {
    FromPairsKeys(ps);
    FromPairsGet(ps);
  }

  lemma {:induction false} FromPairsKeys<V>(ps: seq<(K, V)>)
    ensures FromPairs(ps).keys == Dedup(Firsts(ps))
  {
    if ps != [] {
      var init := ps[..|ps| - 1];
      FromPairsKeys(init);
      var fs := Firsts(ps);
      assert fs[..|fs| - 1] == Firsts(init);
    }
  }

  lemma {:induction false} FromPairsGet<V>(ps: seq<(K, V)>)
    ensures forall k :: Get(FromPairs(ps), k) == LastValue(ps, k)
  {
    if ps != [] {
      var init := ps[..|ps| - 1];
      FromPairsGet(init);
    }
  }

  /** One more pair is one more `Put`. */
  lemma FromPairsSnoc<V>(ps: seq<(K, V)>, p: (K, V))
    ensures FromPairs(ps + [p]) == Put(FromPairs(ps), p.0, p.1)
  {
    assert (ps + [p])[..|ps|] == ps;
  }

  /** The pairs of a dictionary in iteration order (`d.items()`). */
  function Items<V>(d: Dict<V>): (ps: seq<(K, V)>)
    requires Valid(d)
    ensures |ps| == |d.keys|
    ensures forall i :: 0 <= i < |ps| ==> ps[i] == (d.keys[i], d.vals[d.keys[i]])
  {
    seq(|d.keys|, i requires 0 <= i < |d.keys| => (d.keys[i], d.vals[d.keys[i]]))
  }

  /** The keys of `ks` outside `drop`, in their order. */
  function Kept(ks: seq<K>, drop: set<K>): (r: seq<K>)
    ensures forall k :: k in r <==> k in ks && k !in drop
  {
    if ks == [] then []
    else
      var k := ks[|ks| - 1];
      Kept(ks[..|ks| - 1], drop) + (if k in drop then [] else [k])
  }

  /** The values after the sweep has visited the keys `ks`: a key in
      `drop` loses its value, a key in `upd` gets its new one. */
  function Upd<V>(vals: map<K, V>, drop: set<K>, upd: map<K, V>, ks: seq<K>): map<K, V> {
    if ks == [] then vals
    else
      var k := ks[|ks| - 1];
      var v := Upd(vals, drop, upd, ks[..|ks| - 1]);
      if k in drop then v - {k} else if k in upd then v[k := upd[k]] else v
  }

  /** The loop `for k in list(d): if k in drop: del d[k] elif k in upd:
      d[k] = upd[k]` after it has visited the first `n` keys of `d0`. */
  function SweepPartial<V>(d0: Dict<V>, drop: set<K>, upd: map<K, V>, n: int): Dict<V>
    requires 0 <= n <= |d0.keys|
  {
    Dict(Kept(d0.keys[..n], drop) + d0.keys[n..], Upd(d0.vals, drop, upd, d0.keys[..n]))
  }

  /** The same loop run over every key. */
  function Sweep<V>(d0: Dict<V>, drop: set<K>, upd: map<K, V>): Dict<V> {
    Dict(Kept(d0.keys, drop), Upd(d0.vals, drop, upd, d0.keys))
  }

  /** Turn `n` of the loop: delete, assign or leave alone the key `d0.keys[n]`. */
  lemma SweepTurn<V>(d0: Dict<V>, drop: set<K>, upd: map<K, V>, n: int)
    requires Valid(d0) && 0 <= n < |d0.keys|
    ensures var k, r := d0.keys[n], SweepPartial(d0, drop, upd, n);
      SweepPartial(d0, drop, upd, n + 1) ==
        if k in drop then Delete(r, k) else if k in upd then Put(r, k, upd[k]) else r
  {
    var k, r := d0.keys[n], SweepPartial(d0, drop, upd, n);
    var a, b := Kept(d0.keys[..n], drop), d0.keys[n + 1..];
    TurnKeys(d0.keys, drop, n);
    assert d0.keys[..n + 1][..n] == d0.keys[..n];
    assert r.keys == a + [k] + b;
    if k in drop {
      WithoutAt(a, k, b);
    }
  }

  /** The keys before and after turn `n`. */
  lemma TurnKeys(ks: seq<K>, drop: set<K>, n: int)
    requires Distinct(ks) && 0 <= n < |ks|
    ensures var k, a, b := ks[n], Kept(ks[..n], drop), ks[n + 1..];
      k !in a && k !in b &&
      a + [k] + b == Kept(ks[..n], drop) + ks[n..] &&
      Kept(ks[..n + 1], drop) + b == if k in drop then a + b else a + [k] + b
  {
    var k, a, b := ks[n], Kept(ks[..n], drop), ks[n + 1..];
    DistinctAt(ks, n);
    assert ks[n..] == [k] + b;
    Assoc3(a, [k], b);
    assert ks[..n + 1] == ks[..n] + [k];
    KeptSnoc(ks[..n], k, drop);
  }

  lemma Assoc3(a: seq<K>, m: seq<K>, b: seq<K>)
    ensures a + m + b == a + (m + b)
  {
  }

  /** In a list without repeats, the key at `n` occurs before and after `n`
      nowhere. */
  lemma DistinctAt(ks: seq<K>, n: int)
    requires Distinct(ks) && 0 <= n < |ks|
    ensures ks[n] !in ks[..n] && ks[n] !in ks[n + 1..]
  {
    var a, b := ks[..n], ks[n + 1..];
    assert forall j :: 0 <= j < |a| ==> a[j] != ks[n];
    assert forall j :: 0 <= j < |b| ==> b[j] == ks[n + 1 + j] != ks[n];
  }

  lemma KeptSnoc(ks: seq<K>, x: K, drop: set<K>)
    ensures Kept(ks + [x], drop) == Kept(ks, drop) + if x in drop then [] else [x]
  {
    assert (ks + [x])[..|ks|] == ks;
  }

  /** Dropping nothing keeps every key, in order. */
  lemma {:induction false} KeptNone(ks: seq<K>)
    ensures Kept(ks, {}) == ks
  {
    if ks != [] {
      KeptNone(ks[..|ks| - 1]);
      assert ks == ks[..|ks| - 1] + [ks[|ks| - 1]];
    }
  }

  lemma SweepStart<V>(d0: Dict<V>, drop: set<K>, upd: map<K, V>)
    ensures SweepPartial(d0, drop, upd, 0) == d0
    ensures SweepPartial(d0, drop, upd, |d0.keys|) == Sweep(d0, drop, upd)
  {
    assert d0.keys[..0] == [] && d0.keys[0..] == d0.keys;
    assert d0.keys[..|d0.keys|] == d0.keys && d0.keys[|d0.keys|..] == [];
  }

  /** A key outside `drop` keeps a value, the new one when it has one. */
  lemma {:induction false} UpdLookup<V>(vals: map<K, V>, drop: set<K>, upd: map<K, V>, ks: seq<K>, k: K)
    requires k in vals && k !in drop
    ensures k in Upd(vals, drop, upd, ks)
    ensures Upd(vals, drop, upd, ks)[k] == if k in ks && k in upd then upd[k] else vals[k]
  {
    if ks != [] {
      var init := ks[..|ks| - 1];
      UpdLookup(vals, drop, upd, init, k);
      assert ks == init + [ks[|ks| - 1]];
    }
  }

  /** A key in `ks` and in `drop` has no value left. */
  lemma {:induction false} UpdDropped<V>(vals: map<K, V>, drop: set<K>, upd: map<K, V>, ks: seq<K>, k: K)
    requires k in ks && k in drop
    ensures k !in Upd(vals, drop, upd, ks)
  {
    var init, last := ks[..|ks| - 1], ks[|ks| - 1];
    assert ks == init + [last];
    if last != k {
      UpdDropped(vals, drop, upd, init, k);
    }
  }

  lemma {:induction false} KeptDistinct(ks: seq<K>, drop: set<K>)
    requires Distinct(ks)
    ensures Distinct(Kept(ks, drop))
  {
    if ks != [] {
      var init := ks[..|ks| - 1];
      KeptDistinct(init, drop);
    }
  }

  /** The sweep keeps exactly the keys outside `drop`, in their order, and
      each kept key carries its new value when it has one. */
  lemma SweepSpec<V>(d0: Dict<V>, drop: set<K>, upd: map<K, V>)
    requires Valid(d0)
    ensures Valid(Sweep(d0, drop, upd))
    ensures Sweep(d0, drop, upd).keys == Kept(d0.keys, drop)
    ensures forall k :: k in Sweep(d0, drop, upd).keys ==>
      Sweep(d0, drop, upd).vals[k] == if k in upd then upd[k] else d0.vals[k]
  {
    var r := Sweep(d0, drop, upd);
    KeptDistinct(d0.keys, drop);
    forall k | k in d0.vals && k !in drop
      ensures k in r.vals && r.vals[k] == if k in upd then upd[k] else d0.vals[k]
    {
      UpdLookup(d0.vals, drop, upd, d0.keys, k);
    }
    forall k | k in d0.keys && k in drop
      ensures k !in r.vals
    {
      UpdDropped(d0.vals, drop, upd, d0.keys, k);
    }
    assert forall k :: k in r.vals ==> k in d0.vals by {
      UpdDomain(d0.vals, drop, upd, d0.keys);
    }
  }

  lemma {:induction false} UpdDomain<V>(vals: map<K, V>, drop: set<K>, upd: map<K, V>, ks: seq<K>)
    ensures forall k :: k in Upd(vals, drop, upd, ks) ==> k in vals || k in ks
  {
    if ks != [] {
      var init := ks[..|ks| - 1];
      UpdDomain(vals, drop, upd, init);
      assert ks == init + [ks[|ks| - 1]];
    }
  }
}
