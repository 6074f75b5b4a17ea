/**
 * A JavaScript plain object used as a dictionary with string keys:
 * `hasOwnProperty`, reading, assigning and `delete`, with `Object.keys`
 * listing the keys in the order they were first assigned.
 */
module Dicts {

  ghost predicate Distinct<T>(s: seq<T>) {
    forall i, j :: 0 <= i < j < |s| ==> s[i] != s[j]
  }

  datatype Dict<V> = Dict(keys: seq<string>, values: map<string, V>) {

    /** Every key is listed once, and exactly the keys that hold a value are listed. */
    ghost predicate Valid() {
      Distinct(keys) && (forall k :: k in values <==> k in keys)
    }

    predicate Has(k: string) {
      k in values
    }

    /** `obj[k] = v`: a new key goes last, an existing key keeps its place. */
    function Set(k: string, v: V): (d: Dict<V>)
      requires Valid()
      ensures d.Valid()
      ensures d.values == values[k := v]
      ensures d.keys == if k in values then keys else keys + [k]
    {
      if k in values then Dict(keys, values[k := v]) else Dict(keys + [k], values[k := v])
    }

    /** `delete obj[k]`. */
    function Remove(k: string): (d: Dict<V>)
      requires Valid()
      ensures d.Valid()
      ensures d.values == values - {k}
      ensures forall x :: x in d.keys <==> x in keys && x != k
    {
      Dict(RemoveKey(keys, k), values - {k})
    }
  }

  function Empty<V>(): (d: Dict<V>)
    ensures d.Valid() && d.keys == [] && d.values == map[]
  {
    Dict([], map[])
  }

  /** The keys with `k` taken out, order kept. */
  function RemoveKey(keys: seq<string>, k: string): (r: seq<string>)
    requires Distinct(keys)
    ensures Distinct(r)
    ensures forall x :: x in r <==> x in keys && x != k
  {
    if |keys| == 0 then []
    else if keys[0] == k then
      assert forall x :: x in keys[1..] ==> x != k by {
        forall x | x in keys[1..] ensures x != k {
          var i :| 0 <= i < |keys[1..]| && keys[1..][i] == x;
          assert keys[i + 1] == x;
        }
      }
      RemoveKey(keys[1..], k)
    else
      var rest := RemoveKey(keys[1..], k);
      assert forall x :: x in rest ==> x != keys[0] by {
        forall x | x in rest ensures x != keys[0] {
          var i :| 0 <= i < |keys[1..]| && keys[1..][i] == x;
          assert keys[i + 1] == x;
        }
      }
      DistinctCons(keys[0], rest);
      [keys[0]] + rest
  }

  lemma DistinctCons(x: string, rest: seq<string>)
    requires Distinct(rest) && x !in rest
    ensures Distinct([x] + rest)
  {
    var s := [x] + rest;
    forall i, j | 0 <= i < j < |s| ensures s[i] != s[j] {
      assert s[j] == rest[j - 1];
      if i > 0 { assert s[i] == rest[i - 1]; }
    }
  }

  /** A dictionary of dictionaries of lists, every level valid. */
  ghost predicate NestedValid<T>(d: Dict<Dict<seq<T>>>) {
    d.Valid() && forall k :: k in d.values ==> d.values[k].Valid()
  }

  /** `d[outer][inner]`, with a missing level read as the empty list. */
  function Get2<T>(d: Dict<Dict<seq<T>>>, outer: string, inner: string): seq<T> {
    if outer in d.values && inner in d.values[outer].values then d.values[outer].values[inner] else []
  }

  /**
   * Pushing every element of `xs` onto `d[outer][inner]`, creating the
   * inner dictionary and the list on first use:
   * nothing is created when there is nothing to push.
   */
  function PushAll<T>(d: Dict<Dict<seq<T>>>, outer: string, inner: string, xs: seq<T>): Dict<Dict<seq<T>>> {
    if |xs| == 0 then d
    else
      var m := if outer in d.values then d.values[outer] else Dict([], map[]);
      var l := if inner in m.values then m.values[inner] else [];
      var m' := Dict(if inner in m.values then m.keys else m.keys + [inner], m.values[inner := l + xs]);
      Dict(if outer in d.values then d.keys else d.keys + [outer], d.values[outer := m'])
  }

  /** A single push. */
  function Push<T>(d: Dict<Dict<seq<T>>>, outer: string, inner: string, x: T): Dict<Dict<seq<T>>> {
    PushAll(d, outer, inner, [x])
  }

  /** The pushes append `xs` to the one list they name and leave every other list as it was. */
  lemma PushAllGet<T>(d: Dict<Dict<seq<T>>>, outer: string, inner: string, xs: seq<T>, a: string, b: string)
    ensures Get2(PushAll(d, outer, inner, xs), a, b) == if a == outer && b == inner then Get2(d, a, b) + xs else Get2(d, a, b)
  {
  }

  /** Pushing one more is pushing the longer list. */
  lemma PushAllSnoc<T>(d: Dict<Dict<seq<T>>>, outer: string, inner: string, xs: seq<T>, x: T)
    ensures Push(PushAll(d, outer, inner, xs), outer, inner, x) == PushAll(d, outer, inner, xs + [x])
  {
    if |xs| > 0 {
      var m := if outer in d.values then d.values[outer] else Dict([], map[]);
      var l := if inner in m.values then m.values[inner] else [];
      var r1 := PushAll(d, outer, inner, xs);
      var m1 := r1.values[outer];
      assert m1.values[inner] == l + xs;
      assert l + xs + [x] == l + (xs + [x]);
      assert m1.values[inner := l + xs + [x]] == m.values[inner := l + (xs + [x])];
      assert r1.values[outer := Dict(m1.keys, m1.values[inner := l + xs + [x]])]
          == PushAll(d, outer, inner, xs + [x]).values;
    } else {
      assert xs + [x] == [x];
    }
  }

  /**
   * A new key goes last on either level, existing keys keep their places,
   * and the lists of other keys stay.
   */
  lemma PushAllKeys<T>(d: Dict<Dict<seq<T>>>, outer: string, inner: string, xs: seq<T>)
    requires |xs| > 0
    ensures var r := PushAll(d, outer, inner, xs);
      && r.keys == (if outer in d.values then d.keys else d.keys + [outer])
      && r.values.Keys == d.values.Keys + {outer}
      && (forall k :: k in d.values && k != outer ==> r.values[k] == d.values[k])
      && r.values[outer].keys == (if outer in d.values && inner in d.values[outer].values then d.values[outer].keys
                                  else (if outer in d.values then d.values[outer].keys else []) + [inner])
      && r.values[outer].values.Keys == (if outer in d.values then d.values[outer].values.Keys else {}) + {inner}
  {
  }

  /** Pushing keeps both levels valid. */
  lemma PushAllValid<T>(d: Dict<Dict<seq<T>>>, outer: string, inner: string, xs: seq<T>)
    requires NestedValid(d)
    ensures NestedValid(PushAll(d, outer, inner, xs))
  {
    if |xs| > 0 {
      var m := if outer in d.values then d.values[outer] else Empty();
      var l := if inner in m.values then m.values[inner] else [];
      assert m.Set(inner, l + xs).Valid();
      assert d.Set(outer, m.Set(inner, l + xs)) == PushAll(d, outer, inner, xs);
    }
  }

  /** Every list present is non-empty: a list is only created by a push onto it. */
  ghost predicate NoEmptyList<T>(d: Dict<Dict<seq<T>>>) {
    forall a, b :: a in d.values && b in d.values[a].values ==> |d.values[a].values[b]| > 0
  }

  lemma PushAllNoEmptyList<T>(d: Dict<Dict<seq<T>>>, outer: string, inner: string, xs: seq<T>)
    requires NoEmptyList(d)
    ensures NoEmptyList(PushAll(d, outer, inner, xs))
  {
  }

  /**
   * The equational step of the scans' inductions over a pushed list: a list
   * that grew by `rest` from one that grew by `f` from `g`.
   */
  lemma AppendChain<T>(all: seq<T>, later: seq<T>, mid: seq<T>, g: seq<T>, f: seq<T>, rest: seq<T>)
    requires all == later && later == mid + rest && mid == g + f
    ensures all == g + (f + rest)
  {
  }
}
