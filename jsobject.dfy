/**
 * Plain JavaScript objects used as dictionaries (`counts[key] = (counts[key] || 0) + 1`,
 * `Object.keys`, `Object.entries`). An object is the list of its own properties in
 * creation order, each key at most once; enumeration then follows the ECMAScript
 * rule for ordinary objects: keys that are array indices first, ascending by
 * numeric value, then every other string key in creation order.
 */
module JsObject {
  import opened Js
  import opened Seqs

  type Record<V> = seq<(string, V)>

  function Keys<V>(r: Record<V>): (ks: seq<string>)
    ensures |ks| == |r| && forall i :: 0 <= i < |r| ==> ks[i] == r[i].0
  {
    if r == [] then [] else [r[0].0] + Keys(r[1..])
  }

  function KeyOf<V>(e: (string, V)): string
  {
    e.0
  }

  /** Reordering the properties reorders the keys the same way. */
  lemma KeysPermutation<V>(a: Record<V>, b: Record<V>)
    requires multiset(a) == multiset(b)
    ensures multiset(Keys(a)) == multiset(Keys(b))
  {
    assert Keys(a) == MapSeq(a, KeyOf);
    assert Keys(b) == MapSeq(b, KeyOf);
    MapSeqPermutation(a, b, KeyOf);
  }

  /** `obj[k]`: the value of the first property named `k`, or undefined (None). */
  function Get<V>(r: Record<V>, k: string): (v: Option<V>)
    ensures v.Some? <==> k in Keys(r)
  {
    if r == [] then None
    else if r[0].0 == k then Some(r[0].1)
    else Get(r[1..], k)
  }

  /** `obj[k] = v`: overwrites an existing property in place, or adds one at the end. */
  function Put<V>(r: Record<V>, k: string, v: V): (r': Record<V>)
    ensures Keys(r') == if k in Keys(r) then Keys(r) else Keys(r) + [k]
  {
    if r == [] then [(k, v)]
    else if r[0].0 == k then
      assert ([(k, v)] + r[1..])[1..] == r[1..];
      [(k, v)] + r[1..]
    else
      var rest := Put(r[1..], k, v);
      assert ([r[0]] + rest)[1..] == rest;
      [r[0]] + rest
  }

  /** Reading a property just written gives the new value; every other property is untouched. */
  lemma {:induction false} GetPut<V>(r: Record<V>, k: string, v: V, j: string)
    ensures Get(Put(r, k, v), j) == if j == k then Some(v) else Get(r, j)
  {
    if r != [] && r[0].0 != k {
      GetPut(r[1..], k, v, j);
    }
  }

  /** A second write to the same key overwrites the first. */
  lemma {:induction false} PutPut<V>(r: Record<V>, k: string, v: V, w: V)
    ensures Put(Put(r, k, v), k, w) == Put(r, k, w)
  {
    if r != [] && r[0].0 != k {
      PutPut(r[1..], k, v, w);
      assert Put(r, k, v)[1..] == Put(r[1..], k, v);
    }
  }

  /** Writing `vals[i]` under `keys[i]` into an empty object, one key after the other. */
  function PutAll<V>(keys: seq<string>, vals: seq<V>): Record<V>
    requires |keys| == |vals|
  {
    if keys == [] then []
    else Put(PutAll(keys[..|keys| - 1], vals[..|vals| - 1]), keys[|keys| - 1], vals[|vals| - 1])
  }

  /** The object's keys are the written keys, each once, in the order of their first write. */
  lemma {:induction false} PutAllKeys<V>(keys: seq<string>, vals: seq<V>)
    requires |keys| == |vals|
    ensures Keys(PutAll(keys, vals)) == Distinct(keys)
  {
    if keys != [] {
      PutAllKeys(keys[..|keys| - 1], vals[..|vals| - 1]);
    }
  }

  /** Position `j` is the last write of its key. */
  predicate LastOccurrence(keys: seq<string>, j: nat)
  {
    j < |keys| && forall m :: j < m < |keys| ==> keys[m] != keys[j]
  }

  /** A key holds the value of its last write: later writes to other keys leave it alone. */
  lemma {:induction false} PutAllValue<V>(keys: seq<string>, vals: seq<V>, j: nat)
    requires |keys| == |vals| && LastOccurrence(keys, j)
    ensures Get(PutAll(keys, vals), keys[j]) == Some(vals[j])
  {
    var n := |keys| - 1;
    var init := PutAll(keys[..n], vals[..n]);
    if j < n {
      assert LastOccurrence(keys[..n], j) && keys[..n][j] == keys[j] && vals[..n][j] == vals[j];
      PutAllValue(keys[..n], vals[..n], j);
    }
    GetPut(init, keys[n], vals[n], keys[j]);
  }

  /** `counts[k] = (counts[k] || 0) + 1` */
  function Increment(r: Record<nat>, k: string): Record<nat>
  {
    var n: nat := CountOf(r, k) + 1;
    Put(r, k, n)
  }

  /** `counts[k] || 0` */
  function CountOf(r: Record<nat>, k: string): nat
  {
    match Get(r, k) case Some(n) => n case None => 0
  }

  /** The object built by incrementing `counts[k]` for each `k` of `ks` in turn. */
  function Tally(ks: seq<string>): Record<nat>
  {
    if ks == [] then [] else Increment(Tally(ks[..|ks| - 1]), ks[|ks| - 1])
  }

  /** The tally's keys are the distinct input keys, in order of first occurrence. */
  lemma {:induction false} TallyKeys(ks: seq<string>)
    ensures Keys(Tally(ks)) == Distinct(ks)
  {
    if ks != [] {
      TallyKeys(ks[..|ks| - 1]);
    }
  }

  /** Each key's value in the tally is the number of times it occurs in the input. */
  lemma {:induction false} TallyCounts(ks: seq<string>, k: string)
    ensures Get(Tally(ks), k) == if k in ks then Some(multiset(ks)[k]) else None
  {
    if ks != [] {
      var init := ks[..|ks| - 1];
      var last := ks[|ks| - 1];
      TallyCounts(init, k);
      TallyCountStep(Tally(init), init, last, k);
      assert ks == init + [last];
    }
  }

  lemma TallyCountStep(t: Record<nat>, init: seq<string>, last: string, k: string)
    requires Get(t, k) == if k in init then Some(multiset(init)[k]) else None
    ensures Get(Increment(t, last), k) == if k in init + [last] then Some(multiset(init + [last])[k]) else None
  {
    var n: nat := CountOf(t, last) + 1;
    assert Increment(t, last) == Put(t, last, n);
    GetPut(t, last, n, k);
    Occurrences(init, last, k);
    if k == last {
      assert n == multiset(init)[k] + 1;
    }
  }

  lemma Occurrences(init: seq<string>, last: string, k: string)
    ensures k in init + [last] <==> k in init || k == last
    ensures multiset(init + [last])[k] == multiset(init)[k] + if k == last then 1 else 0
    ensures k !in init ==> multiset(init)[k] == 0
  {
  }

  /** The summand `([, v]) => f(v)` of a sum over an object's values. */
  function ValueBy<V>(f: V -> int): ((string, V)) -> int
  {
    (e: (string, V)) => f(e.1)
  }

  function AsInt(n: nat): int
  {
    n
  }

  /** Writing a property replaces its old value's share of the sum by the new value's. */
  lemma {:induction false} SumOfPut<V>(r: Record<V>, k: string, v: V, f: V -> int)
    requires NoDuplicates(Keys(r))
    ensures SumBy(Put(r, k, v), ValueBy(f))
      == SumBy(r, ValueBy(f)) - (if Get(r, k).Some? then f(Get(r, k).value) else 0) + f(v)
  {
    if r != [] {
      assert Keys(r) == [r[0].0] + Keys(r[1..]);
      if r[0].0 == k {
        assert k !in Keys(r[1..]);
        assert Put(r, k, v) == [(k, v)] + r[1..];
      } else {
        SumOfPut(r[1..], k, v, f);
      }
    }
  }

  /** The values of a tally add up to the number of keys counted. */
  lemma {:induction false} TallySum(ks: seq<string>)
    ensures SumBy(Tally(ks), ValueBy(AsInt)) == |ks|
  {
    if ks != [] {
      var init := ks[..|ks| - 1];
      var last := ks[|ks| - 1];
      TallySum(init);
      var n: nat := CountOf(Tally(init), last) + 1;
      assert Tally(ks) == Put(Tally(init), last, n);
      TallySumStep(init, last, n);
    }
  }

  lemma TallySumStep(init: seq<string>, last: string, n: nat)
    requires n == CountOf(Tally(init), last) + 1
    ensures SumBy(Put(Tally(init), last, n), ValueBy(AsInt)) == SumBy(Tally(init), ValueBy(AsInt)) + 1
  {
    var t := Tally(init);
    TallyKeys(init);
    SumOfPut(t, last, n, AsInt);
    PreviousCount(t, last);
  }

  lemma PreviousCount(t: Record<nat>, k: string)
    ensures (if Get(t, k).Some? then AsInt(Get(t, k).value) else 0) == CountOf(t, k)
  {
  }



  /** When no key repeats, a listed property is what reading its key gives. */
  lemma {:induction false} GetOfMember<V>(r: Record<V>, k: string, v: V)
    requires NoDuplicates(Keys(r)) && (k, v) in r
    ensures Get(r, k) == Some(v)
  {
    if r[0] != (k, v) {
      assert Keys(r) == [r[0].0] + Keys(r[1..]);
      assert (k, v) in r[1..];
      var i :| 0 <= i < |r[1..]| && r[1..][i] == (k, v);
      assert Keys(r[1..])[i] == k;
      assert r[0].0 != k;
      GetOfMember(r[1..], k, v);
    }
  }

  /** A value read from an object is one of its properties. */
  lemma {:induction false} MemberOfGet<V>(r: Record<V>, k: string)
    requires Get(r, k).Some?
    ensures (k, Get(r, k).value) in r
  {
    if r[0].0 != k {
      MemberOfGet(r[1..], k);
    }
  }

  /** Every property of a tally is a key of the input with its number of occurrences, at least 1. */
  lemma TallyMember(ks: seq<string>, k: string, v: nat)
    requires (k, v) in Tally(ks)
    ensures k in ks && v == multiset(ks)[k] && v >= 1
  {
    TallyKeys(ks);
    GetOfMember(Tally(ks), k, v);
    TallyCounts(ks, k);
  }

  // ---------------------------------------------------------------------------
  // Enumeration order

  /** The canonical decimal form of an integer in [0, 2^32 - 2]. */
  predicate IsArrayIndex(k: string)
  {
    |k| >= 1 && AllDigits(k, 10) && (k == "0" || k[0] != '0') && DigitsValue(k, 10) < 0xFFFF_FFFF
  }

  predicate HasIndexKey<V>(e: (string, V))
  {
    IsArrayIndex(e.0)
  }

  function IndexKeyValue<V>(e: (string, V)): int
  {
    if IsArrayIndex(e.0) then DigitsValue(e.0, 10) else 0
  }

  /** `Object.entries(obj)` */
  function Entries<V(!new)>(r: Record<V>): (es: Record<V>)
    ensures |es| == |r| && multiset(es) == multiset(r)
  {
    var indexed := FilterBy(r, HasIndexKey, true);
    var named := FilterBy(r, HasIndexKey, false);
    FilterByPartition(r, HasIndexKey);
    SortBy(indexed, IndexKeyValue) + named
  }

  /** Array-index keys come out first, in ascending numeric order. */
  lemma EntriesIndicesFirst<V(!new)>(r: Record<V>)
    ensures var es := Entries(r);
      forall i, j :: 0 <= i < j < |es| && IsArrayIndex(es[j].0) ==>
        IsArrayIndex(es[i].0) && DigitsValue(es[i].0, 10) <= DigitsValue(es[j].0, 10)
  {
    var indexed := SortBy(FilterBy(r, HasIndexKey, true), IndexKeyValue);
    var named := FilterBy(r, HasIndexKey, false);
    SortedIndicesAreIndices(FilterBy(r, HasIndexKey, true));
    var es := indexed + named;
    assert forall k :: |indexed| <= k < |es| ==> !HasIndexKey(es[k]);
    assert forall k :: 0 <= k < |indexed| ==> es[k] == indexed[k];
  }

  lemma SortedIndicesAreIndices<V(!new)>(s: Record<V>)
    requires forall i :: 0 <= i < |s| ==> HasIndexKey(s[i])
    ensures forall i :: 0 <= i < |s| ==> HasIndexKey(SortBy(s, IndexKeyValue)[i])
  {
    var t := SortBy(s, IndexKeyValue);
    forall i | 0 <= i < |t|
      ensures HasIndexKey(t[i])
    {
      assert t[i] in multiset(s);
    }
  }

  /** With no array-index key, entries come out in creation order. */
  lemma EntriesInCreationOrder<V(!new)>(r: Record<V>)
    requires forall i :: 0 <= i < |r| ==> !IsArrayIndex(r[i].0)
    ensures Entries(r) == r
  {
    FilterByAll(r, HasIndexKey, false);
    assert FilterBy(r, HasIndexKey, true) == [] by {
      FilterByPartition(r, HasIndexKey);
    }
  }
}
