/** The usual Some/None, for lookups and for the source's `null` and `undefined`. */
module Options {
  datatype Option<+T> = None | Some(value: T)

  function Lookup<K, V>(m: map<K, V>, k: K): Option<V> {
    if k in m then Some(m[k]) else None
  }
}

/** Text compared without regard to the case of its letters. */
module Texts {
  function LowerChar(c: char): char {
    if 'A' <= c <= 'Z' then (c as int + 32) as char else c
  }

  /** `toLowerCase`, on the characters hex is written in. */
  function Lower(s: string): (r: string)
    ensures |r| == |s| && forall i | 0 <= i < |s| :: r[i] == LowerChar(s[i])
  {
    seq(|s|, i requires 0 <= i < |s| => LowerChar(s[i]))
  }

  predicate SameLetter(a: char, b: char) {
    || a == b
    || ('A' <= a <= 'Z' && 'a' <= b <= 'z' && b as int - 'a' as int == a as int - 'A' as int)
    || ('A' <= b <= 'Z' && 'a' <= a <= 'z' && a as int - 'a' as int == b as int - 'A' as int)
  }

  /** Lower-casing makes two texts one exactly when they differ in nothing but case. */
  lemma LowerEqualIff(a: string, b: string)
    ensures Lower(a) == Lower(b) <==> |a| == |b| && forall i | 0 <= i < |a| :: SameLetter(a[i], b[i])
  {
    if Lower(a) == Lower(b) {
      forall i | 0 <= i < |a| ensures SameLetter(a[i], b[i]) {
        assert Lower(a)[i] == Lower(b)[i];
      }
    }
    if |a| == |b| && forall i | 0 <= i < |a| :: SameLetter(a[i], b[i]) {
      assert forall i | 0 <= i < |a| :: Lower(a)[i] == Lower(b)[i];
    }
  }
}

/** A JavaScript Map: a finite map that also remembers the order its keys were first set in. */
module Ordered {
  import opened Options

  predicate Distinct<T(==)>(s: seq<T>) {
    forall i, j | 0 <= i < j < |s| :: s[i] != s[j]
  }

  function IndexOf<T(==)>(s: seq<T>, x: T): (i: nat)
    requires x in s
    ensures i < |s| && s[i] == x
    ensures x !in s[..i]
  {
    if s[0] == x then 0 else 1 + IndexOf(s[1..], x)
  }

  function Without<T(==)>(s: seq<T>, x: T): seq<T> {
    if x in s then s[..IndexOf(s, x)] + s[IndexOf(s, x) + 1..] else s
  }

  datatype OMap<K(==, !new), V> = OMap(keys: seq<K>, at: map<K, V>) {
    ghost predicate Valid() {
      Distinct(keys) && forall k :: k in keys <==> k in at
    }

    function Set(k: K, v: V): OMap<K, V> {
      OMap(if k in at then keys else keys + [k], at[k := v])
    }

    function Delete(k: K): OMap<K, V> {
      OMap(Without(keys, k), at - {k})
    }

    function Values(): (vs: seq<V>)
      requires Valid()
      ensures |vs| == |keys|
      ensures forall i | 0 <= i < |vs| :: vs[i] == at[keys[i]]
    {
      seq(|keys|, i requires 0 <= i < |keys| => at[keys[i]])
    }
  }

  lemma WithoutAt<T>(s: seq<T>, i: nat)
    requires Distinct(s) && i < |s|
    ensures Without(s, s[i]) == s[..i] + s[i + 1..]
  {
    var j := IndexOf(s, s[i]);
    assert s[j] == s[i] && j == i;
  }

  lemma DeleteValid<K(!new), V>(m: OMap<K, V>, k: K)
    requires m.Valid()
    ensures m.Delete(k).Valid()
    ensures forall x :: x in m.Delete(k).keys <==> x in m.keys && x != k
  {
    if k in m.keys {
      var i := IndexOf(m.keys, k);
      var w := Without(m.keys, k);
      forall x ensures x in w <==> x in m.keys && x != k {
        if x in m.keys && x != k {
          var j := IndexOf(m.keys, x);
          assert w[if j < i then j else j - 1] == x;
        }
      }
    }
  }

  lemma SetNew<K(!new), V>(m: OMap<K, V>, k: K, v: V)
    requires m.Valid() && k !in m.at
    ensures m.Set(k, v).Valid() && m.Set(k, v).keys == m.keys + [k]
  {
  }

  lemma SameEntries<K(!new), V>(m: OMap<K, V>, m': OMap<K, V>)
    requires m.Valid() && m'.Valid() && m.keys == m'.keys
    requires forall k | k in m.at && k in m'.at :: m.at[k] == m'.at[k]
    ensures m == m'
  {
    forall k ensures k in m.at <==> k in m'.at { assert k in m.keys <==> k in m'.keys; }
    assert m.at == m'.at;
  }

  /** Deleting the key at position `i` closes the gap and disturbs no other entry. */
  lemma DeleteAt<K(!new), V>(m: OMap<K, V>, i: nat)
    requires m.Valid() && i < |m.keys|
    ensures m.Delete(m.keys[i]).Valid()
    ensures m.Delete(m.keys[i]).keys == m.keys[..i] + m.keys[i + 1..]
  {
    WithoutAt(m.keys, i);
    DeleteValid(m, m.keys[i]);
  }

  /** An ascending run of integers, `lo` up to but not including `hi`. */
  function Range(lo: int, hi: int): (s: seq<int>)
    ensures |s| == if lo <= hi then hi - lo else 0
    ensures forall i | 0 <= i < |s| :: s[i] == lo + i
  {
    if lo <= hi then seq(hi - lo, i => lo + i) else []
  }

  predicate Increasing(s: seq<int>) {
    forall i, j | 0 <= i < j < |s| :: s[i] < s[j]
  }

  function Insert(k: int, s: seq<int>): seq<int> {
    if s == [] || k < s[0] then [k] + s else [s[0]] + Insert(k, s[1..])
  }

  /** The order in which a JavaScript object yields integer-like keys, however they were set. */
  function Ascending(keys: seq<int>): seq<int> {
    if keys == [] then [] else Insert(keys[|keys| - 1], Ascending(keys[..|keys| - 1]))
  }

  lemma {:induction false} InsertLast(k: int, s: seq<int>)
    requires forall i | 0 <= i < |s| :: s[i] < k
    ensures Insert(k, s) == s + [k]
  {
    if s != [] {
      InsertLast(k, s[1..]);
      assert s + [k] == [s[0]] + (s[1..] + [k]);
    }
  }

  lemma {:induction false} AscendingKeepsIncreasing(keys: seq<int>)
    requires Increasing(keys)
    ensures Ascending(keys) == keys
  {
    if keys != [] {
      var rest := keys[..|keys| - 1];
      AscendingKeepsIncreasing(rest);
      InsertLast(keys[|keys| - 1], rest);
      assert rest + [keys[|keys| - 1]] == keys;
    }
  }

  /** Through a plain JavaScript object and back: the same entries, integer keys in ascending order. */
  function ThroughObject<V>(m: OMap<int, V>): OMap<int, V> {
    OMap(Ascending(m.keys), m.at)
  }
}
