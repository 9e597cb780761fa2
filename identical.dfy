/** `Object.identical(a, b)` (webroot/js/contrail-layout.js): structural
    equality by comparing the JSON text of canonical forms in which every
    object's keys are sorted. The `sortArrays === true` variant is not modelled. */
module StructuralEquality {
  import opened Strings
  import opened JsonValue

  // ---------------------------------------------------------------------
  // Sorting by a string key, as `Array.prototype.sort()` orders strings
  // ---------------------------------------------------------------------

  predicate SortedBy<T>(s: seq<T>, key: T -> string) {
    forall i, j :: 0 <= i < j < |s| ==> StrLeq(key(s[i]), key(s[j]))
  }

  /** Every element of `s` sorts at or after `x`. */
  predicate AllAtOrAfter<T>(x: T, s: seq<T>, key: T -> string) {
    forall i :: 0 <= i < |s| ==> StrLeq(key(x), key(s[i]))
  }

  lemma FirstOfSortedIsLeast<T>(x: T, s: seq<T>, key: T -> string)
    requires SortedBy(s, key) && s != [] && StrLeq(key(x), key(s[0]))
    ensures AllAtOrAfter(x, s, key)
  {
    forall i | 0 <= i < |s| ensures StrLeq(key(x), key(s[i])) {
      if i > 0 { StrLeqTransitive(key(x), key(s[0]), key(s[i])); }
    }
  }

  /** `x` put into the sorted `s` before the first element that sorts after it. */
  function Insert<T>(x: T, s: seq<T>, key: T -> string): (r: seq<T>)
    requires SortedBy(s, key)
    ensures SortedBy(r, key)
    ensures multiset(r) == multiset(s) + multiset{x}
  {
    if s == [] then [x]
    else if StrLeq(key(x), key(s[0])) then
      FirstOfSortedIsLeast(x, s, key);
      [x] + s
    else
      var rest := Insert(x, s[1..], key);
      HeadBeforeInserted(x, s, rest, key);
      [s[0]] + rest
  }

  /** When the head of a sorted `s` sorts before `x`, keeping that head in
      front of `x` inserted into the tail gives a sorted arrangement of `s`
      and `x`. */
  lemma HeadBeforeInserted<T>(x: T, s: seq<T>, rest: seq<T>, key: T -> string)
    requires SortedBy(s, key) && s != [] && !StrLeq(key(x), key(s[0]))
    requires SortedBy(rest, key) && multiset(rest) == multiset(s[1..]) + multiset{x}
    ensures SortedBy([s[0]] + rest, key)
    ensures multiset([s[0]] + rest) == multiset(s) + multiset{x}
  {
    StrLessAsymmetric(key(s[0]), key(x));
    forall i | 0 <= i < |rest| ensures StrLeq(key(s[0]), key(rest[i])) {
      assert rest[i] in multiset(rest);
      if rest[i] != x {
        assert rest[i] in multiset(s[1..]);
        var k :| 0 <= k < |s[1..]| && s[1..][k] == rest[i];
        assert s[k + 1] == rest[i];
      }
    }
    var r := [s[0]] + rest;
    forall i, j | 0 <= i < j < |r| ensures StrLeq(key(r[i]), key(r[j])) {
      if i > 0 { assert r[i] == rest[i - 1] && r[j] == rest[j - 1]; }
      else { assert r[j] == rest[j - 1]; }
    }
    assert s == [s[0]] + s[1..];
  }

  /** `s` sorted by `key` (insertion sort; stable). */
  function SortBy<T>(s: seq<T>, key: T -> string): (r: seq<T>)
    ensures SortedBy(r, key)
    ensures multiset(r) == multiset(s)
    ensures |r| == |s|
    ensures forall i :: 0 <= i < |r| ==> r[i] in s
  {
    if s == [] then []
    else
      var r := Insert(s[0], SortBy(s[1..], key), key);
      ArrangementOf(s, r);
      r
  }

  /** A sequence holding the head of `s` and the elements of its tail is an
      arrangement of `s`. */
  lemma ArrangementOf<T>(s: seq<T>, r: seq<T>)
    requires s != [] && multiset(r) == multiset(s[1..]) + multiset{s[0]}
    ensures multiset(r) == multiset(s) && |r| == |s|
    ensures forall i :: 0 <= i < |r| ==> r[i] in s
  {
    assert s == [s[0]] + s[1..];
    assert |r| == |multiset(r)| == |multiset(s)| == |s|;
    forall i | 0 <= i < |r| ensures r[i] in s {
      assert r[i] in multiset(r);
    }
  }

  lemma SortedHeadsEqual<T>(s: seq<T>, t: seq<T>, key: T -> string)
    requires SortedBy(s, key) && SortedBy(t, key)
    requires multiset(s) == multiset(t) && s != []
    requires forall x, y :: key(x) == key(y) ==> x == y
    ensures t != [] && s[0] == t[0]
  {
    assert s[0] in multiset(t);
    assert t != [];
    assert t[0] in multiset(s);
    var j :| 0 <= j < |t| && t[j] == s[0];
    var i :| 0 <= i < |s| && s[i] == t[0];
    if j > 0 { assert StrLeq(key(t[0]), key(t[j])); } else { StrLessIrreflexive(key(t[0])); }
    if i > 0 { assert StrLeq(key(s[0]), key(s[i])); } else { StrLessIrreflexive(key(s[0])); }
    StrLeqAntisymmetric(key(s[0]), key(t[0]));
  }

  lemma MultisetTails<T>(s: seq<T>, t: seq<T>)
    requires s != [] && t != [] && s[0] == t[0] && multiset(s) == multiset(t)
    ensures multiset(s[1..]) == multiset(t[1..])
  {
    assert s == [s[0]] + s[1..] && t == [t[0]] + t[1..];
    assert multiset(s[1..]) == multiset(s) - multiset{s[0]};
    assert multiset(t[1..]) == multiset(t) - multiset{t[0]};
  }

  /** Two sorted arrangements of the same elements under a key that tells
      every two elements apart are the same sequence: the sorted order does
      not depend on the order of the input. */
  lemma {:induction false} SortedUnique<T>(s: seq<T>, t: seq<T>, key: T -> string)
    requires SortedBy(s, key) && SortedBy(t, key)
    requires multiset(s) == multiset(t)
    requires forall x, y :: key(x) == key(y) ==> x == y
    ensures s == t
  {
    if s == [] {
      assert |t| == |multiset(t)| == 0;
    } else {
      SortedHeadsEqual(s, t, key);
      MultisetTails(s, t);
      SortedUnique(s[1..], t[1..], key);
      assert s == [s[0]] + s[1..] && t == [t[0]] + t[1..];
    }
  }

  // ---------------------------------------------------------------------
  // Canonical form and the comparison
  // ---------------------------------------------------------------------

  /** The key `Object.keys` gives array position `i`. */
  function IndexName(i: nat): string {
    NatToString(i)
  }

  function Id(s: string): string {
    s
  }

  function Range(n: nat): (r: seq<nat>)
    ensures |r| == n && forall i :: 0 <= i < n ==> r[i] == i
    ensures forall x :: x in r ==> x < n
  {
    if n == 0 then [] else Range(n - 1) + [n - 1]
  }

  /** `{key: k, value: v}`, the record the canonical form lists per key. */
  function Entry(k: string, v: Json): Json {
    JObj([("key", JStr(k)), ("value", v)])
  }

  /** The canonical form of a value (the inner `sort` of `Object.identical`):
      an array or an object becomes the array of `{key, value}` records of its
      keys in sorted order, values canonicalised in turn; an array's keys are
      its positions written in decimal, so they sort as strings ("10" before
      "2"). Every other value is its own canonical form. */
  function Canon(j: Json): (r: Json)
    ensures j.JArr? ==> r.JArr? && |r.items| == |j.items|
    ensures j.JObj? ==> r.JArr? && |r.items| == |j.members|
    ensures !j.JArr? && !j.JObj? ==> r == j
    decreases j
  {
    match j
    case JArr(xs) =>
      var order := SortBy(Range(|xs|), IndexName);
      JArr(seq(|order|, n requires 0 <= n < |order| =>
        assert order[n] in order;
        Entry(IndexName(order[n]), Canon(xs[order[n]]))))
    case JObj(ms) =>
      var keys := SortBy(KeysOf(ms), Id);
      JArr(seq(|keys|, n requires 0 <= n < |keys| =>
        assert keys[n] in keys;
        Entry(keys[n], Canon(ms[KeyIndex(ms, keys[n])].1))))
    case _ => j
  }

  /** Entry `n` of an object's canonical form is the `{key, value}` record
      of the `n`-th key in string order. */
  lemma CanonObjectEntry(ms: seq<(string, Json)>, n: nat)
    requires n < |ms|
    ensures Canon(JObj(ms)).items[n].JObj?
    ensures Canon(JObj(ms)).items[n].members[0] == ("key", JStr(SortBy(KeysOf(ms), Id)[n]))
  {
    var keys := SortBy(KeysOf(ms), Id);
    assert keys[n] in keys;
    assert Canon(JObj(ms)).items[n] == Entry(keys[n], Canon(ms[KeyIndex(ms, keys[n])].1));
  }

  /** Entry `n` of an array's canonical form is the record of the `n`-th
      index in string order, so position 10 comes before position 2. */
  lemma CanonArrayEntry(xs: seq<Json>, n: nat)
    requires n < |xs|
    ensures Canon(JArr(xs)).items[n].JObj?
    ensures Canon(JArr(xs)).items[n].members[0] == ("key", JStr(IndexName(SortBy(Range(|xs|), IndexName)[n])))
  {
    var order := SortBy(Range(|xs|), IndexName);
    assert order[n] in order;
    assert Canon(JArr(xs)).items[n] == Entry(IndexName(order[n]), Canon(xs[order[n]]));
  }

  /** `Object.identical(a, b)`. */
  predicate Identical(a: Json, b: Json) {
    Serialize(Canon(a)) == Serialize(Canon(b))
  }

  /** `a` and `b` are the same value except that objects may list their
      members in different orders. */
  ghost predicate SameUpToKeyOrder(a: Json, b: Json)
    decreases a
  {
    if a.JArr? && b.JArr? then
      && |a.items| == |b.items|
      && forall i :: 0 <= i < |a.items| ==> SameUpToKeyOrder(a.items[i], b.items[i])
    else if a.JObj? && b.JObj? then
      && DistinctKeys(a.members) && DistinctKeys(b.members)
      && (forall k :: k in KeysOf(a.members) <==> k in KeysOf(b.members))
      && forall k :: k in KeysOf(a.members) ==>
           SameUpToKeyOrder(a.members[KeyIndex(a.members, k)].1, b.members[KeyIndex(b.members, k)].1)
    else
      a == b
  }

  lemma {:induction false} DistinctCounts<T>(s: seq<T>)
    requires forall i, j :: 0 <= i < j < |s| ==> s[i] != s[j]
    ensures forall x :: multiset(s)[x] == if x in s then 1 else 0
  {
    if s != [] {
      assert s == [s[0]] + s[1..];
      DistinctCounts(s[1..]);
    }
  }

  /** Two lists without repetitions that hold the same elements are
      arrangements of each other. */
  lemma DistinctSameMembers<T>(s: seq<T>, t: seq<T>)
    requires forall i, j :: 0 <= i < j < |s| ==> s[i] != s[j]
    requires forall i, j :: 0 <= i < j < |t| ==> t[i] != t[j]
    requires forall x :: x in s <==> x in t
    ensures multiset(s) == multiset(t)
  {
    DistinctCounts(s);
    DistinctCounts(t);
    assert forall x :: multiset(s)[x] == multiset(t)[x];
  }

  /** Arrays of one length whose elements have pairwise equal canonical forms
      have equal canonical forms. */
  lemma ArrayCanonPointwise(xs: seq<Json>, ys: seq<Json>)
    requires |xs| == |ys|
    requires forall i :: 0 <= i < |xs| ==> Canon(xs[i]) == Canon(ys[i])
    ensures Canon(JArr(xs)) == Canon(JArr(ys))
  {
    var order := SortBy(Range(|xs|), IndexName);
    assert forall n :: 0 <= n < |order| ==> order[n] < |xs|;
  }

  /** Objects with the same sorted keys whose values under each key have equal
      canonical forms have equal canonical forms. */
  lemma ObjectCanonPointwise(ms: seq<(string, Json)>, ns: seq<(string, Json)>)
    requires SortBy(KeysOf(ms), Id) == SortBy(KeysOf(ns), Id)
    requires forall k :: k in KeysOf(ms) && k in KeysOf(ns) ==>
               Canon(ms[KeyIndex(ms, k)].1) == Canon(ns[KeyIndex(ns, k)].1)
    ensures Canon(JObj(ms)) == Canon(JObj(ns))
  {
    var keys := SortBy(KeysOf(ms), Id);
    var a, b := Canon(JObj(ms)), Canon(JObj(ns));
    forall n | 0 <= n < |keys| ensures a.items[n] == b.items[n] {
      assert keys[n] in KeysOf(ms) && keys[n] in KeysOf(ns);
    }
    assert a.items == b.items;
  }

  /** Values that differ only in the order of object members have the same
      canonical form. */
  lemma {:induction false} SameUpToKeyOrderCanon(a: Json, b: Json)
    requires SameUpToKeyOrder(a, b)
    ensures Canon(a) == Canon(b)
    decreases a
  {
    match a
    case JArr(xs) =>
      var ys := b.items;
      forall i | 0 <= i < |xs| ensures Canon(xs[i]) == Canon(ys[i]) {
        SameUpToKeyOrderCanon(xs[i], ys[i]);
      }
      ArrayCanonPointwise(xs, ys);
    case JObj(ms) =>
      var ns := b.members;
      DistinctSameMembers(KeysOf(ms), KeysOf(ns));
      SortedUnique(SortBy(KeysOf(ms), Id), SortBy(KeysOf(ns), Id), Id);
      forall k | k in KeysOf(ms) && k in KeysOf(ns)
        ensures Canon(ms[KeyIndex(ms, k)].1) == Canon(ns[KeyIndex(ns, k)].1)
      {
        SameUpToKeyOrderCanon(ms[KeyIndex(ms, k)].1, ns[KeyIndex(ns, k)].1);
      }
      ObjectCanonPointwise(ms, ns);
    case _ =>
  }

  /** ... and therefore compare identical. */
  lemma SameUpToKeyOrderIdentical(a: Json, b: Json)
    requires SameUpToKeyOrder(a, b)
    ensures Identical(a, b)
  {
    SameUpToKeyOrderCanon(a, b);
  }

  lemma {:induction false} SameUpToKeyOrderReflexive(j: Json)
    requires WellFormed(j)
    ensures SameUpToKeyOrder(j, j)
    decreases j
  {
    match j
    case JArr(xs) =>
      forall i | 0 <= i < |xs| ensures SameUpToKeyOrder(xs[i], xs[i]) {
        SameUpToKeyOrderReflexive(xs[i]);
      }
    case JObj(ms) =>
      forall k | k in KeysOf(ms) ensures SameUpToKeyOrder(ms[KeyIndex(ms, k)].1, ms[KeyIndex(ms, k)].1) {
        SameUpToKeyOrderReflexive(ms[KeyIndex(ms, k)].1);
      }
    case _ =>
  }

  /** Two objects whose members are the same but listed in different orders
      compare identical, because their keys are sorted before serialisation. */
  lemma KeyOrderIrrelevant(ms1: seq<(string, Json)>, ms2: seq<(string, Json)>)
    requires WellFormed(JObj(ms1)) && WellFormed(JObj(ms2))
    requires multiset(ms1) == multiset(ms2)
    ensures Identical(JObj(ms1), JObj(ms2))
  {
    forall k ensures k in KeysOf(ms1) ==> k in KeysOf(ms2) {
      if k in KeysOf(ms1) {
        var i := KeyIndex(ms1, k);
        assert ms1[i] in multiset(ms2);
        var j :| 0 <= j < |ms2| && ms2[j] == ms1[i];
        assert KeysOf(ms2)[j] == k;
      }
    }
    forall k ensures k in KeysOf(ms2) ==> k in KeysOf(ms1) {
      if k in KeysOf(ms2) {
        var i := KeyIndex(ms2, k);
        assert ms2[i] in multiset(ms1);
        var j :| 0 <= j < |ms1| && ms1[j] == ms2[i];
        assert KeysOf(ms1)[j] == k;
      }
    }
    forall k | k in KeysOf(ms1)
      ensures SameUpToKeyOrder(ms1[KeyIndex(ms1, k)].1, ms2[KeyIndex(ms2, k)].1)
    {
      var i := KeyIndex(ms1, k);
      assert ms1[i] in multiset(ms2);
      KeyIndexOfMember(ms2, k, ms1[i].1);
      SameUpToKeyOrderReflexive(ms1[i].1);
    }
    SameUpToKeyOrderIdentical(JObj(ms1), JObj(ms2));
  }

  /** `Object.identical` is reflexive ... */
  lemma IdenticalReflexive(a: Json)
    ensures Identical(a, a)
  {
  }

  /** ... and symmetric. */
  lemma IdenticalSymmetric(a: Json, b: Json)
    ensures Identical(a, b) == Identical(b, a)
  {
  }

  /** Arrays and objects share one canonical form: an empty object is
      identical to an empty array, and `{"0": x}` to `[x]`. */
  lemma ArraysAndObjectsConflated(x: Json)
    ensures Identical(JObj([]), JArr([]))
    ensures Identical(JObj([("0", x)]), JArr([x]))
  {
    assert SortBy(KeysOf([("0", x)]), Id) == ["0"];
    assert SortBy(Range(1), IndexName) == [0];
    assert IndexName(0) == "0";
  }
}
