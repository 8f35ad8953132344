/** Documents that store a keyed catalog as the list of its values in key order. */
module Catalog {
  import opened Seqs

  /** Lexicographic order of strings by code point. */
  predicate Less(a: string, b: string) {
    if a == [] then b != []
    else if b == [] then false
    else a[0] < b[0] || (a[0] == b[0] && Less(a[1..], b[1..]))
  }

  lemma {:induction false} LessTotal(a: string, b: string)
    ensures Less(a, b) || Less(b, a) || a == b
  {
    if a != [] && b != [] && a[0] == b[0] {
      LessTotal(a[1..], b[1..]);
      assert a == [a[0]] + a[1..] && b == [b[0]] + b[1..];
    }
  }

  lemma {:induction false} LessTransitive(a: string, b: string, c: string)
    requires Less(a, b) && Less(b, c)
    ensures Less(a, c)
  {
    if a != [] && a[0] == b[0] == c[0] {
      LessTransitive(a[1..], b[1..], c[1..]);
    }
  }

  lemma {:induction false} LessIrreflexive(a: string)
    ensures !Less(a, a)
  {
    if a != [] { LessIrreflexive(a[1..]); }
  }

  predicate IsLeast(k: string, ks: set<string>) {
    k in ks && forall j :: j in ks ==> !Less(j, k)
  }

  lemma {:induction false} LeastExists(ks: set<string>)
    requires ks != {}
    ensures exists k :: IsLeast(k, ks)
  {
    var k :| k in ks;
    var rest := ks - {k};
    LessIrreflexive(k);
    if rest == {} {
      assert ks == rest + {k};
      assert IsLeast(k, ks);
    } else {
      LeastExists(rest);
      var m :| IsLeast(m, rest);
      LessTotal(k, m);
      if Less(k, m) {
        forall j | j in ks ensures !Less(j, k) {
          if j != k && Less(j, k) {
            LessTransitive(j, k, m);
          }
        }
        assert IsLeast(k, ks);
      } else {
        assert forall j :: j in ks ==> j == k || j in rest;
        assert IsLeast(m, ks);
      }
    }
  }

  lemma LeastIsUnique(a: string, b: string, ks: set<string>)
    requires IsLeast(a, ks) && IsLeast(b, ks)
    ensures a == b
  {
    LessTotal(a, b);
  }

  lemma LeastIsOne(ks: set<string>)
    ensures forall a, b :: IsLeast(a, ks) && IsLeast(b, ks) ==> a == b
  {
    forall a, b | IsLeast(a, ks) && IsLeast(b, ks) ensures a == b { LeastIsUnique(a, b, ks); }
  }

  function Least(ks: set<string>): (k: string)
    requires ks != {}
    ensures IsLeast(k, ks)
  {
    LeastExists(ks);
    LeastIsOne(ks);
    var k :| k in ks && IsLeast(k, ks);
    k
  }

  /** The keys in ascending order. */
  function SortedKeys(ks: set<string>): (r: seq<string>)
    ensures forall k :: k in r <==> k in ks
  {
    if ks == {} then [] else
      var k := Least(ks);
      [k] + SortedKeys(ks - {k})
  }

  lemma {:induction false} SortedKeysAscend(ks: set<string>)
    ensures forall i, j :: 0 <= i < j < |SortedKeys(ks)| ==> Less(SortedKeys(ks)[i], SortedKeys(ks)[j])
  {
    if ks != {} {
      var k := Least(ks);
      var rest := SortedKeys(ks - {k});
      SortedKeysAscend(ks - {k});
      forall j | j in rest ensures Less(k, j) {
        LessTotal(k, j);
      }
    }
  }

  /** The values of a catalog in key order. */
  function Values<T>(m: map<string, T>): seq<T> {
    ValuesOf(m, SortedKeys(m.Keys))
  }

  function ValuesOf<T>(m: map<string, T>, keys: seq<string>): (r: seq<T>)
    requires forall k :: k in keys ==> k in m
    ensures |r| == |keys| && forall i :: 0 <= i < |keys| ==> r[i] == m[keys[i]]
  {
    if keys == [] then [] else [m[keys[0]]] + ValuesOf(m, keys[1..])
  }

  /** Collect a list into a catalog: a later value replaces an earlier one with the same key. */
  function Load<T>(list: seq<T>, key: T -> string): map<string, T> {
    if list == [] then map[] else Load(Init(list), key)[key(Last(list)) := Last(list)]
  }

  ghost predicate Keyed<T>(m: map<string, T>, key: T -> string) {
    forall k :: k in m ==> key(m[k]) == k
  }

  lemma {:induction false} LoadOfValues<T>(m: map<string, T>, keys: seq<string>, key: T -> string)
    requires Keyed(m, key) && forall k :: k in keys ==> k in m
    ensures Load(ValuesOf(m, keys), key) == map k | k in m && k in keys :: m[k]
  {
    var list := ValuesOf(m, keys);
    if keys != [] {
      var front := Init(keys);
      assert keys == front + [Last(keys)];
      LoadOfValues(m, front, key);
      assert Init(list) == ValuesOf(m, front);
      assert Last(list) == m[Last(keys)];
    }
  }

  /** Writing a catalog out and reading it back is the identity. */
  lemma LoadDumpsBack<T>(m: map<string, T>, key: T -> string)
    requires Keyed(m, key)
    ensures Load(Values(m), key) == m
  {
    LoadOfValues(m, SortedKeys(m.Keys), key);
  }

  lemma {:induction false} LoadIsKeyed<T>(list: seq<T>, key: T -> string)
    ensures Keyed(Load(list, key), key)
  {
    if list != [] { LoadIsKeyed(Init(list), key); }
  }
}
