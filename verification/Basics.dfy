/** Shared datatypes and the order Python uses to sort mapping keys. */
module Basics {

  datatype Option<+T> = None | Some(value: T)

  datatype Result<+T, +E> = Ok(value: T) | Err(error: E)

  lemma PrefixStep<T>(s: seq<T>, i: nat)
    requires i < |s|
    ensures s[..i + 1] == s[..i] + [s[i]]
    ensures s[..i + 1][..i] == s[..i]
  {
  }

  lemma MapsEqual<K, V>(a: map<K, V>, b: map<K, V>)
    requires forall k :: k in a <==> k in b
    requires forall k :: k in a ==> a[k] == b[k]
    ensures a == b
  {
  }

  /** Lexicographic order on code points: Python's `<` on `str`. */
  predicate Less(a: string, b: string) {
    if b == [] then false
    else if a == [] then true
    else if a[0] != b[0] then a[0] < b[0]
    else Less(a[1..], b[1..])
  }

  lemma {:induction false} LessTotal(a: string, b: string)
    ensures Less(a, b) || a == b || Less(b, a)
  {
    if a != [] && b != [] && a[0] == b[0] {
      LessTotal(a[1..], b[1..]);
      if a[1..] == b[1..] {
        assert a == [a[0]] + a[1..] && b == [b[0]] + b[1..];
      }
    }
  }

  lemma {:induction false} LessTransitive(a: string, b: string, c: string)
    requires Less(a, b) && Less(b, c)
    ensures Less(a, c)
  {
    if a != [] && a[0] == b[0] && b[0] == c[0] {
      LessTransitive(a[1..], b[1..], c[1..]);
    }
  }

  lemma {:induction false} LessIrreflexive(a: string)
    ensures !Less(a, a)
  {
    if a != [] {
      LessIrreflexive(a[1..]);
    }
  }

  /** Strictly increasing, hence without repetitions. */
  ghost predicate Increasing(keys: seq<string>) {
    forall i, j :: 0 <= i < j < |keys| ==> Less(keys[i], keys[j])
  }

  ghost predicate Distinct<T(!new)>(s: seq<T>) {
    forall i, j :: 0 <= i < j < |s| ==> s[i] != s[j]
  }

  /** Python's `sorted` on strings. */
  function Sorted(keys: seq<string>): (r: seq<string>)
    ensures |r| == |keys|
    ensures forall k :: k in r <==> k in keys
  {
    if keys == [] then [] else
      assert keys == [keys[0]] + keys[1..];
      Insert(keys[0], Sorted(keys[1..]))
  }

  function Insert(key: string, keys: seq<string>): (r: seq<string>)
    ensures |r| == |keys| + 1
    ensures forall k :: k in r <==> k == key || k in keys
  {
    if keys == [] then [key]
    else if Less(key, keys[0]) then [key] + keys
    else
      assert keys == [keys[0]] + keys[1..];
      [keys[0]] + Insert(key, keys[1..])
  }

  lemma {:induction false} InsertIncreasing(key: string, keys: seq<string>)
    requires Increasing(keys) && key !in keys
    ensures Increasing(Insert(key, keys))
  {
    if keys == [] {
    } else if Less(key, keys[0]) {
      forall i | 0 <= i < |keys|
        ensures Less(key, keys[i])
      {
        if i > 0 {
          LessTransitive(key, keys[0], keys[i]);
        }
      }
    } else {
      LessTotal(key, keys[0]);
      assert Increasing(keys[1..]);
      InsertIncreasing(key, keys[1..]);
      var rest := Insert(key, keys[1..]);
      forall i | 0 <= i < |rest|
        ensures Less(keys[0], rest[i])
      {
        assert rest[i] in rest;
        if rest[i] != key {
          assert rest[i] in keys[1..];
        }
      }
    }
  }

  lemma {:induction false} SortedIncreasing(keys: seq<string>)
    requires Distinct(keys)
    ensures Increasing(Sorted(keys))
  {
    if keys != [] {
      SortedIncreasing(keys[1..]);
      InsertIncreasing(keys[0], Sorted(keys[1..]));
    }
  }

  /** A set of strings has one increasing listing only. */
  lemma {:induction false} IncreasingUnique(a: seq<string>, b: seq<string>)
    requires Increasing(a) && Increasing(b)
    requires forall k :: k in a <==> k in b
    ensures a == b
  {
    if a != [] { assert a[0] in b; }
    if b != [] { assert b[0] in a; }
    if a != [] {
      FirstIsLeast(a, b);
      FirstIsLeast(b, a);
      if a[0] != b[0] {
        LessTransitive(a[0], b[0], a[0]);
        LessIrreflexive(a[0]);
      }
      forall k
        ensures k in a[1..] <==> k in b[1..]
      {
        TailMembers(a, k);
        TailMembers(b, k);
      }
      IncreasingUnique(a[1..], b[1..]);
      assert a == [a[0]] + a[1..] && b == [b[0]] + b[1..];
    }
  }

  lemma FirstIsLeast(a: seq<string>, b: seq<string>)
    requires Increasing(a) && a != [] && b != []
    requires forall k :: k in b ==> k in a
    ensures a[0] == b[0] || Less(a[0], b[0])
  {
    assert b[0] in a;
  }

  lemma TailMembers(a: seq<string>, k: string)
    requires Increasing(a) && a != []
    ensures k in a[1..] <==> k in a && k != a[0]
  {
    LessIrreflexive(a[0]);
    assert a == [a[0]] + a[1..];
  }

  lemma SortedOfSameSet(a: seq<string>, b: seq<string>)
    requires Distinct(a) && Distinct(b)
    requires forall k :: k in a <==> k in b
    ensures Sorted(a) == Sorted(b)
  {
    SortedIncreasing(a);
    SortedIncreasing(b);
    IncreasingUnique(Sorted(a), Sorted(b));
  }
}
