/**
 * Ordering shared by every `sortApps`: Swift's `<` on names and a
 * comparator-based sort by a (rank, name) key.
 */
module Ordering {

  /** Swift's `<` on strings, taken as the lexicographic order of characters. */
  predicate Less(a: string, b: string)
  {
    if a == [] then b != []
    else if b == [] then false
    else if a[0] != b[0] then a[0] < b[0]
    else Less(a[1..], b[1..])
  }

  lemma {:induction false} LessIrreflexive(a: string)
    ensures !Less(a, a)
  {
    if a != [] {
      LessIrreflexive(a[1..]);
    }
  }

  lemma {:induction false} LessTransitive(a: string, b: string, c: string)
    requires Less(a, b) && Less(b, c)
    ensures Less(a, c)
  {
    if a != [] && b != [] && c != [] && a[0] == b[0] == c[0] {
      LessTransitive(a[1..], b[1..], c[1..]);
    }
  }

  lemma {:induction false} LessTotal(a: string, b: string)
    ensures a == b || Less(a, b) || Less(b, a)
  {
    if a != [] && b != [] && a[0] == b[0] {
      LessTotal(a[1..], b[1..]);
      if a[1..] == b[1..] {
        assert a == [a[0]] + a[1..] && b == [b[0]] + b[1..];
      }
    }
  }

  lemma LessAsymmetric(a: string, b: string)
    requires Less(a, b)
    ensures !Less(b, a)
  {
    if Less(b, a) {
      LessTransitive(a, b, a);
      LessIrreflexive(a);
    }
  }

  /** Sort key: lower rank first, then ascending names. */
  datatype Key = Key(rank: int, name: string)

  predicate KeyLess(x: Key, y: Key)
  {
    x.rank < y.rank || (x.rank == y.rank && Less(x.name, y.name))
  }

  /** `y` does not sort before `x`. */
  predicate KeyLeq(x: Key, y: Key)
  {
    !KeyLess(y, x)
  }

  lemma KeyLeqTransitive(a: Key, b: Key, c: Key)
    requires KeyLeq(a, b) && KeyLeq(b, c)
    ensures KeyLeq(a, c)
  {
    if KeyLess(c, a) {
      LessTotal(a.name, b.name);
      LessTotal(b.name, c.name);
      if a.rank == b.rank == c.rank {
        if a.name != b.name && b.name != c.name {
          LessTransitive(c.name, a.name, b.name);
        }
      }
    }
  }

  lemma KeyLeqTotal(a: Key, b: Key)
    ensures KeyLeq(a, b) || KeyLeq(b, a)
  {
    if a.rank == b.rank && Less(a.name, b.name) {
      LessAsymmetric(a.name, b.name);
    }
  }

  predicate Sorted<T>(t: seq<T>, key: T -> Key)
  {
    forall i, j :: 0 <= i < j < |t| ==> KeyLeq(key(t[i]), key(t[j]))
  }

  /** `x` placed before the first element that does not sort below it. */
  function Insert<T>(x: T, s: seq<T>, key: T -> Key): (r: seq<T>)
    ensures |r| == |s| + 1
    ensures multiset(r) == multiset(s) + multiset{x}
    ensures Sorted(s, key) ==> Sorted(r, key)
  {
    if s == [] then [x]
    else if KeyLess(key(s[0]), key(x)) then
      var rest := Insert(x, s[1..], key);
      assert s == [s[0]] + s[1..];
      InsertSortedAbove(x, s, key, rest);
      [s[0]] + rest
    else
      InsertSortedBelow(x, s, key);
      [x] + s
  }

  lemma InsertSortedAbove<T>(x: T, s: seq<T>, key: T -> Key, rest: seq<T>)
    requires s != [] && KeyLess(key(s[0]), key(x))
    requires multiset(rest) == multiset(s[1..]) + multiset{x}
    requires Sorted(s, key) ==> Sorted(rest, key)
    ensures Sorted(s, key) ==> Sorted([s[0]] + rest, key)
  {
    if Sorted(s, key) {
      var r := [s[0]] + rest;
      forall i, j | 0 <= i < j < |r| ensures KeyLeq(key(r[i]), key(r[j])) {
        if i == 0 {
          var y := r[j];
          assert y in multiset(rest);
          if y == x {
            if key(x).rank == key(s[0]).rank {
              LessAsymmetric(key(s[0]).name, key(x).name);
            }
          } else {
            assert y in multiset(s[1..]);
            var k :| 0 <= k < |s[1..]| && s[1..][k] == y;
            assert s[k + 1] == y;
          }
        } else {
          assert r[i] == rest[i - 1] && r[j] == rest[j - 1];
        }
      }
    }
  }

  lemma InsertSortedBelow<T>(x: T, s: seq<T>, key: T -> Key)
    requires s != [] && !KeyLess(key(s[0]), key(x))
    ensures Sorted(s, key) ==> Sorted([x] + s, key)
  {
    if Sorted(s, key) {
      var r := [x] + s;
      forall i, j | 0 <= i < j < |r| ensures KeyLeq(key(r[i]), key(r[j])) {
        if i == 0 && j > 1 {
          KeyLeqTransitive(key(x), key(s[0]), key(s[j - 1]));
        }
      }
    }
  }

  /** The elements of `s`, arranged by ascending key. Elements with equal
    * keys keep their input order. */
  function SortBy<T>(s: seq<T>, key: T -> Key): (r: seq<T>)
    ensures |r| == |s|
  {
    if s == [] then [] else Insert(s[0], SortBy(s[1..], key), key)
  }

  /** The sort returns a permutation of its input in ascending key order. */
  lemma {:induction false} SortBySortedPermutation<T>(s: seq<T>, key: T -> Key)
    ensures multiset(SortBy(s, key)) == multiset(s)
    ensures Sorted(SortBy(s, key), key)
  {
    if s != [] {
      SortBySortedPermutation(s[1..], key);
      assert s == [s[0]] + s[1..];
    }
  }
}
