/**
 * The update decision of `UpdateChecker` (`AppPorts/Utils/UpdateChecker.swift`
 * and its older copy `AppPorts/UpdateChecker.swift`, whose decision code is
 * the same): dotted version strings are compared component by component,
 * and the latest release is offered only when its tag names a newer version
 * than the running one.
 */
module Updates {
  import opened Outcomes
  import opened Text

  /** Foundation's `ComparisonResult`. */
  datatype Comparison = Ascending | Same | Descending

  function Flip(c: Comparison): Comparison
  {
    match c
    case Ascending => Descending
    case Same => Same
    case Descending => Ascending
  }

  /** The numeric components of a version: the non-empty pieces between dots
    * that parse as integers, in order; every other piece is dropped. */
  function Components(v: string): seq<int>
  {
    Parsed(SplitNonEmpty(v, '.'))
  }

  /** `compactMap { Int($0) }`. */
  function Parsed(pieces: seq<string>): (r: seq<int>)
    ensures |r| <= |pieces|
  {
    if pieces == [] then []
    else match ParseInt(pieces[0])
      case None => Parsed(pieces[1..])
      case Some(n) => [n] + Parsed(pieces[1..])
  }

  /** Component `i` of a version, a missing component counting as 0. */
  function At(c: seq<int>, i: nat): int
  {
    if i < |c| then c[i] else 0
  }

  /** The components from `i` on. */
  function From(c: seq<int>, i: nat): (r: seq<int>)
    ensures |r| == if i <= |c| then |c| - i else 0
  {
    if i <= |c| then c[i..] else []
  }

  /** The order of two component lists: the first position where they
    * differ decides, missing components counting as 0. */
  function Compared(a: seq<int>, b: seq<int>): Comparison
    decreases |a| + |b|
  {
    if a == [] && b == [] then Same
    else if At(a, 0) > At(b, 0) then Descending
    else if At(a, 0) < At(b, 0) then Ascending
    else Compared(From(a, 1), From(b, 1))
  }

  /** `compareVersions`: a loop over the longer list's positions. */
  method CompareVersions(v1: string, v2: string) returns (r: Comparison)
    ensures r == Compared(Components(v1), Components(v2))
  {
    var components1 := Components(v1);
    var components2 := Components(v2);
    var count := if |components1| > |components2| then |components1| else |components2|;
    for i := 0 to count
      invariant Compared(components1, components2) == Compared(From(components1, i), From(components2, i))
    {
      var num1 := if i < |components1| then components1[i] else 0;
      var num2 := if i < |components2| then components2[i] else 0;
      assert From(From(components1, i), 1) == From(components1, i + 1);
      assert From(From(components2, i), 1) == From(components2, i + 1);
      if num1 > num2 {
        return Descending;
      }
      if num1 < num2 {
        return Ascending;
      }
    }
    return Same;
  }

  /** A version compares the same as itself. */
  lemma {:induction false} ComparedReflexive(a: seq<int>)
    ensures Compared(a, a) == Same
    decreases |a|
  {
    if a != [] {
      ComparedReflexive(From(a, 1));
    }
  }

  /** Swapping the two versions swaps ascending and descending. */
  lemma {:induction false} ComparedSwap(a: seq<int>, b: seq<int>)
    ensures Compared(b, a) == Flip(Compared(a, b))
    decreases |a| + |b|
  {
    if a != [] || b != [] {
      ComparedSwap(From(a, 1), From(b, 1));
    }
  }

  function Zeros(n: nat): (r: seq<int>)
    ensures |r| == n && forall i :: 0 <= i < n ==> r[i] == 0
  {
    if n == 0 then [] else [0] + Zeros(n - 1)
  }

  /** All-zero components compare like no components at all. */
  lemma {:induction false} ZerosCompared(n: nat, b: seq<int>)
    ensures Compared(Zeros(n), b) == Compared([], b)
    decreases n + |b|
  {
    if n > 0 {
      assert From(Zeros(n), 1) == Zeros(n - 1);
      ZerosCompared(n - 1, From(b, 1));
      if b != [] {
        assert From([], 1) == [];
      } else {
        ZerosCompared(n - 1, []);
      }
    }
  }

  /** Trailing zero components make no difference: "1.2" and "1.2.0"
    * compare the same. */
  lemma {:induction false} ComparedIgnoresTrailingZeros(a: seq<int>, n: nat, b: seq<int>)
    ensures Compared(a + Zeros(n), b) == Compared(a, b)
    decreases |a|
  {
    if a == [] {
      assert a + Zeros(n) == Zeros(n);
      ZerosCompared(n, b);
    } else {
      var a' := a + Zeros(n);
      assert At(a', 0) == At(a, 0);
      assert From(a', 1) == From(a, 1) + Zeros(n);
      ComparedIgnoresTrailingZeros(From(a, 1), n, From(b, 1));
    }
  }

  /** When the components agree before position `i` and differ at `i`, the
    * larger component at `i` gives the larger version. */
  lemma {:induction false} FirstDifferenceDecides(a: seq<int>, b: seq<int>, i: nat)
    requires forall k :: 0 <= k < i ==> At(a, k) == At(b, k)
    requires At(a, i) != At(b, i)
    ensures Compared(a, b) == if At(a, i) > At(b, i) then Descending else Ascending
    decreases i
  {
    if i > 0 {
      assert At(a, 0) == At(b, 0);
      forall k | 0 <= k < i - 1 ensures At(From(a, 1), k) == At(From(b, 1), k) {
        assert At(a, k + 1) == At(b, k + 1);
      }
      assert At(From(a, 1), i - 1) == At(a, i) && At(From(b, 1), i - 1) == At(b, i);
      FirstDifferenceDecides(From(a, 1), From(b, 1), i - 1);
    }
  }

  /** The release tag with every leading and trailing `v` removed
    * (`trimmingCharacters(in: CharacterSet(charactersIn: "v"))`). */
  function VersionOfTag(tag: string): string
  {
    Trim(tag, 'v')
  }

  /** `isNewer`: false without a current version, otherwise whether the
    * tag's version compares descending against it. */
  method IsNewer(tag: string, current: Option<string>) returns (r: bool)
    ensures r == Newer(tag, current)
  {
    var versionString := VersionOfTag(tag);
    if current.None? {
      return false;
    }
    var order := CompareVersions(versionString, current.value);
    return order == Descending;
  }

  predicate Newer(tag: string, current: Option<string>)
  {
    current.Some? && Compared(Components(VersionOfTag(tag)), Components(current.value)) == Descending
  }

  datatype Release = Release(tagName: string, htmlUrl: string, body: string)

  /** The decision at the end of `checkForUpdates`: the fetched release when
    * it is newer, nothing otherwise. */
  method ReleaseToOffer(release: Release, current: Option<string>) returns (r: Option<Release>)
    ensures r.Some? <==> Newer(release.tagName, current)
    ensures r.Some? ==> r.value == release
  {
    var newer := IsNewer(release.tagName, current);
    if newer {
      return Some(release);
    }
    return None;
  }

  /** A release is never newer than the version its own tag names, and of
    * two versions at most one is newer than the other. */
  lemma NewerIsStrict(tag: string, other: string)
    ensures !Newer(tag, Some(VersionOfTag(tag)))
    ensures Newer(tag, Some(other)) ==> Compared(Components(other), Components(VersionOfTag(tag))) == Ascending
  {
    ComparedReflexive(Components(VersionOfTag(tag)));
    ComparedSwap(Components(VersionOfTag(tag)), Components(other));
  }

  /** The components of a version written as its pieces joined by dots. */
  lemma ComponentsOfPieces(pieces: seq<string>)
    requires |pieces| >= 1 && forall i :: 0 <= i < |pieces| ==> pieces[i] != [] && '.' !in pieces[i]
    ensures Components(Join(pieces, ".")) == Parsed(pieces)
  {
    SplitJoin(pieces, '.');
    NonEmptyKeeps(pieces);
  }

  lemma {:induction false} NonEmptyKeeps(pieces: seq<string>)
    requires forall i :: 0 <= i < |pieces| ==> pieces[i] != []
    ensures NonEmpty(pieces) == pieces
  {
    if pieces != [] {
      NonEmptyKeeps(pieces[1..]);
    }
  }

  /** Pieces that are all numbers parse to their values, in order. */
  lemma {:induction false} ParsedNumbers(pieces: seq<string>, values: seq<int>)
    requires |pieces| == |values|
    requires forall i :: 0 <= i < |pieces| ==> ParseInt(pieces[i]) == Some(values[i])
    ensures Parsed(pieces) == values
  {
    if pieces != [] {
      ParsedNumbers(pieces[1..], values[1..]);
    }
  }

  /** The components of the versions in the cases below. */
  lemma ComponentsOf123()
    ensures Components("1.2.3") == [1, 2, 3]
  {
    Digit("1", 1);
    Digit("2", 2);
    Digit("3", 3);
    var pieces := ["1", "2", "3"];
    assert Join(pieces, ".") == "1.2.3";
    ComponentsOfPieces(pieces);
    ParsedNumbers(pieces, [1, 2, 3]);
  }

  lemma ComponentsOf120()
    ensures Components("1.2.0") == [1, 2, 0]
  {
    Digit("1", 1);
    Digit("2", 2);
    Digit("0", 0);
    var pieces := ["1", "2", "0"];
    assert Join(pieces, ".") == "1.2.0";
    ComponentsOfPieces(pieces);
    ParsedNumbers(pieces, [1, 2, 0]);
  }

  lemma ComponentsOf12()
    ensures Components("1.2") == [1, 2]
  {
    Digit("1", 1);
    Digit("2", 2);
    var pieces := ["1", "2"];
    assert Join(pieces, ".") == "1.2";
    ComponentsOfPieces(pieces);
    ParsedNumbers(pieces, [1, 2]);
  }

  lemma ComponentsSkipLetters()
    ensures Components("1.b.2") == [1, 2]
  {
    Digit("1", 1);
    Digit("2", 2);
    NotANumber("b");
    var pieces := ["1", "b", "2"];
    assert Join(pieces, ".") == "1.b.2";
    ComponentsOfPieces(pieces);
    assert pieces[1..] == ["b", "2"] && pieces[1..][1..] == ["2"];
  }

  /** The documented cases, on the components above: "1.2.3" is newer than
    * "1.2.0", and "1.2" and "1.2.0" are the same version. */
  lemma DocumentedCases()
    ensures Compared([1, 2, 3], [1, 2, 0]) == Descending
    ensures Compared([1, 2], [1, 2, 0]) == Same
  {
    var a, b := [1, 2], [1, 2, 0];
    assert b == a + Zeros(1);
    ComparedIgnoresTrailingZeros(a, 1, a);
    ComparedReflexive(a);
    ComparedSwap(a, b);
    FirstDifferenceDecides([1, 2, 3], b, 2);
  }

  /** A `v` in front of the tag makes no difference to the decision. */
  lemma TagPrefixIgnored(tag: string, current: Option<string>)
    ensures VersionOfTag("v" + tag) == VersionOfTag(tag)
    ensures Newer("v" + tag, current) == Newer(tag, current)
  {
    assert ("v" + tag)[1..] == tag;
  }

  /** A one-digit piece parses as its digit. */
  lemma Digit(s: string, d: nat)
    requires |s| == 1 && s[0] as int == '0' as int + d && d < 10
    ensures ParseInt(s) == Some(d)
  {
    assert IsDigit(s[0]) && AllDigits(s);
    assert s[..0] == [];
    assert DigitsValue(s) == d;
  }

  /** A piece starting with a letter is not a number. */
  lemma NotANumber(s: string)
    requires s != [] && 'a' <= s[0] <= 'z'
    ensures ParseInt(s) == None
  {
    assert !IsDigit(s[0]);
  }
}
