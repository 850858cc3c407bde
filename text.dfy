/**
 * String helpers with the semantics of the Swift standard-library and
 * Foundation calls the application relies on: splitting, joining, trimming,
 * substring search, integer parsing and printing, and UTF-8 length.
 */
module Text {
  import opened Outcomes

  /** Pieces of `s` between occurrences of `sep`, empty pieces kept
    * (`components(separatedBy:)`). */
  function SplitOn(s: string, sep: char): (r: seq<string>)
    ensures |r| >= 1
    ensures forall i :: 0 <= i < |r| ==> sep !in r[i]
  {
    if s == [] then [""]
    else
      var rest := SplitOn(s[1..], sep);
      if s[0] == sep then [""] + rest
      else [[s[0]] + rest[0]] + rest[1..]
  }

  /** Pieces joined with `sep` between consecutive pieces (`joined(separator:)`). */
  function Join(parts: seq<string>, sep: string): string
  {
    if |parts| == 0 then ""
    else if |parts| == 1 then parts[0]
    else parts[0] + sep + Join(parts[1..], sep)
  }

  /** The non-empty pieces, in order (`split(separator:)` omits empty subsequences). */
  function NonEmpty(parts: seq<string>): (r: seq<string>)
    ensures forall i :: 0 <= i < |r| ==> r[i] != [] && r[i] in parts
    ensures forall p :: p in parts && p != [] ==> p in r
  {
    if parts == [] then []
    else if parts[0] == [] then NonEmpty(parts[1..])
    else [parts[0]] + NonEmpty(parts[1..])
  }

  /** Dropping the empty pieces works piece by piece: the kept pieces stay
    * in their order and each keeps its multiplicity. */
  lemma {:induction false} NonEmptyAppend(a: seq<string>, b: seq<string>)
    ensures NonEmpty(a + b) == NonEmpty(a) + NonEmpty(b)
  {
    if a == [] {
      assert a + b == b;
    } else {
      assert (a + b)[1..] == a[1..] + b;
      NonEmptyAppend(a[1..], b);
    }
  }

  /** `split(separator: sep)` with its default of omitting empty pieces. */
  function SplitNonEmpty(s: string, sep: char): seq<string>
  {
    NonEmpty(SplitOn(s, sep))
  }

  lemma {:induction false} JoinSplit(s: string, sep: char)
    ensures Join(SplitOn(s, sep), [sep]) == s
  {
    if s != [] {
      JoinSplit(s[1..], sep);
      var rest := SplitOn(s[1..], sep);
      if s[0] == sep {
        assert s == [sep] + s[1..];
      } else if |rest| == 1 {
        assert s == [s[0]] + rest[0];
      } else {
        assert Join(rest, [sep]) == rest[0] + [sep] + Join(rest[1..], [sep]);
        assert s == [s[0]] + s[1..];
      }
    }
  }

  lemma {:induction false} SplitJoin(parts: seq<string>, sep: char)
    requires |parts| >= 1
    requires forall i :: 0 <= i < |parts| ==> sep !in parts[i]
    ensures SplitOn(Join(parts, [sep]), sep) == parts
  {
    if |parts| == 1 {
      SplitPiece(parts[0], [], sep);
      assert parts[0] + [] == parts[0];
      assert parts == [parts[0] + SplitOn([], sep)[0]];
    } else {
      SplitJoin(parts[1..], sep);
      var tail := Join(parts[1..], [sep]);
      assert Join(parts, [sep]) == parts[0] + ([sep] + tail);
      SplitPiece(parts[0], [sep] + tail, sep);
      var after := SplitOn([sep] + tail, sep);
      assert after == [""] + parts[1..] by {
        assert ([sep] + tail)[1..] == tail;
      }
      assert parts[0] + after[0] == parts[0];
      assert [parts[0]] + parts[1..] == parts;
    }
  }

  /** A separator-free prefix is glued onto the first piece of what follows. */
  lemma {:induction false} SplitPiece(piece: string, rest: string, sep: char)
    requires sep !in piece
    ensures SplitOn(piece + rest, sep)
         == [piece + SplitOn(rest, sep)[0]] + SplitOn(rest, sep)[1..]
  {
    if piece == [] {
      var r := SplitOn(rest, sep);
      assert piece + rest == rest;
      assert piece + r[0] == r[0];
      assert r == [r[0]] + r[1..];
    } else {
      SplitPiece(piece[1..], rest, sep);
      assert (piece + rest)[1..] == piece[1..] + rest;
      assert [piece[0]] + (piece[1..] + SplitOn(rest, sep)[0])
          == piece + SplitOn(rest, sep)[0];
    }
  }

  /** `s` with every leading and trailing `c` removed
    * (`trimmingCharacters(in:)` with a one-character set). */
  function Trim(s: string, c: char): (r: string)
    ensures |r| <= |s|
    ensures r != [] ==> r[0] != c && r[|r| - 1] != c
    ensures exists i, j :: TrimmedAt(s, c, r, i, j)
  {
    var t := TrimStart(s, c);
    PieceAt(s, c, t, TrimEnd(t, c));
    TrimEnd(t, c)
  }

  /** A prefix `r` of a suffix `t` of `s`, with only `c`s cut off on either
    * side, lies in `s` between `c`s. */
  lemma PieceAt(s: string, c: char, t: string, r: string)
    requires |t| <= |s| && t == s[|s| - |t|..] && forall k :: 0 <= k < |s| - |t| ==> s[k] == c
    requires |r| <= |t| && r == t[..|r|] && forall k :: |r| <= k < |t| ==> t[k] == c
    ensures TrimmedAt(s, c, r, |s| - |t|, |s| - |t| + |r|)
  {
    var i := |s| - |t|;
    forall k | 0 <= k < |r| ensures r[k] == s[i + k] {
      assert r[k] == t[k];
    }
    assert r == s[i..i + |r|];
    forall k | i + |r| <= k < |s| ensures s[k] == c {
      assert s[k] == t[k - i];
    }
  }

  /** `r` is the piece `s[i..j]`, and only `c`s lie before and after it. */
  ghost predicate TrimmedAt(s: string, c: char, r: string, i: int, j: int)
  {
    0 <= i <= j <= |s| && r == s[i..j] &&
    (forall k :: 0 <= k < i ==> s[k] == c) && (forall k :: j <= k < |s| ==> s[k] == c)
  }

  function TrimStart(s: string, c: char): (r: string)
    ensures |r| <= |s|
    ensures r != [] ==> r[0] != c
    ensures r == s[|s| - |r|..]
    ensures forall i :: 0 <= i < |s| - |r| ==> s[i] == c
  {
    if s != [] && s[0] == c then TrimStart(s[1..], c) else s
  }

  function TrimEnd(s: string, c: char): (r: string)
    ensures |r| <= |s|
    ensures r != [] ==> r[|r| - 1] != c
    ensures r == s[..|r|]
    ensures forall i :: |r| <= i < |s| ==> s[i] == c
  {
    if s != [] && s[|s| - 1] == c then TrimEnd(s[..|s| - 1], c) else s
  }

  /** Whether `needle` occurs in `hay` as a contiguous piece (`String.contains`). */
  predicate Contains(hay: string, needle: string)
  {
    exists i :: 0 <= i <= |hay| - |needle| && OccursAt(hay, needle, i)
  }

  predicate OccursAt(hay: string, needle: string, i: int)
  {
    0 <= i <= |hay| - |needle| && hay[i..i + |needle|] == needle
  }

  // ----- integers as Swift prints and parses them (64-bit Int) -----

  const IntMin: int := -0x8000_0000_0000_0000
  const IntMax: int := 0x7FFF_FFFF_FFFF_FFFF

  predicate IsDigit(c: char) { '0' <= c <= '9' }

  predicate AllDigits(s: string) { forall i :: 0 <= i < |s| ==> IsDigit(s[i]) }

  /** Value of a decimal digit string, most significant digit first. */
  function DigitsValue(s: string): (r: nat)
    requires AllDigits(s)
  {
    if s == [] then 0
    else DigitsValue(s[..|s| - 1]) * 10 + (s[|s| - 1] as int - '0' as int)
  }

  /** `Int(text)`: an optional `+` or `-`, then at least one ASCII digit and
    * nothing else; values outside the 64-bit range give `nil`. */
  function ParseInt(s: string): (r: Option<int>)
    ensures r.Some? ==> IntMin <= r.value <= IntMax
    ensures r.Some? ==> s != [] && (AllDigits(s) || (|s| > 1 && (s[0] == '+' || s[0] == '-') && AllDigits(s[1..])))
    ensures s != [] && AllDigits(s) ==>
      r == if DigitsValue(s) <= IntMax then Some(DigitsValue(s)) else None
    ensures |s| > 1 && s[0] == '+' && AllDigits(s[1..]) ==>
      r == if DigitsValue(s[1..]) <= IntMax then Some(DigitsValue(s[1..])) else None
    ensures |s| > 1 && s[0] == '-' && AllDigits(s[1..]) ==>
      r == if DigitsValue(s[1..]) <= -IntMin then Some(-(DigitsValue(s[1..]) as int)) else None
  {
    var negative := s != [] && s[0] == '-';
    var body := if s != [] && (s[0] == '-' || s[0] == '+') then s[1..] else s;
    if body == [] || !AllDigits(body) then None
    else
      var v: int := if negative then -(DigitsValue(body) as int) else DigitsValue(body);
      if IntMin <= v <= IntMax then Some(v) else None
  }

  /** Decimal digits of a natural number, without leading zeros. */
  function Digits(n: nat): (r: string)
    ensures r != [] && AllDigits(r)
    ensures DigitsValue(r) == n
  {
    var d := ['0' + (n % 10) as char];
    if n < 10 then d
    else
      var r := Digits(n / 10) + d;
      assert r[..|r| - 1] == Digits(n / 10);
      r
  }

  /** String interpolation of an integer (`"\(n)"`). */
  function Decimal(n: int): (r: string)
    ensures r != []
  {
    if n < 0 then "-" + Digits(-n) else Digits(n)
  }

  lemma ParseDecimal(n: int)
    requires IntMin <= n <= IntMax
    ensures ParseInt(Decimal(n)) == Some(n)
  {
    if n < 0 {
      assert Decimal(n)[1..] == Digits(-n);
    } else {
      assert IsDigit(Digits(n)[0]);
    }
  }

  /** Number of bytes of the UTF-8 encoding of `s` (`s.utf8.count`). */
  function Utf8Length(s: string): (r: nat)
    ensures r >= |s|
    ensures r <= 4 * |s|
  {
    if s == [] then 0
    else
      var c := s[0] as int;
      (if c < 0x80 then 1 else if c < 0x800 then 2 else if c < 0x10000 then 3 else 4)
      + Utf8Length(s[1..])
  }
}
