/** Small value helpers shared by every other module: an optional value,
    decimal rendering of counters (Python's `str(n)` and `{n:02d}`), and
    Python's `sep.join(parts)`. */
module Util {

  datatype Option<+T> = None | Some(value: T)

  predicate IsDigit(c: char) {
    '0' <= c <= '9'
  }

  function DigitChar(d: nat): (c: char)
    requires d < 10
    ensures IsDigit(c)
  {
    ['0', '1', '2', '3', '4', '5', '6', '7', '8', '9'][d]
  }

  function DigitValue(c: char): nat
    requires IsDigit(c)
  {
    c as int - '0' as int
  }

  /** Decimal rendering of a non-negative integer, as Python's `str(n)`. */
  function Dec(n: nat): string
  {
    if n < 10 then [DigitChar(n)] else Dec(n / 10) + [DigitChar(n % 10)]
  }

  /** The number a string of digits denotes (the partner of Dec). */
  function Value(s: string): nat
    requires forall i :: 0 <= i < |s| ==> IsDigit(s[i])
  {
    if s == [] then 0 else Value(s[..|s| - 1]) * 10 + DigitValue(s[|s| - 1])
  }

  lemma {:induction false} DigitRoundTrip(d: nat)
    requires d < 10
    ensures DigitValue(DigitChar(d)) == d
  {
  }

  /** Dec produces a non-empty string of digits that reads back as n. */
  lemma {:induction false} DecRoundTrip(n: nat)
    ensures |Dec(n)| >= 1
    ensures forall i :: 0 <= i < |Dec(n)| ==> IsDigit(Dec(n)[i])
    ensures Value(Dec(n)) == n
  {
    if n < 10 {
      DigitRoundTrip(n);
    } else {
      DecRoundTrip(n / 10);
      DigitRoundTrip(n % 10);
      var s := Dec(n);
      assert s[..|s| - 1] == Dec(n / 10);
    }
  }

  /** Python's `f"{n:02d}"` for a non-negative n: at least two digits, zero padded. */
  function TwoDigits(n: nat): string
  {
    if n < 10 then "0" + Dec(n) else Dec(n)
  }

  lemma TwoDigitsRoundTrip(n: nat)
    ensures |TwoDigits(n)| >= 2
    ensures n < 100 ==> |TwoDigits(n)| == 2
    ensures forall i :: 0 <= i < |TwoDigits(n)| ==> IsDigit(TwoDigits(n)[i])
    ensures Value(TwoDigits(n)) == n
  {
    DecRoundTrip(n);
    if n < 10 {
      var s := TwoDigits(n);
      assert s == ['0', DigitChar(n)];
      assert s[..1] == "0";
      assert Value(s[..1]) == Value([]) * 10 + DigitValue('0');
    } else {
      assert Dec(n) == Dec(n / 10) + [DigitChar(n % 10)];
      DecRoundTrip(n / 10);
      if n < 100 {
        assert Dec(n / 10) == [DigitChar(n / 10)];
      }
    }
  }

  /** Python's `sep.join(parts)`. */
  function Join(parts: seq<string>, sep: string): (r: string)
    ensures parts == [] ==> r == ""
    ensures |parts| == 1 ==> r == parts[0]
  {
    if parts == [] then ""
    else if |parts| == 1 then parts[0]
    else parts[0] + sep + Join(parts[1..], sep)
  }

  /** No element occurs twice. */
  predicate Distinct<T(==)>(s: seq<T>)
  {
    forall i, j :: 0 <= i < j < |s| ==> s[i] != s[j]
  }

  /** The elements of s other than x, in order. */
  function Without<T(==, !new)>(s: seq<T>, x: T): (r: seq<T>)
    ensures forall y :: y in r <==> y in s && y != x
    ensures |r| <= |s|
  {
    if s == [] then [] else (if s[0] == x then [] else [s[0]]) + Without(s[1..], x)
  }

  lemma {:induction false} WithoutDistinct<T(!new)>(s: seq<T>, x: T)
    requires Distinct(s)
    ensures Distinct(Without(s, x))
  {
    if s != [] {
      WithoutDistinct(s[1..], x);
      assert s[0] !in s[1..];
    }
  }

  /** When a map keeps every key of an earlier one, the keys it added number
      the growth of the map. */
  lemma AddedKeysCounted<K, V>(before: map<K, V>, after: map<K, V>)
    requires before.Keys <= after.Keys
    ensures |after.Keys - before.Keys| == |after| - |before|
  {
    assert after.Keys == (after.Keys - before.Keys) + before.Keys;
    assert |after.Keys| == |after|;
    assert |before.Keys| == |before|;
  }
}
