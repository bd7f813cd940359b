/**
 * The pieces of the PHP runtime that the image processor relies on:
 * dynamically typed input values, digit strings and their integer value,
 * the decimal rendering of integers, loose comparison against a word, and
 * `explode`/`implode`.
 */
module Php {

  /**
   * A PHP value as it can reach the public setters: an int, a string,
   * a bool or NULL. (Floats and arrays are not part of this model.)
   */
  datatype Value = PInt(i: int) | PStr(s: string) | PBool(b: bool) | PNull

  predicate IsDigit(ch: char) { '0' <= ch <= '9' }

  /** No character of `s` matches the class `[^\d]`. */
  predicate AllDigits(s: string) { forall k :: 0 <= k < |s| ==> IsDigit(s[k]) }

  function DigitValue(ch: char): (d: nat)
    requires IsDigit(ch)
    ensures d < 10
  {
    ch as int - '0' as int
  }

  function DigitChar(d: nat): (ch: char)
    requires d < 10
    ensures IsDigit(ch) && DigitValue(ch) == d
  {
    ('0' as int + d) as char
  }

  /** The value of a digit string, as PHP's `(int)` cast reads it (the empty string is 0). */
  function DigitsValue(s: string): nat
    requires AllDigits(s)
    decreases |s|
  {
    if s == [] then 0 else 10 * DigitsValue(s[..|s| - 1]) + DigitValue(s[|s| - 1])
  }

  /** The decimal rendering of a natural number, without leading zeros. */
  function NatToString(n: nat): (s: string)
    decreases n
  {
    if n < 10 then [DigitChar(n)] else NatToString(n / 10) + [DigitChar(n % 10)]
  }

  /** Reading back the decimal rendering of `n` gives `n`. */
  lemma {:induction false} DigitsRoundTrip(n: nat)
    ensures |NatToString(n)| >= 1 && AllDigits(NatToString(n))
    ensures DigitsValue(NatToString(n)) == n
    decreases n
  {
    if n >= 10 {
      DigitsRoundTrip(n / 10);
      var t := NatToString(n / 10);
      var s := NatToString(n);
      assert s == t + [DigitChar(n % 10)];
      assert s[..|s| - 1] == t;
    }
  }

  /** PHP's conversion of a value to string. */
  function StringOf(v: Value): string
  {
    match v
    case PStr(s) => s
    case PInt(i) => if i < 0 then "-" + NatToString(-i) else NatToString(i)
    case PBool(b) => if b then "1" else ""
    case PNull => ""
  }

  /** Only a string converts to a string containing a letter or a dot. */
  lemma StringOfNonString(v: Value)
    requires !v.PStr?
    ensures forall k :: 0 <= k < |StringOf(v)| ==> StringOf(v)[k] == '-' || IsDigit(StringOf(v)[k])
  {
    match v
    case PInt(i) =>
      if i < 0 { DigitsRoundTrip(-i); } else { DigitsRoundTrip(i); }
    case PBool(b) =>
    case PNull =>
  }

  /**
   * PHP 8's loose `==` between a value and a string literal `w` that
   * starts with a letter (so is neither empty nor numeric).
   */
  predicate LooseEqualsWord(v: Value, w: string)
    requires |w| > 0 && 'a' <= w[0] <= 'z'
  {
    match v
    case PStr(s) => s == w    // two strings, one of them non-numeric: compared as strings
    case PBool(b) => b        // the word converts to true
    case PInt(_) => false     // an int is compared as its decimal string
    case PNull => false       // NULL is compared as the empty string
  }

  /** PHP's `explode(d, s)`: the pieces of `s` between the occurrences of `d`. */
  function Explode(s: string, d: char): (parts: seq<string>)
    ensures |parts| >= 1
    decreases |s|
  {
    if s == [] then [""]
    else
      var rest := Explode(s[1..], d);
      if s[0] == d then [""] + rest
      else [[s[0]] + rest[0]] + rest[1..]
  }

  /** PHP's `implode(d, parts)`: the pieces joined by `d`. */
  function Implode(parts: seq<string>, d: char): string
    decreases |parts|
  {
    if parts == [] then ""
    else if |parts| == 1 then parts[0]
    else parts[0] + [d] + Implode(parts[1..], d)
  }

  /** Exploding and imploding again gives the original string, and no piece contains the delimiter. */
  lemma {:induction false} ExplodeRoundTrip(s: string, d: char)
    ensures Implode(Explode(s, d), d) == s
    ensures forall p :: p in Explode(s, d) ==> d !in p
    decreases |s|
  {
    if s != [] {
      var rest := Explode(s[1..], d);
      ExplodeRoundTrip(s[1..], d);
      var parts := Explode(s, d);
      if s[0] == d {
        assert parts[1..] == rest;
        assert Implode(parts, d) == "" + [d] + s[1..];
      } else {
        var first := [s[0]] + rest[0];
        assert parts == [first] + rest[1..];
        if |rest| == 1 {
          assert Implode(rest, d) == rest[0];
          assert Implode(parts, d) == first;
        } else {
          assert Implode(rest, d) == rest[0] + [d] + Implode(rest[1..], d);
          assert parts[1..] == rest[1..];
          assert Implode(parts, d) == first + [d] + Implode(rest[1..], d);
        }
        assert s == [s[0]] + s[1..];
        assert rest[0] in rest;
        assert d !in first;
        forall p | p in parts ensures d !in p {
          if p != first {
            assert p in rest[1..];
            assert p in rest;
          }
        }
      }
    }
  }

  /** Implode splits off its last piece after the last delimiter. */
  lemma {:induction false} ImplodeLast(parts: seq<string>, d: char)
    requires |parts| >= 2
    ensures Implode(parts, d) == Implode(parts[..|parts| - 1], d) + [d] + parts[|parts| - 1]
    decreases |parts|
  {
    if |parts| > 2 {
      ImplodeLast(parts[1..], d);
      assert parts[1..][..|parts| - 2] == parts[..|parts| - 1][1..];
    }
  }

  /** `array_pop(explode(d, s))`: the piece after the last `d`. */
  function LastPiece(s: string, d: char): string
  {
    var parts := Explode(s, d);
    parts[|parts| - 1]
  }

  /**
   * The last piece is the suffix that follows the last occurrence of the
   * delimiter, or the whole string when the delimiter does not occur.
   */
  lemma LastPieceIsSuffix(s: string, d: char)
    ensures var r := LastPiece(s, d);
      d !in r && |r| <= |s| && s[|s| - |r|..] == r &&
      (|r| == |s| || s[|s| - |r| - 1] == d)
  {
    var parts := Explode(s, d);
    var r := parts[|parts| - 1];
    ExplodeRoundTrip(s, d);
    assert r in parts;
    if |parts| >= 2 {
      ImplodeLast(parts, d);
      var front := Implode(parts[..|parts| - 1], d);
      assert s == front + [d] + r;
      assert s[|s| - |r| - 1] == d;
      assert s[|s| - |r|..] == r;
    } else {
      assert s == r;
    }
  }

  /** A suffix with the properties of LastPieceIsSuffix is unique, so it is the last piece. */
  lemma LastPieceUnique(s: string, d: char, r: string)
    requires d !in r && |r| <= |s| && s[|s| - |r|..] == r
    requires |r| == |s| || s[|s| - |r| - 1] == d
    ensures LastPiece(s, d) == r
  {
    LastPieceIsSuffix(s, d);
  }
}
