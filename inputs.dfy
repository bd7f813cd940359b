/**
 * The input rules of `imageProcessor`: the converters `inputToInteger` and
 * `inputToBoolean`, the IMAGETYPE mapping of `setInputType`, and the closed
 * sets accepted by `setMethod` and `setFileName`.
 */
module Inputs {
  import opened Wrappers
  import opened Php
  import opened Geometry

  /**
   * `inputToInteger`: an int is returned unchanged; anything else is
   * matched against `[^\d]` as a string and is NULL if a non-digit occurs,
   * otherwise it is cast with `(int)`. A bool or NULL renders as "1" or "",
   * which contain no non-digit, and casts to 1 or 0.
   */
  function InputToInteger(v: Value): (r: Option<int>)
    ensures v.PInt? ==> r == Some(v.i)
    ensures v.PStr? ==> (r.Some? <==> AllDigits(v.s))
    ensures v.PStr? && r.Some? ==> r.value == DigitsValue(v.s)
    ensures !v.PStr? ==> r.Some?
    ensures r.Some? && !v.PInt? ==> r.value >= 0
  {
    match v
    case PInt(i) => Some(i)
    case PStr(s) => if AllDigits(s) then Some(DigitsValue(s)) else None
    case PBool(b) => Some(if b then 1 else 0)
    case PNull => Some(0)
  }

  /** The decimal string of a natural number converts back to that number. */
  lemma InputToIntegerOfDecimal(n: nat)
    ensures InputToInteger(PStr(NatToString(n))) == Some(n)
  {
    DigitsRoundTrip(n);
  }

  /** A string holding any non-digit, such as a sign, a dot or a space, converts to NULL. */
  lemma InputToIntegerRejects(s: string, k: nat)
    requires k < |s| && !IsDigit(s[k])
    ensures InputToInteger(PStr(s)) == None
  {
  }

  /**
   * `inputToBoolean`: a bool is returned unchanged, the int 1 and the
   * string "1" give true, the int 0 and the string "0" give false, and
   * every other value gives NULL (the comparisons are strict).
   */
  function InputToBoolean(v: Value): (r: Option<bool>)
    ensures r == Some(true) <==> v in {PBool(true), PInt(1), PStr("1")}
    ensures r == Some(false) <==> v in {PBool(false), PInt(0), PStr("0")}
  {
    match v
    case PBool(b) => Some(b)
    case PInt(i) => if i == 1 then Some(true) else if i == 0 then Some(false) else None
    case PStr(s) => if s == "1" then Some(true) else if s == "0" then Some(false) else None
    case PNull => None
  }

  /** The input formats `setInputType` recognises. */
  datatype ImageType = Gif | Jpg | Png

  /** `setInputType`'s switch on an IMAGETYPE_XXX constant; NULL stands for the thrown exception. */
  function TypeOfCode(code: int): (t: Option<ImageType>)
    ensures t.Some? <==> 1 <= code <= 3
  {
    if code == 1 then Some(Gif)
    else if code == 2 then Some(Jpg)
    else if code == 3 then Some(Png)
    else None
  }

  /** The IMAGETYPE_XXX constant of a format, as `getimagesize` reports it. */
  function CodeOf(t: ImageType): int
  {
    match t
    case Gif => 1
    case Jpg => 2
    case Png => 3
  }

  /** TypeOfCode is the inverse of CodeOf: each recognised code names exactly one format. */
  lemma TypeOfCodeInverse(t: ImageType, code: int)
    ensures TypeOfCode(CodeOf(t)) == Some(t)
    ensures TypeOfCode(code) == Some(t) ==> code == CodeOf(t)
  {
  }

  /**
   * The method `setMethod` accepts (`in_array` with loose comparison
   * against 'fill' and 'fit') and the branch of `process`'s switch the
   * stored value selects ('fill' is tested first).
   */
  function MethodOf(v: Value): (m: Option<Method>)
    ensures m.Some? <==> v in {PStr("fill"), PStr("fit"), PBool(true)}
    ensures m == Some(Fit) <==> v == PStr("fit")
  {
    if LooseEqualsWord(v, "fill") then Some(Fill)
    else if LooseEqualsWord(v, "fit") then Some(Fit)
    else None
  }

  /** `setFileName`'s check: the last '.'-separated piece of the name is "jpg". */
  predicate FileNameAccepted(v: Value)
  {
    LastPiece(StringOf(v), '.') == "jpg"
  }

  /** A file name is accepted exactly when it is a string that is "jpg" or ends in ".jpg". */
  lemma FileNameAcceptedExactly(v: Value)
    ensures FileNameAccepted(v) <==>
      v.PStr? && (v.s == "jpg" || (|v.s| >= 4 && v.s[|v.s| - 4..] == ".jpg"))
  {
    if v.PStr? {
      LastPieceJpg(v.s);
    } else {
      NonStringNotJpg(v);
    }
  }

  lemma LastPieceJpg(s: string)
    ensures LastPiece(s, '.') == "jpg" <==> s == "jpg" || (|s| >= 4 && s[|s| - 4..] == ".jpg")
  {
    LastPieceIsSuffix(s, '.');
    if s == "jpg" {
      LastPieceUnique(s, '.', "jpg");
    } else if |s| >= 4 && s[|s| - 4..] == ".jpg" {
      assert s[|s| - 3..] == "jpg";
      assert s[|s| - 4] == '.';
      LastPieceUnique(s, '.', "jpg");
    }
  }

  lemma NonStringNotJpg(v: Value)
    requires !v.PStr?
    ensures !FileNameAccepted(v)
  {
    var s := StringOf(v);
    StringOfNonString(v);
    LastPieceIsSuffix(s, '.');
  }
}
