/**
 * Decimal integers as .NET reads and writes them with NumberStyles.Integer
 * (int.TryParse, ushort.Parse) and with Int32.ToString: optional surrounding
 * white space, an optional leading sign, ASCII decimal digits, and a range
 * check against the target type.
 */
module Numbers {
  import opened Runtime
  import opened Text

  /** The white space NumberStyles.AllowLeadingWhite/AllowTrailingWhite accept. */
  const WhiteSpace: set<char> := {'\t', '\n', '\U{0B}', '\U{0C}', '\r', ' '}

  predicate IsDigit(c: char) { '0' <= c <= '9' }

  /**
   * The value of a run of ASCII decimal digits, most significant first, or None
   * when some character is not a digit; the empty run reads as 0.
   */
  function ReadDigits(ds: string): Option<nat>
  {
    if ds == [] then Some(0)
    else
      var last := ds[|ds| - 1];
      match ReadDigits(ds[..|ds| - 1])
      case None => None
      case Some(v) => if IsDigit(last) then Some(v * 10 + (last as int - '0' as int)) else None
  }

  /** ReadDigits accepts exactly the strings made only of digits. */
  lemma {:induction false} ReadDigitsAccepts(ds: string)
    ensures ReadDigits(ds).Some? <==> forall i :: 0 <= i < |ds| ==> IsDigit(ds[i])
  {
    if ds != [] {
      var prefix := ds[..|ds| - 1];
      ReadDigitsAccepts(prefix);
      assert forall i :: 0 <= i < |prefix| ==> prefix[i] == ds[i];
    }
  }

  /** The shortest decimal digits of `n`; reading them back gives `n`. */
  function NatToDigits(n: nat): (ds: string)
    ensures ds != [] && IsDigit(ds[0]) && IsDigit(ds[|ds| - 1])
    ensures ds[0] == '0' ==> ds == "0"
    ensures ':' !in ds
    ensures ReadDigits(ds) == Some(n)
  {
    var last := ('0' as int + n % 10) as char;
    if n < 10 then
      [last]
    else
      var prefix := NatToDigits(n / 10);
      assert (prefix + [last])[..|prefix|] == prefix;
      prefix + [last]
  }

  /** Int32.ToString() with the invariant culture's "-" sign. */
  function ToDecimalString(n: int): (s: string)
    ensures s != [] && IsDigit(s[|s| - 1])
    ensures n < 0 <==> s[0] == '-'
    ensures s[if n < 0 then 1 else 0] == '0' ==> s == "0"
    ensures ReadDigits(s[if n < 0 then 1 else 0..]) == Some(if n < 0 then -n else n)
    ensures ':' !in s
  {
    if n < 0 then "-" + NatToDigits(-n) else NatToDigits(n)
  }

  /**
   * Parsing with NumberStyles.Integer into the range [min, max]: Format when the
   * text is not an optionally signed run of digits between optional white space,
   * Overflow when it is but its value lies outside the range.
   */
  function ParseInteger(s: string, min: int, max: int): (r: Result<int, Fault>)
    ensures r.Success? ==> min <= r.value <= max
    ensures r.Failure? ==> r.error == Format || r.error == Overflow
  {
    ParseSigned(Trim(s, WhiteSpace), min, max)
  }

  /** The number between the white space: an optional sign, then the digits. */
  function ParseSigned(t: string, min: int, max: int): (r: Result<int, Fault>)
    ensures r.Success? ==> min <= r.value <= max
    ensures r.Failure? ==> r.error == Format || r.error == Overflow
  {
    var signed := t != [] && (t[0] == '-' || t[0] == '+');
    var digits := if signed then t[1..] else t;
    if digits == [] then Failure(Format)
    else
      match ReadDigits(digits)
      case None => Failure(Format)
      case Some(magnitude) =>
        var v: int := if t[0] == '-' then -(magnitude as int) else magnitude;
        if min <= v <= max then Success(v) else Failure(Overflow)
  }

  /** int.TryParse(s, out v): (true, value) on success, (false, 0) on any failure. */
  function TryParseInt32(s: string): (r: (bool, Int32))
    ensures r.0 == ParseInteger(s, Int32Min, Int32Max).Success?
    ensures r.0 ==> r.1 == ParseInteger(s, Int32Min, Int32Max).value
    ensures !r.0 ==> r.1 == 0
  {
    match ParseInteger(s, Int32Min, Int32Max)
    case Success(v) => (true, v)
    case Failure(_) => (false, 0)
  }

  /** ushort.Parse(s): the value, or the FormatException/OverflowException it throws. */
  function ParseUInt16(s: string): (r: Result<UInt16, Fault>)
    ensures r.Success? <==> ParseInteger(s, 0, UInt16Max).Success?
    ensures r.Success? ==> r.value == ParseInteger(s, 0, UInt16Max).value
    ensures r.Failure? ==> r.error == ParseInteger(s, 0, UInt16Max).error
    ensures r.Failure? ==> r.error == Format || r.error == Overflow
  {
    match ParseInteger(s, 0, UInt16Max)
    case Success(v) => Success(v)
    case Failure(e) => Failure(e)
  }

  /** Parsing the decimal text of an in-range integer gives that integer back. */
  lemma {:induction false} ParseFormatted(n: int, min: int, max: int)
    requires min <= n <= max
    ensures ParseInteger(ToDecimalString(n), min, max) == Success(n)
  {
    var s := ToDecimalString(n);
    var sign := if n < 0 then "-" else "";
    var d := if n < 0 then NatToDigits(-n) else NatToDigits(n);
    assert s == "" + sign + d + "";
    ReadDigitsAccepts(d);
    ParseIntegerReads("", sign, d, "", min, max);
  }

  /** int.TryParse reads back what Int32.ToString wrote. */
  lemma {:induction false} TryParseFormatted(n: Int32)
    ensures TryParseInt32(ToDecimalString(n)) == (true, n)
  {
    ParseFormatted(n, Int32Min, Int32Max);
  }

  /** A run of the white space NumberStyles.Integer allows around the number. */
  predicate AllWhite(w: string)
  {
    forall i :: 0 <= i < |w| ==> w[i] in WhiteSpace
  }

  /** A run of one or more ASCII decimal digits. */
  predicate AllDigits(d: string)
  {
    d != [] && forall i :: 0 <= i < |d| ==> IsDigit(d[i])
  }

  /**
   * The shape NumberStyles.Integer accepts, split into its parts: leading white
   * space, an optional sign, the digits, trailing white space.
   */
  predicate IntegerText(w1: string, sign: string, d: string, w2: string)
  {
    AllWhite(w1) && sign in {"", "+", "-"} && AllDigits(d) && AllWhite(w2)
  }

  /**
   * Text of the accepted shape reads as its signed digit value: Success when that
   * value lies in [min, max], Overflow when it does not.
   */
  lemma ParseIntegerReads(w1: string, sign: string, d: string, w2: string, min: int, max: int)
    requires IntegerText(w1, sign, d, w2)
    ensures ReadDigits(d).Some?
    ensures var v := if sign == "-" then -(ReadDigits(d).value as int) else ReadDigits(d).value;
            ParseInteger(w1 + sign + d + w2, min, max)
              == if min <= v <= max then Success(v) else Failure(Overflow)
  {
    var t := sign + d;
    assert t[0] !in WhiteSpace && t[|t| - 1] !in WhiteSpace by {
      assert IsDigit(d[0]) && t[|t| - 1] == d[|d| - 1];
    }
    assert w1 + sign + d + w2 == w1 + t + w2;
    TrimAround(w1, t, w2, WhiteSpace);
    SignedReads(sign, d, min, max);
  }

  lemma SignedReads(sign: string, d: string, min: int, max: int)
    requires sign in {"", "+", "-"} && AllDigits(d)
    ensures ReadDigits(d).Some?
    ensures var v := if sign == "-" then -(ReadDigits(d).value as int) else ReadDigits(d).value;
            ParseSigned(sign + d, min, max) == if min <= v <= max then Success(v) else Failure(Overflow)
  {
    ReadDigitsAccepts(d);
    var t := sign + d;
    if sign == "" {
      assert t == d && IsDigit(d[0]);
    } else {
      assert t[1..] == d && t[0] == sign[0];
    }
  }

  /** The sign and the digits of a number ParseSigned does not reject as malformed. */
  lemma SignedShape(t: string, min: int, max: int) returns (sign: string, d: string)
    requires ParseSigned(t, min, max) != Failure(Format)
    ensures sign in {"", "+", "-"} && AllDigits(d) && t == sign + d
  {
    var signed := t != [] && (t[0] == '-' || t[0] == '+');
    d := if signed then t[1..] else t;
    sign := if signed then [t[0]] else "";
    assert t == sign + d;
    ReadDigitsAccepts(d);
  }

  /** Every text not of the accepted shape is a FormatException. */
  lemma ParseIntegerFormat(s: string, min: int, max: int)
    ensures ParseInteger(s, min, max) != Failure(Format) <==>
            exists w1, sign, d, w2 :: IntegerText(w1, sign, d, w2) && s == w1 + sign + d + w2
  {
    if ParseInteger(s, min, max) != Failure(Format) {
      var t := Trim(s, WhiteSpace);
      var sign, d := SignedShape(t, min, max);
      var w1, w2 := TrimSplit(s, WhiteSpace);
      assert s == w1 + sign + d + w2;
      assert IntegerText(w1, sign, d, w2);
    } else {
      forall w1, sign, d, w2 | IntegerText(w1, sign, d, w2) && s == w1 + sign + d + w2
        ensures false
      {
        ParseIntegerReads(w1, sign, d, w2, min, max);
      }
    }
  }
}
