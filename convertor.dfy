/**
 * Path parameter convertors: a fixed registry of five named codecs between
 * the text captured from a URL path and a typed value. Each has a regular
 * expression fragment, `convert` (text to value) and `to_string` (value to
 * text); failed `assert`s in the Python code are the `Err` results here.
 */
module Convertors {
  import opened Base
  import opened Text

  datatype ConvertorKind = StringConvertor | PathConvertor | IntegerConvertor | FloatConvertor | UUIDConvertor

  /** The `regex` class attribute of each convertor. */
  function Regex(k: ConvertorKind): string
  {
    match k
    case StringConvertor => "[^/]+"
    case PathConvertor => ".*"
    case IntegerConvertor => "[0-9]+"
    case FloatConvertor => "[0-9]+(.[0-9]+)?"
    case UUIDConvertor => "[0-9a-f]{8}-[0-9a-f]{4}-[0-9a-f]{4}-[0-9a-f]{4}-[0-9a-f]{12}"
  }

  /** The language of `[^/]+`. */
  predicate MatchesStringRegex(s: string)
  {
    |s| > 0 && forall i :: 0 <= i < |s| ==> s[i] != '/'
  }

  /** The language of `.*` (in Python's `re`, `.` is any character but newline). */
  predicate MatchesPathRegex(s: string)
  {
    forall i :: 0 <= i < |s| ==> s[i] != '\n'
  }

  datatype ConvertError = AssertionError(message: string) | ValueError

  /** The names `CONVERTOR_TYPES` maps, in its order. */
  const RegistryNames: seq<string> := ["str", "path", "int", "float", "uuid"]

  /** `CONVERTOR_TYPES.get(name)`. */
  function LookupConvertor(name: string): (r: Option<ConvertorKind>)
    ensures r.Some? <==> name in RegistryNames
    ensures name == "str" <==> r == Some(StringConvertor)
    ensures name == "path" <==> r == Some(PathConvertor)
    ensures name == "int" <==> r == Some(IntegerConvertor)
  {
    if name == "str" then Some(StringConvertor)
    else if name == "path" then Some(PathConvertor)
    else if name == "int" then Some(IntegerConvertor)
    else if name == "float" then Some(FloatConvertor)
    else if name == "uuid" then Some(UUIDConvertor)
    else None
  }

  // ---------------------------------------------------------------------
  // StringConvertor

  function StringConvert(value: string): string
  {
    value
  }

  function StringToString(value: string): (r: Result<string, ConvertError>)
  {
    if '/' in value then Err(AssertionError("May not contain path separators"))
    else if value == "" then Err(AssertionError("Must not be empty"))
    else Ok(value)
  }

  /**
   * `to_string` accepts exactly the strings of the convertor's own regex and
   * returns them unchanged; the separator check comes before the emptiness
   * check.
   */
  lemma StringToStringAcceptsItsRegex(value: string)
    ensures StringToString(value).Ok? <==> MatchesStringRegex(value)
    ensures StringToString(value).Ok? ==> StringToString(value).value == value
    ensures '/' in value ==> StringToString(value) == Err(AssertionError("May not contain path separators"))
  {
  }

  /** Round trip on every captured segment: `to_string(convert(s)) == s`. */
  lemma StringRoundTrip(s: string)
    requires MatchesStringRegex(s)
    ensures StringToString(StringConvert(s)) == Ok(s)
  {
  }

  // ---------------------------------------------------------------------
  // PathConvertor

  function PathConvert(value: string): string
  {
    value
  }

  function PathToString(value: string): string
  {
    value
  }

  /** Both directions are the identity, separators included. */
  lemma PathRoundTrip(s: string)
    ensures PathToString(PathConvert(s)) == s && PathConvert(PathToString(s)) == s
    ensures MatchesPathRegex("/") && !MatchesStringRegex("/")
  {
    assert "/"[0] == '/';
  }

  // ---------------------------------------------------------------------
  // IntegerConvertor

  /**
   * `int(value)`: an optional sign followed by ASCII digits. Every other
   * string raises ValueError in this model.
   */
  function IntegerConvert(value: string): (r: Result<int, ConvertError>)
    ensures IsDigitString(value) ==> r == Ok(ParseDigits(value))
  {
    if IsDigitString(value) then Ok(ParseDigits(value))
    else if |value| > 1 && (value[0] == '+' || value[0] == '-') && IsDigitString(value[1..]) then
      if value[0] == '-' then Ok(-(ParseDigits(value[1..]) as int)) else Ok(ParseDigits(value[1..]))
    else Err(ValueError)
  }

  function IntegerToString(value: int): (r: Result<string, ConvertError>)
    ensures r.Err? <==> value < 0
    ensures r.Err? ==> r.error == AssertionError("Negative integers are not supported")
  {
    if value >= 0 then Ok(DecimalString(value))
    else Err(AssertionError("Negative integers are not supported"))
  }

  /** `to_string` renders every non-negative integer as a string of its regex. */
  lemma IntegerToStringMatchesRegex(n: nat)
    ensures IntegerToString(n).Ok? && IsDigitString(IntegerToString(n).value)
  {
    DecimalIsCanonical(n);
  }

  /** Round trip on values: `convert(to_string(n)) == n`. */
  lemma IntegerRoundTrip(n: nat)
    ensures IntegerToString(n).Ok? && IntegerConvert(IntegerToString(n).value) == Ok(n)
  {
    ParseDecimal(n);
    DecimalIsCanonical(n);
  }

  /**
   * Round trip on captured text: `to_string(convert(s))` drops leading zeros,
   * so it still matches `[0-9]+` but equals `s` only when `s` has none.
   */
  lemma IntegerTextRoundTrip(s: string)
    requires IsDigitString(s)
    ensures IntegerConvert(s).Ok? && IntegerConvert(s).value >= 0
    ensures IntegerToString(IntegerConvert(s).value) == Ok(StripLeadingZeros(s))
    ensures IntegerToString(IntegerConvert(s).value) == Ok(s) <==> IsCanonical(s)
  {
    DecimalOfParse(s);
  }

  /** `convert` accepts every negative number, which `to_string` then refuses. */
  lemma NegativeAcceptedOnlyOneWay(s: string)
    requires IsDigitString(s) && ParseDigits(s) > 0
    ensures IntegerConvert("-" + s) == Ok(-(ParseDigits(s) as int))
    ensures IntegerToString(-(ParseDigits(s) as int)).Err?
  {
    assert ("-" + s)[1..] == s;
    assert !IsDigitString("-" + s) by { assert !IsDigit(("-" + s)[0]); }
  }
}
