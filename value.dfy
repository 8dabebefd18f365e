/** The `JsValue` enum of src/value.rs and the text its `Display` implementation writes. */
module Value {
  import opened Wrappers
  import opened F64

  datatype JsValue =
    | JsBoolean(b: bool)
    | JsUndefined
    | JsNull
    | JsNumber(n: Number)
    | JsString(s: string)
    | JsSymbol(sym: string)
    | JsObject
    | JsError(err: string)

  /**
   * The text `format!("{}", v)` produces. Numbers use Rust's f64 formatting, whose text for a
   * non-integral value is the parameter `fracText`.
   */
  function Display(v: JsValue, fracText: real -> string): string
  {
    match v
    case JsBoolean(b) => if b then "true" else "false"
    case JsUndefined => "undefined"
    case JsNull => "null"
    case JsNumber(n) => ToText(n, fracText)
    case JsString(s) => s
    case JsSymbol(s) => s
    case JsObject => "{}"
    case JsError(err) => err
  }

  /** The fixed words: "true", "false", "undefined" and "null". */
  lemma KeywordText(fracText: real -> string)
    ensures Display(JsBoolean(true), fracText) == "true"
    ensures Display(JsBoolean(false), fracText) == "false"
    ensures Display(JsUndefined, fracText) == "undefined"
    ensures Display(JsNull, fracText) == "null"
  {
  }

  /** Strings and symbols are written verbatim, the empty one included. */
  lemma VerbatimText(s: string, fracText: real -> string)
    ensures Display(JsString(s), fracText) == s && Display(JsSymbol(s), fracText) == s
  {
  }

  /** An object is written as "{}" and an error as its message. */
  lemma ObjectAndErrorText(message: string, fracText: real -> string)
    ensures Display(JsObject, fracText) == "{}"
    ensures Display(JsError(message), fracText) == message
  {
  }

  /**
   * An integer-valued number is written as its decimal digits, starting with '-' exactly when it
   * is negative, and reading that text back gives the integer.
   */
  lemma IntegerText(i: int, fracText: real -> string)
    ensures ParseInt(Display(JsNumber(FromInt(i)), fracText)) == Some(i)
    ensures Display(JsNumber(FromInt(i)), fracText)[0] == '-' <==> i < 0
  {
    assert (i as real).Floor == i;
    IntRoundTrip(i);
    if i >= 0 {
      NatToStringDigits(i);
    }
  }

  /** The special numbers: "NaN", "inf", "-inf"; and -0 is written like 0. */
  lemma SpecialNumberText(fracText: real -> string)
    ensures Display(JsNumber(NaN), fracText) == "NaN"
    ensures Display(JsNumber(PosInf), fracText) == "inf"
    ensures Display(JsNumber(NegInf), fracText) == "-inf"
    ensures Display(JsNumber(NegZero), fracText) == Display(JsNumber(Zero), fracText) == "0"
  {
  }
}
