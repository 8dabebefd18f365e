/**
 * The interpreter's error type (src/js_error.rs) and its `Display` rendering, with the inverse
 * reading that shows the rendering loses nothing.
 */
module JsErrors {
  import opened Wrappers

  /** The garbage collector's error; its own `Display` text is what the model keeps. */
  datatype GcError = GcFailure(text: string)

  datatype JsError =
    | ParseError(msg: string)
    | GcError(gc: GcError)
    | TypeError(msg: string)
    | ReferenceError(msg: string)

  const ParsePrefix: string := "ParseError: "
  const GcPrefix: string := "GcError: "
  const TypePrefix: string := "TypeError: "
  const ReferencePrefix: string := "ReferenceError: "

  /** `Display for JsError`: the variant's name, a colon and a space, then the payload's text. */
  function Render(e: JsError): (s: string)
    ensures e.ParseError? ==> s == ParsePrefix + e.msg
    ensures e.GcError? ==> s == GcPrefix + e.gc.text
    ensures e.TypeError? ==> s == TypePrefix + e.msg
    ensures e.ReferenceError? ==> s == ReferencePrefix + e.msg
  {
    match e
    case ParseError(m) => ParsePrefix + m
    case GcError(g) => GcPrefix + g.text
    case TypeError(m) => TypePrefix + m
    case ReferenceError(m) => ReferencePrefix + m
  }

  /** Whether the input starts with the given prefix. */
  predicate HasPrefix(s: string, p: string)
  {
    |p| <= |s| && s[..|p|] == p
  }

  /** Reads a rendered error back: the prefix names the variant, the rest is the payload. */
  function ParseRendered(s: string): (r: Option<JsError>)
    ensures r.Some? ==> Render(r.value) == s
  {
    if HasPrefix(s, ParsePrefix) then Some(ParseError(s[|ParsePrefix|..]))
    else if HasPrefix(s, GcPrefix) then Some(GcError(GcFailure(s[|GcPrefix|..])))
    else if HasPrefix(s, TypePrefix) then Some(TypeError(s[|TypePrefix|..]))
    else if HasPrefix(s, ReferencePrefix) then Some(ReferenceError(s[|ReferencePrefix|..]))
    else None
  }

  /** The variant and payload are recoverable from the rendering: no two prefixes coincide. */
  lemma RenderRoundTrip(e: JsError)
    ensures ParseRendered(Render(e)) == Some(e)
  {
    var s := Render(e);
    match e
    case ParseError(m) =>
      assert s[..|ParsePrefix|] == ParsePrefix;
      assert s[|ParsePrefix|..] == m;
    case GcError(g) =>
      assert !HasPrefix(s, ParsePrefix) by { assert s[0] == 'G'; }
      assert s[..|GcPrefix|] == GcPrefix;
      assert s[|GcPrefix|..] == g.text;
    case TypeError(m) =>
      assert !HasPrefix(s, ParsePrefix) by { assert s[0] == 'T'; }
      assert !HasPrefix(s, GcPrefix) by { assert s[0] == 'T'; }
      assert s[..|TypePrefix|] == TypePrefix;
      assert s[|TypePrefix|..] == m;
    case ReferenceError(m) =>
      assert !HasPrefix(s, ParsePrefix) by { assert s[0] == 'R'; }
      assert !HasPrefix(s, GcPrefix) by { assert s[0] == 'R'; }
      assert !HasPrefix(s, TypePrefix) by { assert s[0] == 'R'; }
      assert s[..|ReferencePrefix|] == ReferencePrefix;
      assert s[|ReferencePrefix|..] == m;
  }

  /** Distinct errors render differently. */
  lemma RenderInjective(e1: JsError, e2: JsError)
    requires Render(e1) == Render(e2)
    ensures e1 == e2
  {
    RenderRoundTrip(e1);
    RenderRoundTrip(e2);
  }

  /**
   * A meta error is one about the interpreter rather than the script: a parse failure or a
   * garbage-collector failure.
   */
  predicate IsMeta(e: JsError)
  {
    e.ParseError? || e.GcError?
  }
}
