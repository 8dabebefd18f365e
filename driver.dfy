/**
 * The line-buffering loop of `eval_file` (src/main.rs): each line is cleaned, scanned for
 * brackets and block comments against a stack of open ones, and appended to a buffer; when the
 * stack is empty the buffer is one unit, which is cleaned again and, unless empty, evaluated.
 * A file marked `@negative` expects an error: there an ordinary error skips the unit, and only a
 * parse or collector error stops the run.
 *
 * Reading the file and the evaluator are left to the caller: the lines arrive as a sequence and
 * the evaluator is a function from the interpreter state and a unit to the new state and an
 * optional error.
 */
module Driver {
  import opened Wrappers
  import opened JsErrors
  import opened Preprocess

  /** `clean_string` used where a `String` is expected: a dropped line reads as "". */
  function CleanOrEmpty(s: string): (r: string)
    ensures r == "" <==> s == "" || StartsWith(s, "//")
    ensures r != "" ==> r == s
  {
    match CleanString(s)
    case Some(t) => t
    case None => ""
  }

  /** `str::contains`: p occurs somewhere in s. */
  predicate Contains(s: string, p: string)
    decreases |s|
  {
    StartsWith(s, p) || (|s| > 0 && Contains(s[1..], p))
  }

  function UnexpectedToken(c: char): JsError
  {
    ParseError("Unexpected token " + [c])
  }

  /**
   * The bracket scan of the rest `s` of a line, with `last` the character before it: '(' and '{'
   * push themselves and a '*' after a '/' pushes '/'; ')', '}' and a '/' after a '*' must pop
   * their opener, or the scan is the error "Unexpected token"; any other character leaves the
   * stack alone.
   */
  function Scan(braces: seq<char>, last: char, s: string): (r: Result<seq<char>, JsError>)
    ensures r.Err? ==> exists k :: 0 <= k < |s| && r.error == UnexpectedToken(s[k]) && s[k] in ")}/"
    decreases |s|
  {
    if s == [] then Ok(braces)
    else
      var c := s[0];
      if c == '(' then Scan(braces + ['('], c, s[1..])
      else if c == '{' then Scan(braces + ['{'], c, s[1..])
      else if c == '*' && last == '/' then Scan(braces + ['/'], c, s[1..])
      else if c == ')' then
        (if |braces| > 0 && braces[|braces| - 1] == '(' then Scan(braces[..|braces| - 1], c, s[1..])
         else Err(UnexpectedToken(c)))
      else if c == '}' then
        (if |braces| > 0 && braces[|braces| - 1] == '{' then Scan(braces[..|braces| - 1], c, s[1..])
         else Err(UnexpectedToken(c)))
      else if c == '/' && last == '*' then
        (if |braces| > 0 && braces[|braces| - 1] == '/' then Scan(braces[..|braces| - 1], c, s[1..])
         else Err(UnexpectedToken(c)))
      else Scan(braces, c, s[1..])
  }

  /** The stack only ever holds the three openers. */
  predicate Openers(braces: seq<char>)
  {
    forall k :: 0 <= k < |braces| ==> braces[k] in "({/"
  }

  lemma {:induction false} ScanKeepsOpeners(braces: seq<char>, last: char, s: string)
    requires Openers(braces)
    ensures Scan(braces, last, s).Ok? ==> Openers(Scan(braces, last, s).value)
    decreases |s|
  {
    if s != [] {
      var c := s[0];
      if c == '(' || c == '{' || (c == '*' && last == '/') {
        ScanKeepsOpeners(braces + [if c == '*' then '/' else c], c, s[1..]);
      } else if (c == ')' || c == '}' || (c == '/' && last == '*')) && |braces| > 0 {
        ScanKeepsOpeners(braces[..|braces| - 1], c, s[1..]);
      } else {
        ScanKeepsOpeners(braces, c, s[1..]);
      }
    }
  }

  /** Text without brackets, '*' or '/' leaves the stack exactly as it was. */
  lemma {:induction false} PlainTextKeepsStack(braces: seq<char>, last: char, s: string)
    requires forall k :: 0 <= k < |s| ==> s[k] !in "(){}*/"
    ensures Scan(braces, last, s) == Ok(braces)
    decreases |s|
  {
    if s != [] {
      assert s[0] !in "(){}*/";
      PlainTextKeepsStack(braces, s[0], s[1..]);
    }
  }

  /** An opener followed by its closer leaves the stack as it was; a stray closer is an error. */
  lemma MatchingPairs(braces: seq<char>, last: char)
    ensures Scan(braces, last, "()") == Ok(braces)
    ensures Scan(braces, last, "{}") == Ok(braces)
    ensures Scan(braces, '\0', "/**/") == Ok(braces)
    ensures Scan([], last, ")") == Err(UnexpectedToken(')'))
    ensures Scan(braces + ['('], last, "}") == Err(UnexpectedToken('}'))
  {
    assert (braces + ['('])[..|braces|] == braces;
    assert (braces + ['{'])[..|braces|] == braces;
    assert (braces + ['/'])[..|braces|] == braces;
    assert "()"[1..] == ")" && "{}"[1..] == "}";
    assert "/**/"[1..] == "**/" && "**/"[1..] == "*/" && "*/"[1..] == "/";
    assert Scan(braces + ['/'], '*', "/") == Ok(braces);
    assert Scan(braces + ['/'], '*', "*/") == Ok(braces);
  }

  /**
   * `last` starts afresh on every line: a line ending in '/' and one starting with '*' open no
   * comment, where the same two characters on one line do.
   */
  lemma LastResetPerLine()
    ensures Scan([], '\0', "/") == Ok([]) && Scan([], '\0', "*") == Ok([])
    ensures Scan([], '\0', "/*") == Ok(['/'])
  {
    assert "/*"[1..] == "*" && "*"[1..] == "" && "/"[1..] == "";
    assert [] + ['/'] == ['/'];
    assert Scan([], '/', "*") == Scan(['/'], '*', "");
  }

  /** The scan of one line as `eval_file` runs it: a `for` loop over the characters. */
  method ScanLine(braces0: seq<char>, input: string) returns (r: Result<seq<char>, JsError>)
    ensures r == Scan(braces0, '\0', input)
  {
    var braces := braces0;
    var last := '\0';
    var i := 0;
    while i < |input|
      invariant 0 <= i <= |input|
      invariant Scan(braces0, '\0', input) == Scan(braces, last, input[i..])
    {
      var c := input[i];
      assert input[i..][0] == c && input[i..][1..] == input[i + 1..];
      if c == '(' {
        braces := braces + ['('];
      } else if c == '{' {
        braces := braces + ['{'];
      } else if c == '*' && last == '/' {
        braces := braces + ['/'];
      } else if c == ')' || c == '}' || (c == '/' && last == '*') {
        var opener := if c == ')' then '(' else if c == '}' then '{' else '/';
        if |braces| == 0 || braces[|braces| - 1] != opener {
          return Err(UnexpectedToken(c));
        }
        braces := braces[..|braces| - 1];
      }
      last := c;
      i := i + 1;
    }
    assert input[i..] == [];
    r := Ok(braces);
  }

  /** What the evaluator answers for one unit: the new interpreter state and an error, if any. */
  datatype Outcome<S> = Outcome(state: S, err: Option<JsError>)

  /** What the loop does after a unit's evaluation. */
  datatype Disposition = Continue | Abort(e: JsError)

  /** The error policy: in a negative test only meta errors abort; otherwise every error does. */
  function Policy(negative: bool, err: Option<JsError>): (d: Disposition)
    ensures err.None? ==> d == Continue
    ensures err.Some? && !negative ==> d == Abort(err.value)
    ensures err.Some? && negative ==> (d == Continue <==> !IsMeta(err.value))
    ensures d.Abort? ==> d.e == err.value
  {
    match err
    case None => Continue
    case Some(e) => if negative && !IsMeta(e) then Continue else Abort(e)
  }

  /** The reader's state between lines: the buffered text, the open brackets, the negative flag. */
  datatype Reader = Reader(builder: string, braces: seq<char>, negative: bool)

  const Start: Reader := Reader("", [], false)

  /** The run of `eval_file` over the remaining lines, ending in the last interpreter state. */
  function Run<S>(lines: seq<string>, rd: Reader, st: S, eval: (S, string) -> Outcome<S>): Result<S, JsError>
    decreases |lines|
  {
    if lines == [] then Ok(st)
    else
      var input := CleanOrEmpty(lines[0]);
      var negative := rd.negative || Contains(input, "@negative");
      match Scan(rd.braces, '\0', input)
      case Err(e) => Err(e)
      case Ok(braces) =>
        var builder := rd.builder + input;
        if |braces| > 0 then Run(lines[1..], Reader(builder, braces, negative), st, eval)
        else
          var unit := CleanOrEmpty(builder);
          if unit == "" then Run(lines[1..], Reader("", braces, negative), st, eval)
          else
            var out := eval(st, unit);
            match Policy(negative, out.err)
            case Abort(e) => Err(e)
            case Continue => Run(lines[1..], Reader("", braces, negative), out.state, eval)
  }

  /** `eval_file`'s loop, reading the lines one at a time. */
  method EvalFile<S>(lines: seq<string>, st0: S, eval: (S, string) -> Outcome<S>) returns (r: Result<S, JsError>)
    ensures r == Run(lines, Start, st0, eval)
  {
    var builder := "";
    var braces: seq<char> := [];
    var negative := false;
    var st := st0;
    var i := 0;
    while i < |lines|
      invariant 0 <= i <= |lines|
      invariant Run(lines, Start, st0, eval) == Run(lines[i..], Reader(builder, braces, negative), st, eval)
    {
      assert lines[i..][0] == lines[i] && lines[i..][1..] == lines[i + 1..];
      var input := CleanOrEmpty(lines[i]);
      if Contains(input, "@negative") {
        negative := true;
      }
      var scanned := ScanLine(braces, input);
      if scanned.Err? {
        return Err(scanned.error);
      }
      braces := scanned.value;
      builder := builder + input;
      i := i + 1;
      if |braces| == 0 {
        var unit := CleanOrEmpty(builder);
        builder := "";
        if unit != "" {
          var out := eval(st, unit);
          var d := Policy(negative, out.err);
          if d.Abort? {
            return Err(d.e);
          }
          st := out.state;
        }
      }
    }
    assert lines[i..] == [];
    r := Ok(st);
  }

  /** A comment line between units is never evaluated. */
  lemma CommentLinesSkipped<S>(comment: string, rest: seq<string>, negative: bool, st: S, eval: (S, string) -> Outcome<S>)
    requires StartsWith(comment, "//")
    ensures Run([comment] + rest, Reader("", [], negative), st, eval) == Run(rest, Reader("", [], negative), st, eval)
  {
    assert ([comment] + rest)[1..] == rest;
    assert Scan([], '\0', "") == Ok([]);
    assert !StartsWith("", "@negative");
  }

  /** The scans of the two lines of the sample call split across lines. */
  lemma SampleLineScans()
    ensures Scan([], '\0', "f(a,") == Ok(['('])
    ensures Scan(['('], '\0', "b);") == Ok([])
  {
    var l1, l2 := "f(a,", "b);";
    assert l1[1..] == "(a," && "(a,"[1..] == "a," && "a,"[1..] == "," && ","[1..] == "";
    assert l2[1..] == ");" && ");"[1..] == ";" && ";"[1..] == "";
    assert [] + ['('] == ['('];
    assert Scan(['('], '(', "a,") == Ok(['(']);
  }

  /** None of the sample lines mentions `@negative`. */
  lemma SampleLinesNotNegative()
    ensures !Contains("f(a,", "@negative") && !Contains("b);", "@negative")
  {
    assert !Contains("", "@negative");
    assert !Contains(";", "@negative");
    assert !Contains(",", "@negative");
    assert !Contains("a,", "@negative");
    assert !Contains(");", "@negative");
    assert !Contains("(a,", "@negative");
  }

  /** A line that does not start with '/' is kept by cleaning as it is. */
  lemma NotACommentLine(s: string)
    requires |s| > 0 && s[0] != '/'
    ensures CleanOrEmpty(s) == s
  {
    assert |s| < 2 || s[..2][0] != '/';
  }

  /** The first sample line only opens a bracket, so it is buffered. */
  lemma MultiLineFirst<S>(st: S, eval: (S, string) -> Outcome<S>)
    ensures Run(["f(a,", "b);"], Start, st, eval) == Run(["b);"], Reader("f(a,", ['('], false), st, eval)
  {
    NotACommentLine("f(a,");
    SampleLineScans();
    SampleLinesNotNegative();
    assert "" + "f(a," == "f(a,";
    assert ["f(a,", "b);"][1..] == ["b);"];
  }

  /** The second sample line closes the bracket, so the joined text is evaluated. */
  lemma MultiLineSecond<S>(st: S, eval: (S, string) -> Outcome<S>)
    ensures Run(["b);"], Reader("f(a,", ['('], false), st, eval) ==
      match Policy(false, eval(st, "f(a,b);").err)
      case Abort(e) => Err(e)
      case Continue => Ok(eval(st, "f(a,b);").state)
  {
    NotACommentLine("b);");
    NotACommentLine("f(a,b);");
    SampleLineScans();
    SampleLinesNotNegative();
    assert "f(a," + "b);" == "f(a,b);";
    assert ["b);"][1..] == [];
  }

  /** Lines are joined until the brackets balance, and the joined unit is evaluated once. */
  lemma MultiLineUnit<S>(st: S, eval: (S, string) -> Outcome<S>)
    ensures Run(["f(a,", "b);"], Start, st, eval) ==
      match Policy(false, eval(st, "f(a,b);").err)
      case Abort(e) => Err(e)
      case Continue => Ok(eval(st, "f(a,b);").state)
  {
    MultiLineFirst(st, eval);
    MultiLineSecond(st, eval);
  }

  /** Text left unbalanced at the end of the file is dropped without being evaluated. */
  lemma UnbalancedTailDropped<S>(st: S, eval: (S, string) -> Outcome<S>)
    ensures Run(["{"], Start, st, eval) == Ok(st)
  {
    assert "{"[1..] == "" && [] + ['{'] == ['{'];
    assert Scan([], '\0', "{") == Ok(['{']);
    assert !Contains("", "@negative") && !Contains("{", "@negative");
    assert ["{"][1..] == [];
  }

  /** Every line scans cleanly and leaves some bracket open, starting from `braces`. */
  predicate StaysOpen(braces: seq<char>, lines: seq<string>)
    decreases |lines|
  {
    lines == [] ||
      (var scanned := Scan(braces, '\0', CleanOrEmpty(lines[0]));
       scanned.Ok? && |scanned.value| > 0 && StaysOpen(scanned.value, lines[1..]))
  }

  /** The open brackets after scanning lines that stay open. */
  function OpenAfter(braces: seq<char>, lines: seq<string>): (r: seq<char>)
    requires StaysOpen(braces, lines)
    ensures lines != [] ==> |r| > 0
    decreases |lines|
  {
    if lines == [] then braces
    else OpenAfter(Scan(braces, '\0', CleanOrEmpty(lines[0])).value, lines[1..])
  }

  /** The cleaned lines, concatenated. */
  function Joined(lines: seq<string>): string
    decreases |lines|
  {
    if lines == [] then "" else CleanOrEmpty(lines[0]) + Joined(lines[1..])
  }

  /** Whether some cleaned line mentions `@negative`. */
  predicate AnyNegative(lines: seq<string>)
    decreases |lines|
  {
    lines != [] && (Contains(CleanOrEmpty(lines[0]), "@negative") || AnyNegative(lines[1..]))
  }

  /**
   * What `eval_file` does once the brackets balance: the buffered text is cleaned, skipped when
   * empty, and otherwise evaluated once, with the error policy deciding whether the run goes on.
   */
  function AfterUnit<S>(text: string, negative: bool, rest: seq<string>, st: S, eval: (S, string) -> Outcome<S>): Result<S, JsError>
  {
    var unit := CleanOrEmpty(text);
    if unit == "" then Run(rest, Reader("", [], negative), st, eval)
    else
      match Policy(negative, eval(st, unit).err)
      case Abort(e) => Err(e)
      case Continue => Run(rest, Reader("", [], negative), eval(st, unit).state, eval)
  }

  /** One line that leaves a bracket open is appended to the buffer and nothing is evaluated. */
  lemma OpenLineStep<S>(line: string, rest: seq<string>, rd: Reader, st: S, eval: (S, string) -> Outcome<S>)
    requires Scan(rd.braces, '\0', CleanOrEmpty(line)).Ok? && |Scan(rd.braces, '\0', CleanOrEmpty(line)).value| > 0
    ensures var input := CleanOrEmpty(line);
      Run([line] + rest, rd, st, eval) ==
        Run(rest, Reader(rd.builder + input, Scan(rd.braces, '\0', input).value, rd.negative || Contains(input, "@negative")), st, eval)
  {
    assert ([line] + rest)[0] == line && ([line] + rest)[1..] == rest;
  }

  /** The reader after buffering lines that leave a bracket open. */
  function Buffered(rd: Reader, lines: seq<string>): Reader
    requires StaysOpen(rd.braces, lines)
  {
    Reader(rd.builder + Joined(lines), OpenAfter(rd.braces, lines), rd.negative || AnyNegative(lines))
  }

  /** Buffering the first line, then the others, is buffering them all. */
  lemma BufferedFirst(rd: Reader, lines: seq<string>)
    requires lines != [] && StaysOpen(rd.braces, lines)
    ensures var input := CleanOrEmpty(lines[0]);
      var rd' := Reader(rd.builder + input, Scan(rd.braces, '\0', input).value, rd.negative || Contains(input, "@negative"));
      StaysOpen(rd'.braces, lines[1..]) && Buffered(rd', lines[1..]) == Buffered(rd, lines)
  {
    var input := CleanOrEmpty(lines[0]);
    var braces := Scan(rd.braces, '\0', input).value;
    assert StaysOpen(braces, lines[1..]);
    assert OpenAfter(braces, lines[1..]) == OpenAfter(rd.braces, lines);
    assert Joined(lines) == input + Joined(lines[1..]);
    assert rd.builder + input + Joined(lines[1..]) == rd.builder + Joined(lines);
    assert AnyNegative(lines) == (Contains(input, "@negative") || AnyNegative(lines[1..]));
  }

  /**
   * Lines that leave a bracket open are only buffered: nothing is evaluated, the text is appended
   * to the buffer, and a `@negative` among them marks the test as negative.
   */
  lemma {:induction false} OpenLinesBuffered<S>(lines: seq<string>, rest: seq<string>, rd: Reader, st: S, eval: (S, string) -> Outcome<S>)
    requires StaysOpen(rd.braces, lines)
    ensures Run(lines + rest, rd, st, eval) == Run(rest, Buffered(rd, lines), st, eval)
    decreases |lines|
  {
    if lines == [] {
      assert lines + rest == rest;
      assert Buffered(rd, lines) == rd;
    } else {
      var input := CleanOrEmpty(lines[0]);
      var rd' := Reader(rd.builder + input, Scan(rd.braces, '\0', input).value, rd.negative || Contains(input, "@negative"));
      assert lines + rest == [lines[0]] + (lines[1..] + rest);
      OpenLineStep(lines[0], lines[1..] + rest, rd, st, eval);
      BufferedFirst(rd, lines);
      OpenLinesBuffered(lines[1..], rest, rd', st, eval);
    }
  }

  /** Whatever is still unbalanced at the end of the file is dropped without being evaluated. */
  lemma UnbalancedTailDroppedAll<S>(lines: seq<string>, rd: Reader, st: S, eval: (S, string) -> Outcome<S>)
    requires StaysOpen(rd.braces, lines)
    ensures Run(lines, rd, st, eval) == Ok(st)
  {
    OpenLinesBuffered(lines, [], rd, st, eval);
    assert lines + [] == lines;
  }

  /**
   * Lines are joined until the brackets balance: lines that leave a bracket open, followed by a
   * line that closes the last one, form one unit, which is evaluated once as the cleaned
   * concatenation of all of them.
   */
  lemma JoinedUnit<S>(open: seq<string>, last: string, rest: seq<string>, negative: bool, st: S, eval: (S, string) -> Outcome<S>)
    requires StaysOpen([], open)
    requires Scan(OpenAfter([], open), '\0', CleanOrEmpty(last)) == Ok([])
    ensures Run(open + [last] + rest, Reader("", [], negative), st, eval) ==
      AfterUnit(Joined(open) + CleanOrEmpty(last),
                negative || AnyNegative(open) || Contains(CleanOrEmpty(last), "@negative"), rest, st, eval)
  {
    assert open + [last] + rest == open + ([last] + rest);
    OpenLinesBuffered(open, [last] + rest, Reader("", [], negative), st, eval);
    assert ([last] + rest)[0] == last && ([last] + rest)[1..] == rest;
    assert "" + Joined(open) == Joined(open);
  }

  /**
   * A one-line unit that fails: in a negative test an ordinary error moves on to the next line
   * with the state the evaluator left, and a meta error stops the run; outside a negative test
   * every error stops it.
   */
  lemma ErrorPolicyOnUnit<S>(line: string, rest: seq<string>, negative: bool, st: S, eval: (S, string) -> Outcome<S>)
    requires line != "" && !StartsWith(line, "//")
    requires Scan([], '\0', line) == Ok([])
    requires negative || !Contains(line, "@negative")
    requires eval(st, line).err.Some?
    ensures var e := eval(st, line).err.value;
      && (negative && !IsMeta(e) ==>
            Run([line] + rest, Reader("", [], negative), st, eval) == Run(rest, Reader("", [], true), eval(st, line).state, eval))
      && (IsMeta(e) || !negative ==> Run([line] + rest, Reader("", [], negative), st, eval) == Err(e))
  {
    assert ([line] + rest)[1..] == rest;
    assert "" + line == line;
  }
}
