/** Input cleaning before evaluation (src/preprocess.rs). */
module Preprocess {
  import opened Wrappers

  predicate StartsWith(s: string, p: string)
  {
    |p| <= |s| && s[..|p|] == p
  }

  /** `clean_string`: nothing for empty input or a `//` comment line, else the input unchanged. */
  function CleanString(input: string): (r: Option<string>)
    ensures r.None? <==> input == "" || StartsWith(input, "//")
    ensures r.Some? ==> r.value == input
  {
    if input == "" then None
    else if StartsWith(input, "//") then None
    else Some(input)
  }

  /** Cleaning what cleaning kept changes nothing more. */
  lemma CleanIdempotent(s: string)
    ensures CleanString(s).Some? ==> CleanString(CleanString(s).value) == CleanString(s)
  {
  }
}
