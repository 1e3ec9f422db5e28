/** The two string operations the tracker relies on: Ruby's `String#rstrip`
    and the "file name starts with the pattern" test behind prefix lookup. */
module Text {

  /** The characters `String#rstrip` removes from the end of a string:
      NUL and the ASCII whitespace characters. */
  predicate IsStripped(c: char)
  {
    c == '\0' || c == ' ' || c == '\t' || c == '\n' || c == '\U{B}' || c == '\U{C}' || c == '\r'
  }

  /** True when every character of `s` would be stripped, i.e. `s` is blank. */
  predicate IsBlank(s: string)
  {
    forall i :: 0 <= i < |s| ==> IsStripped(s[i])
  }

  /** `String#rstrip`: `s` without its trailing run of stripped characters. */
  function RStrip(s: string): (r: string)
    ensures r <= s
    ensures |r| == 0 || !IsStripped(r[|r| - 1])
    ensures forall i :: |r| <= i < |s| ==> IsStripped(s[i])
    ensures r == [] <==> IsBlank(s)
  {
    if |s| == 0 then s
    else if IsStripped(s[|s| - 1]) then RStrip(s[..|s| - 1])
    else s
  }

  /** The file-name test of a `pattern*` glob, without metacharacters. */
  predicate StartsWith(s: string, prefix: string)
  {
    prefix <= s
  }
}
