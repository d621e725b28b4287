/**
 * The two functions of Go's `strings` package that the parser relies on.
 * Strings are sequences of characters; every suffix matched here is ASCII,
 * so matching characters agrees with Go's matching of UTF-8 bytes.
 */
module Strings {

  /** `strings.HasSuffix`: `s` ends with `suffix`. */
  predicate HasSuffix(s: string, suffix: string)
    ensures HasSuffix(s, suffix) <==> exists p :: s == p + suffix
  {
    && |suffix| <= |s|
    && assert s == s[..|s| - |suffix|] + s[|s| - |suffix|..];
       s[|s| - |suffix|..] == suffix
  }

  /** `strings.TrimSuffix`: `s` without one trailing `suffix`, or `s` itself when it does not end with it. */
  function TrimSuffix(s: string, suffix: string): (r: string)
    ensures HasSuffix(s, suffix) ==> r + suffix == s
    ensures !HasSuffix(s, suffix) ==> r == s
  {
    if HasSuffix(s, suffix) then s[..|s| - |suffix|] else s
  }

  /** Appending a suffix makes the string end with it, and trimming takes exactly that suffix off again. */
  lemma TrimAppended(p: string, suffix: string)
    ensures HasSuffix(p + suffix, suffix)
    ensures TrimSuffix(p + suffix, suffix) == p
  {
    var s := p + suffix;
    assert s[|s| - |suffix|..] == suffix;
    assert s[..|s| - |suffix|] == p;
  }
}
