/** The System.ComponentModel.DataAnnotations attributes the entities and request bodies
    carry ([Required], [StringLength], [EmailAddress]), as predicates on the property value.
    A null string property is `None`. Lengths count characters. */
module DataAnnotations {
  import opened Wrappers

  /** char.IsWhiteSpace: the Unicode space separators, the line and paragraph separators,
      and the control characters U+0009 to U+000D and U+0085. */
  predicate IsWhiteSpace(c: char)
  {
    || c == ' ' || ('\t' <= c <= '\r') || c == '\U{85}' || c == '\U{A0}' || c == '\U{1680}'
    || ('\U{2000}' <= c <= '\U{200A}') || c == '\U{2028}' || c == '\U{2029}' || c == '\U{202F}'
    || c == '\U{205F}' || c == '\U{3000}'
  }

  /** [Required] on a string: not null, and not empty or white space only once trimmed. */
  predicate Required(s: Option<string>)
  {
    s.Some? && exists i | 0 <= i < |s.value| :: !IsWhiteSpace(s.value[i])
  }

  /** [StringLength(max, MinimumLength = min)]: a null value passes; otherwise the length
      lies between the two bounds. */
  predicate StringLength(s: Option<string>, max: nat, min: nat := 0)
  {
    s.None? || min <= |s.value| <= max
  }

  /** string.IndexOf(char): the first position of `c`, or -1. */
  function IndexOf(s: string, c: char): (r: int)
    ensures -1 <= r < |s|
    ensures r == -1 <==> c !in s
    ensures r >= 0 ==> s[r] == c && c !in s[..r]
  {
    if s == [] then -1
    else if s[0] == c then 0
    else var k := IndexOf(s[1..], c); if k == -1 then -1 else k + 1
  }

  /** string.LastIndexOf(char): the last position of `c`, or -1. */
  function LastIndexOf(s: string, c: char): (r: int)
    ensures -1 <= r < |s|
    ensures r == -1 <==> c !in s
    ensures r >= 0 ==> s[r] == c && c !in s[r + 1..]
  {
    if s == [] then -1
    else if s[|s| - 1] == c then |s| - 1
    else LastIndexOf(s[..|s| - 1], c)
  }

  /** [EmailAddress]: a null value passes; otherwise the first '@' is neither the first nor
      the last character and no other '@' follows it. */
  predicate EmailAddress(s: Option<string>)
  {
    s.None? ||
    var at := IndexOf(s.value, '@');
    at > 0 && at != |s.value| - 1 && at == LastIndexOf(s.value, '@')
  }

  /** What [EmailAddress] accepts, stated without string searches: exactly one '@', and it
      is neither the first nor the last character. */
  lemma EmailAddressIff(s: string)
    ensures EmailAddress(Some(s)) <==>
      exists k | 0 < k < |s| - 1 :: s[k] == '@' && forall j | 0 <= j < |s| && j != k :: s[j] != '@'
  {
    var at, last := IndexOf(s, '@'), LastIndexOf(s, '@');
    if EmailAddress(Some(s)) {
      forall j | 0 <= j < |s| && j != at ensures s[j] != '@' {
        if j < at { assert s[..at][j] == s[j]; } else { assert s[last + 1..][j - last - 1] == s[j]; }
      }
    }
    if k :| 0 < k < |s| - 1 && s[k] == '@' && forall j | 0 <= j < |s| && j != k :: s[j] != '@' {
      assert s[at] == '@' && s[last] == '@';
    }
  }
}
