/**
 * The part of Python's `str` that form validation relies on: `isspace` and
 * `strip()` with no argument.
 */
module PyStrings {

  /** Python's `str.isspace` for a single character: the ASCII controls TAB..CR and
      FS..US, SPACE, NEL, NBSP, the Unicode space separators, and the line and
      paragraph separators U+2028 and U+2029. */
  predicate IsSpace(c: char) {
    || '\t' <= c <= '\r'
    || '\U{1C}' <= c <= '\U{1F}'
    || c == ' '
    || c == '\U{85}'
    || c == '\U{A0}'
    || c == '\U{1680}'
    || '\U{2000}' <= c <= '\U{200A}'
    || c == '\U{2028}'
    || c == '\U{2029}'
    || c == '\U{202F}'
    || c == '\U{205F}'
    || c == '\U{3000}'
  }

  /** Every character of `s` is whitespace (vacuously so for ""). */
  predicate AllSpace(s: string) {
    forall i | 0 <= i < |s| :: IsSpace(s[i])
  }

  /** `s.lstrip()`. */
  function LStrip(s: string): string {
    if |s| > 0 && IsSpace(s[0]) then LStrip(s[1..]) else s
  }

  /** `s.rstrip()`. */
  function RStrip(s: string): string {
    if |s| > 0 && IsSpace(s[|s| - 1]) then RStrip(s[..|s| - 1]) else s
  }

  /** `lstrip` removes a whitespace prefix and nothing more: what is left is a
      suffix of `s` that does not start with whitespace. */
  lemma {:induction false} LStripRemovesLeadingSpace(s: string)
    ensures var r := LStrip(s);
      && |r| <= |s| && r == s[|s| - |r|..]
      && AllSpace(s[..|s| - |r|])
      && (r != [] ==> !IsSpace(r[0]))
  {
    if |s| > 0 && IsSpace(s[0]) {
      LStripRemovesLeadingSpace(s[1..]);
      var r := LStrip(s[1..]);
      assert s[..|s| - |r|] == [s[0]] + s[1..][..|s| - 1 - |r|];
    }
  }

  /** `rstrip` removes a whitespace suffix and nothing more: what is left is a
      prefix of `s` that does not end with whitespace. */
  lemma {:induction false} RStripRemovesTrailingSpace(s: string)
    ensures var r := RStrip(s);
      && |r| <= |s| && r == s[..|r|]
      && AllSpace(s[|r|..])
      && (r != [] ==> !IsSpace(r[|r| - 1]))
  {
    if |s| > 0 && IsSpace(s[|s| - 1]) {
      RStripRemovesTrailingSpace(s[..|s| - 1]);
      var r := RStrip(s[..|s| - 1]);
      assert s[|r|..] == s[..|s| - 1][|r|..] + [s[|s| - 1]];
    }
  }

  /** Stripping leaves nothing exactly when `s` is whitespace only. */
  lemma StripEmptyIffAllSpace(s: string)
    ensures RStrip(LStrip(s)) == "" <==> AllSpace(s)
  {
    var l := LStrip(s);
    LStripRemovesLeadingSpace(s);
    RStripRemovesTrailingSpace(l);
    if RStrip(l) == "" {
      // l is all whitespace, yet it cannot start with whitespace: it is empty
      assert AllSpace(l[0..]);
      assert s[..|s| - |l|] == s;
    }
  }

  /** `s.strip()`: nothing is left exactly when `s` is whitespace only. */
  function Strip(s: string): (r: string)
    ensures r == "" <==> AllSpace(s)
  {
    StripEmptyIffAllSpace(s);
    RStrip(LStrip(s))
  }
}
