/**
 * String operations of the JavaScript runtime used by the upload page:
 * `trim`, `toLowerCase`, `startsWith`, `includes` and `split("/")[0]`.
 * Strings are sequences of Unicode scalar values.
 */
module Text {

  /** ECMAScript WhiteSpace and LineTerminator code points, the set `trim` removes. */
  predicate IsJsWhitespace(c: char)
  {
    || c == '\t' || c == '\n' || c == '\U{000B}' || c == '\U{000C}' || c == '\r' || c == ' '
    || c == '\U{00A0}' || c == '\U{1680}' || ('\U{2000}' <= c <= '\U{200A}')
    || c == '\U{2028}' || c == '\U{2029}' || c == '\U{202F}' || c == '\U{205F}'
    || c == '\U{3000}' || c == '\U{FEFF}'
  }

  /** True when every character is whitespace, i.e. `s.trim()` is the empty (falsy) string. */
  predicate AllWhitespace(s: string)
  {
    forall i :: 0 <= i < |s| ==> IsJsWhitespace(s[i])
  }

  /** Drops leading whitespace. */
  function TrimStart(s: string): (r: string)
    ensures |r| <= |s| && r == s[|s| - |r|..]
    ensures |r| > 0 ==> !IsJsWhitespace(r[0])
    ensures AllWhitespace(s[..|s| - |r|])
  {
    if |s| > 0 && IsJsWhitespace(s[0]) then TrimStart(s[1..]) else s
  }

  /** Drops trailing whitespace. */
  function TrimEnd(s: string): (r: string)
    ensures |r| <= |s| && r == s[..|r|]
    ensures |r| > 0 ==> !IsJsWhitespace(r[|r| - 1])
    ensures AllWhitespace(s[|r|..])
  {
    if |s| > 0 && IsJsWhitespace(s[|s| - 1]) then TrimEnd(s[..|s| - 1]) else s
  }

  /** `s.trim()` */
  function Trim(s: string): (r: string)
  {
    TrimEnd(TrimStart(s))
  }

  /** `!s.trim()` holds exactly when the string is made of whitespace only. */
  lemma TrimEmptyIffBlank(s: string)
    ensures Trim(s) == "" <==> AllWhitespace(s)
  {
  }

  /** `toLowerCase` on one character: ASCII and Latin-1 capitals map to their small letters. */
  function LowerChar(c: char): (r: char)
  {
    if 'A' <= c <= 'Z' then (c as int + 32) as char
    else if '\U{00C0}' <= c <= '\U{00DE}' && c != '\U{00D7}' then (c as int + 32) as char
    else c
  }

  /** `s.toLowerCase()` */
  function Lower(s: string): (r: string)
    ensures |r| == |s|
    ensures forall i :: 0 <= i < |s| ==> r[i] == LowerChar(s[i])
  {
    seq(|s|, i requires 0 <= i < |s| => LowerChar(s[i]))
  }

  /** `s.startsWith(p)` */
  predicate StartsWith(s: string, p: string)
  {
    |p| <= |s| && s[..|p|] == p
  }

  /** `q` occurs in `s` starting at position `i`. */
  ghost predicate OccursAt(s: string, q: string, i: int)
  {
    0 <= i && i + |q| <= |s| && s[i..i + |q|] == q
  }

  /** `s.includes(q)`; the empty string is included in every string. */
  function Includes(s: string, q: string): (b: bool)
  {
    if StartsWith(s, q) then true
    else if |s| == 0 then false
    else Includes(s[1..], q)
  }

  /** `includes` is the substring relation: true exactly when some position holds an occurrence. */
  lemma {:induction false} IncludesIffOccurs(s: string, q: string)
    ensures Includes(s, q) <==> exists i :: OccursAt(s, q, i)
  {
    if StartsWith(s, q) {
      assert OccursAt(s, q, 0);
    } else if |s| > 0 {
      IncludesIffOccurs(s[1..], q);
      forall i | 0 < i && OccursAt(s, q, i)
        ensures OccursAt(s[1..], q, i - 1)
      {
        assert s[1..][i - 1..i - 1 + |q|] == s[i..i + |q|];
      }
      if Includes(s[1..], q) {
        var i :| OccursAt(s[1..], q, i);
        assert OccursAt(s, q, i + 1);
      }
    }
  }

  /** `s.split(sep)[0]`: everything before the first `sep`, or all of `s` when there is none. */
  function BeforeFirst(s: string, sep: char): (r: string)
    ensures |r| <= |s| && r == s[..|r|]
    ensures sep !in r
    ensures |r| < |s| ==> s[|r|] == sep
  {
    if |s| == 0 || s[0] == sep then "" else [s[0]] + BeforeFirst(s[1..], sep)
  }

  /** The three facts about `BeforeFirst` pin it down: any prefix free of `sep` that is
      followed by `sep` or ends the string is that same prefix. */
  lemma BeforeFirstUnique(s: string, sep: char, p: string)
    requires |p| <= |s| && p == s[..|p|]
    requires sep !in p
    requires |p| < |s| ==> s[|p|] == sep
    ensures BeforeFirst(s, sep) == p
  {
  }
}
