/** The input helpers of the `Security` class: `sanitizeInput` strips angle
    brackets, trims and caps the length; `validateEmail` and `validatePhone`
    are the two regular-expression tests, written here as explicit
    character-class predicates. */
module Security {
  import opened Records

  /** `sanitizeInput` keeps at most this many characters. */
  const MaxInputLength: nat := 1000

  /** JavaScript's `\s`, which is also the set `String.prototype.trim`
      strips: ECMAScript WhiteSpace (tab, vertical tab, form feed, space,
      no-break space, zero-width no-break space and the other space
      separators of category Zs) and LineTerminator (line feed, carriage
      return, line separator, paragraph separator). */
  const WhitespaceChars: set<char> := {
    '\t', '\n', '\U{000B}', '\U{000C}', '\r', ' ', '\U{00A0}', '\U{1680}',
    '\U{2000}', '\U{2001}', '\U{2002}', '\U{2003}', '\U{2004}', '\U{2005}',
    '\U{2006}', '\U{2007}', '\U{2008}', '\U{2009}', '\U{200A}',
    '\U{2028}', '\U{2029}', '\U{202F}', '\U{205F}', '\U{3000}', '\U{FEFF}'
  }

  predicate IsWhitespace(c: char) {
    c in WhitespaceChars
  }

  predicate NoWhitespace(s: string) {
    forall i :: 0 <= i < |s| ==> !IsWhitespace(s[i])
  }

  predicate NoAngleBrackets(s: string) {
    forall i :: 0 <= i < |s| ==> s[i] != '<' && s[i] != '>'
  }

  // ---------------------------------------------------------------------
  // sanitizeInput

  /** `s.replace(/[<>]/g, '')`: no '<' or '>' is left, and a string that
      had none comes back unchanged. */
  function RemoveAngleBrackets(s: string): (r: string)
    ensures NoAngleBrackets(r)
    ensures NoAngleBrackets(s) ==> r == s
  {
    if |s| == 0 then ""
    else
      var rest := RemoveAngleBrackets(s[1..]);
      assert s == [s[0]] + s[1..];
      if s[0] == '<' || s[0] == '>' then rest else [s[0]] + rest
  }

  /** Every character other than '<' and '>' is kept as often as it occurs. */
  lemma {:induction false} RemoveAngleBracketsCounts(s: string, c: char)
    requires c != '<' && c != '>'
    ensures multiset(RemoveAngleBrackets(s))[c] == multiset(s)[c]
  {
    if |s| > 0 {
      RemoveAngleBracketsCounts(s[1..], c);
      var rest := RemoveAngleBrackets(s[1..]);
      assert s == [s[0]] + s[1..];
      assert multiset(s) == multiset{s[0]} + multiset(s[1..]);
      if s[0] != '<' && s[0] != '>' {
        assert multiset([s[0]] + rest) == multiset{s[0]} + multiset(rest);
      }
    }
  }

  /** Leading whitespace removed: what is left is a suffix of `s` that does
      not start with whitespace, and all that was dropped is whitespace. */
  function TrimStart(s: string): (r: string)
    ensures |r| <= |s| && r == s[|s| - |r|..]
    ensures forall i :: 0 <= i < |s| - |r| ==> IsWhitespace(s[i])
    ensures r == [] || !IsWhitespace(r[0])
  {
    if |s| == 0 || !IsWhitespace(s[0]) then s else TrimStart(s[1..])
  }

  /** Trailing whitespace removed: a prefix of `s` that does not end with
      whitespace, and all that was dropped is whitespace. */
  function TrimEnd(s: string): (r: string)
    ensures |r| <= |s| && r == s[..|r|]
    ensures forall i :: |r| <= i < |s| ==> IsWhitespace(s[i])
    ensures r == [] || !IsWhitespace(r[|r| - 1])
  {
    if |s| == 0 || !IsWhitespace(s[|s| - 1]) then s else TrimEnd(s[..|s| - 1])
  }

  /** `r` is the slice of `s` starting at `i`, with only whitespace before
      and after it. */
  predicate TrimmedAt(s: string, r: string, i: int) {
    && 0 <= i <= |s| - |r| && r == s[i..i + |r|]
    && (forall k :: 0 <= k < i ==> IsWhitespace(s[k]))
    && (forall k :: i + |r| <= k < |s| ==> IsWhitespace(s[k]))
  }

  /** Trimming the start and then the end leaves the slice of `s` that
      begins where the leading whitespace ends. */
  lemma TrimStartEndSlice(s: string)
    ensures TrimmedAt(s, TrimEnd(TrimStart(s)), |s| - |TrimStart(s)|)
  {
    var t := TrimStart(s);
    var r := TrimEnd(t);
    var i := |s| - |t|;
    assert t == s[i..];
    assert r == t[..|r|];
    forall k | i + |r| <= k < |s| ensures IsWhitespace(s[k]) {
      assert s[k] == t[k - i];
    }
  }

  /** `s.trim()`: the slice of `s` between its leading and its trailing
      whitespace; it neither starts nor ends with whitespace. */
  function Trim(s: string): (r: string)
    ensures r == [] || (!IsWhitespace(r[0]) && !IsWhitespace(r[|r| - 1]))
    ensures exists i :: TrimmedAt(s, r, i)
  {
    TrimStartEndSlice(s);
    TrimEnd(TrimStart(s))
  }

  /** Trimming only drops characters, so it adds no bracket. */
  lemma TrimKeepsNoAngleBrackets(s: string)
    requires NoAngleBrackets(s)
    ensures NoAngleBrackets(Trim(s))
  {
    var r := Trim(s);
    var i :| TrimmedAt(s, r, i);
    forall k | 0 <= k < |r| ensures r[k] != '<' && r[k] != '>' {
      assert r[k] == s[i + k];
    }
  }

  /** `t.substring(0, 1000)`: the first 1000 characters, or all of `t`. */
  function Truncate(t: string): (r: string)
    ensures |r| == (if |t| <= MaxInputLength then |t| else MaxInputLength)
    ensures r == t[..|r|]
  {
    if |t| <= MaxInputLength then t else t[..MaxInputLength]
  }

  /** A prefix of a string without brackets has none, and starts where the string does. */
  lemma PrefixFacts(t: string, r: string)
    requires |r| <= |t| && r == t[..|r|]
    ensures NoAngleBrackets(t) ==> NoAngleBrackets(r)
    ensures r != [] ==> r[0] == t[0]
  {
  }

  /** The string part of `sanitizeInput`: brackets removed, then trimmed,
      then cut to its first 1000 characters. */
  function SanitizeString(s: string): (r: string)
    ensures var t := Trim(RemoveAngleBrackets(s));
      |r| == (if |t| <= MaxInputLength then |t| else MaxInputLength) && r == t[..|r|]
    ensures |r| <= MaxInputLength
    ensures NoAngleBrackets(r)
    ensures r == [] || !IsWhitespace(r[0])
  {
    var t := Trim(RemoveAngleBrackets(s));
    TrimKeepsNoAngleBrackets(RemoveAngleBrackets(s));
    var r := Truncate(t);
    PrefixFacts(t, r);
    r
  }

  /** `Security.sanitizeInput`: anything that is not a string comes back
      unchanged; a string comes back without '<' or '>', without leading
      whitespace and at most 1000 characters long. */
  function Sanitize(input: Value): (r: Value)
    ensures !input.Str? ==> r == input
    ensures input.Str? ==>
              && r.Str? && NoAngleBrackets(r.s) && |r.s| <= MaxInputLength
              && (r.s == [] || !IsWhitespace(r.s[0]))
  {
    if input.Str? then Str(SanitizeString(input.s)) else input
  }

  /** Input that already has no brackets, no surrounding whitespace and at
      most 1000 characters comes back unchanged. */
  lemma SanitizeKeepsCleanInput(s: string)
    requires NoAngleBrackets(s) && |s| <= MaxInputLength
    requires s == [] || (!IsWhitespace(s[0]) && !IsWhitespace(s[|s| - 1]))
    ensures SanitizeString(s) == s
  {
    assert RemoveAngleBrackets(s) == s;
    assert TrimStart(s) == s;
    assert TrimEnd(s) == s;
  }

  /** Removing brackets keeps the order of what remains. */
  lemma {:induction false} RemoveAngleBracketsAppend(a: string, b: string)
    ensures RemoveAngleBrackets(a + b) == RemoveAngleBrackets(a) + RemoveAngleBrackets(b)
  {
    if |a| == 0 {
      assert a + b == b;
    } else {
      assert (a + b)[0] == a[0];
      assert (a + b)[1..] == a[1..] + b;
      RemoveAngleBracketsAppend(a[1..], b);
    }
  }

  /** Trimming happens before the cut, so a long input whose 1000th
      character is whitespace comes out ending in whitespace, and
      sanitising the output again trims that character off: the function
      is not idempotent. */
  lemma SanitizeNotIdempotent(s: string)
    requires NoAngleBrackets(s) && |s| > MaxInputLength
    requires !IsWhitespace(s[0]) && !IsWhitespace(s[|s| - 1])
    requires IsWhitespace(s[MaxInputLength - 1])
    ensures SanitizeString(s) == s[..MaxInputLength]
    ensures SanitizeString(SanitizeString(s)) != SanitizeString(s)
  {
    var t := s[..MaxInputLength];
    assert TrimStart(s) == s;
    assert TrimEnd(s) == s;
    assert Trim(s) == s;
    var u := Trim(RemoveAngleBrackets(t));
    assert RemoveAngleBrackets(t) == t;
    assert IsWhitespace(t[|t| - 1]);
  }

  // ---------------------------------------------------------------------
  // validateEmail

  /** `[^\s@]` */
  predicate EmailChar(c: char) {
    !IsWhitespace(c) && c != '@'
  }

  /** `/^[^\s@]+@[^\s@]+\.[^\s@]+$/` matches `s` with its '@' at `at` and
      its '.' at `dot`: each of the three runs is non-empty and every
      character but the '@' is outside `[\s@]`. */
  ghost predicate EmailRegexMatchesAt(s: string, at: int, dot: int) {
    && 0 < at && at + 1 < dot && dot + 1 < |s|
    && s[at] == '@' && s[dot] == '.'
    && forall k :: 0 <= k < |s| && k != at ==> EmailChar(s[k])
  }

  ghost predicate EmailRegexMatches(s: string) {
    exists at, dot :: EmailRegexMatchesAt(s, at, dot)
  }

  /** `s.indexOf(c)`: the first position of `c`, or -1. */
  function IndexOf(s: string, c: char): (k: int)
    ensures -1 <= k < |s|
    ensures k == -1 <==> c !in s
    ensures k != -1 ==> s[k] == c && forall j :: 0 <= j < k ==> s[j] != c
  {
    if |s| == 0 then -1
    else if s[0] == c then 0
    else
      var k := IndexOf(s[1..], c);
      if k == -1 then -1 else k + 1
  }

  /** A string the email regex matches has no whitespace, one '@' with
      something before it, and a '.' after it that is neither the first
      nor the last character of the part after the '@'. */
  lemma EmailMatchForcesShape(s: string)
    ensures EmailRegexMatches(s) ==>
      var at := IndexOf(s, '@');
      && 0 < at && NoWhitespace(s) && IndexOf(s[at + 1..], '@') == -1
      && at + 3 <= |s| && IndexOf(s[at + 2..|s| - 1], '.') != -1
  {
    if EmailRegexMatches(s) {
      var at, dot :| EmailRegexMatchesAt(s, at, dot);
      assert forall j :: 0 <= j < at ==> s[j] != '@' by {
        forall j | 0 <= j < at ensures s[j] != '@' { assert EmailChar(s[j]); }
      }
      var tail := s[at + 1..];
      assert '@' !in tail by {
        forall j | 0 <= j < |tail| ensures tail[j] != '@' {
          assert tail[j] == s[at + 1 + j];
          assert EmailChar(s[at + 1 + j]);
        }
      }
      assert NoWhitespace(s) by {
        forall k | 0 <= k < |s| ensures !IsWhitespace(s[k]) {
          if k != at { assert EmailChar(s[k]); }
        }
      }
      assert s[at + 2..|s| - 1][dot - at - 2] == '.';
    }
  }

  /** `Security.validateEmail`: true exactly when the email regex matches. */
  function ValidateEmail(s: string): (r: bool)
    ensures r <==> EmailRegexMatches(s)
  {
    EmailMatchForcesShape(s);
    var at := IndexOf(s, '@');
    if 0 < at && NoWhitespace(s) && IndexOf(s[at + 1..], '@') == -1 && at + 3 <= |s| then
      var dot := IndexOf(s[at + 2..|s| - 1], '.');
      if dot == -1 then false
      else
        assert EmailRegexMatchesAt(s, at, at + 2 + dot) by {
          forall k | 0 <= k < |s| && k != at ensures EmailChar(s[k]) {
            if k > at { assert s[k] == s[at + 1..][k - at - 1]; }
          }
        }
        true
    else false
  }

  // ---------------------------------------------------------------------
  // validatePhone

  /** `[0-9\s\+\-\(\)]` */
  predicate PhoneChar(c: char) {
    ('0' <= c <= '9') || IsWhitespace(c) || c == '+' || c == '-' || c == '(' || c == ')'
  }

  /** Scans the string once, as the regex engine does. */
  function AllPhoneChars(s: string): (r: bool)
    ensures r <==> forall i :: 0 <= i < |s| ==> PhoneChar(s[i])
  {
    if |s| == 0 then true else PhoneChar(s[0]) && AllPhoneChars(s[1..])
  }

  /** `Security.validatePhone`, the regex `/^[0-9\s\+\-\(\)]{10,15}$/`:
      between 10 and 15 characters, each a digit, whitespace, '+', '-',
      '(' or ')'. */
  function ValidatePhone(s: string): (r: bool)
    ensures r <==> 10 <= |s| <= 15 && forall i :: 0 <= i < |s| ==> PhoneChar(s[i])
  {
    10 <= |s| <= 15 && AllPhoneChars(s)
  }
}
