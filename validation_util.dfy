/**
 * Utils/ValidationUtil.cs: the e-mail and phone regular expressions written out as
 * hand-coded matchers, the password length rule, HTML-tag stripping and truncation.
 *
 * Both regular expressions end in `$`, which in .NET also matches just before a final
 * `'\n'`; the matchers below accept that one trailing newline too.
 */
module ValidationUtil {
  import opened Wrappers
  import opened Text

  predicate IsAsciiLetter(c: char) { ('a' <= c <= 'z') || ('A' <= c <= 'Z') }

  predicate IsAsciiDigit(c: char) { '0' <= c <= '9' }

  /** `[a-zA-Z0-9._%+-]`, the characters before the `@`. */
  predicate IsLocalChar(c: char) {
    IsAsciiLetter(c) || IsAsciiDigit(c) || c == '.' || c == '_' || c == '%' || c == '+' || c == '-'
  }

  /** `[a-zA-Z0-9.-]`, the characters of the domain. */
  predicate IsDomainChar(c: char) {
    IsAsciiLetter(c) || IsAsciiDigit(c) || c == '.' || c == '-'
  }

  predicate AllLocal(s: string) { forall i :: 0 <= i < |s| ==> IsLocalChar(s[i]) }

  predicate AllDomain(s: string) { forall i :: 0 <= i < |s| ==> IsDomainChar(s[i]) }

  predicate AllLetters(s: string) { forall i :: 0 <= i < |s| ==> IsAsciiLetter(s[i]) }

  predicate AllDigits(s: string) { forall i :: 0 <= i < |s| ==> IsAsciiDigit(s[i]) }

  /** The index of the first `c` in `s`, or -1. */
  function IndexOf(s: string, c: char): (r: int)
    ensures -1 <= r < |s|
    ensures r >= 0 ==> s[r] == c && c !in s[..r]
    ensures r == -1 ==> c !in s
  {
    if s == [] then -1
    else if s[0] == c then 0
    else
      var k := IndexOf(s[1..], c);
      if k == -1 then -1 else k + 1
  }

  /** The index of the last `c` in `s`, or -1. */
  function LastIndexOf(s: string, c: char): (r: int)
    ensures -1 <= r < |s|
    ensures r >= 0 ==> s[r] == c && c !in s[r + 1..]
    ensures r == -1 ==> c !in s
  {
    if s == [] then -1
    else if s[|s| - 1] == c then |s| - 1
    else
      var front := s[..|s| - 1];
      var k := LastIndexOf(front, c);
      assert s == front + [s[|s| - 1]];
      assert k >= 0 ==> s[k + 1..] == front[k + 1..] + [s[|s| - 1]];
      k
  }

  // ---------------------------------------------------------------- e-mail

  /**
   * The reference reading of `^[a-zA-Z0-9._%+-]+@[a-zA-Z0-9.-]+\.[a-zA-Z]{2,}$` (without
   * the trailing-newline allowance): `s` is L@D.T with the `@` at `at` and the `.` at `dot`.
   */
  ghost predicate EmailSplit(s: string, at: int, dot: int) {
    && 0 < at && at + 1 < dot && dot + 2 < |s|
    && s[at] == '@' && s[dot] == '.'
    && AllLocal(s[..at])
    && AllDomain(s[at + 1..dot])
    && AllLetters(s[dot + 1..])
  }

  ghost predicate EmailShape(s: string) {
    exists at, dot :: EmailSplit(s, at, dot)
  }

  /**
   * The matcher: the `@` must be the first one (no local character is `@`) and the `.`
   * before the top-level domain must be the last one (no letter is `.`), so there is only
   * one place to try.
   */
  predicate MatchesEmail(s: string) {
    var at := IndexOf(s, '@');
    at > 0 && AllLocal(s[..at]) &&
    var rest := s[at + 1..];
    var dot := LastIndexOf(rest, '.');
    dot > 0 && AllDomain(rest[..dot]) && |rest| - dot - 1 >= 2 && AllLetters(rest[dot + 1..])
  }

  lemma MatchesEmailSound(s: string)
    requires MatchesEmail(s)
    ensures EmailShape(s)
  {
    var at := IndexOf(s, '@');
    var rest := s[at + 1..];
    var dot := LastIndexOf(rest, '.');
    assert s[at + 1..at + 1 + dot] == rest[..dot];
    assert s[at + 1 + dot + 1..] == rest[dot + 1..];
    assert EmailSplit(s, at, at + 1 + dot);
  }

  lemma MatchesEmailComplete(s: string, a: int, d: int)
    requires EmailSplit(s, a, d)
    ensures MatchesEmail(s)
  {
    assert '@' !in s[..a] by {
      forall i | 0 <= i < a ensures s[i] != '@' {
        assert IsLocalChar(s[..a][i]);
      }
    }
    assert IndexOf(s, '@') == a;
    var rest := s[a + 1..];
    var p := d - a - 1;
    assert rest[p] == '.';
    assert rest[..p] == s[a + 1..d];
    assert rest[p + 1..] == s[d + 1..];
    forall i | d + 1 <= i < |s| ensures s[i] != '.' {
      assert IsAsciiLetter(s[d + 1..][i - d - 1]);
    }
    assert LastIndexOf(rest, '.') == p;
  }

  /** The matcher accepts exactly the strings of the shape L@D.T. */
  lemma MatchesEmailIff(s: string)
    ensures MatchesEmail(s) <==> EmailShape(s)
  {
    if MatchesEmail(s) {
      MatchesEmailSound(s);
    }
    if EmailShape(s) {
      var a, d :| EmailSplit(s, a, d);
      MatchesEmailComplete(s, a, d);
    }
  }

  /** True when `s` ends in the one `'\n'` that .NET's `$` lets through. */
  predicate EndsInNewline(s: string) { |s| > 0 && s[|s| - 1] == '\n' }

  /** The e-mail expression with its `$` anchor: `s`, or `s` minus a final `'\n'`, matches. */
  predicate MatchesEmailAtEnd(s: string) {
    MatchesEmail(s) || (EndsInNewline(s) && MatchesEmail(s[..|s| - 1]))
  }

  lemma MatchesEmailAtEndIff(s: string)
    ensures MatchesEmailAtEnd(s) <==> EmailShape(s) || (EndsInNewline(s) && EmailShape(s[..|s| - 1]))
  {
    MatchesEmailIff(s);
    if EndsInNewline(s) {
      MatchesEmailIff(s[..|s| - 1]);
    }
  }

  /** `isValidEmail`: false for null or empty, otherwise the anchored regular expression. */
  function IsValidEmail(email: Option<string>): (r: bool)
    ensures r <==> (email.Some? &&
      (EmailShape(email.value) || (EndsInNewline(email.value) && EmailShape(email.value[..|email.value| - 1]))))
  {
    MatchesEmailAtEndIff(email.GetOr(""));
    !IsNullOrEmpty(email) && MatchesEmailAtEnd(email.value)
  }

  lemma {:induction false} CountCharNone(s: string, c: char, p: char -> bool)
    requires !p(c)
    requires forall i :: 0 <= i < |s| ==> p(s[i])
    ensures CountChar(s, c) == 0
  {
    if s != [] {
      CountCharNone(s[1..], c, p);
    }
  }

  /** An address of the shape L@D.T holds exactly one `@`. */
  lemma EmailShapeOneAt(s: string)
    requires EmailShape(s)
    ensures CountChar(s, '@') == 1
  {
    var a, d :| EmailSplit(s, a, d);
    assert s == s[..a] + [s[a]] + (s[a + 1..d] + [s[d]] + s[d + 1..]);
    CountCharNone(s[..a], '@', IsLocalChar);
    CountCharNone(s[a + 1..d], '@', IsDomainChar);
    CountCharNone(s[d + 1..], '@', IsAsciiLetter);
    CountCharAppend(s[a + 1..d], [s[d]], '@');
    CountCharAppend(s[a + 1..d] + [s[d]], s[d + 1..], '@');
    CountCharAppend(s[..a], [s[a]], '@');
    CountCharAppend(s[..a] + [s[a]], s[a + 1..d] + [s[d]] + s[d + 1..], '@');
  }

  /** Every address `isValidEmail` accepts contains exactly one `@`. */
  lemma ValidEmailHasOneAt(email: Option<string>)
    requires IsValidEmail(email)
    ensures CountChar(email.value, '@') == 1
  {
    var s := email.value;
    if EmailShape(s) {
      EmailShapeOneAt(s);
    } else {
      NewlineShapeOneAt(s);
    }
  }

  /** An L@D.T address followed by the newline `$` allows also holds one `@`. */
  lemma NewlineShapeOneAt(s: string)
    requires EndsInNewline(s) && EmailShape(s[..|s| - 1])
    ensures CountChar(s, '@') == 1
  {
    var t := s[..|s| - 1];
    EmailShapeOneAt(t);
    assert s == t + ['\n'];
    NewlineKeepsAt(t);
  }

  /** The final newline `$` allows adds no `@`. */
  lemma NewlineKeepsAt(t: string)
    ensures CountChar(t + ['\n'], '@') == CountChar(t, '@')
  {
    CountCharAppend(t, ['\n'], '@');
    assert ['\n'][1..] == [];
  }

  // ---------------------------------------------------------------- phone

  predicate MatchesPhone(s: string) {
    10 <= |s| <= 11 && AllDigits(s)
  }

  /** `isValidPhone`: `^[0-9]{10,11}$`, false for null or empty. */
  function IsValidPhone(phone: Option<string>): (r: bool)
    ensures r ==> phone.Some? && 10 <= |phone.value| <= 12
    ensures phone.Some? && !EndsInNewline(phone.value) ==>
      (r <==> 10 <= |phone.value| <= 11 && AllDigits(phone.value))
    ensures phone.Some? && EndsInNewline(phone.value) ==>
      (r <==> 11 <= |phone.value| <= 12 && AllDigits(phone.value[..|phone.value| - 1]))
  {
    !IsNullOrEmpty(phone) &&
    (MatchesPhone(phone.value) || (EndsInNewline(phone.value) && MatchesPhone(phone.value[..|phone.value| - 1])))
  }

  /** On a trimmed string (the only kind registration passes) the rule is "10 or 11 digits". */
  lemma {:induction false} TrimmedPhone(s: string)
    requires Trim(s) == s
    ensures IsValidPhone(Some(s)) <==> 10 <= |s| <= 11 && AllDigits(s)
  {
    if |s| > 0 {
      assert IsWhiteSpace('\n');
      assert s[|s| - 1] != '\n';
    }
  }

  // ---------------------------------------------------------------- password

  /** `isValidPassword`: not null and at least 6 characters. */
  function IsValidPassword(password: Option<string>): (r: bool)
    ensures r <==> password.Some? && |password.value| >= 6
  {
    if IsNullOrEmpty(password) then false
    else if |password.value| < 6 then false
    else true
  }

  // ---------------------------------------------------------------- sanitizing

  /**
   * `Regex.Replace(s, "<[^>]*>", "")`: scanning left to right, a `<` starts a match that
   * ends at the first `>` after it; a `<` with no `>` after it is kept.
   */
  function StripTags(s: string): (r: string)
    ensures |r| <= |s|
    ensures forall i :: 0 <= i < |r| ==> r[i] in s
    decreases |s|
  {
    if s == [] then []
    else if s[0] == '<' && '>' in s[1..] then
      var j := IndexOf(s[1..], '>') + 1;
      var r := StripTags(s[j + 1..]);
      assert forall i :: 0 <= i < |r| ==> r[i] in s by {
        forall i | 0 <= i < |r| ensures r[i] in s {
          var k :| 0 <= k < |s[j + 1..]| && s[j + 1..][k] == r[i];
          assert s[j + 1 + k] == r[i];
        }
      }
      r
    else
      var r := StripTags(s[1..]);
      assert forall i :: 0 <= i < |r| ==> r[i] in s by {
        forall i | 0 <= i < |r| ensures r[i] in s {
          var k :| 0 <= k < |s[1..]| && s[1..][k] == r[i];
          assert s[1 + k] == r[i];
        }
      }
      [s[0]] + r
  }

  /** No `<` is followed, anywhere later, by a `>`: nothing tag-like is left. */
  predicate NoTag(s: string) {
    forall i, j :: 0 <= i < j < |s| && s[i] == '<' ==> s[j] != '>'
  }

  lemma {:induction false} StripTagsNoTag(s: string)
    ensures NoTag(StripTags(s))
    decreases |s|
  {
    if s == [] {
    } else if s[0] == '<' && '>' in s[1..] {
      var j := IndexOf(s[1..], '>') + 1;
      StripTagsNoTag(s[j + 1..]);
    } else {
      StripTagsNoTag(s[1..]);
      var r := StripTags(s[1..]);
      if s[0] == '<' {
        assert forall k :: 0 <= k < |r| ==> r[k] != '>' by {
          forall k | 0 <= k < |r| ensures r[k] != '>' {
            var m :| 0 <= m < |s[1..]| && s[1..][m] == r[k];
          }
        }
      }
      assert StripTags(s) == [s[0]] + r;
    }
  }

  lemma {:induction false} StripTagsOfNoTag(s: string)
    requires NoTag(s)
    ensures StripTags(s) == s
  {
    if s != [] {
      if s[0] == '<' {
        assert '>' !in s[1..] by {
          forall k | 0 <= k < |s[1..]| ensures s[1..][k] != '>' {
            assert s[k + 1] != '>';
          }
        }
      }
      assert NoTag(s[1..]) by {
        forall i, j | 0 <= i < j < |s[1..]| && s[1..][i] == '<' ensures s[1..][j] != '>' {
          assert s[i + 1] == '<';
        }
      }
      StripTagsOfNoTag(s[1..]);
    }
  }

  /** Stripping twice is stripping once. */
  lemma StripTagsIdempotent(s: string)
    ensures StripTags(StripTags(s)) == StripTags(s)
  {
    StripTagsNoTag(s);
    StripTagsOfNoTag(StripTags(s));
  }

  /** `sanitizeString`: null for null or empty input, otherwise the text with its tags removed. */
  function SanitizeString(input: Option<string>): (r: Option<string>)
    ensures r.None? <==> IsNullOrEmpty(input)
    ensures r.Some? ==> NoTag(r.value) && |r.value| <= |input.value|
  {
    if IsNullOrEmpty(input) then None
    else
      StripTagsNoTag(input.value);
      Some(StripTags(input.value))
  }

  /**
   * Sanitizing a sanitized value changes nothing, except that a text which was all tags
   * became `""` the first time and becomes null the second.
   */
  lemma SanitizeTwice(input: Option<string>)
    ensures SanitizeString(input) != Some("") ==> SanitizeString(SanitizeString(input)) == SanitizeString(input)
    ensures SanitizeString(input) == Some("") ==> SanitizeString(SanitizeString(input)) == None
  {
    if !IsNullOrEmpty(input) {
      StripTagsIdempotent(input.value);
    }
  }

  // ---------------------------------------------------------------- truncation

  /** The result of `truncate`, or the `ArgumentOutOfRangeException` of `Substring`. */
  datatype Truncated = Value(text: Option<string>) | ArgumentOutOfRange

  /** `truncate(input, maxLength)`. */
  function Truncate(input: Option<string>, maxLength: int): (r: Truncated)
    ensures IsNullOrEmpty(input) ==> r == Value(input)
    ensures !IsNullOrEmpty(input) ==>
      (r.ArgumentOutOfRange? <==> maxLength < 0)
    ensures !IsNullOrEmpty(input) && r.Value? ==>
      r.text.Some? && StartsWith(input.value, r.text.value)
      && |r.text.value| == (if |input.value| <= maxLength then |input.value| else maxLength)
  {
    if IsNullOrEmpty(input) then Value(input)
    else if |input.value| <= maxLength then Value(input)
    else if maxLength < 0 then ArgumentOutOfRange
    else Value(Some(input.value[..maxLength]))
  }
}
