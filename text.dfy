/**
 * The .NET string operations the application relies on, over `string` = `seq<char>`:
 * `Trim`, `ToUpper`/`ToLower`, `Equals(…, OrdinalIgnoreCase)`, `StartsWith`, `Contains`,
 * `string.IsNullOrEmpty`, `Split(',')[0]`, and the "trim or keep null" setter idiom.
 * Case mapping is modelled for ASCII letters only.
 */
module Text {
  import opened Wrappers

  /** `Char.IsWhiteSpace`: the Unicode separators and the controls 0x09-0x0D and 0x85. */
  predicate IsWhiteSpace(c: char) {
    var n := c as int;
    (9 <= n <= 13) || n == 0x20 || n == 0x85 || n == 0xA0 || n == 0x1680
    || (0x2000 <= n <= 0x200A) || n == 0x2028 || n == 0x2029 || n == 0x202F
    || n == 0x205F || n == 0x3000
  }

  /** `TrimStart()`: drops the leading white space and nothing else. */
  function TrimStart(s: string): (r: string)
    ensures |r| <= |s|
    ensures r != [] ==> !IsWhiteSpace(r[0])
    ensures forall i :: 0 <= i < |s| - |r| ==> IsWhiteSpace(s[i])
  {
    if s != [] && IsWhiteSpace(s[0]) then TrimStart(s[1..]) else s
  }

  /** What `TrimStart` keeps is a suffix of its input. */
  lemma {:induction false} TrimStartIsSuffix(s: string)
    ensures TrimStart(s) == s[|s| - |TrimStart(s)|..]
  {
    if s != [] && IsWhiteSpace(s[0]) {
      TrimStartIsSuffix(s[1..]);
      assert s[1..][|s| - 1 - |TrimStart(s[1..])|..] == s[|s| - |TrimStart(s)|..];
    }
  }

  /** `TrimEnd()`: drops the trailing white space and nothing else. */
  function TrimEnd(s: string): (r: string)
    ensures |r| <= |s| && r == s[..|r|]
    ensures r != [] ==> !IsWhiteSpace(r[|r| - 1])
    ensures forall i :: |r| <= i < |s| ==> IsWhiteSpace(s[i])
  {
    if s != [] && IsWhiteSpace(s[|s| - 1]) then TrimEnd(s[..|s| - 1]) else s
  }

  /** `Trim()`. */
  function Trim(s: string): (r: string)
    ensures |r| <= |s|
    ensures r != [] ==> !IsWhiteSpace(r[0]) && !IsWhiteSpace(r[|r| - 1])
  {
    TrimEnd(TrimStart(s))
  }

  lemma {:induction false} TrimStartOfTrimmed(s: string)
    requires s != [] ==> !IsWhiteSpace(s[0])
    ensures TrimStart(s) == s
  {
  }

  lemma {:induction false} TrimEndOfTrimmed(s: string)
    requires s != [] ==> !IsWhiteSpace(s[|s| - 1])
    ensures TrimEnd(s) == s
  {
  }

  /** Trimming twice is trimming once. */
  lemma {:induction false} TrimIdempotent(s: string)
    ensures Trim(Trim(s)) == Trim(s)
  {
    var t := Trim(s);
    TrimStartOfTrimmed(t);
    TrimEndOfTrimmed(t);
  }

  function UpperChar(c: char): char {
    if 'a' <= c <= 'z' then (c as int - 32) as char else c
  }

  function LowerChar(c: char): char {
    if 'A' <= c <= 'Z' then (c as int + 32) as char else c
  }

  /** `ToUpper()` on ASCII letters. */
  function ToUpper(s: string): (r: string)
    ensures |r| == |s|
  {
    seq(|s|, i requires 0 <= i < |s| => UpperChar(s[i]))
  }

  /** `ToLower()` on ASCII letters. */
  function ToLower(s: string): (r: string)
    ensures |r| == |s|
  {
    seq(|s|, i requires 0 <= i < |s| => LowerChar(s[i]))
  }

  lemma ToUpperIdempotent(s: string)
    ensures ToUpper(ToUpper(s)) == ToUpper(s)
  {
  }

  lemma ToLowerIdempotent(s: string)
    ensures ToLower(ToLower(s)) == ToLower(s)
  {
  }

  /** Case mapping leaves white space alone, so it commutes with `TrimStart`. */
  lemma {:induction false} TrimStartToUpper(s: string)
    ensures TrimStart(ToUpper(s)) == ToUpper(TrimStart(s))
  {
    if s != [] {
      assert ToUpper(s)[1..] == ToUpper(s[1..]);
      if IsWhiteSpace(s[0]) {
        TrimStartToUpper(s[1..]);
      }
    }
  }

  lemma {:induction false} TrimEndToUpper(s: string)
    ensures TrimEnd(ToUpper(s)) == ToUpper(TrimEnd(s))
  {
    if s != [] {
      assert ToUpper(s)[..|s| - 1] == ToUpper(s[..|s| - 1]);
      if IsWhiteSpace(s[|s| - 1]) {
        TrimEndToUpper(s[..|s| - 1]);
      }
    }
  }

  lemma {:induction false} TrimStartToLower(s: string)
    ensures TrimStart(ToLower(s)) == ToLower(TrimStart(s))
  {
    if s != [] {
      assert ToLower(s)[1..] == ToLower(s[1..]);
      if IsWhiteSpace(s[0]) {
        TrimStartToLower(s[1..]);
      }
    }
  }

  lemma {:induction false} TrimEndToLower(s: string)
    ensures TrimEnd(ToLower(s)) == ToLower(TrimEnd(s))
  {
    if s != [] {
      assert ToLower(s)[..|s| - 1] == ToLower(s[..|s| - 1]);
      if IsWhiteSpace(s[|s| - 1]) {
        TrimEndToLower(s[..|s| - 1]);
      }
    }
  }

  /** Upper-casing and trimming may be done in either order. */
  lemma TrimToUpper(s: string)
    ensures Trim(ToUpper(s)) == ToUpper(Trim(s))
  {
    TrimStartToUpper(s);
    TrimEndToUpper(TrimStart(s));
  }

  /** Lower-casing and trimming may be done in either order. */
  lemma TrimToLower(s: string)
    ensures Trim(ToLower(s)) == ToLower(Trim(s))
  {
    TrimStartToLower(s);
    TrimEndToLower(TrimStart(s));
  }

  /** `Equals(b, StringComparison.OrdinalIgnoreCase)`. */
  predicate EqualsIgnoreCase(a: string, b: string) {
    ToUpper(a) == ToUpper(b)
  }

  /** A word of upper-case ASCII letters, such as the status and role names. */
  predicate IsUpperWord(w: string) {
    forall i :: 0 <= i < |w| ==> 'A' <= w[i] <= 'Z'
  }

  lemma ToUpperOfUpperWord(w: string)
    requires IsUpperWord(w)
    ensures ToUpper(w) == w
  {
  }

  /** An upper-case word has no white space to trim. */
  lemma TrimUpperWord(w: string)
    requires IsUpperWord(w)
    ensures Trim(w) == w
  {
    TrimStartOfTrimmed(w);
    TrimEndOfTrimmed(w);
  }

  /**
   * Comparing with an upper-case word ignoring case accepts exactly the spellings that
   * differ from it only in the case of some letters.
   */
  lemma EqualsIgnoreCaseUpperWord(s: string, w: string)
    requires IsUpperWord(w)
    ensures EqualsIgnoreCase(s, w) <==>
      |s| == |w| && forall i :: 0 <= i < |s| ==> s[i] == w[i] || s[i] == LowerChar(w[i])
  {
    ToUpperOfUpperWord(w);
    if EqualsIgnoreCase(s, w) {
      forall i | 0 <= i < |s| ensures s[i] == w[i] || s[i] == LowerChar(w[i]) {
        assert ToUpper(s)[i] == w[i];
      }
    }
    if |s| == |w| && forall i :: 0 <= i < |s| ==> s[i] == w[i] || s[i] == LowerChar(w[i]) {
      assert ToUpper(s) == w;
    }
  }

  /** No string equals two different upper-case words ignoring case. */
  lemma EqualsIgnoreCaseDistinct(s: string, v: string, w: string)
    requires IsUpperWord(v) && IsUpperWord(w) && v != w
    ensures !(EqualsIgnoreCase(s, v) && EqualsIgnoreCase(s, w))
  {
    ToUpperOfUpperWord(v);
    ToUpperOfUpperWord(w);
  }

  /** `EqualsIgnoreCase` against a nullable right-hand side (false for `null`). */
  predicate EqualsIgnoreCaseN(a: string, b: Option<string>) {
    b.Some? && EqualsIgnoreCase(a, b.value)
  }

  predicate StartsWith(s: string, prefix: string) {
    |prefix| <= |s| && s[..|prefix|] == prefix
  }

  /** `s.Contains(part)`: `part` occurs in `s` at some position. */
  predicate Contains(s: string, part: string) {
    StartsWith(s, part) || (s != [] && Contains(s[1..], part))
  }

  /** `string.IsNullOrEmpty`. */
  predicate IsNullOrEmpty(s: Option<string>) {
    s.None? || s.value == ""
  }

  /** `string.IsNullOrEmpty(s) || s.Trim().Equals("")`: null, empty or only white space. */
  predicate IsBlank(s: Option<string>) {
    IsNullOrEmpty(s) || Trim(s.value) == ""
  }

  /** The setter idiom `x != null ? x.Trim() : null`. */
  function TrimOrNull(s: Option<string>): (r: Option<string>)
    ensures r.None? <==> s.None?
  {
    if s.None? then None else Some(Trim(s.value))
  }

  /** What the setter idiom stores is already trimmed. */
  lemma TrimOrNullTrimmed(s: Option<string>)
    ensures TrimOrNull(s).Some? ==> Trim(TrimOrNull(s).value) == TrimOrNull(s).value
  {
    if s.Some? {
      TrimIdempotent(s.value);
    }
  }

  /** `s.Split(sep)[0]`: the text before the first `sep`, or all of `s`. */
  function FirstField(s: string, sep: char): (r: string)
    ensures |r| <= |s| && r == s[..|r|]
    ensures sep !in r
    ensures |r| < |s| ==> s[|r|] == sep
  {
    if s == [] || s[0] == sep then [] else [s[0]] + FirstField(s[1..], sep)
  }

  /** The number of occurrences of `c` in `s`. */
  function CountChar(s: string, c: char): nat {
    if s == [] then 0 else (if s[0] == c then 1 else 0) + CountChar(s[1..], c)
  }

  lemma {:induction false} CountCharAppend(a: string, b: string, c: char)
    ensures CountChar(a + b, c) == CountChar(a, c) + CountChar(b, c)
  {
    if a == [] {
      assert a + b == b;
    } else {
      assert (a + b)[1..] == a[1..] + b;
      CountCharAppend(a[1..], b, c);
    }
  }

  lemma {:induction false} CountCharAbsent(s: string, c: char)
    requires c !in s
    ensures CountChar(s, c) == 0
  {
    if s != [] {
      CountCharAbsent(s[1..], c);
    }
  }

  /** `string.Join(sep, parts)`. */
  function Join(sep: string, parts: seq<string>): string {
    if |parts| == 0 then ""
    else if |parts| == 1 then parts[0]
    else parts[0] + sep + Join(sep, parts[1..])
  }

  /** The occurrences of `c` over all the parts. */
  function CountCharAll(parts: seq<string>, c: char): nat {
    if parts == [] then 0 else CountChar(parts[0], c) + CountCharAll(parts[1..], c)
  }

  /** Joining with a separator free of `c` neither adds nor loses occurrences of `c`. */
  lemma {:induction false} CountCharJoin(sep: string, parts: seq<string>, c: char)
    requires c !in sep
    ensures CountChar(Join(sep, parts), c) == CountCharAll(parts, c)
  {
    if |parts| == 1 {
      assert parts[1..] == [];
    } else if |parts| > 1 {
      CountCharJoin(sep, parts[1..], c);
      CountCharAppend(parts[0], sep, c);
      CountCharAppend(parts[0] + sep, Join(sep, parts[1..]), c);
      CountCharAbsent(sep, c);
    }
  }

  lemma {:induction false} CountCharAllAppend(a: seq<string>, b: seq<string>, c: char)
    ensures CountCharAll(a + b, c) == CountCharAll(a, c) + CountCharAll(b, c)
  {
    if a == [] {
      assert a + b == b;
    } else {
      assert (a + b)[1..] == a[1..] + b;
      CountCharAllAppend(a[1..], b, c);
    }
  }
}
