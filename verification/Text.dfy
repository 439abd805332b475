/** The string primitives of the Rust standard library that the modelled code uses. */
module Text {
  import opened Wrappers

  /** The characters with the Unicode White_Space property, which `str::trim` removes. */
  predicate IsWhitespace(c: char) {
    var n := c as int;
    || 9 <= n <= 13 || n == 32 || n == 0x85 || n == 0xA0 || n == 0x1680
    || 0x2000 <= n <= 0x200A || n == 0x2028 || n == 0x2029 || n == 0x202F || n == 0x205F || n == 0x3000
  }

  /** Neither end of `s` is whitespace. */
  predicate Trimmed(s: string) {
    s != "" ==> !IsWhitespace(s[0]) && !IsWhitespace(s[|s| - 1])
  }

  function TrimStart(s: string): (r: string)
    ensures r != "" ==> !IsWhitespace(r[0]) && s != "" && r[|r| - 1] == s[|s| - 1]
    ensures s != "" && !IsWhitespace(s[0]) ==> r == s
  {
    if s == "" || !IsWhitespace(s[0]) then s else TrimStart(s[1..])
  }

  function TrimEnd(s: string): (r: string)
    ensures r <= s
    ensures r != "" ==> !IsWhitespace(r[|r| - 1])
    ensures s != "" && !IsWhitespace(s[|s| - 1]) ==> r == s
  {
    if s == "" || !IsWhitespace(s[|s| - 1]) then s else TrimEnd(s[..|s| - 1])
  }

  function Trim(s: string): (r: string)
    ensures Trimmed(r)
    ensures Trimmed(s) ==> r == s
  {
    TrimEnd(TrimStart(s))
  }

  lemma {:induction false} TrimStartMeaning(s: string)
    ensures |TrimStart(s)| <= |s| && s[|s| - |TrimStart(s)|..] == TrimStart(s)
    ensures forall i :: 0 <= i < |s| - |TrimStart(s)| ==> IsWhitespace(s[i])
  {
    if s != "" && IsWhitespace(s[0]) {
      TrimStartMeaning(s[1..]);
      assert forall i :: 1 <= i < |s| ==> s[i] == s[1..][i - 1];
    }
  }

  lemma {:induction false} TrimEndMeaning(s: string)
    ensures forall i :: |TrimEnd(s)| <= i < |s| ==> IsWhitespace(s[i])
  {
    if s != "" && IsWhitespace(s[|s| - 1]) {
      TrimEndMeaning(s[..|s| - 1]);
    }
  }

  /** Trimming removes whitespace at the ends and nothing else. */
  lemma TrimMeaning(s: string) returns (front: string, back: string)
    ensures s == front + Trim(s) + back && Trimmed(Trim(s))
    ensures forall c :: c in front || c in back ==> IsWhitespace(c)
  {
    hide TrimStart, TrimEnd, IsWhitespace;
    var t := TrimStart(s);
    TrimStartMeaning(s);
    TrimEndMeaning(t);
    front, back := s[..|s| - |t|], t[|Trim(s)|..];
    assert t == Trim(s) + back;
    assert s == front + t;
  }

  lemma {:induction false} TrimStartKeepsAbsence(s: string, c: char)
    requires c !in s
    ensures c !in TrimStart(s)
  {
    if s != "" && IsWhitespace(s[0]) {
      TrimStartKeepsAbsence(s[1..], c);
    }
  }

  /** Trimming introduces no character. */
  lemma TrimKeepsAbsence(s: string, c: char)
    requires c !in s
    ensures c !in Trim(s)
  {
    TrimStartKeepsAbsence(s, c);
  }

  predicate IsDigit(c: char) { '0' <= c <= '9' }

  predicate AllDigits(s: string) {
    forall i :: 0 <= i < |s| ==> IsDigit(s[i])
  }

  predicate IsAsciiAlphanumeric(c: char) {
    IsDigit(c) || 'a' <= c <= 'z' || 'A' <= c <= 'Z'
  }

  /** `char::to_ascii_lowercase` */
  function LowerChar(c: char): char {
    if 'A' <= c <= 'Z' then (c as int + 32) as char else c
  }

  /** `str::to_ascii_lowercase` */
  function Lower(s: string): (r: string)
    ensures |r| == |s|
    ensures forall i :: 0 <= i < |s| ==> r[i] == LowerChar(s[i])
    ensures Trimmed(s) ==> Trimmed(r)
  {
    seq(|s|, i requires 0 <= i < |s| => LowerChar(s[i]))
  }

  lemma LowerIdempotent(s: string)
    ensures Lower(Lower(s)) == Lower(s)
  {
  }

  /** `str::split_once`: the text before and after the first `sep`. */
  function SplitOnce(s: string, sep: char): (r: Option<(string, string)>)
    ensures r.None? <==> sep !in s
    ensures r.Some? ==> s == r.value.0 + [sep] + r.value.1 && sep !in r.value.0
  {
    if s == "" then None
    else if s[0] == sep then
      assert s == "" + [sep] + s[1..];
      Some(("", s[1..]))
    else
      match SplitOnce(s[1..], sep)
      case None => None
      case Some((a, b)) =>
        assert s == ([s[0]] + a) + [sep] + b;
        Some(([s[0]] + a, b))
  }

  /** Splitting finds the first separator. */
  lemma {:induction false} SplitUnique(a: string, sep: char, b: string)
    requires sep !in a
    ensures SplitOnce(a + [sep] + b, sep) == Some((a, b))
  {
    var s := a + [sep] + b;
    if a == "" {
      assert s[1..] == b;
    } else {
      assert s[1..] == a[1..] + [sep] + b && s[0] == a[0] && a[0] in a;
      SplitUnique(a[1..], sep, b);
      assert [a[0]] + a[1..] == a;
    }
  }

  /** `str::trim_start_matches` with a one-character pattern. */
  function TrimStartChar(s: string, c: char): (r: string)
    ensures r != "" ==> r[0] != c && s != "" && r[|r| - 1] == s[|s| - 1]
    ensures s == "" || s[0] != c ==> r == s
  {
    if s != "" && s[0] == c then TrimStartChar(s[1..], c) else s
  }

  /** `str::trim_start_matches` with a string pattern. */
  function TrimStartMatches(s: string, pattern: string): (r: string)
    requires pattern != ""
    ensures !(pattern <= r)
  {
    if pattern <= s then TrimStartMatches(s[|pattern|..], pattern) else s
  }

  /** `str::strip_prefix(prefix)` followed by `str::strip_suffix(suffix)`. */
  function StripBrackets(s: string, prefix: string, suffix: char): (r: Option<string>)
    ensures r.Some? <==> |s| > |prefix| && prefix <= s && s[|s| - 1] == suffix
    ensures r.Some? ==> s == prefix + r.value + [suffix]
  {
    if |s| > |prefix| && prefix <= s && s[|s| - 1] == suffix then Some(s[|prefix|..|s| - 1]) else None
  }

  /** The decimal digits of `s`, in order. */
  function Digits(s: string): (r: string)
    ensures AllDigits(r)
  {
    if s == "" then "" else (if IsDigit(s[0]) then [s[0]] else "") + Digits(s[1..])
  }

  lemma {:induction false} DigitsOfDigits(d: string)
    requires AllDigits(d)
    ensures Digits(d) == d
  {
    if d != "" {
      DigitsOfDigits(d[1..]);
    }
  }

  lemma {:induction false} DigitsConcat(a: string, b: string)
    ensures Digits(a + b) == Digits(a) + Digits(b)
  {
    if a == "" {
      assert a + b == b;
    } else {
      var head := if IsDigit(a[0]) then [a[0]] else "";
      assert (a + b)[1..] == a[1..] + b && (a + b)[0] == a[0];
      DigitsConcat(a[1..], b);
      assert Digits(a + b) == head + Digits(a[1..] + b);
      assert head + (Digits(a[1..]) + Digits(b)) == (head + Digits(a[1..])) + Digits(b);
    }
  }

  /** The digits of a text, character by character. */
  lemma DigitsLast(s: string, c: char)
    ensures Digits("") == "" && Digits(s + [c]) == Digits(s) + if '0' <= c <= '9' then [c] else ""
  {
    DigitsConcat(s, [c]);
    assert [c][1..] == "";
  }

  lemma {:induction false} DigitsLower(s: string)
    ensures Digits(Lower(s)) == Digits(s)
  {
    if s != "" {
      assert Lower(s)[1..] == Lower(s[1..]);
      DigitsLower(s[1..]);
    }
  }

  lemma {:induction false} DigitsTrimStart(s: string)
    ensures Digits(TrimStart(s)) == Digits(s)
  {
    if s != "" && IsWhitespace(s[0]) {
      DigitsTrimStart(s[1..]);
    }
  }

  lemma {:induction false} DigitsTrimEnd(s: string)
    ensures Digits(TrimEnd(s)) == Digits(s)
  {
    if s != "" && IsWhitespace(s[|s| - 1]) {
      var front := s[..|s| - 1];
      DigitsTrimEnd(front);
      assert s == front + [s[|s| - 1]];
      DigitsConcat(front, [s[|s| - 1]]);
    }
  }

  /** Whitespace carries no digits, so trimming keeps the digit sequence. */
  lemma DigitsTrim(s: string)
    ensures Digits(Trim(s)) == Digits(s)
  {
    DigitsTrimStart(s);
    DigitsTrimEnd(TrimStart(s));
  }

  lemma {:induction false} DigitsTrimStartMatches(s: string, pattern: string)
    requires pattern != "" && Digits(pattern) == ""
    ensures Digits(TrimStartMatches(s, pattern)) == Digits(s)
  {
    if pattern <= s {
      var rest := s[|pattern|..];
      assert s == pattern + rest;
      DigitsConcat(pattern, rest);
      DigitsTrimStartMatches(rest, pattern);
    }
  }
}
