/** Characters, decimal printing and splitting, as the names and headers of the system use them. */
module Text {
  import opened Wrappers

  predicate IsDigit(c: char) {
    '0' <= c <= '9'
  }

  predicate IsHexDigit(c: char) {
    IsDigit(c) || 'a' <= c <= 'f' || 'A' <= c <= 'F'
  }

  ghost predicate Free(s: string, c: char) {
    forall k :: 0 <= k < |s| ==> s[k] != c
  }

  function Digit(d: nat): (c: char)
    requires d < 10
    ensures IsDigit(c)
  {
    '0' + d as char
  }

  /** Decimal digits of a number, most significant first. */
  function Decimal(n: nat): (s: string)
    ensures s != "" && forall k :: 0 <= k < |s| ==> IsDigit(s[k])
  {
    if n < 10 then [Digit(n)] else Decimal(n / 10) + [Digit(n % 10)]
  }

  lemma {:induction false} DecimalInjective(m: nat, n: nat)
    requires Decimal(m) == Decimal(n)
    ensures m == n
  {
    var s := Decimal(m);
    assert Digit(m % 10) == s[|s| - 1] == Digit(n % 10);
    if m >= 10 && n >= 10 {
      assert Decimal(m / 10) == s[..|s| - 1] == Decimal(n / 10);
      DecimalInjective(m / 10, n / 10);
    }
  }

  /** The number that a text of decimal digits denotes. */
  function Denoted(s: string): nat
    requires forall k :: 0 <= k < |s| ==> IsDigit(s[k])
  {
    if s == "" then 0
    else
      assert IsDigit(s[|s| - 1]);
      Denoted(s[..|s| - 1]) * 10 + (s[|s| - 1] as int - '0' as int)
  }

  /** Printing a number and reading it gives the number. */
  lemma {:induction false} DecimalDenotes(n: nat)
    ensures Denoted(Decimal(n)) == n
  {
    if n >= 10 {
      DecimalDenotes(n / 10);
      assert Decimal(n)[..|Decimal(n)| - 1] == Decimal(n / 10);
    } else {
      assert Decimal(n)[..0] == "";
    }
  }

  /** Splits at the first `sep`. */
  function SplitOnce(s: string, sep: char): (parts: Option<(string, string)>)
    ensures parts.None? <==> Free(s, sep)
    ensures parts.Some? ==> s == parts.value.0 + [sep] + parts.value.1 && Free(parts.value.0, sep)
  {
    if s == "" then None
    else if s[0] == sep then Some(("", s[1..]))
    else match SplitOnce(s[1..], sep)
      case None => None
      case Some(parts) => Some(([s[0]] + parts.0, parts.1))
  }

  /** A tail without `sep` determines where the last `sep` stands. */
  lemma LastSeparator(a: string, b: string, a': string, b': string, sep: char)
    requires a + [sep] + b == a' + [sep] + b'
    requires Free(b, sep) && Free(b', sep)
    ensures a == a' && b == b'
  {
    var s := a + [sep] + b;
    assert s[|a|] == sep && s[|a'|] == sep;
    assert forall k :: |a| < k < |s| ==> s[k] == b[k - |a| - 1];
    assert forall k :: |a'| < k < |s| ==> s[k] == b'[k - |a'| - 1];
    assert a == s[..|a|] && b == s[|a| + 1..];
  }

  /** A head without `sep` determines where the first `sep` stands. */
  lemma FirstSeparator(a: string, b: string, a': string, b': string, sep: char)
    requires a + [sep] + b == a' + [sep] + b'
    requires Free(a, sep) && Free(a', sep)
    ensures a == a' && b == b'
  {
    var s := a + [sep] + b;
    assert s[|a|] == sep && s[|a'|] == sep;
    assert forall k :: 0 <= k < |a| ==> s[k] == a[k];
    assert forall k :: 0 <= k < |a'| ==> s[k] == a'[k];
    assert a == s[..|a|] && b == s[|a| + 1..];
  }

  lemma PrefixUnderHead(head: string, a: string, b: string)
    ensures head + a <= head + b <==> a <= b
    ensures a <= b ==> (head + b)[|head + a|..] == b[|a|..]
  {
    assert forall k :: 0 <= k < |a| ==> (head + a)[|head| + k] == a[k];
    assert forall k :: 0 <= k < |b| ==> (head + b)[|head| + k] == b[k];
    if head + a <= head + b {
      assert a == (head + a)[|head|..] == (head + b)[..|head + a|][|head|..] == b[..|a|];
    }
  }

  // ----- white space and case

  /** The characters of the Unicode White_Space property. */
  predicate IsSpace(c: char) {
    || '\t' <= c <= '\r' || c == ' ' || c == '\U{85}' || c == '\U{A0}' || c == '\U{1680}'
    || '\U{2000}' <= c <= '\U{200A}' || c == '\U{2028}' || c == '\U{2029}' || c == '\U{202F}'
    || c == '\U{205F}' || c == '\U{3000}'
  }

  /** The 25 code points with that property. */
  const WHITE_SPACE: set<int> := {
    0x09, 0x0A, 0x0B, 0x0C, 0x0D, 0x20, 0x85, 0xA0, 0x1680, 0x2000, 0x2001, 0x2002, 0x2003, 0x2004, 0x2005, 0x2006,
    0x2007, 0x2008, 0x2009, 0x200A, 0x2028, 0x2029, 0x202F, 0x205F, 0x3000}

  lemma IsSpaceExactly(c: char)
    ensures IsSpace(c) <==> c as int in WHITE_SPACE
  {
  }

  /** Where the white space that starts at `i` ends. */
  function SkipSpace(s: string, i: nat): (n: nat)
    requires i <= |s|
    ensures i <= n <= |s| && forall k :: i <= k < n ==> IsSpace(s[k])
    ensures n < |s| ==> !IsSpace(s[n])
    decreases |s| - i
  {
    if i < |s| && IsSpace(s[i]) then SkipSpace(s, i + 1) else i
  }

  /** Where the white space that ends at `i` starts. */
  function SkipSpaceBack(s: string, i: nat): (n: nat)
    requires i <= |s|
    ensures n <= i && forall k :: n <= k < i ==> IsSpace(s[k])
    ensures n > 0 ==> !IsSpace(s[n - 1])
  {
    if i > 0 && IsSpace(s[i - 1]) then SkipSpaceBack(s, i - 1) else i
  }

  function TrimStart(s: string): string {
    s[SkipSpace(s, 0)..]
  }

  function TrimEnd(s: string): string {
    s[..SkipSpaceBack(s, |s|)]
  }

  function Trim(s: string): (r: string)
    ensures r == "" || (!IsSpace(r[0]) && !IsSpace(r[|r| - 1]))
  {
    var r := TrimEnd(TrimStart(s));
    r
  }

  function TrimEndDots(s: string): (r: string)
    ensures r <= s && (r == "" || r[|r| - 1] != '.') && forall k :: |r| <= k < |s| ==> s[k] == '.'
  {
    if s != "" && s[|s| - 1] == '.' then TrimEndDots(s[..|s| - 1]) else s
  }

  function LowerChar(c: char): char {
    if 'A' <= c <= 'Z' then (c as int + 32) as char else c
  }

  /** Lower case of ASCII text, which is what domain names are. */
  function Lower(s: string): (r: string)
    ensures |r| == |s| && forall k :: 0 <= k < |s| ==> r[k] == LowerChar(s[k])
  {
    if s == "" then "" else [LowerChar(s[0])] + Lower(s[1..])
  }

  /** How the route table writes a domain. */
  function NormalizeDomain(domain: string): string {
    Lower(TrimEndDots(Trim(domain)))
  }

  /** Two characters have the same lower case exactly when they are equal or one letter in two cases. */
  lemma LowerCharExactly(c: char, d: char)
    ensures !('A' <= LowerChar(c) <= 'Z')
    ensures LowerChar(c) == LowerChar(d) <==>
            || c == d
            || ('A' <= c <= 'Z' && d as int == c as int + 32) || ('A' <= d <= 'Z' && c as int == d as int + 32)
  {
  }

  /** Trimming takes white space off both ends and nothing else. */
  lemma TrimTakesOffSpace(s: string) returns (front: string, back: string)
    ensures s == front + Trim(s) + back
    ensures forall c <- front + back :: IsSpace(c)
  {
    var start := SkipSpace(s, 0);
    var end := SkipSpaceBack(TrimStart(s), |TrimStart(s)|);
    front, back := s[..start], TrimStart(s)[end..];
  }

  lemma LowerCharKeeps(c: char)
    ensures LowerChar(LowerChar(c)) == LowerChar(c)
    ensures IsSpace(LowerChar(c)) <==> IsSpace(c)
    ensures LowerChar(c) == '.' <==> c == '.'
  {
  }

  lemma LowerLower(s: string)
    ensures Lower(Lower(s)) == Lower(s)
  {
    forall k | 0 <= k < |s| ensures Lower(Lower(s))[k] == Lower(s)[k] {
      LowerCharKeeps(s[k]);
    }
  }

  lemma TrimKeepsExactly(s: string)
    ensures Trim(s) == s <==> s == "" || (!IsSpace(s[0]) && !IsSpace(s[|s| - 1]))
  {
  }

  lemma TrimEndDotsKeeps(s: string)
    requires s == "" || s[|s| - 1] != '.'
    ensures TrimEndDots(s) == s
  {
  }

  lemma ShorterAfterTrim(s: string)
    requires s != "" && !IsSpace(s[0]) && IsSpace(s[|s| - 1])
    ensures |NormalizeDomain(s)| < |s|
  {
  }

  lemma TidyTextIsNormal(s: string)
    requires Lower(s) == s
    requires s == "" || (!IsSpace(s[0]) && !IsSpace(s[|s| - 1]) && s[|s| - 1] != '.')
    ensures NormalizeDomain(s) == s
  {
    TrimKeepsExactly(s);
    TrimEndDotsKeeps(s);
  }

  lemma LowerKeepsEnds(s: string)
    requires s != ""
    ensures
      var lower := Lower(s);
      && lower != "" && (IsSpace(lower[0]) <==> IsSpace(s[0]))
      && (IsSpace(lower[|lower| - 1]) <==> IsSpace(s[|s| - 1])) && (lower[|lower| - 1] == '.' <==> s[|s| - 1] == '.')
  {
    LowerCharKeeps(s[0]);
    LowerCharKeeps(s[|s| - 1]);
  }

  lemma BareText(domain: string)
    ensures
      var bare := TrimEndDots(Trim(domain));
      bare == "" || (!IsSpace(bare[0]) && bare[|bare| - 1] != '.')
  {
    var trimmed := Trim(domain);
    var bare := TrimEndDots(trimmed);
    if bare != "" {
      assert bare[0] == trimmed[0];
    }
  }

  /** Normalising twice changes nothing, exactly when no white space is left before the trailing dots. */
  lemma NormalizeIdempotentExactly(domain: string)
    ensures
      var bare := TrimEndDots(Trim(domain));
      NormalizeDomain(NormalizeDomain(domain)) == NormalizeDomain(domain)
      <==> bare == "" || !IsSpace(bare[|bare| - 1])
  {
    var bare := TrimEndDots(Trim(domain));
    BareText(domain);
    NormalizeLower(bare);
  }

  lemma NormalizeLower(bare: string)
    requires bare == "" || (!IsSpace(bare[0]) && bare[|bare| - 1] != '.')
    ensures NormalizeDomain(Lower(bare)) == Lower(bare) <==> bare == "" || !IsSpace(bare[|bare| - 1])
  {
    var lower := Lower(bare);
    LowerLower(bare);
    if bare != "" {
      LowerKeepsEnds(bare);
    }
    if bare != "" && IsSpace(bare[|bare| - 1]) {
      ShorterAfterTrim(lower);
    } else {
      TidyTextIsNormal(lower);
    }
  }
}
