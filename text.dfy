/**
 * The string operations the handlers and filters rely on: `trim`,
 * `includes`, `toLowerCase`, `parseInt(_, 10)`, the formatting of an integer
 * inside a template literal, and the order used to sort names.
 */
module Text {
  import opened Wrappers

  /** The white space `trim` removes and `parseInt` skips (the ASCII
      separators, no-break space, byte-order mark, line and paragraph separators). */
  predicate IsWhitespace(c: char) {
    || c == ' ' || c == '\t' || c == '\n' || c == '\r' || c == '\U{000B}' || c == '\U{000C}'
    || c == '\U{00A0}' || c == '\U{FEFF}' || c == '\U{2028}' || c == '\U{2029}'
  }

  predicate IsBlank(s: string) {
    forall i | 0 <= i < |s| :: IsWhitespace(s[i])
  }

  /** Drops the leading white space: what remains is a suffix of `s` that
      does not start with white space, and everything dropped was white space. */
  function TrimStart(s: string): (r: string)
    ensures |r| <= |s| && r == s[|s| - |r|..]
    ensures IsBlank(s[..|s| - |r|])
    ensures r == [] || !IsWhitespace(r[0])
  {
    if |s| > 0 && IsWhitespace(s[0]) then
      var t := TrimStart(s[1..]);
      WhitespaceThenSuffix(s, t);
      t
    else s
  }

  /** Dropping one more leading white-space character keeps the rest a
      suffix and the dropped part blank. */
  lemma WhitespaceThenSuffix(s: string, t: string)
    requires |s| > 0 && IsWhitespace(s[0])
    requires |t| <= |s| - 1 && t == s[1..][|s| - 1 - |t|..]
    requires IsBlank(s[1..][..|s| - 1 - |t|])
    ensures t == s[|s| - |t|..]
    ensures IsBlank(s[..|s| - |t|])
  {
    var dropped := s[..|s| - |t|];
    var rest := s[1..][..|s| - 1 - |t|];
    forall i | 1 <= i < |dropped| ensures IsWhitespace(dropped[i]) {
      assert dropped[i] == rest[i - 1];
    }
  }

  /** Drops the trailing white space. */
  function TrimEnd(s: string): (r: string)
    ensures |r| <= |s| && r == s[..|r|]
    ensures IsBlank(s[|r|..])
    ensures r == [] || !IsWhitespace(r[|r| - 1])
  {
    if |s| > 0 && IsWhitespace(s[|s| - 1]) then
      var t := TrimEnd(s[..|s| - 1]);
      assert s[..|s| - 1][..|t|] == s[..|t|];
      assert forall i | 0 <= i < |s| - 1 - |t| :: s[|t|..][i] == s[..|s| - 1][|t|..][i];
      t
    else s
  }

  /** `String.prototype.trim`. */
  function Trim(s: string): (r: string)
    ensures |r| <= |s|
    ensures r == [] || (!IsWhitespace(r[0]) && !IsWhitespace(r[|r| - 1]))
  {
    TrimEnd(TrimStart(s))
  }

  /** `!s.trim()` holds exactly when `s` is made of white space only. */
  lemma TrimEmptyIffBlank(s: string)
    ensures Trim(s) == "" <==> IsBlank(s)
  {
    var t := TrimStart(s);
    if Trim(s) == "" {
      assert t[0..] == t;
      assert t == [];
      assert s[..|s|] == s;
    }
  }

  predicate OccursAt(s: string, t: string, i: int) {
    0 <= i && i + |t| <= |s| && s[i..i + |t|] == t
  }

  /** `String.prototype.includes`: `t` occurs somewhere in `s`. */
  predicate Contains(s: string, t: string)
    decreases |s|
  {
    |t| <= |s| && (s[..|t|] == t || (|s| > 0 && Contains(s[1..], t)))
  }

  lemma {:induction false} ContainsIffOccurs(s: string, t: string)
    ensures Contains(s, t) <==> exists i :: OccursAt(s, t, i)
    decreases |s|
  {
    if |t| <= |s| {
      if s[..|t|] == t {
        assert OccursAt(s, t, 0);
      } else if |s| > 0 {
        ContainsIffOccurs(s[1..], t);
        if Contains(s[1..], t) {
          var i :| OccursAt(s[1..], t, i);
          assert s[1..][i..i + |t|] == s[i + 1..i + 1 + |t|];
          assert OccursAt(s, t, i + 1);
        }
        if i :| OccursAt(s, t, i) {
          assert i != 0;
          assert s[1..][i - 1..i - 1 + |t|] == s[i..i + |t|];
          assert OccursAt(s[1..], t, i - 1);
        }
      }
    }
  }

  /** A string that starts with `t` contains `t`, whatever follows. */
  lemma ContainsPrefix(p: string, x: string, t: string)
    requires |t| <= |p| && p[..|t|] == t
    ensures Contains(p + x, t)
  {
    assert (p + x)[..|t|] == p[..|t|];
  }

  /** A string in which the first character of `t` never appears does not contain `t`. */
  lemma {:induction false} NotContainsWithoutFirstChar(s: string, t: string)
    requires |t| > 0 && t[0] !in s
    ensures !Contains(s, t)
    decreases |s|
  {
    if |t| <= |s| {
      assert s[..|t|][0] == s[0];
      if |s| > 0 {
        NotContainsWithoutFirstChar(s[1..], t);
      }
    }
  }

  /** `t` does not occur in `s` when one of its characters never appears in `s`. */
  lemma NotContainsWithoutChar(s: string, t: string, k: int)
    requires 0 <= k < |t| && t[k] !in s
    ensures !Contains(s, t)
  {
    ContainsIffOccurs(s, t);
  }

  /** `t` does not occur in `p + q` when its first character is not in `p`
      and `q` is shorter than `t`. */
  lemma {:induction false} NotContainsShortTail(p: string, q: string, t: string)
    requires |t| > 0 && t[0] !in p && |q| < |t|
    ensures !Contains(p + q, t)
    decreases |p|
  {
    var s := p + q;
    if |t| <= |s| {
      assert s[..|t|][0] == s[0] == p[0];
      assert s[1..] == p[1..] + q;
      NotContainsShortTail(p[1..], q, t);
    }
  }

  function LowerChar(c: char): char {
    if 'A' <= c <= 'Z' then (c as int + 32) as char else c
  }

  /** `String.prototype.toLowerCase`, on the ASCII letters. */
  function ToLower(s: string): (r: string)
    ensures |r| == |s|
    ensures forall i | 0 <= i < |s| :: r[i] == LowerChar(s[i])
  {
    if s == [] then [] else [LowerChar(s[0])] + ToLower(s[1..])
  }

  predicate IsDigit(c: char) {
    '0' <= c <= '9'
  }

  predicate AllDigits(s: string) {
    forall i | 0 <= i < |s| :: IsDigit(s[i])
  }

  /** The longest prefix of `s` made of decimal digits. */
  function LeadingDigits(s: string): (r: string)
    ensures |r| <= |s| && r == s[..|r|] && AllDigits(r)
    ensures |r| < |s| ==> !IsDigit(s[|r|])
  {
    if |s| > 0 && IsDigit(s[0]) then [s[0]] + LeadingDigits(s[1..]) else []
  }

  /** The value of a string of decimal digits, most significant first. */
  function DigitsValue(ds: string): nat
    requires AllDigits(ds)
  {
    if ds == [] then 0 else DigitsValue(ds[..|ds| - 1]) * 10 + (ds[|ds| - 1] as int - '0' as int)
  }

  /** `parseInt(s, 10)`: skip leading white space, read an optional sign and
      then as many digits as there are; no digit at all gives `NaN` (None). */
  function ParseInt(s: string): Option<int> {
    ParseSigned(TrimStart(s))
  }

  function ParseSigned(t: string): Option<int> {
    if |t| > 0 && t[0] == '-' then
      match ParseDigits(t[1..])
      case None => None
      case Some(v) => Some(-v)
    else if |t| > 0 && t[0] == '+' then ParseDigits(t[1..])
    else ParseDigits(t)
  }

  function ParseDigits(body: string): Option<int> {
    var ds := LeadingDigits(body);
    if ds == [] then None else Some(DigitsValue(ds))
  }

  function DigitChar(d: nat): (c: char)
    requires d < 10
    ensures IsDigit(c)
  {
    ('0' as int + d) as char
  }

  /** The decimal writing of a natural number, without leading zeros. */
  function FormatNat(n: nat): (r: string)
    ensures |r| > 0 && AllDigits(r)
  {
    if n < 10 then [DigitChar(n)] else FormatNat(n / 10) + [DigitChar(n % 10)]
  }

  /** An integer interpolated into a template literal (`${n}`). */
  function FormatInt(n: int): (r: string)
    ensures |r| > 0 && (r[0] == '-' || IsDigit(r[0]))
  {
    if n < 0 then "-" + FormatNat(-n) else FormatNat(n)
  }

  lemma {:induction false} FormatNatValue(n: nat)
    ensures DigitsValue(FormatNat(n)) == n
  {
    if n >= 10 {
      FormatNatValue(n / 10);
      var r := FormatNat(n);
      assert r[..|r| - 1] == FormatNat(n / 10);
    }
  }

  lemma {:induction false} LeadingDigitsOfDigits(ds: string, rest: string)
    requires AllDigits(ds)
    requires rest == [] || !IsDigit(rest[0])
    ensures LeadingDigits(ds + rest) == ds
  {
    if ds != [] {
      assert (ds + rest)[1..] == ds[1..] + rest;
      LeadingDigitsOfDigits(ds[1..], rest);
    }
  }

  lemma ParseDigitsPrefix(ds: string, rest: string)
    requires ds != [] && AllDigits(ds)
    requires rest == [] || !IsDigit(rest[0])
    ensures ParseDigits(ds + rest) == Some(DigitsValue(ds))
  {
    LeadingDigitsOfDigits(ds, rest);
  }

  lemma TrimStartUnchanged(s: string)
    requires |s| > 0 && (IsDigit(s[0]) || s[0] == '-')
    ensures TrimStart(s) == s
  {
    assert !IsWhitespace(s[0]);
  }

  lemma ParseIntNegative(ds: string, rest: string, v: int)
    requires ds != [] && IsDigit(ds[0]) && ParseDigits(ds + rest) == Some(v)
    ensures ParseInt(("-" + ds) + rest) == Some(-v)
  {
    var s := ("-" + ds) + rest;
    assert s[0] == '-';
    assert s[1..] == ds + rest;
    TrimStartUnchanged(s);
  }

  lemma ParseIntNonNegative(body: string, v: int)
    requires body != [] && IsDigit(body[0]) && ParseDigits(body) == Some(v)
    ensures ParseInt(body) == Some(v)
  {
    TrimStartUnchanged(body);
  }

  /** The digits of a natural number, followed by a non-digit, parse back
      to that number. */
  lemma ParseDigitsFormatNat(m: nat, rest: string)
    requires rest == [] || !IsDigit(rest[0])
    ensures IsDigit((FormatNat(m) + rest)[0])
    ensures ParseDigits(FormatNat(m) + rest) == Some(m)
  {
    var ds := FormatNat(m);
    FormatNatValue(m);
    ParseDigitsPrefix(ds, rest);
    assert (ds + rest)[0] == ds[0];
  }

  /** The negative half of `ParseIntFormatInt`. */
  lemma ParseIntFormatIntNeg(n: int, rest: string)
    requires n < 0
    requires rest == [] || !IsDigit(rest[0])
    ensures ParseInt(FormatInt(n) + rest) == Some(n)
  {
    var m: nat := -n;
    var ds := FormatNat(m);
    assert FormatInt(n) == "-" + ds;
    assert ParseInt(("-" + ds) + rest) == Some(n) by {
      ParseDigitsFormatNat(m, rest);
      assert ds[0] == (ds + rest)[0];
      ParseIntNegative(ds, rest, m);
    }
  }

  /** The non-negative half of `ParseIntFormatInt`. */
  lemma ParseIntFormatIntNonNeg(n: int, rest: string)
    requires n >= 0
    requires rest == [] || !IsDigit(rest[0])
    ensures ParseInt(FormatInt(n) + rest) == Some(n)
  {
    ParseDigitsFormatNat(n, rest);
    ParseIntNonNegative(FormatNat(n) + rest, n);
  }

  /** Parsing reads back what formatting wrote, even when a non-digit
      follows: `parseInt(`${n}` + rest, 10) == n`. */
  lemma ParseIntFormatInt(n: int, rest: string)
    requires rest == [] || !IsDigit(rest[0])
    ensures ParseInt(FormatInt(n) + rest) == Some(n)
  {
    if n < 0 {
      ParseIntFormatIntNeg(n, rest);
    } else {
      ParseIntFormatIntNonNeg(n, rest);
    }
  }

  /** A string without any digit parses to `NaN`. */
  lemma ParseIntWithoutDigits(s: string)
    requires forall i | 0 <= i < |s| :: !IsDigit(s[i])
    ensures ParseInt(s) == None
  {
    var t := TrimStart(s);
    if |t| > 0 {
      assert t[0] == s[|s| - |t|];
    }
    if |t| > 1 {
      assert t[1..][0] == s[|s| - |t| + 1];
    }
  }

  /** Lexicographic order on code points, standing for `localeCompare`. */
  predicate LexLeq(a: string, b: string) {
    a == [] || (b != [] && (a[0] < b[0] || (a[0] == b[0] && LexLeq(a[1..], b[1..]))))
  }

  lemma {:induction false} LexLeqTotal(a: string, b: string)
    ensures LexLeq(a, b) || LexLeq(b, a)
  {
    if a != [] && b != [] && a[0] == b[0] {
      LexLeqTotal(a[1..], b[1..]);
    }
  }

  lemma {:induction false} LexLeqTransitive(a: string, b: string, c: string)
    requires LexLeq(a, b) && LexLeq(b, c)
    ensures LexLeq(a, c)
  {
    if a != [] && a[0] == b[0] && b[0] == c[0] {
      LexLeqTransitive(a[1..], b[1..], c[1..]);
    }
  }

  lemma {:induction false} LexLeqAntisymmetric(a: string, b: string)
    requires LexLeq(a, b) && LexLeq(b, a)
    ensures a == b
  {
    if a != [] {
      LexLeqAntisymmetric(a[1..], b[1..]);
    }
  }
}
