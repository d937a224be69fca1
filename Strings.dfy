/**
 * The handful of .NET string and number primitives the bot's dispatch relies on:
 * ordinal `StartsWith`/`Contains`, `Replace(prefix, "")`, `ToLower`,
 * `Int32.ToString()` and `Int32.Parse`/`Int32.TryParse` (NumberStyles.Integer).
 */
module Strings {

  datatype Option<T> = None | Some(value: T) {
    /** C#'s `x ?? fallback`. */
    function GetOr(fallback: T): T {
      if Some? then value else fallback
    }
  }

  const MinInt32: int := -0x8000_0000
  const MaxInt32: int := 0x7FFF_FFFF

  predicate InInt32(n: int) {
    MinInt32 <= n <= MaxInt32
  }

  // ---------------------------------------------------------------------------
  // Searching

  /** `s.StartsWith(p)`, compared ordinally. */
  predicate StartsWith(s: string, p: string)
    ensures StartsWith(s, p) <==> |p| <= |s| && forall i :: 0 <= i < |p| ==> s[i] == p[i]
  {
    |p| <= |s| && s[..|p|] == p
  }

  /** `s.Contains(p)`: `p` occurs somewhere in `s`. */
  predicate Contains(s: string, p: string)
    ensures Contains(s, p) ==> |p| <= |s|
    ensures StartsWith(s, p) ==> Contains(s, p)
    decreases |s|
  {
    StartsWith(s, p) || (|s| > 0 && Contains(s[1..], p))
  }

  /** `p` stands in `s` at offset `k`. */
  predicate OccursAt(s: string, p: string, k: int) {
    0 <= k && k + |p| <= |s| && s[k..k + |p|] == p
  }

  /** `Contains` finds `p` exactly when it stands at some offset of `s`. */
  lemma {:induction false} ContainsOccurs(s: string, p: string)
    ensures Contains(s, p) <==> exists k :: OccursAt(s, p, k)
    decreases |s|
  {
    if StartsWith(s, p) {
      assert OccursAt(s, p, 0);
    } else if |s| > 0 {
      ContainsOccurs(s[1..], p);
      if Contains(s[1..], p) {
        var k :| OccursAt(s[1..], p, k);
        assert s[1..][k..k + |p|] == s[k + 1..k + 1 + |p|];
        assert OccursAt(s, p, k + 1);
      }
      if k :| OccursAt(s, p, k) {
        assert k != 0;
        assert s[1..][k - 1..k - 1 + |p|] == s[k..k + |p|];
        assert OccursAt(s[1..], p, k - 1);
      }
    }
  }

  /** Whatever stands in front of an occurrence, the occurrence is found. */
  lemma {:induction false} ContainsInfix(a: string, b: string, c: string)
    ensures Contains(a + b + c, b)
    decreases |a|
  {
    if a == [] {
      assert a + b + c == b + c;
      assert (b + c)[..|b|] == b;
    } else {
      assert (a + b + c)[1..] == a[1..] + b + c;
      ContainsInfix(a[1..], b, c);
    }
  }

  /** Two strings differ when a character occurs in only one of them. */
  lemma CharTellsApart(a: string, b: string, c: char)
    requires c in a && c !in b
    ensures a != b
  {
  }

  /** A common head can be cancelled. */
  lemma ConcatCancel(a: string, x: string, y: string)
    requires a + x == a + y
    ensures x == y
  {
    assert x == (a + x)[|a|..];
    assert y == (a + y)[|a|..];
  }

  lemma ConcatAssoc(a: string, b: string, c: string)
    ensures (a + b) + c == a + (b + c)
  {
  }

  lemma StartsWithAppend(a: string, b: string)
    ensures StartsWith(a + b, a)
  {
    assert (a + b)[..|a|] == a;
  }

  /** What ends a prefix of `s` occurs in anything that ends with `s`. */
  lemma ContainsViaPrefix(head: string, s: string, before: string, p: string)
    requires StartsWith(s, before + p)
    ensures Contains(head + s, p)
  {
    var rest := s[|before + p|..];
    assert s == before + p + rest;
    assert head + s == (head + before) + p + rest;
    ContainsInfix(head + before, p, rest);
  }

  /** Every character of an occurrence of `p` is a character of `s`. */
  lemma {:induction false} ContainsChar(s: string, p: string, k: nat)
    requires Contains(s, p) && k < |p|
    ensures p[k] in s
    decreases |s|
  {
    if StartsWith(s, p) {
      assert s[..|p|][k] == s[k];
    } else {
      ContainsChar(s[1..], p, k);
      assert s[1..] == s[1..|s|];
    }
  }

  /** A string that lacks some character of `p` does not contain `p`. */
  lemma NotContainsMissingChar(s: string, p: string, k: nat)
    requires k < |p| && p[k] !in s
    ensures !Contains(s, p)
  {
    if Contains(s, p) {
      ContainsChar(s, p, k);
    }
  }

  // ---------------------------------------------------------------------------
  // Replace

  /**
   * `s.Replace(p, "")`: scans `s` from left to right and drops EVERY
   * non-overlapping occurrence of `p`, not only a leading one. The result is
   * not scanned again, so removing one occurrence may leave a new one behind.
   */
  function ReplaceAll(s: string, p: string): (r: string)
    requires |p| > 0
    ensures |r| <= |s|
    ensures forall i :: 0 <= i < |r| ==> r[i] in s
    decreases |s|
  {
    if |s| < |p| then s
    else if s[..|p|] == p then
      var rest := ReplaceAll(s[|p|..], p);
      assert forall i :: 0 <= i < |rest| ==> rest[i] in s[|p|..];
      rest
    else
      var rest := ReplaceAll(s[1..], p);
      assert forall i :: 0 <= i < |rest| ==> rest[i] in s[1..];
      [s[0]] + rest
  }

  /** A string that never contains the first character of `p` is left as it is. */
  lemma {:induction false} ReplaceAllAbsent(t: string, p: string)
    requires |p| > 0
    requires forall i :: 0 <= i < |t| ==> t[i] != p[0]
    ensures ReplaceAll(t, p) == t
    decreases |t|
  {
    if |t| >= |p| {
      assert t[..|p|][0] == t[0];
      ReplaceAllAbsent(t[1..], p);
      assert [t[0]] + t[1..] == t;
    }
  }

  /** A leading occurrence is dropped and scanning goes on after it. */
  lemma ReplaceAllLeading(p: string, t: string)
    requires |p| > 0
    ensures ReplaceAll(p + t, p) == ReplaceAll(t, p)
  {
    assert (p + t)[..|p|] == p;
    assert (p + t)[|p|..] == t;
  }

  // ---------------------------------------------------------------------------
  // Case

  /**
   * `char.ToLower` on the capitals of Basic Latin (A-Z), Latin-1 (U+00C0-U+00DE
   * without U+00D7) and basic Cyrillic (U+0400-U+042F); every other character is kept.
   */
  function LowerChar(c: char): (r: char)
    ensures r == c <==> !('A' <= c <= 'Z' || ('À' <= c <= 'Þ' && c != '×') || 'Ѐ' <= c <= 'Я')
  {
    if 'A' <= c <= 'Z' then (c as int + 32) as char
    else if 'À' <= c <= 'Þ' && c != '×' then (c as int + 32) as char
    else if 'А' <= c <= 'Я' then (c as int + 32) as char
    else if 'Ѐ' <= c <= 'Џ' then (c as int + 80) as char
    else c
  }

  /** `s.ToLower()`, character by character. */
  function ToLower(s: string): (r: string)
    ensures |r| == |s|
    ensures forall i :: 0 <= i < |s| ==> r[i] == LowerChar(s[i])
    decreases |s|
  {
    if s == [] then [] else [LowerChar(s[0])] + ToLower(s[1..])
  }

  /** Lower-casing twice is lower-casing once. */
  lemma ToLowerIdempotent(s: string)
    ensures ToLower(ToLower(s)) == ToLower(s)
  {
    var once := ToLower(s);
    var twice := ToLower(once);
    assert |twice| == |once|;
    forall i | 0 <= i < |once| ensures twice[i] == once[i] {
      assert LowerChar(LowerChar(s[i])) == LowerChar(s[i]);
    }
  }

  // ---------------------------------------------------------------------------
  // Numbers

  predicate IsDigit(c: char) {
    '0' <= c <= '9'
  }

  /** The white space NumberStyles.AllowLeadingWhite/AllowTrailingWhite accept. */
  predicate IsWhite(c: char) {
    c == ' ' || '\t' <= c <= '\r'
  }

  predicate AllDigits(s: string) {
    forall i :: 0 <= i < |s| ==> IsDigit(s[i])
  }

  function DigitChar(d: int): (c: char)
    requires 0 <= d < 10
    ensures IsDigit(c) && c as int - '0' as int == d
  {
    (d + '0' as int) as char
  }

  /** Decimal digits of `n`, most significant first, without leading zeros. */
  function NatToString(n: nat): (r: string)
    ensures |r| > 0 && AllDigits(r)
    decreases n
  {
    if n < 10 then [DigitChar(n)] else NatToString(n / 10) + [DigitChar(n % 10)]
  }

  /** `n.ToString()` with the invariant culture: a minus sign, then the digits. */
  function IntToString(n: int): (r: string)
    ensures |r| > 0 && (r[0] == '-' || IsDigit(r[0]))
    ensures forall i :: 0 <= i < |r| ==> r[i] == '-' || IsDigit(r[i])
  {
    if n < 0 then "-" + NatToString(-n) else NatToString(n)
  }

  /** The value of `ds` read as decimal digits, most significant first (leading zeros allowed). */
  function DigitsValue(ds: string): int
    decreases |ds|
  {
    if ds == [] then 0
    else DigitsValue(ds[..|ds| - 1]) * 10 + (ds[|ds| - 1] as int - '0' as int)
  }

  lemma {:induction false} DigitsValueOfNat(n: nat)
    ensures DigitsValue(NatToString(n)) == n
    decreases n
  {
    if n >= 10 {
      var ds := NatToString(n);
      assert ds[..|ds| - 1] == NatToString(n / 10);
      DigitsValueOfNat(n / 10);
    }
  }

  /** Distinct numbers print differently. */
  lemma IntToStringInjective(a: int, b: int)
    requires IntToString(a) == IntToString(b)
    ensures a == b
  {
    if a < 0 {
      assert IntToString(b)[0] == '-';
      assert b < 0;
      assert IntToString(a)[1..] == NatToString(-a);
      assert IntToString(b)[1..] == NatToString(-b);
      DigitsValueOfNat(-a);
      DigitsValueOfNat(-b);
    } else {
      assert IntToString(b)[0] != '-';
      assert b >= 0;
      DigitsValueOfNat(a);
      DigitsValueOfNat(b);
    }
  }

  function SkipWhite(s: string): (r: string)
    ensures |r| <= |s|
    ensures r == [] || !IsWhite(r[0])
    decreases |s|
  {
    if s != [] && IsWhite(s[0]) then SkipWhite(s[1..]) else s
  }

  /** Length of the longest prefix of `s` made of digits. */
  function DigitRun(s: string): (k: nat)
    ensures k <= |s|
    ensures k == |s| || !IsDigit(s[k])
    decreases |s|
  {
    if s != [] && IsDigit(s[0]) then
      1 + DigitRun(s[1..])
    else 0
  }

  predicate NulsOnly(s: string)
    decreases |s|
  {
    s == [] || (s[0] == '\0' && NulsOnly(s[1..]))
  }

  /** What may follow the digits: white space, then NUL characters. */
  predicate IsTrailer(s: string) {
    NulsOnly(SkipWhite(s))
  }

  /** The digits at the start of `u` and their value, provided only a trailer follows them. */
  function ParseDigits(u: string): Option<int> {
    var k := DigitRun(u);
    if k == 0 || !IsTrailer(u[k..]) then None else Some(DigitsValue(u[..k]))
  }

  /**
   * `Int32.TryParse(s, out v)` with NumberStyles.Integer: optional white
   * space, an optional `-` or `+`, at least one ASCII digit, optional white
   * space (then NULs); the value must fit in 32 bits. `Int32.Parse` accepts
   * the same strings and throws where this gives None.
   */
  function ParseInt32(s: string): (r: Option<int>)
    ensures r.Some? ==> InInt32(r.value)
  {
    var t := SkipWhite(s);
    var negative := |t| > 0 && t[0] == '-';
    var u := if |t| > 0 && (t[0] == '-' || t[0] == '+') then t[1..] else t;
    match ParseDigits(u)
    case None => None
    case Some(magnitude) =>
      var n: int := if negative then -magnitude else magnitude;
      if InInt32(n) then Some(n) else None
  }

  /** Skipping white space leaves a suffix of the input. */
  lemma {:induction false} SkipWhiteSuffix(s: string)
    ensures SkipWhite(s) == s[|s| - |SkipWhite(s)|..]
    decreases |s|
  {
    if s != [] && IsWhite(s[0]) {
      SkipWhiteSuffix(s[1..]);
      assert s[1..][|s| - 1 - |SkipWhite(s)|..] == s[|s| - |SkipWhite(s)|..];
    }
  }

  /**
   * The reject side of `TryParse`/`Parse`: a string without a single ASCII
   * digit is never accepted, whatever white space or sign it carries.
   */
  lemma NoDigitRejected(s: string)
    requires forall i :: 0 <= i < |s| ==> !IsDigit(s[i])
    ensures ParseInt32(s) == None
  {
    SkipWhiteSuffix(s);
    var t := SkipWhite(s);
    assert forall i :: 0 <= i < |t| ==> t[i] == s[|s| - |t| + i];
    var u := if |t| > 0 && (t[0] == '-' || t[0] == '+') then t[1..] else t;
    if |u| > 0 {
      assert u[0] == t[|t| - |u|];
    }
    assert DigitRun(u) == 0;
  }

  /** A run of digits with nothing after it parses as its value. */
  lemma ParseAllDigits(ds: string)
    requires |ds| > 0 && AllDigits(ds)
    ensures ParseDigits(ds) == Some(DigitsValue(ds))
  {
    DigitRunWhole(ds);
    assert ds[|ds|..] == [] && IsTrailer([]);
    assert ds[..|ds|] == ds;
  }

  /** A sign (or none) before digits that parse as `v` gives `v` or `-v`, when that fits in 32 bits. */
  lemma ParseSigned(s: string, ds: string, negative: bool, v: int)
    requires |ds| > 0 && IsDigit(ds[0]) && ParseDigits(ds) == Some(v)
    requires s == if negative then "-" + ds else ds
    ensures var n := if negative then -v else v;
      ParseInt32(s) == if InInt32(n) then Some(n) else None
  {
    assert SkipWhite(s) == s;
    if negative {
      assert s[1..] == ds;
    }
  }

  /** Every 32-bit integer survives printing and parsing back. */
  lemma ParseInt32RoundTrip(n: int)
    requires InInt32(n)
    ensures ParseInt32(IntToString(n)) == Some(n)
  {
    var m: nat := if n < 0 then -n else n;
    var ds := NatToString(m);
    DigitsValueOfNat(m);
    ParseAllDigits(ds);
    ParseSigned(IntToString(n), ds, n < 0, m);
  }

  lemma {:induction false} DigitRunWhole(ds: string)
    requires AllDigits(ds)
    ensures DigitRun(ds) == |ds|
    decreases |ds|
  {
    if ds != [] {
      DigitRunWhole(ds[1..]);
    }
  }

  /** The id extracted from a payload that a button built as `prefix + id`. */
  lemma ExtractAfterPrefix(prefix: string, n: int)
    requires |prefix| > 0 && prefix[0] != '-' && !IsDigit(prefix[0])
    requires InInt32(n)
    ensures ParseInt32(ReplaceAll(prefix + IntToString(n), prefix)) == Some(n)
  {
    ReplaceAllLeading(prefix, IntToString(n));
    ReplaceAllAbsent(IntToString(n), prefix);
    ParseInt32RoundTrip(n);
  }
}
