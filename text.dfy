/**
 * The string helpers the node agent takes from Go's `strings` and `strconv`
 * packages, each next to a parser that undoes it: decimal and boolean
 * formatting, `strings.Join`/`strings.Split`, single-character replacement,
 * removal of a substring, and lower-case hexadecimal.
 */
module Text {
  import opened Wrappers

  newtype byte = x: int | 0 <= x < 256

  predicate IsDigit(c: char) {
    '0' <= c <= '9'
  }

  predicate AllDigits(s: string) {
    forall i :: 0 <= i < |s| ==> IsDigit(s[i])
  }

  function DigitChar(d: nat): (c: char)
    requires d < 10
    ensures IsDigit(c) && c as int - '0' as int == d
  {
    ('0' as int + d) as char
  }

  /** Base-10 digits of a natural number, most significant first, without leading zeros. */
  function FormatNat(n: nat): (s: string)
    ensures |s| > 0 && AllDigits(s)
    ensures (|s| > 1) == (n >= 10)
    decreases n
  {
    if n < 10 then [DigitChar(n)] else FormatNat(n / 10) + [DigitChar(n % 10)]
  }

  /** strconv.FormatInt(n, 10): a '-' sign for negative values, then the digits of |n|. */
  function FormatInt(n: int): string {
    if n < 0 then "-" + FormatNat(-n) else FormatNat(n)
  }

  /** Value of a non-empty run of decimal digits. */
  function ParseDigits(s: string): nat
    requires AllDigits(s)
    decreases |s|
  {
    if s == [] then 0 else ParseDigits(s[..|s| - 1]) * 10 + DigitValue(s[|s| - 1])
  }

  function DigitValue(c: char): nat
    requires IsDigit(c)
  {
    c as int - '0' as int
  }

  /** Reference decimal parser: an optional '-' followed by at least one digit. */
  function ParseInt(s: string): Option<int> {
    if |s| > 1 && s[0] == '-' && AllDigits(s[1..]) then
      var magnitude: int := ParseDigits(s[1..]);
      Some(-magnitude)
    else if |s| > 0 && AllDigits(s) then Some(ParseDigits(s))
    else None
  }

  lemma {:induction false} FormatNatRoundTrip(n: nat)
    ensures ParseDigits(FormatNat(n)) == n
  {
    if n >= 10 {
      FormatNatRoundTrip(n / 10);
      var s := FormatNat(n);
      assert s[..|s| - 1] == FormatNat(n / 10);
    }
  }

  /** Every integer is read back from its decimal rendering. */
  lemma FormatIntRoundTrip(n: int)
    ensures ParseInt(FormatInt(n)) == Some(n)
  {
    var s := FormatInt(n);
    if n < 0 {
      var digits := FormatNat(-n);
      FormatNatRoundTrip(-n);
      assert s == "-" + digits;
      assert s[1..] == digits;
    } else {
      FormatNatRoundTrip(n);
      assert IsDigit(s[0]);
    }
  }

  /** A decimal rendering holds only digits and at most a leading '-'. */
  lemma FormatIntCharacters(n: int, c: char)
    requires c != '-' && !IsDigit(c)
    ensures c !in FormatInt(n)
  {
    if n < 0 {
      assert FormatInt(n) == "-" + FormatNat(-n);
    }
  }

  /** strconv.FormatBool. */
  function FormatBool(b: bool): string {
    if b then "true" else "false"
  }

  function ParseBool(s: string): Option<bool> {
    if s == "true" then Some(true) else if s == "false" then Some(false) else None
  }

  /** strings.Join: the parts with `sep` between consecutive ones, and no trailing separator. */
  function Join(parts: seq<string>, sep: string): string
    decreases |parts|
  {
    if |parts| == 0 then ""
    else if |parts| == 1 then parts[0]
    else parts[0] + sep + Join(parts[1..], sep)
  }

  /** strings.Split(s, string(c)): the fields between occurrences of c; never empty. */
  function Split(s: string, c: char): (r: seq<string>)
    ensures |r| > 0
    decreases |s|
  {
    if |s| == 0 then [""]
    else
      var rest := Split(s[1..], c);
      if s[0] == c then [""] + rest else [[s[0]] + rest[0]] + rest[1..]
  }

  lemma {:induction false} SplitWhole(p: string, c: char)
    requires c !in p
    ensures Split(p, c) == [p]
  {
    if p != [] {
      SplitWhole(p[1..], c);
      assert [p[0]] + p[1..] == p;
    }
  }

  lemma {:induction false} SplitField(p: string, c: char, rest: string)
    requires c !in p
    ensures Split(p + [c] + rest, c) == [p] + Split(rest, c)
  {
    if p == [] {
      assert p + [c] + rest == [c] + rest;
      assert ([c] + rest)[1..] == rest;
    } else {
      SplitField(p[1..], c, rest);
      assert (p + [c] + rest)[1..] == p[1..] + [c] + rest;
      assert [p[0]] + p[1..] == p;
    }
  }

  /** Splitting a join on a separator that no part contains gives the parts back. */
  lemma {:induction false} SplitJoin(parts: seq<string>, c: char)
    requires |parts| > 0
    requires forall i :: 0 <= i < |parts| ==> c !in parts[i]
    ensures Split(Join(parts, [c]), c) == parts
  {
    if |parts| == 1 {
      SplitWhole(parts[0], c);
    } else {
      SplitJoin(parts[1..], c);
      SplitField(parts[0], c, Join(parts[1..], [c]));
    }
  }

  /** strings.Split(s, string(c))[0]. */
  function FirstField(s: string, c: char): string {
    Split(s, c)[0]
  }

  /** The first field is the longest prefix of s that does not contain c. */
  lemma {:induction false} FirstFieldIsPrefixBeforeSeparator(s: string, c: char)
    ensures var f := FirstField(s, c);
      c !in f && f <= s && (|f| == |s| || s[|f|] == c)
  {
    if |s| > 0 && s[0] != c {
      FirstFieldIsPrefixBeforeSeparator(s[1..], c);
    }
  }

  /** strings.Replace(s, string(a), string(b), -1). */
  function ReplaceChar(s: string, a: char, b: char): string {
    seq(|s|, i requires 0 <= i < |s| => if s[i] == a then b else s[i])
  }

  /** Replacing the separator of a join swaps it for the new one when no part contains it. */
  lemma {:induction false} ReplaceJoinSeparator(parts: seq<string>, a: char, b: char)
    requires forall i :: 0 <= i < |parts| ==> a !in parts[i]
    ensures ReplaceChar(Join(parts, [a]), a, b) == Join(parts, [b])
  {
    if |parts| == 1 {
      assert ReplaceChar(parts[0], a, b) == parts[0];
    } else if |parts| > 1 {
      ReplaceJoinSeparator(parts[1..], a, b);
      var tail := Join(parts[1..], [a]);
      assert ReplaceChar(parts[0] + [a] + tail, a, b)
          == ReplaceChar(parts[0], a, b) + [b] + ReplaceChar(tail, a, b);
      assert ReplaceChar(parts[0], a, b) == parts[0];
    }
  }

  predicate OccursAt(s: string, i: nat, pat: string) {
    i + |pat| <= |s| && s[i..i + |pat|] == pat
  }

  /**
   * strings.Replace(s, pat, "", -1): scanning left to right, drop every
   * occurrence of pat that does not overlap one dropped before it.
   */
  function RemoveAll(s: string, pat: string): (r: string)
    requires |pat| > 0
    ensures |r| <= |s|
    decreases |s|
  {
    if |s| < |pat| then s
    else if s[..|pat|] == pat then RemoveAll(s[|pat|..], pat)
    else [s[0]] + RemoveAll(s[1..], pat)
  }

  /** A prefix in which no occurrence of pat starts is kept as it is. */
  lemma {:induction false} RemoveAllAfterPlainPrefix(h: string, t: string, pat: string)
    requires |pat| > 0
    requires forall i :: 0 <= i < |h| ==> !OccursAt(h + t, i, pat)
    ensures RemoveAll(h + t, pat) == h + RemoveAll(t, pat)
  {
    if h != [] {
      var s := h + t;
      assert !OccursAt(s, 0, pat);
      if |s| >= |pat| {
        assert s[0..|pat|] == s[..|pat|];
        assert s[1..] == h[1..] + t;
        forall i | 0 <= i < |h[1..]|
          ensures !OccursAt(h[1..] + t, i, pat)
        {
          assert !OccursAt(s, i + 1, pat);
          if i + |pat| <= |h[1..] + t| {
            assert (h[1..] + t)[i..i + |pat|] == s[i + 1..i + 1 + |pat|];
          }
        }
        RemoveAllAfterPlainPrefix(h[1..], t, pat);
        assert RemoveAll(s, pat) == [s[0]] + RemoveAll(h[1..] + t, pat);
        assert [h[0]] + h[1..] == h;
      } else {
        assert RemoveAll(t, pat) == t;
      }
    } else {
      assert h + t == t;
    }
  }

  /** A name ending in pat, with no other occurrence starting before it, loses exactly that suffix. */
  lemma StripSuffix(h: string, pat: string)
    requires |pat| > 0
    requires forall i :: 0 <= i < |h| ==> !OccursAt(h + pat, i, pat)
    ensures RemoveAll(h + pat, pat) == h
  {
    RemoveAllAfterPlainPrefix(h, pat, pat);
    assert pat[..|pat|] == pat;
  }

  /** Without any occurrence of pat the text is unchanged. */
  lemma RemoveAllAbsent(s: string, pat: string)
    requires |pat| > 0
    requires forall i :: 0 <= i < |s| ==> !OccursAt(s, i, pat)
    ensures RemoveAll(s, pat) == s
  {
    assert s + "" == s;
    RemoveAllAfterPlainPrefix(s, "", pat);
  }

  /** Lower-case hexadecimal digit of a value below 16. */
  function HexDigit(d: nat): char
    requires d < 16
  {
    if d < 10 then ('0' as int + d) as char else ('a' as int + d - 10) as char
  }

  /** Value of a hexadecimal digit in either case, as Go's uuid and net packages read it. */
  function HexValue(c: char): (r: Option<nat>)
    ensures r.Some? ==> r.value < 16
  {
    if '0' <= c <= '9' then Some(c as int - '0' as int)
    else if 'a' <= c <= 'f' then Some(c as int - 'a' as int + 10)
    else if 'A' <= c <= 'F' then Some(c as int - 'A' as int + 10)
    else None
  }

  /** Two lower-case hexadecimal digits, high nibble first. */
  function HexByte(b: byte): string {
    [HexDigit(b as int / 16), HexDigit(b as int % 16)]
  }

  function HexPair(hi: char, lo: char): Option<byte> {
    var h :- HexValue(hi);
    var l :- HexValue(lo);
    Some((h * 16 + l) as byte)
  }

  lemma HexPairOfByte(b: byte)
    ensures HexPair(HexByte(b)[0], HexByte(b)[1]) == Some(b)
  {
  }
}
