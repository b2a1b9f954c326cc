/**
 * UUIDs as the node agent prints and reads them: sixteen bytes whose text form
 * is the 8-4-4-4-12 hexadecimal layout of section 3 of RFC 4122.
 */
module Uuids {
  import opened Wrappers
  import opened Text

  type Uuid = b: seq<byte> | |b| == 16 witness [0, 0, 0, 0, 0, 0, 0, 0, 0, 0, 0, 0, 0, 0, 0, 0]

  /** uuid.Nil, the zero value of uuid.UUID. */
  const NilUuid: Uuid := [0, 0, 0, 0, 0, 0, 0, 0, 0, 0, 0, 0, 0, 0, 0, 0]

  /** The four positions of the text form that hold '-'. */
  predicate IsDashPosition(k: int) {
    k == 8 || k == 13 || k == 18 || k == 23
  }

  /** How many dashes stand before position k of the text form. */
  function DashesBefore(k: int): nat {
    (if k > 8 then 1 else 0) + (if k > 13 then 1 else 0) + (if k > 18 then 1 else 0) + (if k > 23 then 1 else 0)
  }

  /**
   * Where the two hex digits of byte i start in the text form:
   * 0, 2, 4, 6, 9, 11, 14, 16, 19, 21, 24, 26, ..., 34.
   */
  function Offset(i: nat): nat
    requires i < 16
  {
    2 * i + (if i >= 4 then 1 else 0) + (if i >= 6 then 1 else 0) + (if i >= 8 then 1 else 0) + (if i >= 10 then 1 else 0)
  }

  /** Character k of the text form of u. */
  function TextChar(u: Uuid, k: nat): char
    requires k < 36
  {
    if IsDashPosition(k) then '-'
    else
      var j := k - DashesBefore(k);
      HexByte(u[j / 2])[j % 2]
  }

  /** uuid.UUID.String: lower-case hex in groups of 8, 4, 4, 4 and 12 digits joined by '-'. */
  function ToString(u: Uuid): (s: string)
    ensures |s| == 36
    ensures s[8] == '-' && s[13] == '-' && s[18] == '-' && s[23] == '-'
  {
    seq(36, k requires 0 <= k < 36 => TextChar(u, k))
  }

  /** What uuid.Parse returns: the UUID as far as it was filled, and whether no error was reported. */
  datatype Parsed = Parsed(uuid: Uuid, ok: bool)

  /**
   * uuid.Parse. The length picks the form: 36 characters (8-4-4-4-12), 38
   * (the same after one leading character, meant to be '{'), 45 (after a
   * "urn:uuid:" prefix in either case), or 32 hex digits without dashes.
   * Any other length gives the nil UUID and an error.
   */
  function ParseText(s: string): Parsed {
    if |s| == 32 then
      var t := UndashedBytes(s, 0);
      Parsed(t.0, t.1)
    else if |s| == 36 then ParseDashed(s)
    else if |s| == 38 then ParseDashed(s[1..])
    else if |s| == 45 then
      if LowerAscii(s[..9]) == "urn:uuid:" then ParseDashed(s[9..]) else Parsed(NilUuid, false)
    else Parsed(NilUuid, false)
  }

  /** The error-checked view of uuid.Parse: the UUID only when no error is reported. */
  function Parse(s: string): Option<Uuid> {
    var p := ParseText(s);
    if p.ok then Some(p.uuid) else None
  }

  /** strings.EqualFold against a lower-case ASCII text compares with the ASCII letters lowered. */
  function LowerAscii(s: string): string {
    seq(|s|, i requires 0 <= i < |s| => if 'A' <= s[i] <= 'Z' then (s[i] as int + 32) as char else s[i])
  }

  /** The 8-4-4-4-12 form: the nil UUID when a dash is missing, else the bytes read from their offsets. */
  function ParseDashed(s: string): Parsed
    requires |s| >= 36
  {
    if s[8] != '-' || s[13] != '-' || s[18] != '-' || s[23] != '-' then Parsed(NilUuid, false)
    else
      var t := DashedBytes(s, 0);
      Parsed(t.0, t.1)
  }

  function Zeros(n: nat): (r: seq<byte>)
    ensures |r| == n
  {
    seq(n, _ => 0)
  }

  /** The hex pair that holds byte i in the dashed form. */
  function PairAt(s: string, i: nat): Option<byte>
    requires |s| >= 36 && i < 16
  {
    HexPair(s[Offset(i)], s[Offset(i) + 1])
  }

  /**
   * Bytes i.. of the dashed form. At the first pair that is not two hex
   * digits Parse returns: that byte and all after it stay zero.
   */
  function DashedBytes(s: string, i: nat): (r: (seq<byte>, bool))
    requires |s| >= 36 && i <= 16
    ensures |r.0| == 16 - i
    decreases 16 - i
  {
    if i == 16 then ([], true)
    else
      match PairAt(s, i)
      case None => (Zeros(16 - i), false)
      case Some(b) =>
        var t := DashedBytes(s, i + 1);
        ([b] + t.0, t.1)
  }

  /** xvalues: a hex digit's value, 255 for any other character. */
  function XValue(c: char): (v: nat)
    ensures v < 16 || v == 255
  {
    match HexValue(c)
    case Some(d) => d
    case None => 255
  }

  /** xtob's byte, written even when a digit is bad: (x1 << 4 | x2) truncated to 8 bits. */
  function XtoB(hi: char, lo: char): byte {
    var h, l := XValue(hi), XValue(lo);
    if l == 255 then 255 else ((h * 16) % 256 + l) as byte
  }

  /**
   * Bytes i.. of the 32-digit form. Here the loop stores xtob's byte before
   * it checks it, so the first bad pair leaves its garbage byte behind and
   * only the bytes after it stay zero.
   */
  function UndashedBytes(s: string, i: nat): (r: (seq<byte>, bool))
    requires |s| == 32 && i <= 16
    ensures |r.0| == 16 - i
    decreases 16 - i
  {
    if i == 16 then ([], true)
    else
      var b := XtoB(s[2 * i], s[2 * i + 1]);
      if HexPair(s[2 * i], s[2 * i + 1]).None? then ([b] + Zeros(15 - i), false)
      else
        var t := UndashedBytes(s, i + 1);
        ([b] + t.0, t.1)
  }

  /** The two characters at byte i's offset are that byte's hex digits. */
  lemma DigitsAtOffset(u: Uuid, i: nat)
    requires i < 16
    ensures ToString(u)[Offset(i)] == HexByte(u[i])[0]
    ensures ToString(u)[Offset(i) + 1] == HexByte(u[i])[1]
  {
    var k := Offset(i);
    assert !IsDashPosition(k) && !IsDashPosition(k + 1);
    assert k - DashesBefore(k) == 2 * i;
    assert k + 1 - DashesBefore(k + 1) == 2 * i + 1;
  }

  lemma {:induction false} ParseBytesOfText(u: Uuid, i: nat)
    requires i <= 16
    ensures DashedBytes(ToString(u), i) == (u[i..], true)
    decreases 16 - i
  {
    if i < 16 {
      ParseBytesOfText(u, i + 1);
      var s := ToString(u);
      assert HexPair(s[Offset(i)], s[Offset(i) + 1]) == Some(u[i]) by {
        DigitsAtOffset(u, i);
        HexPairOfByte(u[i]);
      }
      assert [u[i]] + u[i + 1..] == u[i..];
    } else {
      assert u[i..] == [];
    }
  }

  /** Every UUID is read back from its text form, with no error. */
  lemma ToStringRoundTrip(u: Uuid)
    ensures ParseText(ToString(u)) == Parsed(u, true)
    ensures Parse(ToString(u)) == Some(u)
  {
    ParseBytesOfText(u, 0);
  }

  /** The 32-digit form: the sixteen bytes as two lower-case hex digits each, with no dashes. */
  function UndashedText(u: Uuid): (s: string)
    ensures |s| == 32
  {
    seq(32, k requires 0 <= k < 32 => HexByte(u[k / 2])[k % 2])
  }

  lemma {:induction false} UndashedBytesOfText(u: Uuid, i: nat)
    requires i <= 16
    ensures UndashedBytes(UndashedText(u), i) == (u[i..], true)
    decreases 16 - i
  {
    if i < 16 {
      UndashedBytesOfText(u, i + 1);
      var s := UndashedText(u);
      assert s[2 * i] == HexByte(u[i])[0] && s[2 * i + 1] == HexByte(u[i])[1] by {
        assert (2 * i) / 2 == i && (2 * i) % 2 == 0;
        assert (2 * i + 1) / 2 == i && (2 * i + 1) % 2 == 1;
      }
      HexPairOfByte(u[i]);
      XtoBOfByte(u[i]);
      assert [u[i]] + u[i + 1..] == u[i..];
    } else {
      assert u[i..] == [];
    }
  }

  /** On two good digits xtob's byte is the byte they spell. */
  lemma XtoBOfByte(b: byte)
    ensures XtoB(HexByte(b)[0], HexByte(b)[1]) == b
  {
    var h, l := b as int / 16, b as int % 16;
    assert XValue(HexDigit(h)) == h && XValue(HexDigit(l)) == l;
  }

  /** uuid.Parse also reads a UUID back from its 32 hex digits without dashes. */
  lemma UndashedRoundTrip(u: Uuid)
    ensures ParseText(UndashedText(u)) == Parsed(u, true)
  {
    UndashedBytesOfText(u, 0);
  }

  /**
   * At the first pair k that is not two hex digits, the dashed form's bytes
   * stop: those before k are the pairs read, the rest stay zero, and an
   * error is reported.
   */
  lemma {:induction false} DashedBytesStopAt(s: string, i: nat, k: nat)
    requires |s| >= 36 && i <= k < 16
    requires forall j :: i <= j < k ==> PairAt(s, j).Some?
    requires PairAt(s, k).None?
    ensures !DashedBytes(s, i).1
    ensures DashedBytes(s, i).0[k - i..] == Zeros(16 - k)
    ensures forall j :: i <= j < k ==> DashedBytes(s, i).0[j - i] == PairAt(s, j).value
    decreases k - i
  {
    if i == k {
      assert DashedBytes(s, i) == (Zeros(16 - i), false);
    } else {
      DashedBytesStopAt(s, i + 1, k);
      var b := PairAt(s, i).value;
      var t := DashedBytes(s, i + 1);
      assert DashedBytes(s, i) == ([b] + t.0, t.1);
      assert ([b] + t.0)[k - i..] == t.0[k - i - 1..];
      forall j | i < j < k
        ensures ([b] + t.0)[j - i] == PairAt(s, j).value
      {
        assert ([b] + t.0)[j - i] == t.0[j - (i + 1)];
      }
    }
  }

  /** The UUID holding the first k pairs of the dashed form and zeros after them. */
  function FilledUpTo(s: string, k: nat): Uuid
    requires |s| >= 36 && k <= 16
    requires forall j :: 0 <= j < k ==> PairAt(s, j).Some?
  {
    seq(16, j requires 0 <= j < 16 => if j < k then PairAt(s, j).value else 0)
  }

  /**
   * A bad digit in the dashed form still returns the bytes before it: when
   * pair k is the first that is not two hex digits, Parse returns the bytes
   * of the pairs before k, zeros from k on, and an error.
   */
  lemma PartialFill(s: string, k: nat)
    requires |s| == 36 && k < 16
    requires s[8] == '-' && s[13] == '-' && s[18] == '-' && s[23] == '-'
    requires forall j :: 0 <= j < k ==> PairAt(s, j).Some?
    requires PairAt(s, k).None?
    ensures ParseText(s) == Parsed(FilledUpTo(s, k), false)
  {
    DashedBytesStopAt(s, 0, k);
    var r, f := DashedBytes(s, 0).0, FilledUpTo(s, k);
    forall j | k <= j < 16
      ensures r[j] == f[j]
    {
      assert r[k..][j - k] == Zeros(16 - k)[j - k];
    }
    assert r == f;
  }

  /** Distinct UUIDs print differently, so comparing text forms compares UUIDs. */
  lemma ToStringInjective(u: Uuid, v: Uuid)
    requires ToString(u) == ToString(v)
    ensures u == v
  {
    ToStringRoundTrip(u);
    ToStringRoundTrip(v);
  }
}
