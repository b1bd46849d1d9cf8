/** Byte-level text helpers of internal/plugin/utils.go, together with the
    encodings they rest on: UTF-16 (RFC 2781 section 2.2), UTF-8 (RFC 3629
    section 3) and little-endian integer fields. */
module Text {
  import opened Wrappers
  import opened GoStr

  // ---------------------------------------------------------------------
  // Code points

  const Replacement: int := 0xFFFD

  predicate IsScalar(c: int) {
    0 <= c <= 0x10FFFF && !(0xD800 <= c < 0xE000)
  }

  predicate AllScalars(cps: seq<int>) {
    forall i :: 0 <= i < |cps| ==> IsScalar(cps[i])
  }

  // ---------------------------------------------------------------------
  // UTF-16

  predicate IsUnit(u: int) {
    0 <= u < 0x1_0000
  }

  predicate IsHighSurrogate(u: int) {
    0xD800 <= u < 0xDC00
  }

  predicate IsLowSurrogate(u: int) {
    0xDC00 <= u < 0xE000
  }

  /** `utf16.Decode`: surrogate pairs combine, and any unpaired surrogate
      becomes U+FFFD. */
  function Utf16Decode(us: seq<int>): (cps: seq<int>)
    requires forall i :: 0 <= i < |us| ==> IsUnit(us[i])
    ensures AllScalars(cps)
    ensures |cps| <= |us|
    decreases |us|
  {
    if |us| == 0 then []
    else
      var u := us[0];
      assert IsUnit(u);
      if u < 0xD800 || u >= 0xE000 then [u] + Utf16Decode(us[1..])
      else if IsHighSurrogate(u) && |us| > 1 && IsLowSurrogate(us[1]) then
        [Combine(u, us[1])] + Utf16Decode(us[2..])
      else [Replacement] + Utf16Decode(us[1..])
  }

  /** The scalar value a surrogate pair stands for. */
  function Combine(hi: int, lo: int): (c: int)
    requires IsHighSurrogate(hi) && IsLowSurrogate(lo)
    ensures IsScalar(c) && c >= 0x10000
  {
    0x10000 + (hi - 0xD800) * 0x400 + (lo - 0xDC00)
  }

  function Utf16EncodeOne(c: int): (us: seq<int>)
    requires IsScalar(c)
    ensures forall i :: 0 <= i < |us| ==> IsUnit(us[i])
  {
    if c < 0x10000 then [c]
    else [0xD800 + (c - 0x10000) / 0x400, 0xDC00 + (c - 0x10000) % 0x400]
  }

  function Utf16Encode(cps: seq<int>): (us: seq<int>)
    requires AllScalars(cps)
    ensures forall i :: 0 <= i < |us| ==> IsUnit(us[i])
  {
    if |cps| == 0 then [] else Utf16EncodeOne(cps[0]) + Utf16Encode(cps[1..])
  }

  lemma Utf16DecodeOne(c: int, rest: seq<int>)
    requires IsScalar(c)
    requires forall i :: 0 <= i < |rest| ==> IsUnit(rest[i])
    ensures Utf16Decode(Utf16EncodeOne(c) + rest) == [c] + Utf16Decode(rest)
  {
    if c >= 0x10000 {
      Utf16DecodePair(c, rest);
    } else {
      var us := [c] + rest;
      assert us[1..] == rest;
    }
  }

  lemma Utf16DecodePair(c: int, rest: seq<int>)
    requires IsScalar(c) && c >= 0x10000
    requires forall i :: 0 <= i < |rest| ==> IsUnit(rest[i])
    ensures Utf16Decode(Utf16EncodeOne(c) + rest) == [c] + Utf16Decode(rest)
  {
    var us := Utf16EncodeOne(c);
    SurrogateSplit(c);
    var all := us + rest;
    assert all[0] == us[0] && all[1] == us[1] && all[2..] == rest;
    assert Utf16Decode(all) == [Combine(us[0], us[1])] + Utf16Decode(all[2..]);
  }

  lemma SurrogateSplit(c: int)
    requires IsScalar(c) && c >= 0x10000
    ensures |Utf16EncodeOne(c)| == 2
    ensures IsHighSurrogate(Utf16EncodeOne(c)[0]) && IsLowSurrogate(Utf16EncodeOne(c)[1])
    ensures Combine(Utf16EncodeOne(c)[0], Utf16EncodeOne(c)[1]) == c
  {
    var d := c - 0x10000;
    assert d == (d / 0x400) * 0x400 + d % 0x400;
  }

  /** Decoding undoes encoding for every sequence of scalar values. */
  lemma {:induction false} Utf16RoundTrip(cps: seq<int>)
    requires AllScalars(cps)
    ensures Utf16Decode(Utf16Encode(cps)) == cps
  {
    if |cps| > 0 {
      Utf16DecodeOne(cps[0], Utf16Encode(cps[1..]));
      Utf16RoundTrip(cps[1..]);
    }
  }

  // ---------------------------------------------------------------------
  // Little-endian fields

  /** The 16-bit units of a little-endian byte string of even length. */
  function Units(b: seq<Byte>): (us: seq<int>)
    requires |b| % 2 == 0
    ensures |us| == |b| / 2
    ensures forall i :: 0 <= i < |us| ==> IsUnit(us[i]) && us[i] == b[2 * i] as int + 256 * b[2 * i + 1] as int
  {
    seq(|b| / 2, i requires 0 <= i < |b| / 2 => b[2 * i] as int + 256 * b[2 * i + 1] as int)
  }

  /** UTF-16LE bytes of a sequence of units. */
  function UnitBytes(us: seq<int>): (b: seq<Byte>)
    requires forall i :: 0 <= i < |us| ==> IsUnit(us[i])
    ensures |b| == 2 * |us|
  {
    if |us| == 0 then []
    else
      var u := us[0];
      assert IsUnit(u);
      [(u % 256) as Byte, (u / 256) as Byte] + UnitBytes(us[1..])
  }

  lemma {:induction false} UnitsOfUnitBytes(us: seq<int>)
    requires forall i :: 0 <= i < |us| ==> IsUnit(us[i])
    ensures Units(UnitBytes(us)) == us
  {
    if |us| > 0 {
      UnitsOfUnitBytes(us[1..]);
      var b := UnitBytes(us);
      forall i | 0 <= i < |us|
        ensures Units(b)[i] == us[i]
      {
        if i > 0 {
          assert b[2 * i] == UnitBytes(us[1..])[2 * (i - 1)];
          assert b[2 * i + 1] == UnitBytes(us[1..])[2 * (i - 1) + 1];
        }
      }
    }
  }

  /** `binary.LittleEndian.Uint16`/`Uint32`/`Uint64` at offset `off`. */
  function U16(b: seq<Byte>, off: nat): (v: nat)
    requires off + 2 <= |b|
    ensures v < 0x1_0000
  {
    b[off] as int + 0x100 * b[off + 1] as int
  }

  function U32(b: seq<Byte>, off: nat): (v: nat)
    requires off + 4 <= |b|
    ensures v < 0x1_0000_0000
  {
    U16(b, off) + 0x1_0000 * U16(b, off + 2)
  }

  function U64(b: seq<Byte>, off: nat): (v: nat)
    requires off + 8 <= |b|
    ensures v <= MaxUint64
  {
    U32(b, off) + 0x1_0000_0000 * U32(b, off + 4)
  }

  // ---------------------------------------------------------------------
  // UTF-8

  predicate IsCont(b: int) {
    0x80 <= b < 0xC0
  }

  /** Length of the well-formed UTF-8 sequence at the head of `b`
      (Table 3-7 of the Unicode Standard), or 0 if there is none. */
  function Utf8SeqLen(b: seq<Byte>): nat {
    if |b| == 0 then 0
    else if b[0] < 0x80 then 1
    else if 0xC2 <= b[0] <= 0xDF then
      if |b| >= 2 && IsCont(b[1]) then 2 else 0
    else if 0xE0 <= b[0] <= 0xEF then
      var lo := if b[0] == 0xE0 then 0xA0 else 0x80;
      var hi := if b[0] == 0xED then 0x9F else 0xBF;
      if |b| >= 3 && lo <= b[1] <= hi && IsCont(b[2]) then 3 else 0
    else if 0xF0 <= b[0] <= 0xF4 then
      var lo := if b[0] == 0xF0 then 0x90 else 0x80;
      var hi := if b[0] == 0xF4 then 0x8F else 0xBF;
      if |b| >= 4 && lo <= b[1] <= hi && IsCont(b[2]) && IsCont(b[3]) then 4 else 0
    else 0
  }

  /** `utf8.Valid`. */
  predicate ValidUtf8(b: seq<Byte>)
    decreases |b|
  {
    |b| == 0 || (Utf8SeqLen(b) > 0 && ValidUtf8(b[Utf8SeqLen(b)..]))
  }

  /** UTF-8 bytes of one scalar value. */
  function Utf8EncodeOne(c: int): (b: seq<Byte>)
    requires IsScalar(c)
    ensures 1 <= |b| <= 4
    ensures c != 0 ==> 0 !in b
  {
    if c < 0x80 then [c]
    else if c < 0x800 then [0xC0 + c / 64, 0x80 + c % 64]
    else if c < 0x10000 then [0xE0 + c / 4096, 0x80 + (c / 64) % 64, 0x80 + c % 64]
    else [0xF0 + c / 262144, 0x80 + (c / 4096) % 64, 0x80 + (c / 64) % 64, 0x80 + c % 64]
  }

  /** `string(runes)`: the UTF-8 bytes of a sequence of scalar values. */
  function Utf8Encode(cps: seq<int>): (b: seq<Byte>)
    requires AllScalars(cps)
    ensures 0 in b ==> 0 in cps
  {
    if |cps| == 0 then [] else Utf8EncodeOne(cps[0]) + Utf8Encode(cps[1..])
  }

  lemma Utf8EncodeOneWellFormed(c: int, rest: seq<Byte>)
    requires IsScalar(c)
    ensures Utf8SeqLen(Utf8EncodeOne(c) + rest) == |Utf8EncodeOne(c)|
  {
    var e := Utf8EncodeOne(c);
    if 0x800 <= c < 0x10000 {
      assert c / 4096 == 0 ==> (c / 64) % 64 >= 32;
      assert c / 4096 == 13 ==> (c / 64) % 64 < 32;
    } else if c >= 0x10000 {
      assert c / 262144 == 0 ==> (c / 4096) % 64 >= 16;
      assert c / 262144 <= 4;
      assert c / 262144 == 4 ==> (c / 4096) % 64 <= 15;
    }
  }

  /** Encoding scalar values always yields valid UTF-8. */
  lemma {:induction false} Utf8EncodeValid(cps: seq<int>)
    requires AllScalars(cps)
    ensures ValidUtf8(Utf8Encode(cps))
  {
    if |cps| > 0 {
      var e := Utf8EncodeOne(cps[0]);
      var rest := Utf8Encode(cps[1..]);
      Utf8EncodeOneWellFormed(cps[0], rest);
      assert (e + rest)[|e|..] == rest;
      Utf8EncodeValid(cps[1..]);
    }
  }

  /** A well-formed sequence at the head of `x` stays the head sequence
      whatever follows it. */
  lemma Utf8SeqLenAppend(x: seq<Byte>, y: seq<Byte>)
    requires 0 < Utf8SeqLen(x) == |x|
    ensures Utf8SeqLen(x + y) == |x|
  {
    assert (x + y)[..|x|] == x;
  }

  /** A well-formed sequence followed by valid UTF-8 is valid UTF-8. */
  lemma Utf8ValidAppend(x: seq<Byte>, y: seq<Byte>)
    requires 0 < Utf8SeqLen(x) == |x| && ValidUtf8(y)
    ensures ValidUtf8(x + y)
  {
    Utf8SeqLenAppend(x, y);
    assert (x + y)[|x|..] == y;
  }

  /** The head sequence is well-formed on its own; it is one ASCII byte, or
      bytes all at or above 0x80. */
  lemma Utf8SeqLenHead(b: seq<Byte>)
    requires Utf8SeqLen(b) > 0
    ensures Utf8SeqLen(b) <= |b| && Utf8SeqLen(b[..Utf8SeqLen(b)]) == Utf8SeqLen(b)
    ensures Utf8SeqLen(b) == 1 <==> b[0] < 0x80
    ensures Utf8SeqLen(b) > 1 ==> forall k :: 0 <= k < Utf8SeqLen(b) ==> b[k] >= 0x80
  {
  }

  /** The bytes at the head of `s`, up to its first character that is not a
      byte. */
  function LeadBytes(s: string): (b: seq<Byte>)
    ensures |b| <= |s|
    ensures forall i :: 0 <= i < |b| ==> b[i] == s[i] as int
    ensures IsByteString(s) ==> b == AsBytes(s)
  {
    if |s| == 0 || s[0] as int >= 256 then []
    else
      var b := [s[0] as int] + LeadBytes(s[1..]);
      assert IsByteString(s) ==> b == AsBytes(s) by {
        if IsByteString(s) {
          assert IsByteString(s[1..]);
          assert AsBytes(s) == [s[0] as int] + AsBytes(s[1..]);
        }
      }
      b
  }

  /** How many bytes Go's `for … range` over a string reads as its next
      rune: the length of the well-formed UTF-8 sequence at the head of `s`,
      or 0 when there is none (the loop then yields U+FFFD and moves on by
      one byte). */
  function RuneLen(s: string): (n: nat)
    ensures n <= |s| && n <= 4
    ensures n == 1 <==> |s| > 0 && s[0] as int < 0x80
    ensures n > 0 ==> IsByteString(s[..n]) && Utf8SeqLen(AsBytes(s[..n])) == n
    ensures n > 1 ==> forall k :: 0 <= k < n ==> s[k] as int >= 0x80
  {
    LeadRune(s);
    Utf8SeqLen(LeadBytes(s))
  }

  lemma LeadRune(s: string)
    ensures var n := Utf8SeqLen(LeadBytes(s));
            n > 0 ==> && n <= |s| && IsByteString(s[..n]) && Utf8SeqLen(AsBytes(s[..n])) == n
                      && (n == 1 <==> s[0] as int < 0x80)
                      && (n > 1 ==> forall k :: 0 <= k < n ==> s[k] as int >= 0x80)
  {
    var b := LeadBytes(s);
    var n := Utf8SeqLen(b);
    if n > 0 {
      Utf8SeqLenHead(b);
      ByteFacts(s, b, n);
    }
  }

  /** Facts about the first `n` bytes of `b` read as facts about the first
      `n` characters of `s`, when `b` spells a prefix of `s`. */
  lemma ByteFacts(s: string, b: seq<Byte>, n: nat)
    requires 0 < n <= |b| <= |s| && forall i :: 0 <= i < |b| ==> b[i] == s[i] as int
    requires Utf8SeqLen(b[..n]) == n
    requires n == 1 <==> b[0] < 0x80
    requires n > 1 ==> forall k :: 0 <= k < n ==> b[k] >= 0x80
    ensures IsByteString(s[..n]) && Utf8SeqLen(AsBytes(s[..n])) == n
    ensures n == 1 <==> s[0] as int < 0x80
    ensures n > 1 ==> forall k :: 0 <= k < n ==> s[k] as int >= 0x80
  {
    assert IsByteString(s[..n]) && AsBytes(s[..n]) == b[..n] by {
      assert forall k :: 0 <= k < n ==> s[..n][k] as int == b[k];
    }
  }

  /** The UTF-8 bytes of U+FFFD, which the loop yields for an invalid byte. */
  const ReplacementChar: seq<Byte> := [0xEF, 0xBF, 0xBD]

  // ---------------------------------------------------------------------
  // utils.go

  function TakeUntilNul(cps: seq<int>): (r: seq<int>)
    ensures |r| <= |cps| && r == cps[..|r|]
    ensures 0 !in r
    ensures |r| < |cps| ==> cps[|r|] == 0
  {
    if |cps| == 0 || cps[0] == 0 then [] else [cps[0]] + TakeUntilNul(cps[1..])
  }

  /** `cleanupUTF16`: an odd-length input is kept byte for byte; otherwise
      the bytes are decoded as UTF-16LE, cut at the first NUL (a trailing NUL
      included) and re-encoded as UTF-8, so the result holds no NUL. */
  function CleanupUtf16(b: seq<Byte>): (r: string)
    ensures IsByteString(r)
    ensures |b| % 2 != 0 ==> r == AsString(b)
    ensures |b| % 2 == 0 ==> '\0' !in r
  {
    if |b| % 2 != 0 then AsString(b)
    else AsString(Utf8Encode(TakeUntilNul(DropTrailingNul(Utf16Decode(Units(b))))))
  }

  function DropTrailingNul(runes: seq<int>): (r: seq<int>)
    ensures AllScalars(runes) ==> AllScalars(r)
    ensures |r| <= |runes| && r == runes[..|r|]
    ensures |r| < |runes| ==> |r| == |runes| - 1 && runes[|r|] == 0
  {
    if |runes| > 0 && runes[|runes| - 1] == 0 then runes[..|runes| - 1] else runes
  }

  /** The code points the UTF-16LE encoding of `cps` decodes to. */
  lemma DecodeOfEncoded(cps: seq<int>)
    requires AllScalars(cps)
    ensures Utf16Decode(Units(UnitBytes(Utf16Encode(cps)))) == cps
  {
    UnitsOfUnitBytes(Utf16Encode(cps));
    Utf16RoundTrip(cps);
  }

  /** UTF-16LE text without NUL decodes to its UTF-8 form. */
  lemma CleanupUtf16RoundTrip(cps: seq<int>)
    requires AllScalars(cps) && 0 !in cps
    ensures CleanupUtf16(UnitBytes(Utf16Encode(cps))) == AsString(Utf8Encode(cps))
  {
    var b := UnitBytes(Utf16Encode(cps));
    assert |b| % 2 == 0;
    DecodeOfEncoded(cps);
    NoNulTake(cps);
    assert DropTrailingNul(cps) == cps;
    var runes := Utf16Decode(Units(b));
    assert runes == cps;
    assert TakeUntilNul(DropTrailingNul(runes)) == cps;
    assert CleanupUtf16(b) == AsString(Utf8Encode(TakeUntilNul(DropTrailingNul(runes))));
  }

  lemma NoNulTake(cps: seq<int>)
    requires 0 !in cps
    ensures TakeUntilNul(cps) == cps
  {
  }

  /** A NUL-terminated name loses its terminator and everything after it. */
  lemma CleanupUtf16StopsAtNul(cps: seq<int>, tail: seq<int>)
    requires AllScalars(cps) && 0 !in cps
    requires AllScalars(tail)
    ensures CleanupUtf16(UnitBytes(Utf16Encode(cps + [0] + tail))) == AsString(Utf8Encode(cps))
  {
    var all := cps + [0] + tail;
    assert AllScalars(all);
    var b := UnitBytes(Utf16Encode(all));
    assert |b| % 2 == 0;
    DecodeOfEncoded(all);
    var runes := Utf16Decode(Units(b));
    assert runes == all;
    var trimmed := DropTrailingNul(all);
    if |trimmed| > |cps| {
      assert trimmed[..|cps|] == cps && trimmed[|cps|] == 0;
      TakeUntilPrefix(cps, trimmed);
    } else {
      assert trimmed == cps;
      NoNulTake(cps);
    }
    assert CleanupUtf16(b) == AsString(Utf8Encode(TakeUntilNul(DropTrailingNul(runes))));
  }

  lemma {:induction false} TakeUntilPrefix(cps: seq<int>, all: seq<int>)
    requires 0 !in cps
    requires |all| > |cps| && all[..|cps|] == cps && all[|cps|] == 0
    ensures TakeUntilNul(all) == cps
  {
    if |cps| > 0 {
      assert all[1..][..|cps| - 1] == cps[1..];
      TakeUntilPrefix(cps[1..], all[1..]);
    }
  }

  /** `CleanString`: NULs are trimmed from both ends, then white space. */
  function CleanString(s: string): (r: string)
    ensures |r| > 0 ==> !IsSpace(r[0]) && !IsSpace(r[|r| - 1])
    ensures IsSliceOf(r, TrimNul(s))
  {
    TrimSpace(TrimNul(s))
  }

  /** Trimming NULs before white space leaves a NUL that was hidden behind a
      space, so a second pass changes the result. */
  lemma CleanStringNotIdempotent()
    ensures CleanString(" \0a") == "\0a"
    ensures CleanString(CleanString(" \0a")) == "a"
  {
    CleanFirstPass();
    CleanSecondPass();
  }

  lemma CleanFirstPass()
    ensures CleanString(" \0a") == "\0a"
  {
    NulsAroundSpace();
    SpaceBeforeNul();
  }

  lemma CleanSecondPass()
    ensures CleanString("\0a") == "a"
  {
    LeadingNul();
    PlainA();
  }

  lemma NulsAroundSpace()
    ensures TrimNul(" \0a") == " \0a"
  {
    var s0 := " \0a";
    assert s0[0] == ' ' && s0[2] == 'a';
    TrimLeftStep(s0, IsNul);
    TrimRightStep(s0, IsNul);
  }

  lemma SpaceBeforeNul()
    ensures TrimSpace(" \0a") == "\0a"
  {
    LeftSpaceGone();
    NulAKept();
  }

  lemma LeftSpaceGone()
    ensures TrimLeftWhile(" \0a", IsSpace) == "\0a"
  {
    var s0 := " \0a";
    var s1 := "\0a";
    assert s0[0] == ' ' && s0[1..] == s1;
    assert s1[0] == '\0';
    TrimLeftStep(s0, IsSpace);
    TrimLeftStep(s1, IsSpace);
  }

  lemma NulAKept()
    ensures TrimRightWhile("\0a", IsSpace) == "\0a"
  {
    var s1 := "\0a";
    assert s1[1] == 'a';
    TrimRightStep(s1, IsSpace);
  }

  lemma LeadingNul()
    ensures TrimNul("\0a") == "a"
  {
    var s1 := "\0a";
    assert s1[0] == '\0' && s1[1..] == "a";
    TrimLeftStep(s1, IsNul);
    TrimLeftStep("a", IsNul);
    TrimRightStep("a", IsNul);
  }

  lemma PlainA()
    ensures TrimSpace("a") == "a"
  {
    TrimLeftStep("a", IsSpace);
    TrimRightStep("a", IsSpace);
  }

  /** `BytesToString`: valid UTF-8 is kept as is; otherwise the GB18030
      decoding (a parameter) is used when it succeeds, else the raw bytes. */
  function BytesToString(b: seq<Byte>, gb18030: seq<Byte> -> Option<seq<Byte>>): (r: string)
    ensures ValidUtf8(b) ==> r == AsString(b)
    ensures !ValidUtf8(b) && gb18030(b).Some? ==> r == AsString(gb18030(b).value)
    ensures !ValidUtf8(b) && gb18030(b).None? ==> r == AsString(b)
  {
    if ValidUtf8(b) then AsString(b)
    else match gb18030(b)
      case Some(d) => AsString(d)
      case None => AsString(b)
  }

  /** Text that was encoded as UTF-8 comes back unchanged, whatever the
      fallback decoder does. */
  lemma BytesToStringOfUtf8(cps: seq<int>, gb18030: seq<Byte> -> Option<seq<Byte>>)
    requires AllScalars(cps)
    ensures BytesToString(Utf8Encode(cps), gb18030) == AsString(Utf8Encode(cps))
  {
    Utf8EncodeValid(cps);
  }
}
