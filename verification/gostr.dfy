/** The slice of Go's `strings`, `strconv` and `path/filepath` packages that
    gtrace relies on.

    A Go `string` is a sequence of bytes.  The model writes it as a Dafny
    `string` whose characters all lie below U+0100, one character per byte,
    so that ASCII literals read as themselves.  Case mapping, `TrimSpace` and
    `Fields` are modelled on ASCII bytes only.  Paths follow the Windows rules
    of `path/filepath` (both `\` and `/` separate elements). */
module GoStr {
  import opened Wrappers

  type Byte = b: int | 0 <= b < 256

  /** Go's `string(b)`: one character per byte. */
  function AsString(b: seq<Byte>): (s: string)
    ensures |s| == |b|
    ensures forall i :: 0 <= i < |b| ==> s[i] as int == b[i]
  {
    seq(|b|, i requires 0 <= i < |b| => b[i] as char)
  }

  predicate IsByteString(s: string) {
    forall i :: 0 <= i < |s| ==> s[i] as int < 256
  }

  /** Go's `[]byte(s)` for a byte string. */
  function AsBytes(s: string): (b: seq<Byte>)
    requires IsByteString(s)
    ensures AsString(b) == s
  {
    seq(|s|, i requires 0 <= i < |s| => s[i] as int)
  }

  lemma AsBytesAsString(b: seq<Byte>)
    ensures IsByteString(AsString(b)) && AsBytes(AsString(b)) == b
  {
  }

  lemma AsStringAppend(b: seq<Byte>, c: seq<Byte>)
    ensures AsString(b + c) == AsString(b) + AsString(c)
  {
  }

  // ---------------------------------------------------------------------
  // Case mapping (ASCII)

  function LowerChar(c: char): char {
    if 'A' <= c <= 'Z' then (c as int + 32) as char else c
  }

  function UpperChar(c: char): char {
    if 'a' <= c <= 'z' then (c as int - 32) as char else c
  }

  function Lower(s: string): (r: string)
    ensures |r| == |s|
    ensures forall i :: 0 <= i < |s| ==> r[i] == LowerChar(s[i])
  {
    seq(|s|, i requires 0 <= i < |s| => LowerChar(s[i]))
  }

  function Upper(s: string): (r: string)
    ensures |r| == |s|
    ensures forall i :: 0 <= i < |s| ==> r[i] == UpperChar(s[i])
  {
    seq(|s|, i requires 0 <= i < |s| => UpperChar(s[i]))
  }

  /** `strings.EqualFold`, restricted to ASCII folding. */
  predicate EqualFold(a: string, b: string) {
    Lower(a) == Lower(b)
  }

  lemma LowerSlice(s: string, i: int, j: int)
    requires 0 <= i <= j <= |s|
    ensures Lower(s[i..j]) == Lower(s)[i..j]
  {
  }

  lemma UpperSlice(s: string, i: int, j: int)
    requires 0 <= i <= j <= |s|
    ensures Upper(s[i..j]) == Upper(s)[i..j]
  {
  }

  // ---------------------------------------------------------------------
  // Prefixes, suffixes, substrings

  predicate HasPrefix(s: string, p: string) {
    |p| <= |s| && s[..|p|] == p
  }

  predicate HasSuffix(s: string, p: string) {
    |p| <= |s| && s[|s| - |p|..] == p
  }

  /** `strings.Contains`: `sub` occurs at some offset of `s`. */
  predicate Contains(s: string, sub: string) {
    exists i | 0 <= i <= |s| :: HasPrefix(s[i..], sub)
  }

  lemma ContainsAt(s: string, sub: string, i: int)
    requires 0 <= i <= |s| - |sub|
    requires s[i..i + |sub|] == sub
    ensures Contains(s, sub)
  {
    assert HasPrefix(s[i..], sub);
  }

  lemma ContainsMiddle(a: string, sub: string, c: string)
    ensures Contains(a + sub + c, sub)
  {
    ContainsAt(a + sub + c, sub, |a|);
  }

  lemma ContainsEmpty(s: string)
    ensures Contains(s, "")
  {
    assert HasPrefix(s[0..], "");
  }

  lemma PrefixContains(s: string, p: string)
    requires HasPrefix(s, p)
    ensures Contains(s, p)
  {
    assert s[0..] == s;
    assert HasPrefix(s[0..], p);
  }

  lemma SuffixContains(s: string, p: string)
    requires HasSuffix(s, p)
    ensures Contains(s, p)
  {
    ContainsAt(s, p, |s| - |p|);
  }

  /** A substring of a slice is a substring of the whole. */
  lemma ContainsInSlice(s: string, i: int, j: int, sub: string)
    requires 0 <= i <= j <= |s|
    requires Contains(s[i..j], sub)
    ensures Contains(s, sub)
  {
    var t := s[i..j];
    var k :| 0 <= k <= |t| && HasPrefix(t[k..], sub);
    assert t[k..][..|sub|] == sub;
    forall m | 0 <= m < |sub|
      ensures s[i + k..i + k + |sub|][m] == sub[m]
    {
      assert t[k..][..|sub|][m] == t[k + m] == s[i + k + m];
    }
    assert s[i + k..i + k + |sub|] == sub;
    ContainsAt(s, sub, i + k);
  }

  lemma ShortNotContains(s: string, sub: string)
    requires |s| < |sub|
    ensures !Contains(s, sub)
  {
  }

  /** A substring of a substring is a substring. */
  lemma ContainsTrans(a: string, b: string, c: string)
    requires Contains(a, b) && Contains(b, c)
    ensures Contains(a, c)
  {
    var i :| 0 <= i <= |a| && HasPrefix(a[i..], b);
    assert a[i..][..|b|] == b;
    assert a[i..i + |b|] == a[i..][..|b|];
    assert Contains(a[i..i + |b|], c);
    ContainsInSlice(a, i, i + |b|, c);
  }

  /** Case mapping keeps substrings. */
  lemma ContainsUpper(s: string, sub: string)
    requires Contains(s, sub)
    ensures Contains(Upper(s), Upper(sub))
  {
    var i :| 0 <= i <= |s| && HasPrefix(s[i..], sub);
    assert Upper(s)[i..i + |sub|] == Upper(s[i..i + |sub|]);
    ContainsAt(Upper(s), Upper(sub), i);
  }

  lemma ContainsLower(s: string, sub: string)
    requires Contains(s, sub)
    ensures Contains(Lower(s), Lower(sub))
  {
    var i :| 0 <= i <= |s| && HasPrefix(s[i..], sub);
    assert Lower(s)[i..i + |sub|] == Lower(s[i..i + |sub|]);
    ContainsAt(Lower(s), Lower(sub), i);
  }

  function TrimPrefix(s: string, p: string): (r: string)
    ensures HasPrefix(s, p) ==> s == p + r
    ensures !HasPrefix(s, p) ==> r == s
  {
    if HasPrefix(s, p) then s[|p|..] else s
  }

  function TrimSuffix(s: string, p: string): (r: string)
    ensures HasSuffix(s, p) ==> s == r + p
    ensures !HasSuffix(s, p) ==> r == s
  {
    if HasSuffix(s, p) then s[..|s| - |p|] else s
  }

  /** Index of the first `c` in `s`, or -1. */
  function IndexOf(s: string, c: char): (r: int)
    ensures -1 <= r < |s|
    ensures r >= 0 ==> s[r] == c && c !in s[..r]
    ensures r == -1 ==> c !in s
  {
    if |s| == 0 then -1
    else if s[0] == c then 0
    else
      var k := IndexOf(s[1..], c);
      if k == -1 then -1
      else
        assert s[..k + 1] == [s[0]] + s[1..][..k];
        k + 1
  }

  /** The first `c` is the one with no `c` before it. */
  lemma IndexOfIsFirst(s: string, c: char)
    ensures forall k :: 0 <= k < |s| && s[k] == c && c !in s[..k] ==> IndexOf(s, c) == k
  {
  }

  // ---------------------------------------------------------------------
  // Trimming

  function TrimLeftWhile(s: string, p: char -> bool): (r: string)
    ensures |r| <= |s| && r == s[|s| - |r|..]
    ensures |r| > 0 ==> !p(r[0])
    ensures forall i :: 0 <= i < |s| - |r| ==> p(s[i])
    decreases |s|
  {
    if |s| > 0 && p(s[0]) then TrimLeftWhile(s[1..], p) else s
  }

  function TrimRightWhile(s: string, p: char -> bool): (r: string)
    ensures |r| <= |s| && r == s[..|r|]
    ensures |r| > 0 ==> !p(r[|r| - 1])
    ensures forall i :: |r| <= i < |s| ==> p(s[i])
    decreases |s|
  {
    if |s| > 0 && p(s[|s| - 1]) then TrimRightWhile(s[..|s| - 1], p) else s
  }

  lemma TrimLeftStep(s: string, p: char -> bool)
    ensures |s| > 0 && p(s[0]) ==> TrimLeftWhile(s, p) == TrimLeftWhile(s[1..], p)
    ensures |s| == 0 || !p(s[0]) ==> TrimLeftWhile(s, p) == s
  {
  }

  lemma TrimRightStep(s: string, p: char -> bool)
    ensures |s| > 0 && p(s[|s| - 1]) ==> TrimRightWhile(s, p) == TrimRightWhile(s[..|s| - 1], p)
    ensures |s| == 0 || !p(s[|s| - 1]) ==> TrimRightWhile(s, p) == s
  {
  }

  /** ASCII white space as `unicode.IsSpace` defines it below U+0080. */
  predicate IsSpace(c: char) {
    c == ' ' || c == '\t' || c == '\n' || c == '\r' || c as int == 11 || c as int == 12
  }

  predicate IsNul(c: char) {
    c == '\0'
  }

  /** `strings.TrimSpace`: no leading or trailing white space remains, and
      only white space was removed. */
  function TrimSpace(s: string): (r: string)
    ensures |r| > 0 ==> !IsSpace(r[0]) && !IsSpace(r[|r| - 1])
    ensures IsSliceOf(r, s)
  {
    var left := TrimLeftWhile(s, IsSpace);
    var r := TrimRightWhile(left, IsSpace);
    assert s[|s| - |left|..][..|r|] == r;
    r
  }

  /** `r` is a contiguous piece of `s`. */
  predicate IsSliceOf(r: string, s: string) {
    exists k | 0 <= k <= |s| - |r| :: s[k..][..|r|] == r
  }

  /** `strings.Trim(s, "\x00")`. */
  function TrimNul(s: string): (r: string)
    ensures |r| > 0 ==> !IsNul(r[0]) && !IsNul(r[|r| - 1])
  {
    TrimRightWhile(TrimLeftWhile(s, IsNul), IsNul)
  }

  // ---------------------------------------------------------------------
  // Splitting and joining

  function TakeWhile(s: string, p: char -> bool): (r: string)
    ensures |r| <= |s| && r == s[..|r|]
    ensures forall i :: 0 <= i < |r| ==> p(r[i])
    ensures |r| < |s| ==> !p(s[|r|])
  {
    if |s| > 0 && p(s[0]) then [s[0]] + TakeWhile(s[1..], p) else []
  }

  predicate NotSpace(c: char) {
    !IsSpace(c)
  }

  predicate IsWord(w: string) {
    |w| > 0 && forall j :: 0 <= j < |w| ==> !IsSpace(w[j])
  }

  /** `strings.Fields`: the maximal runs of non-space characters. */
  function Fields(s: string): (r: seq<string>)
    ensures forall i :: 0 <= i < |r| ==> IsWord(r[i])
    decreases |s|
  {
    var t := TrimLeftWhile(s, IsSpace);
    if |t| == 0 then []
    else
      var w := TakeWhile(t, NotSpace);
      [w] + Fields(t[|w|..])
  }

  function Join(parts: seq<string>, sep: string): string {
    if |parts| == 0 then ""
    else if |parts| == 1 then parts[0]
    else parts[0] + sep + Join(parts[1..], sep)
  }

  /** `strings.ReplaceAll(s, c, "")` for a one-byte `c`. */
  function RemoveChar(s: string, c: char): (r: string)
    ensures c !in r
    ensures |r| <= |s|
  {
    if |s| == 0 then ""
    else if s[0] == c then RemoveChar(s[1..], c)
    else [s[0]] + RemoveChar(s[1..], c)
  }

  // ---------------------------------------------------------------------
  // Decimal and hexadecimal numbers

  const MinInt64: int := -0x8000_0000_0000_0000
  const MaxInt64: int := 0x7FFF_FFFF_FFFF_FFFF
  const MaxUint64: int := 0xFFFF_FFFF_FFFF_FFFF

  predicate InInt64(x: int) {
    MinInt64 <= x <= MaxInt64
  }

  predicate IsDigit(c: char) {
    '0' <= c <= '9'
  }

  function DigitChar(d: nat): (c: char)
    requires d < 10
    ensures IsDigit(c) && c as int - '0' as int == d
  {
    ('0' as int + d) as char
  }

  /** Decimal digits of `n`, without sign or leading zeros. */
  function NatToString(n: nat): (s: string)
    ensures |s| > 0
    ensures forall i :: 0 <= i < |s| ==> IsDigit(s[i])
    decreases n
  {
    if n < 10 then [DigitChar(n)] else NatToString(n / 10) + [DigitChar(n % 10)]
  }

  /** `fmt.Sprintf("%d", n)` / `strconv.Itoa`. */
  function Itoa(n: int): string {
    if n < 0 then "-" + NatToString(-n) else NatToString(n)
  }

  /** Value of a non-empty string of decimal digits. */
  function ParseNat(s: string): Option<nat>
    decreases |s|
  {
    if |s| == 0 || !IsDigit(s[|s| - 1]) then None
    else
      var d := s[|s| - 1] as int - '0' as int;
      if |s| == 1 then Some(d)
      else match ParseNat(s[..|s| - 1])
        case None => None
        case Some(v) => Some(v * 10 + d)
  }

  /** `strconv.Atoi` on a 64-bit platform (also `strconv.ParseInt(s, 10, 64)`):
      an optional sign, at least one digit, and a value that fits in int64. */
  function Atoi(s: string): Option<int> {
    var signed := |s| > 0 && (s[0] == '+' || s[0] == '-');
    var digits := if signed then s[1..] else s;
    match ParseNat(digits)
    case None => None
    case Some(v) =>
      var x: int := if signed && s[0] == '-' then 0 - v as int else v as int;
      if InInt64(x) then Some(x) else None
  }

  lemma {:induction false} ParseNatToString(n: nat)
    ensures ParseNat(NatToString(n)) == Some(n)
    decreases n
  {
    var s := NatToString(n);
    if n >= 10 {
      ParseNatToString(n / 10);
      assert s[..|s| - 1] == NatToString(n / 10);
    }
  }

  /** `strconv.Atoi` reads back what `strconv.Itoa` writes. */
  lemma AtoiItoa(n: int)
    requires InInt64(n)
    ensures Atoi(Itoa(n)) == Some(n)
  {
    var s := Itoa(n);
    if n < 0 {
      var digits := NatToString(-n);
      ParseNatToString(-n);
      assert s == "-" + digits;
      assert s[0] == '-' && s[1..] == digits;
      assert ParseNat(s[1..]) == Some(-n);
    } else {
      ParseNatToString(n);
      assert IsDigit(s[0]);
      assert ParseNat(s) == Some(n);
    }
  }

  /** A positive number never prints as "0". */
  lemma ItoaPositive(n: nat)
    requires n > 0
    ensures Itoa(n) != "0"
  {
    ParseNatToString(n);
    assert ParseNat("0") == Some(0);
  }

  predicate IsHexDigit(c: char) {
    IsDigit(c) || 'a' <= c <= 'f' || 'A' <= c <= 'F'
  }

  function HexVal(c: char): (v: nat)
    requires IsHexDigit(c)
    ensures v < 16
  {
    if IsDigit(c) then c as int - '0' as int
    else if 'a' <= c <= 'f' then c as int - 'a' as int + 10
    else c as int - 'A' as int + 10
  }

  function HexScan(s: string, acc: nat): (v: nat)
    requires acc <= MaxUint64
    ensures v <= MaxUint64
    decreases |s|
  {
    if |s| == 0 then acc
    else if !IsHexDigit(s[0]) then 0
    else
      var n := acc * 16 + HexVal(s[0]);
      if n > MaxUint64 then MaxUint64 else HexScan(s[1..], n)
  }

  /** The value `strconv.ParseUint(s, 16, 64)` returns when its error is
      ignored: 0 on a syntax error, the maximum on overflow. */
  function ParseUintHex(s: string): (v: nat)
    ensures v <= MaxUint64
  {
    if |s| == 0 then 0 else HexScan(s, 0)
  }

  // ---------------------------------------------------------------------
  // Windows paths

  predicate IsSep(c: char) {
    c == '\\' || c == '/'
  }

  predicate NoSep(s: string) {
    forall i :: 0 <= i < |s| ==> !IsSep(s[i])
  }

  function VolumeLen(p: string): nat {
    if |p| >= 2 && p[1] == ':' then 2 else 0
  }

  /** Index of the last separator in `s`, or -1. */
  function LastSep(s: string): (r: int)
    ensures -1 <= r < |s|
    ensures r >= 0 ==> IsSep(s[r])
    ensures NoSep(s[r + 1..])
  {
    if |s| == 0 then -1
    else if IsSep(s[|s| - 1]) then |s| - 1
    else LastSep(s[..|s| - 1])
  }

  /** `filepath.Base`: the last element of the path.  It is "." for the
      empty path, "\" for a path of separators only, and otherwise a
      non-empty, separator-free piece of the path. */
  function Base(path: string): (r: string)
    ensures path == "" ==> r == "."
    ensures path != "" ==> r == "\\" || (|r| > 0 && NoSep(r) && Contains(path, r))
  {
    if path == "" then "."
    else
      var q := TrimRightWhile(path, IsSep)[VolumeLen(TrimRightWhile(path, IsSep))..];
      LastElementIsPiece(path);
      if q[LastSep(q) + 1..] == "" then "\\" else q[LastSep(q) + 1..]
  }

  /** The last element of a path, after its trailing separators and its
      volume are dropped, is separator-free and taken from the path. */
  lemma LastElementIsPiece(path: string)
    ensures var p := TrimRightWhile(path, IsSep);
            var q := p[VolumeLen(p)..];
            NoSep(q[LastSep(q) + 1..]) && Contains(path, q[LastSep(q) + 1..])
  {
    var p := TrimRightWhile(path, IsSep);
    var q := p[VolumeLen(p)..];
    var k := VolumeLen(p) + LastSep(q) + 1;
    var last := q[LastSep(q) + 1..];
    assert |last| == |p| - k;
    forall t | 0 <= t < |last|
      ensures last[t] == path[k + t]
    {
      assert last[t] == p[k + t];
    }
    assert last == path[k..k + |last|];
    ContainsAt(path, last, k);
  }

  function ExtFrom(path: string, i: nat): string
    requires i <= |path|
    decreases i
  {
    if i == 0 then ""
    else if IsSep(path[i - 1]) then ""
    else if path[i - 1] == '.' then path[i - 1..]
    else ExtFrom(path, i - 1)
  }

  /** `filepath.Ext`: the suffix from the last dot of the last element. */
  function Ext(path: string): string {
    ExtFrom(path, |path|)
  }

  lemma ExtFromNoDot(path: string, i: nat)
    requires i <= |path|
    requires forall k :: 0 <= k < i ==> path[k] != '.'
    ensures ExtFrom(path, i) == ""
  {
  }

  /** `filepath.Clean`, as far as the model needs it: forward slashes become
      backslashes and runs of separators collapse into one. */
  function CleanSeparators(path: string): string
    decreases |path|
  {
    if |path| == 0 then ""
    else if IsSep(path[0]) then
      "\\" + CleanSeparators(TrimLeftWhile(path, IsSep))
    else
      var w := TakeWhile(path, (c: char) => !IsSep(c));
      w + CleanSeparators(path[|w|..])
  }
}
