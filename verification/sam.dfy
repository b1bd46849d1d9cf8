/** The SAM hive parser (internal/plugin/sam.go): one timeline event per
    local user account, read from the fixed `F` and variable `V` records
    under `SAM\Domains\Account\Users`. */
module Sam {
  import opened Wrappers
  import opened GoStr
  import opened Model
  import opened Text
  import opened TimeConv
  import opened Hive
  import opened Seqs

  const NotFound: string := "SAM Users key not found"

  /** Offsets inside `V` are relative to the end of its 0xCC-byte header. */
  const NameBias: nat := 0xCC

  const TwoTo32: nat := 0x1_0000_0000

  const MinF: nat := 48
  const MinV: nat := 0x20

  predicate CanParse(path: string, header: seq<Byte>) {
    var base := Upper(Base(path));
    ((Contains(base, "SAM") || base == "SAM") && HasRegf(header))
    || (Contains(Upper(path), "SAM") && HasRegf(header))
  }

  /** The base-name test adds nothing to the whole-path test: the parser
      accepts exactly the hives whose upper-cased path contains "SAM". */
  lemma CanParseIff(path: string, header: seq<Byte>)
    ensures CanParse(path, header) <==> HasRegf(header) && Contains(Upper(path), "SAM")
  {
    var b := Base(path);
    if b == "." || b == "\\" {
      ShortNotContains(Upper(b), "SAM");
    } else {
      ContainsUpper(path, b);
      if Upper(b) == "SAM" {
        ContainsAt(Upper(b), "SAM", 0);
      }
      if Contains(Upper(b), "SAM") {
        ContainsTrans(Upper(path), Upper(b), "SAM");
      }
    }
  }

  // ---------------------------------------------------------------------
  // Locating the Users key

  /** A key named "Users" (any case) with a "Names" child. */
  predicate IsAccountKey(k: Key) {
    EqualFold(k.name, "Users") && Child(k, "Names").Some?
  }

  /** Depth-first, pre-order search for the account key below `k`. */
  function FindUsers(k: Key): (r: Option<Key>)
    ensures r.Some? ==> IsAccountKey(r.value) && InTree(k, r.value)
    ensures r.None? ==> forall a :: InTree(k, a) ==> !IsAccountKey(a)
    decreases k, 1
  {
    if IsAccountKey(k) then Some(k) else FindUsersIn(k, 0)
  }

  /** The search continued over the subkeys of `k` from index `i`. */
  function FindUsersIn(k: Key, i: nat): (r: Option<Key>)
    requires i <= |k.subkeys|
    ensures r.Some? ==> IsAccountKey(r.value) && exists j | i <= j < |k.subkeys| :: InTree(k.subkeys[j], r.value)
    ensures r.None? ==> forall j, a :: i <= j < |k.subkeys| && InTree(k.subkeys[j], a) ==> !IsAccountKey(a)
    decreases k, 0, |k.subkeys| - i
  {
    if i == |k.subkeys| then None
    else match FindUsers(k.subkeys[i])
      case Some(a) => Some(a)
      case None => FindUsersIn(k, i + 1)
  }

  /** The keys of the tree below `k` in depth-first pre-order: the key
      itself, then the trees of its subkeys in order. */
  function PreOrder(k: Key): seq<Key>
    decreases k, 1
  {
    [k] + PreOrderFrom(k, 0)
  }

  function PreOrderFrom(k: Key, i: nat): seq<Key>
    requires i <= |k.subkeys|
    decreases k, 0, |k.subkeys| - i
  {
    if i == |k.subkeys| then [] else PreOrder(k.subkeys[i]) + PreOrderFrom(k, i + 1)
  }

  /** The first account key of a list of keys. */
  function FirstAccount(ks: seq<Key>): (r: Option<Key>)
    ensures r.Some? ==> r.value in ks && IsAccountKey(r.value)
    ensures r.Some? ==> exists n :: 0 <= n < |ks| && ks[n] == r.value
                                    && forall m :: 0 <= m < n ==> !IsAccountKey(ks[m])
    ensures r.None? ==> forall n :: 0 <= n < |ks| ==> !IsAccountKey(ks[n])
  {
    if |ks| == 0 then None
    else if IsAccountKey(ks[0]) then Some(ks[0])
    else
      assert forall n :: 1 <= n < |ks| ==> ks[n] == ks[1..][n - 1];
      var r := FirstAccount(ks[1..]);
      assert r.Some? ==> exists n :: 1 <= n < |ks| && ks[n] == r.value
                                     && forall m :: 0 <= m < n ==> !IsAccountKey(ks[m]) by {
        if r.Some? {
          var n :| 0 <= n < |ks[1..]| && ks[1..][n] == r.value && forall m :: 0 <= m < n ==> !IsAccountKey(ks[1..][m]);
          assert ks[n + 1] == r.value;
          assert forall m :: 0 <= m < n + 1 ==> !IsAccountKey(ks[m]) by {
            forall m | 0 <= m < n + 1
              ensures !IsAccountKey(ks[m])
            {
              if m > 0 {
                assert ks[m] == ks[1..][m - 1];
              }
            }
          }
        }
      }
      r
  }

  lemma {:induction false} FirstAccountAppend(a: seq<Key>, b: seq<Key>)
    ensures FirstAccount(a + b) == if FirstAccount(a).Some? then FirstAccount(a) else FirstAccount(b)
  {
    if |a| == 0 {
      assert a + b == b;
    } else {
      assert (a + b)[0] == a[0];
      assert (a + b)[1..] == a[1..] + b;
      FirstAccountAppend(a[1..], b);
    }
  }

  /** The search finds the first account key in depth-first pre-order. */
  lemma {:induction false} FindUsersIsFirstInPreOrder(k: Key)
    ensures FindUsers(k) == FirstAccount(PreOrder(k))
    decreases k, 1
  {
    FirstAccountAppend([k], PreOrderFrom(k, 0));
    assert [k][1..] == [];
    FindUsersInIsFirst(k, 0);
  }

  lemma {:induction false} FindUsersInIsFirst(k: Key, i: nat)
    requires i <= |k.subkeys|
    ensures FindUsersIn(k, i) == FirstAccount(PreOrderFrom(k, i))
    decreases k, 0, |k.subkeys| - i
  {
    if i < |k.subkeys| {
      FindUsersIsFirstInPreOrder(k.subkeys[i]);
      FindUsersInIsFirst(k, i + 1);
      FirstAccountAppend(PreOrder(k.subkeys[i]), PreOrderFrom(k, i + 1));
    }
  }

  // ---------------------------------------------------------------------
  // V record strings

  /** Outcome of the as-written range check and slice on `V`. */
  datatype SliceOutcome = InRange(text: string) | OutOfRange | SlicePanic

  /** The name lookup as written: offset, length and the bound test are all
      computed in uint32, so the sum can wrap.  When the end wraps below the
      start, the test passes and the slice panics; when only the offset plus
      the 0xCC bias wraps, the test passes and the name is read from the
      wrong bytes, without a panic. */
  function NameFieldAsWritten(v: seq<Byte>, offAt: nat, lenAt: nat): (r: SliceOutcome)
    requires offAt + 4 <= |v| && lenAt + 4 <= |v|
    ensures r.SlicePanic? ==> U32(v, offAt) + NameBias + U32(v, lenAt) >= TwoTo32
  {
    SliceAsWritten(v, U32(v, offAt), U32(v, lenAt))
  }

  /** The uint32 range test and slice for a field offset `x` (relative to
      the 0xCC bias) and length `y`. */
  function SliceAsWritten(v: seq<Byte>, x: nat, y: nat): (r: SliceOutcome)
    requires x < TwoTo32 && y < TwoTo32
    ensures r.SlicePanic? ==> x + NameBias + y >= TwoTo32
  {
    var off := AddU32(x, NameBias);
    var end := AddU32(off, y);
    if |v| % TwoTo32 >= end then
      if off <= end then InRange(CleanupUtf16(v[off..end])) else SlicePanic
    else OutOfRange
  }

  /** uint32 addition. */
  function AddU32(a: nat, b: nat): (r: nat)
    requires a < TwoTo32 && b < TwoTo32
    ensures r < TwoTo32
    ensures a + b < TwoTo32 ==> r == a + b
    ensures a + b >= TwoTo32 ==> r == a + b - TwoTo32
  {
    if a + b >= TwoTo32 then a + b - TwoTo32 else a + b
  }

  /** The name lookup with the range test in unbounded arithmetic: it reads
      the field exactly when the whole range lies inside `V`, and never fails. */
  function NameField(v: seq<Byte>, offAt: nat, lenAt: nat): (r: Option<string>)
    requires offAt + 4 <= |v| && lenAt + 4 <= |v|
    ensures r.Some? <==> U32(v, offAt) + NameBias + U32(v, lenAt) <= |v|
  {
    SliceChecked(v, U32(v, offAt), U32(v, lenAt))
  }

  function SliceChecked(v: seq<Byte>, x: nat, y: nat): (r: Option<string>)
    ensures r.Some? <==> x + NameBias + y <= |v|
  {
    var off := x + NameBias;
    var end := off + y;
    if end <= |v| then Some(CleanupUtf16(v[off..end])) else None
  }

  /** Without wrap-around the two agree. */
  lemma NameFieldAgreesWithoutWrap(v: seq<Byte>, offAt: nat, lenAt: nat)
    requires offAt + 4 <= |v| && lenAt + 4 <= |v|
    requires |v| < TwoTo32
    requires U32(v, offAt) + NameBias + U32(v, lenAt) < TwoTo32
    ensures NameFieldAsWritten(v, offAt, lenAt) ==
              (match NameField(v, offAt, lenAt) case Some(t) => InRange(t) case None => OutOfRange)
  {
    SliceAgreesWithoutWrap(v, U32(v, offAt), U32(v, lenAt));
  }

  lemma SliceAgreesWithoutWrap(v: seq<Byte>, x: nat, y: nat)
    requires |v| < TwoTo32 && x < TwoTo32 && y < TwoTo32 && x + NameBias + y < TwoTo32
    ensures SliceAsWritten(v, x, y) == (match SliceChecked(v, x, y) case Some(t) => InRange(t) case None => OutOfRange)
  {
    if x + NameBias + y <= |v| {
      SliceInside(v, x, y);
    } else {
      SliceOutside(v, x, y);
    }
  }

  lemma SliceInside(v: seq<Byte>, x: nat, y: nat)
    requires |v| < TwoTo32 && x < TwoTo32 && y < TwoTo32 && x + NameBias + y <= |v|
    ensures SliceAsWritten(v, x, y) == InRange(CleanupUtf16(v[x + NameBias..x + NameBias + y]))
    ensures SliceChecked(v, x, y) == Some(CleanupUtf16(v[x + NameBias..x + NameBias + y]))
  {
    SmallMod(|v|);
    NoWrap(x, y);
  }

  lemma SliceOutside(v: seq<Byte>, x: nat, y: nat)
    requires |v| < TwoTo32 && x < TwoTo32 && y < TwoTo32 && |v| < x + NameBias + y < TwoTo32
    ensures SliceAsWritten(v, x, y) == OutOfRange
    ensures SliceChecked(v, x, y) == None
  {
    SmallMod(|v|);
    NoWrap(x, y);
  }

  /** Without wrap-around the uint32 sums are the plain sums. */
  lemma NoWrap(x: nat, y: nat)
    requires x < TwoTo32 && y < TwoTo32 && x + NameBias + y < TwoTo32
    ensures AddU32(x, NameBias) == x + NameBias && AddU32(x + NameBias, y) == x + NameBias + y
  {
  }

  /** A length below 2^32 is its own uint32. */
  lemma SmallMod(n: nat)
    requires n < TwoTo32
    ensures n % TwoTo32 == n
  {
  }

  /** A 32-byte `V` whose name offset field is 0x34 (offset 0x100) and whose
      length field is 0xFFFFFF00: the end wraps to 0, passes the test, and
      the slice `[0x100:0]` panics, while the unbounded test rejects it. */
  const WrappingV: seq<Byte> :=
    [0, 0, 0, 0, 0, 0, 0, 0, 0, 0, 0, 0, 0x34, 0, 0, 0,
     0, 0xFF, 0xFF, 0xFF, 0, 0, 0, 0, 0, 0, 0, 0, 0, 0, 0, 0]

  lemma NameCheckWraps()
    ensures NameFieldAsWritten(WrappingV, 0x0C, 0x10) == SlicePanic
    ensures NameField(WrappingV, 0x0C, 0x10) == None
  {
    assert U32(WrappingV, 0x0C) == 0x34;
    assert U32(WrappingV, 0x10) == 0xFFFFFF00;
  }

  /** A 32-byte `V` whose name offset field is 0xFFFFFF40 and whose length
      field is 4: the offset plus the bias wraps to 0x0C, the end is 0x10,
      and the test passes, so the name is read from bytes 0x0C-0x0F (the
      offset field itself), while the unbounded test rejects it. */
  const MisreadV: seq<Byte> :=
    [0, 0, 0, 0, 0, 0, 0, 0, 0, 0, 0, 0, 0x40, 0xFF, 0xFF, 0xFF,
     4, 0, 0, 0, 0, 0, 0, 0, 0, 0, 0, 0, 0, 0, 0, 0]

  lemma NameOffsetWrapMisreads()
    ensures NameFieldAsWritten(MisreadV, 0x0C, 0x10) == InRange(CleanupUtf16(MisreadV[0x0C..0x10]))
    ensures NameField(MisreadV, 0x0C, 0x10) == None
  {
    MisreadFields();
    assert AddU32(0xFFFFFF40, NameBias) == 0x0C;
  }

  lemma MisreadFields()
    ensures U32(MisreadV, 0x0C) == 0xFFFFFF40 && U32(MisreadV, 0x10) == 4
  {
    assert MisreadV[0x0C..0x10] == [0x40, 0xFF, 0xFF, 0xFF];
  }

  // ---------------------------------------------------------------------
  // Accounts

  datatype Account = Account(
    rid: string,
    username: string,
    fullname: string,
    disabled: bool,
    lastLogon: Instant,
    pwdLastSet: Instant)

  function F(user: Key): Option<seq<Byte>> {
    match LastValueNamed(user.values, "F")
    case None => None
    case Some(v) => if v.data.Some? then Some(v.data.value.raw) else None
  }

  function V(user: Key): Option<seq<Byte>> {
    match LastValueNamed(user.values, "V")
    case None => None
    case Some(v) => if v.data.Some? then Some(v.data.value.raw) else None
  }

  function FileTimeAt(b: seq<Byte>, off: nat): Instant
    requires off + 8 <= |b|
  {
    FiletimeToTime(U64(b, off))
  }

  /** Account control bit 0 marks a disabled account; the ACB field exists
      only when `F` is at least 58 bytes long. */
  function Disabled(f: seq<Byte>): bool {
    |f| >= 58 && U16(f, 56) % 2 == 1
  }

  /** The account stored under one RID subkey, unless the subkey is skipped. */
  function DecodeUser(user: Key): (r: Option<Account>)
    ensures r.None? <==> EqualFold(user.name, "Names") || F(user).None? || V(user).None?
                         || |F(user).value| < MinF || |V(user).value| < MinV
    ensures r.Some? ==> r.value.rid == user.name
                        && r.value.lastLogon == FileTimeAt(F(user).value, 8)
                        && r.value.pwdLastSet == FileTimeAt(F(user).value, 24)
                        && r.value.disabled == Disabled(F(user).value)
                        && r.value.username == NameField(V(user).value, 0x0C, 0x10).GetOr("Unknown")
                        && r.value.fullname == NameField(V(user).value, 0x18, 0x1C).GetOr("")
  {
    if EqualFold(user.name, "Names") then None
    else match (F(user), V(user))
      case (Some(f), Some(v)) =>
        if |f| < MinF || |v| < MinV then None
        else Some(Account(user.name,
                          NameField(v, 0x0C, 0x10).GetOr("Unknown"),
                          NameField(v, 0x18, 0x1C).GetOr(""),
                          Disabled(f),
                          FileTimeAt(f, 8),
                          FileTimeAt(f, 24)))
      case _ => None
  }

  function BoolString(b: bool): string {
    if b then "true" else "false"
  }

  /** A time counts as a logon time only if it is set and not before 1970. */
  predicate UsableTime(t: Instant) {
    !IsZero(t) && t.sec >= 0
  }

  function GuestAlert(): string {
    "Guest Account is ACTIVE (Potential Backdoor)"
  }

  function AccountDetails(a: Account, render: Instant -> string): (d: Details)
    ensures "_Alert" in d <==> ParseUintHex(a.rid) == 501 && !a.disabled
    ensures "_Info" in d <==> ParseUintHex(a.rid) == 500 && Lower(a.username) != "administrator"
    ensures "_Info" in d ==> d["_Info"] == "Renamed Administrator Account: " + a.username
    ensures "RID" in d && d["RID"] == a.rid && "Username" in d && d["Username"] == a.username
  {
    var props := map["Username" := a.username, "RID" := a.rid, "Fullname" := a.fullname,
                     "Disabled" := BoolString(a.disabled),
                     "LastLogon" := render(a.lastLogon), "PwdLastSet" := render(a.pwdLastSet)];
    var rid := ParseUintHex(a.rid);
    var withAlert := if rid == 501 && !a.disabled then props["_Alert" := GuestAlert()] else props;
    if rid == 500 && Lower(a.username) != "administrator" then
      withAlert["_Info" := "Renamed Administrator Account: " + a.username]
    else withAlert
  }

  /** The event of one account: its last logon when that is usable, else
      the time its password was set. */
  function AccountEvent(a: Account, evidencePath: string, render: Instant -> string): (e: TimelineEvent)
    ensures UsableTime(a.lastLogon) ==> e.time == a.lastLogon && e.action == "User Last Logon"
    ensures !UsableTime(a.lastLogon) ==> e.time == a.pwdLastSet && e.action == "User Password Set"
    ensures e.source == "SAM" && e.artifact == "UserAccount" && e.subject == a.username
    ensures e.details == AccountDetails(a, render)
  {
    var logon := UsableTime(a.lastLogon);
    var t := if logon then a.lastLogon else a.pwdLastSet;
    NewEvent("user-" + a.rid + "-" + Itoa(UnixNano(t)), t, "SAM", "UserAccount",
             if logon then "User Last Logon" else "User Password Set",
             a.username, AccountDetails(a, render), PathRef(evidencePath))
  }

  function UserEvent(user: Key, evidencePath: string, render: Instant -> string): (r: Option<TimelineEvent>)
    ensures r.Some? <==> DecodeUser(user).Some?
  {
    match DecodeUser(user)
    case None => None
    case Some(a) => Some(AccountEvent(a, evidencePath, render))
  }

  /** `Parse` on an already-read hive: an error when no account key exists,
      otherwise one event per account that survives the skips, in subkey
      order. */
  function Parse(root: Key, evidencePath: string, render: Instant -> string): (r: Result<ParseResponse>)
    ensures r.Err? <==> forall a :: InTree(root, a) ==> !IsAccountKey(a)
    ensures r.Err? ==> r.msg == NotFound
    ensures r.Ok? ==> exists users ::
              IsAccountKey(users) && InTree(root, users) && |r.value.events| <= |users.subkeys|
    ensures r.Ok? ==> forall i :: 0 <= i < |r.value.events| ==> r.value.events[i].source == "SAM"
    ensures r.Ok? ==> FindUsers(root).Some?
                      && r.value.events == FilterMap(FindUsers(root).value.subkeys, k => UserEvent(k, evidencePath, render))
  {
    match FindUsers(root)
    case None => Err(NotFound)
    case Some(users) =>
      var evs := FilterMap(users.subkeys, k => UserEvent(k, evidencePath, render));
      Ok(EventsResponse(evs))
  }

  /** RIDs are hexadecimal key names: 000001F4 is the built-in
      Administrator (500) and 000001F5 the Guest (501). */
  lemma WellKnownRids()
    ensures ParseUintHex("000001F4") == 500
    ensures ParseUintHex("000001F5") == 501
  {
    RidValue("1F4");
    RidValue("1F5");
    assert "000001F4" == "00000" + "1F4";
    assert "000001F5" == "00000" + "1F5";
  }

  /** An eight-digit RID that is five zeros and three hexadecimal digits. */
  lemma RidValue(s: string)
    requires |s| == 3 && IsHexDigit(s[0]) && IsHexDigit(s[1]) && IsHexDigit(s[2])
    ensures ParseUintHex("00000" + s) == HexVal(s[0]) * 256 + HexVal(s[1]) * 16 + HexVal(s[2])
  {
    HexScanZeros(s);
    assert s[1..][1..] == s[2..];
    assert HexScan(s, 0) == HexScan(s[1..], HexVal(s[0]));
    assert HexScan(s[1..], HexVal(s[0])) == HexScan(s[2..], HexVal(s[0]) * 16 + HexVal(s[1]));
    assert s[2..][1..] == [];
  }

  lemma HexScanZeros(s: string)
    ensures HexScan("00000" + s, 0) == HexScan(s, 0)
  {
    var s1 := "0" + s;
    var s2 := "0" + s1;
    var s3 := "0" + s2;
    var s4 := "0" + s3;
    var s5 := "0" + s4;
    HexScanZero(s);
    HexScanZero(s1);
    HexScanZero(s2);
    HexScanZero(s3);
    HexScanZero(s4);
    assert s5 == "00000" + s by {
      assert |s5| == 5 + |s|;
      forall i | 0 <= i < |s5|
        ensures s5[i] == ("00000" + s)[i]
      {
      }
    }
  }

  /** A leading zero digit does not change the value. */
  lemma HexScanZero(s: string)
    ensures HexScan("0" + s, 0) == HexScan(s, 0)
  {
    var t := "0" + s;
    assert t[0] == '0' && HexVal('0') == 0;
    assert t[1..] == s;
  }
}
