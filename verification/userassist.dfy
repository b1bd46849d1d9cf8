/** The UserAssist parser (internal/plugin/userassist.go): execution counts
    that Explorer keeps in NTUSER.DAT under ROT13-encoded value names. */
module UserAssist {
  import opened Wrappers
  import opened GoStr
  import opened Model
  import opened Text
  import opened TimeConv
  import opened Hive
  import opened Seqs

  /** `Software\Microsoft\Windows\CurrentVersion\Explorer\UserAssist`. */
  const KeyPath: seq<string> := ["Software", "Microsoft", "Windows", "CurrentVersion", "Explorer", "UserAssist"]

  /** Value data shorter than this holds no run count and time. */
  const MinDataLen: nat := 68

  predicate CanParse(path: string, header: seq<Byte>) {
    var base := Upper(Base(path));
    (base == "NTUSER.DAT" || HasPrefix(base, "NTUSER.DAT")) && HasRegf(header)
  }

  predicate IsLowerAscii(c: char) {
    'a' <= c <= 'z'
  }

  predicate IsUpperAscii(c: char) {
    'A' <= c <= 'Z'
  }

  function Rot13Char(c: char): (r: char)
    ensures IsLowerAscii(c) <==> IsLowerAscii(r)
    ensures IsUpperAscii(c) <==> IsUpperAscii(r)
    ensures !IsLowerAscii(c) && !IsUpperAscii(c) ==> r == c
  {
    if IsLowerAscii(c) then ('a' as int + (c as int - 'a' as int + 13) % 26) as char
    else if IsUpperAscii(c) then ('A' as int + (c as int - 'A' as int + 13) % 26) as char
    else c
  }

  /** Every character rotated on its own: what `rot13` does to a name that
      is valid UTF-8 (`Rot13OfValid`). */
  function Rot13Chars(s: string): (r: string)
    ensures |r| == |s|
    ensures forall i :: 0 <= i < |s| ==> r[i] == Rot13Char(s[i])
  {
    seq(|s|, i requires 0 <= i < |s| => Rot13Char(s[i]))
  }

  /** `rot13`: the loop ranges over the runes of the string.  An ASCII
      letter rotates by 13 places within its case and any other well-formed
      rune is written back as it was; a byte that starts no well-formed
      sequence is read as U+FFFD, and the three bytes of U+FFFD are written
      in its place. */
  function Rot13(s: string): (r: string)
    ensures |r| >= |s|
    decreases |s|
  {
    if |s| == 0 then ""
    else
      var n := RuneLen(s);
      if n == 0 then AsString(ReplacementChar) + Rot13(s[1..])
      else if n == 1 then [Rot13Char(s[0])] + Rot13(s[1..])
      else s[..n] + Rot13(s[n..])
  }

  /** Rotating twice restores every character. */
  lemma Rot13CharInvolution(c: char)
    ensures Rot13Char(Rot13Char(c)) == c
  {
    if IsLowerAscii(c) {
      RotateTwice(c as int - 'a' as int);
    } else if IsUpperAscii(c) {
      RotateTwice(c as int - 'A' as int);
    }
  }

  /** Two rotations by 13 within an alphabet of 26 come back round. */
  lemma RotateTwice(k: int)
    requires 0 <= k < 26
    ensures 0 <= (k + 13) % 26 < 26
    ensures ((k + 13) % 26 + 13) % 26 == k
  {
    if k < 13 {
      assert (k + 13) % 26 == k + 13;
      assert (k + 26) % 26 == k;
    } else {
      assert (k + 13) % 26 == k - 13;
    }
  }

  lemma Rot13CharsInvolution(s: string)
    ensures Rot13Chars(Rot13Chars(s)) == s
  {
    forall i | 0 <= i < |s|
      ensures Rot13Chars(Rot13Chars(s))[i] == s[i]
    {
      Rot13CharInvolution(s[i]);
    }
  }

  lemma Rot13CharsAppend(a: string, b: string)
    ensures Rot13Chars(a + b) == Rot13Chars(a) + Rot13Chars(b)
  {
  }

  /** The head rune of valid UTF-8 is well-formed, and what follows it is
      valid UTF-8 again. */
  lemma ValidHeadRune(s: string)
    requires |s| > 0 && IsByteString(s) && ValidUtf8(AsBytes(s))
    ensures 0 < RuneLen(s) && IsByteString(s[RuneLen(s)..]) && ValidUtf8(AsBytes(s[RuneLen(s)..]))
  {
    var b := AsBytes(s);
    var n := Utf8SeqLen(b);
    assert LeadBytes(s) == b;
    assert AsBytes(s[n..]) == b[n..];
  }

  /** On valid UTF-8 the rune loop rotates character by character: the bytes
      of a multi-byte rune all lie at or above 0x80, where nothing rotates. */
  lemma {:induction false} Rot13OfValid(s: string)
    requires IsByteString(s) && ValidUtf8(AsBytes(s))
    ensures Rot13(s) == Rot13Chars(s)
    decreases |s|
  {
    if |s| > 0 {
      var n := RuneLen(s);
      ValidHeadRune(s);
      Rot13OfValid(s[n..]);
      assert s == s[..n] + s[n..];
      Rot13CharsAppend(s[..n], s[n..]);
      if n == 1 {
        assert Rot13(s) == [Rot13Char(s[0])] + Rot13(s[n..]);
        assert Rot13Chars(s[..n]) == [Rot13Char(s[0])];
      } else {
        assert Rot13(s) == s[..n] + Rot13(s[n..]);
        assert Rot13Chars(s[..n]) == s[..n];
      }
    }
  }

  /** What the loop writes for the head rune of `s`: a well-formed sequence
      `x`, after which it goes on from `next`. */
  lemma Rot13Head(s: string) returns (x: seq<Byte>, next: nat)
    requires |s| > 0
    ensures 0 < next <= |s| && 0 < Utf8SeqLen(x) == |x|
    ensures Rot13(s) == AsString(x) + Rot13(s[next..])
  {
    var n := RuneLen(s);
    if n == 0 {
      x, next := ReplacementChar, 1;
    } else if n == 1 {
      x, next := [Rot13Char(s[0]) as int], 1;
    } else {
      x, next := AsBytes(s[..n]), n;
    }
  }

  /** The rune loop always writes valid UTF-8. */
  lemma {:induction false} Rot13IsValid(s: string)
    ensures IsByteString(Rot13(s)) && ValidUtf8(AsBytes(Rot13(s)))
    decreases |s|
  {
    if |s| > 0 {
      var x, next := Rot13Head(s);
      Rot13IsValid(s[next..]);
      var rb := AsBytes(Rot13(s[next..]));
      AsStringAppend(x, rb);
      AsBytesAsString(x + rb);
      Utf8ValidAppend(x, rb);
    }
  }

  /** ROT13 is its own inverse on names that are valid UTF-8; on any name,
      rotating the result twice gives the result back, since every invalid
      byte has already become U+FFFD. */
  lemma Rot13Involution(s: string)
    ensures IsByteString(s) && ValidUtf8(AsBytes(s)) ==> Rot13(Rot13(s)) == s
    ensures Rot13(Rot13(Rot13(s))) == Rot13(s)
  {
    Rot13IsValid(s);
    var t := Rot13(s);
    Rot13OfValid(t);
    Rot13IsValid(t);
    Rot13OfValid(Rot13(t));
    Rot13CharsInvolution(t);
    if IsByteString(s) && ValidUtf8(AsBytes(s)) {
      Rot13OfValid(s);
      Rot13CharsInvolution(s);
    }
  }

  /** An ASCII character is a rune of its own. */
  lemma Rot13AsciiHead(s: string)
    requires |s| > 0 && s[0] as int < 0x80
    ensures Rot13(s) == [Rot13Char(s[0])] + Rot13(s[1..])
  {
  }

  /** The byte 0xE9 ("é" in Latin-1) is no UTF-8 sequence: the stored name
      "Pns" 0xE9 decodes to "Caf" followed by U+FFFD. */
  lemma Rot13ReplacesInvalidByte()
    ensures Rot13("Pns" + [0xE9 as char]) == "Caf" + AsString(ReplacementChar)
  {
    var raw := "Pns" + [0xE9 as char];
    var last := raw[3..];
    assert LeadBytes(last) == [0xE9];
    assert Rot13(last) == AsString(ReplacementChar) + Rot13(last[1..]);
    assert last[1..] == [];
    Rot13AsciiHead(raw);
    Rot13AsciiHead(raw[1..]);
    Rot13AsciiHead(raw[2..]);
    assert raw[1..][1..] == raw[2..] && raw[2..][1..] == last;
    assert Rot13Char('P') == 'C' && Rot13Char('n') == 'a' && Rot13Char('s') == 'f';
  }

  /** So for that name, rotating the subject again does not give the stored
      name back. */
  lemma Rot13NotInvolutiveOnInvalid()
    ensures Rot13(Rot13("Pns" + [0xE9 as char])) != "Pns" + [0xE9 as char]
  {
    var raw := "Pns" + [0xE9 as char];
    Rot13ReplacesInvalidByte();
    var out := Rot13(raw);
    Rot13IsValid(raw);
    Rot13OfValid(out);
    assert out[3] == 0xEF as char;
    assert Rot13(out)[3] == Rot13Char(out[3]) == out[3];
  }

  function RunCount(data: seq<Byte>): nat
    requires |data| >= MinDataLen
  {
    U32(data, 4)
  }

  function LastExecution(data: seq<Byte>): Instant
    requires |data| >= MinDataLen
  {
    FiletimeToTime(U64(data, 60))
  }

  /** The shape of every event this parser emits: the subject is the decoded
      value name, the time is a real time, and the run count is positive. */
  predicate IsUserAssistEvent(e: TimelineEvent, evidencePath: string) {
    && e.source == "UserAssist" && e.artifact == "UserAssist" && e.action == "Execution"
    && "rot13_raw" in e.details && e.subject == Rot13(e.details["rot13_raw"])
    && "run_count" in e.details && "guid" in e.details
    && e.details["run_count"] != "0"
    && !IsZero(e.time)
    && e.evidence == PathRef(evidencePath)
  }

  /** The event for one value of a `Count` key, if it qualifies. */
  function ValueEvent(guid: string, v: Value, evidencePath: string): (r: Option<TimelineEvent>)
    ensures r.Some? <==> v.data.Some? && |v.data.value.raw| >= MinDataLen
                         && RunCount(v.data.value.raw) > 0 && !IsZero(LastExecution(v.data.value.raw))
    ensures r.Some? ==> IsUserAssistEvent(r.value, evidencePath) && r.value.details["guid"] == guid
                        && r.value.details["rot13_raw"] == v.name
                        && r.value.time == LastExecution(v.data.value.raw)
  {
    match v.data
    case None => None
    case Some(vd) =>
      var data := vd.raw;
      if |data| < MinDataLen then None
      else
        var runCount := RunCount(data);
        var lastExec := LastExecution(data);
        if runCount > 0 && !IsZero(lastExec) then
          var path := Rot13(v.name);
          ItoaPositive(runCount);
          Some(NewEvent("ua-" + Itoa(UnixNano(lastExec)) + "-" + path, lastExec,
                        "UserAssist", "UserAssist", "Execution", path,
                        map["run_count" := Itoa(runCount), "rot13_raw" := v.name, "guid" := guid],
                        PathRef(evidencePath)))
        else None
  }

  /** Events of one GUID subkey: only its first `Count` child is read, and
      each of its values that qualifies gives an event, in order. */
  function GuidEvents(guidKey: Key, evidencePath: string): (r: seq<TimelineEvent>)
    ensures Child(guidKey, "Count").None? ==> r == []
    ensures Child(guidKey, "Count").Some? ==>
              r == FilterMap(Child(guidKey, "Count").value.values, v => ValueEvent(guidKey.name, v, evidencePath))
    ensures forall i :: 0 <= i < |r| ==> IsUserAssistEvent(r[i], evidencePath)
  {
    match Child(guidKey, "Count")
    case None => []
    case Some(count) => FilterMap(count.values, v => ValueEvent(guidKey.name, v, evidencePath))
  }

  /** Each value paired with the GUID it is stored under. */
  function Tagged(guid: string, vs: seq<Value>): (r: seq<(string, Value)>)
    ensures |r| == |vs|
    ensures forall i :: 0 <= i < |vs| ==> r[i] == (guid, vs[i])
  {
    if |vs| == 0 then [] else [(guid, vs[0])] + Tagged(guid, vs[1..])
  }

  /** The `Count` values of one GUID subkey, each with the GUID. */
  function GuidValues(guidKey: Key): seq<(string, Value)> {
    match Child(guidKey, "Count")
    case None => []
    case Some(count) => Tagged(guidKey.name, count.values)
  }

  /** The values of the `Count` children of all GUID subkeys, in order,
      each with its GUID. */
  function CountValues(guids: seq<Key>): seq<(string, Value)> {
    if |guids| == 0 then [] else GuidValues(guids[0]) + CountValues(guids[1..])
  }

  lemma {:induction false} TaggedEvents(guid: string, vs: seq<Value>, evidencePath: string)
    ensures FilterMap(Tagged(guid, vs), (p: (string, Value)) => ValueEvent(p.0, p.1, evidencePath))
            == FilterMap(vs, v => ValueEvent(guid, v, evidencePath))
  {
    if |vs| > 0 {
      TaggedEvents(guid, vs[1..], evidencePath);
      assert Tagged(guid, vs)[1..] == Tagged(guid, vs[1..]);
    }
  }

  lemma GuidEventsTagged(guidKey: Key, evidencePath: string)
    ensures GuidEvents(guidKey, evidencePath)
            == FilterMap(GuidValues(guidKey), (p: (string, Value)) => ValueEvent(p.0, p.1, evidencePath))
  {
    if Child(guidKey, "Count").Some? {
      TaggedEvents(guidKey.name, Child(guidKey, "Count").value.values, evidencePath);
    }
  }

  /** The events of all GUID subkeys: one per qualifying `Count` value, in
      order, GUID by GUID. */
  function AllGuidEvents(guids: seq<Key>, evidencePath: string): (r: seq<TimelineEvent>)
    ensures forall i :: 0 <= i < |r| ==> IsUserAssistEvent(r[i], evidencePath)
    ensures r == FilterMap(CountValues(guids), (p: (string, Value)) => ValueEvent(p.0, p.1, evidencePath))
  {
    if |guids| == 0 then []
    else
      FilterMapAppend(GuidValues(guids[0]), CountValues(guids[1..]), (p: (string, Value)) => ValueEvent(p.0, p.1, evidencePath));
      GuidEventsTagged(guids[0], evidencePath);
      GuidEvents(guids[0], evidencePath) + AllGuidEvents(guids[1..], evidencePath)
  }

  /** `Parse` on an already-read hive.  A hive without the UserAssist key
      yields an empty response and no error. */
  function Parse(root: Key, evidencePath: string): (r: Result<ParseResponse>)
    ensures r.Ok?
    ensures OpenKey(root, KeyPath).None? ==> r.value == EmptyResponse
    ensures r.value.artifacts == []
    ensures forall i :: 0 <= i < |r.value.events| ==> IsUserAssistEvent(r.value.events[i], evidencePath)
    ensures OpenKey(root, KeyPath).Some? ==>
              r.value.events == FilterMap(CountValues(OpenKey(root, KeyPath).value.subkeys),
                                          (p: (string, Value)) => ValueEvent(p.0, p.1, evidencePath))
  {
    match OpenKey(root, KeyPath)
    case None => Ok(EmptyResponse)
    case Some(ua) => Ok(EventsResponse(AllGuidEvents(ua.subkeys, evidencePath)))
  }

  /** The subject of every event is valid UTF-8 and rotates back to itself
      after two rotations; it decodes back to the stored value name when that
      name is valid UTF-8. */
  lemma SubjectEncodesRawName(root: Key, evidencePath: string, i: int)
    requires 0 <= i < |Parse(root, evidencePath).value.events|
    ensures var e := Parse(root, evidencePath).value.events[i];
            var raw := e.details["rot13_raw"];
            && (IsByteString(raw) && ValidUtf8(AsBytes(raw)) ==> Rot13(e.subject) == raw)
            && Rot13(Rot13(e.subject)) == e.subject
            && IsByteString(e.subject) && ValidUtf8(AsBytes(e.subject))
  {
    var e := Parse(root, evidencePath).value.events[i];
    Rot13Involution(e.details["rot13_raw"]);
    Rot13IsValid(e.details["rot13_raw"]);
  }

  /** A last-execution FILETIME of 0 is 1601-01-01, not the zero time, so it
      does not stop the event. */
  lemma ZeroFiletimeStillEmitted(data: seq<Byte>)
    requires |data| >= MinDataLen && RunCount(data) > 0
    requires forall k :: 60 <= k < 68 ==> data[k] == 0
    ensures ValueEvent("g", Value("n", Some(ValueData(data, "", true))), "p").Some?
  {
    assert U64(data, 60) == 0;
    FiletimeZeroIs1601();
  }
}
