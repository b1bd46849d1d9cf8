/** A registry hive as the parsers see it once it has been read: a tree of
    named keys, each with a last-write time and named values.

    Reading the hive file itself is not part of this model; the tree stands
    for what the hive reader returns.  Key lookup by path walks the tree one
    component at a time and compares names without regard to ASCII case. */
module Hive {
  import opened Wrappers
  import opened GoStr
  import opened Model

  /** What a value's data helper returns: the raw bytes, the decoded text,
      and whether decoding succeeded. */
  datatype ValueData = ValueData(raw: seq<Byte>, text: string, ok: bool)

  /** A value; `data` is `None` when the data helper returns nil. */
  datatype Value = Value(name: string, data: Option<ValueData>)

  /** The file starts with the hive signature "regf". */
  predicate HasRegf(header: seq<Byte>) {
    |header| >= 4 && AsString(header[..4]) == "regf"
  }

  datatype Key = Key(name: string, lastWrite: Instant, subkeys: seq<Key>, values: seq<Value>)

  /** The first subkey whose name matches `name` case-insensitively. */
  function Child(k: Key, name: string): (r: Option<Key>)
    ensures r.Some? ==> r.value in k.subkeys && EqualFold(r.value.name, name)
    ensures r.None? ==> forall i :: 0 <= i < |k.subkeys| ==> !EqualFold(k.subkeys[i].name, name)
  {
    FirstNamed(k.subkeys, name)
  }

  function FirstNamed(ks: seq<Key>, name: string): (r: Option<Key>)
    ensures r.Some? ==> r.value in ks && EqualFold(r.value.name, name)
    ensures r.None? ==> forall i :: 0 <= i < |ks| ==> !EqualFold(ks[i].name, name)
  {
    if |ks| == 0 then None
    else if EqualFold(ks[0].name, name) then Some(ks[0])
    else FirstNamed(ks[1..], name)
  }

  /** The key reached from `root` by following `path`, one name per level. */
  function OpenKey(root: Key, path: seq<string>): (r: Option<Key>)
    ensures |path| == 0 ==> r == Some(root)
    ensures r.Some? && |path| > 0 ==> EqualFold(r.value.name, path[|path| - 1])
    decreases |path|
  {
    if |path| == 0 then Some(root)
    else match Child(root, path[0])
      case None => None
      case Some(c) =>
        var r := OpenKey(c, path[1..]);
        assert r.Some? && |path| > 1 ==> path[1..][|path[1..]| - 1] == path[|path| - 1];
        r
  }

  /** `a` is `k` or lies somewhere below it. */
  predicate InTree(k: Key, a: Key)
    decreases k
  {
    a == k || exists i | 0 <= i < |k.subkeys| :: InTree(k.subkeys[i], a)
  }

  predicate InForest(ks: seq<Key>, a: Key) {
    exists i | 0 <= i < |ks| :: InTree(ks[i], a)
  }

  /** The last value named `name` (ASCII case ignored), as a loop that keeps
      overwriting its match returns it. */
  function LastValueNamed(vs: seq<Value>, name: string): (r: Option<Value>)
    ensures r.Some? ==> r.value in vs && EqualFold(r.value.name, name)
    ensures r.None? ==> forall i :: 0 <= i < |vs| ==> !EqualFold(vs[i].name, name)
    ensures r.Some? ==> exists i | 0 <= i < |vs| ::
                          (vs[i] == r.value && forall j :: i < j < |vs| ==> !EqualFold(vs[j].name, name))
  {
    if |vs| == 0 then None
    else
      var last := vs[|vs| - 1];
      if EqualFold(last.name, name) then Some(last)
      else
        var r := LastValueNamed(vs[..|vs| - 1], name);
        r
  }

  /** The first value whose name is exactly `name`. */
  function FirstValueExact(vs: seq<Value>, name: string): (r: Option<Value>)
    ensures r.Some? ==> r.value in vs && r.value.name == name
    ensures r.None? ==> forall i :: 0 <= i < |vs| ==> vs[i].name != name
  {
    if |vs| == 0 then None
    else if vs[0].name == name then Some(vs[0])
    else FirstValueExact(vs[1..], name)
  }
}
