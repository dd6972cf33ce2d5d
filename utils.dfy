/** Helpers of the plugin's utilities file: size constants, the hash that
    picks a shard directory, the "file full" error test, ceiling division,
    membership and the catalog lookups. */
module Utils {
  import opened Common
  import opened GoStrings
  import opened Types
  import Crc32

  const Kib: int := 1024
  const Mib: int := Kib * 1024
  const Gib: int := Mib * 1024
  const Gib100: int := Gib * 100
  const Tib: int := Gib * 1024
  const Tib100: int := Tib * 100

  lemma SizeConstants()
    ensures Gib == 0x4000_0000 && Tib == 0x100_0000_0000 && Tib == 1024 * Gib
    ensures Gib100 == 100 * Gib && Tib100 == 100 * Tib
  {
  }

  // ---------------------------------------------------------------------
  // StringToHash

  /** Width of Go's `int` on the platform the plugin is built for. */
  datatype WordSize = Bits32 | Bits64

  const MinInt32: int := -0x8000_0000

  /** `int(u)` for a `uint32` value `u`: on a 32-bit platform values from
      2^31 up wrap around to negative numbers. */
  function GoIntOfUint32(u: nat, w: WordSize): (v: int)
    requires u < 0x1_0000_0000
    ensures w == Bits64 ==> v == u
    ensures w == Bits32 ==> MinInt32 <= v < 0x8000_0000 && (v == u || v == u - 0x1_0000_0000)
  {
    if w == Bits32 && u >= 0x8000_0000 then u - 0x1_0000_0000 else u
  }

  /** `-v` on Go's `int`: negating the smallest 32-bit value wraps to itself. */
  function GoNegate(v: int, w: WordSize): int {
    if w == Bits32 && v == MinInt32 then v else -v
  }

  /** `StringToHash`: the IEEE CRC-32 of the string's bytes as a Go `int`,
      negated when negative and 0 for the one value whose negation is still
      negative. */
  function StringToHash(s: string, w: WordSize): (r: int)
    ensures 0 <= r < 0x1_0000_0000
    ensures w == Bits64 ==> r == Crc32.ChecksumIEEE(Crc32.Utf8(s)) as int
    ensures w == Bits32 ==> r < 0x8000_0000
  {
    NonNegativeHash(Crc32.ChecksumIEEE(Crc32.Utf8(s)) as int, w)
  }

  /** The body of `StringToHash` once the checksum `c` is computed. */
  function NonNegativeHash(c: nat, w: WordSize): (r: int)
    requires c < 0x1_0000_0000
    ensures 0 <= r < 0x1_0000_0000
    ensures w == Bits64 ==> r == c
    ensures w == Bits32 ==> r < 0x8000_0000
  {
    var v := GoIntOfUint32(c, w);
    if v >= 0 then v
    else if GoNegate(v, w) >= 0 then GoNegate(v, w)
    else 0
  }

  /** On a 32-bit platform a checksum with the top bit set is folded back
      to its two's-complement magnitude, and 0x80000000 becomes 0. */
  lemma NonNegativeHash32(c: nat)
    requires c < 0x1_0000_0000
    ensures NonNegativeHash(c, Bits32)
      == if c < 0x8000_0000 then c else if c == 0x8000_0000 then 0 else 0x1_0000_0000 - c
  {
  }

  /** The hash reduced to a shard number lies in [0, MaxDirCount). */
  lemma ShardInRange(s: string, w: WordSize)
    ensures 0 <= StringToHash(s, w) % MaxDirCount < MaxDirCount
  {
  }

  // ---------------------------------------------------------------------
  // IsFileFullErr

  /** Position of the first decimal digit at or after `i`, or `|s|`. */
  function DigitStart(s: string, i: nat): (k: nat)
    requires i <= |s|
    ensures i <= k <= |s|
    ensures forall j :: i <= j < k ==> !IsDigit(s[j])
    ensures k < |s| ==> IsDigit(s[k])
    decreases |s| - i
  {
    if i == |s| || IsDigit(s[i]) then i else DigitStart(s, i + 1)
  }

  /** End of the run of digits that starts at `i`. */
  function DigitEnd(s: string, i: nat): (k: nat)
    requires i <= |s|
    ensures i <= k <= |s|
    ensures forall j :: i <= j < k ==> IsDigit(s[j])
    ensures k < |s| ==> !IsDigit(s[k])
    decreases |s| - i
  {
    if i < |s| && IsDigit(s[i]) then DigitEnd(s, i + 1) else i
  }

  /** What the regular expression `[0-9]+` finds first: the leftmost
      maximal run of digits, or "" when there is none. */
  function FirstDigitRun(s: string): string {
    var start := DigitStart(s, 0);
    s[start..DigitEnd(s, start)]
  }

  /** `IsFileFullErr`: the backend reports a full directory with status 7. */
  predicate IsFileFullErr(msg: string) {
    FirstDigitRun(msg) == "7"
  }

  /** A '7' at position `i` with no digit before it and none right after. */
  predicate LoneSevenAt(msg: string, i: nat) {
    i < |msg| && msg[i] == '7' && (i + 1 == |msg| || !IsDigit(msg[i + 1]))
    && forall j :: 0 <= j < i ==> !IsDigit(msg[j])
  }

  /** The error text is a "file full" error exactly when some '7' is preceded
      by no digit at all and not followed by one. */
  lemma IsFileFullErrIff(msg: string)
    ensures IsFileFullErr(msg) <==> exists i :: LoneSevenAt(msg, i)
  {
    var start := DigitStart(msg, 0);
    var end := DigitEnd(msg, start);
    if IsFileFullErr(msg) {
      assert msg[start..end] == "7";
      assert end == start + 1 && msg[start] == '7';
      assert LoneSevenAt(msg, start);
    }
    if exists i :: LoneSevenAt(msg, i) {
      var i: nat :| LoneSevenAt(msg, i);
      assert start == i;
      assert DigitEnd(msg, i + 1) == i + 1;
      assert end == i + 1;
    }
  }

  /** Texts whose first number is 17, 07 or that hold no digit are not
      "file full" errors; a first number of 7 is one. */
  lemma IsFileFullErrExamples()
    ensures !IsFileFullErr("e17")
    ensures !IsFileFullErr("e07")
    ensures !IsFileFullErr("full")
    ensures IsFileFullErr("e7")
    ensures !IsFileFullErr("e1 7")
  {
    assert DigitStart("e17", 0) == 1 && DigitEnd("e17", 1) == 3;
    assert DigitStart("e07", 0) == 1 && DigitEnd("e07", 1) == 3;
    assert DigitStart("full", 0) == 4;
    assert DigitStart("e7", 0) == 1 && DigitEnd("e7", 1) == 2;
    assert DigitStart("e1 7", 0) == 1 && DigitEnd("e1 7", 1) == 2;
  }

  // ---------------------------------------------------------------------
  // RoundUpSize

  /** Go's `/` on integers truncates toward zero. */
  function GoDiv(a: int, b: int): int
    requires b != 0
  {
    if a >= 0 then (if b > 0 then a / b else -(a / -b))
    else (if b > 0 then -((-a) / b) else (-a) / (-b))
  }

  /** Go's `%`: the remainder has the sign of the dividend. */
  function GoMod(a: int, b: int): (r: int)
    requires b != 0
    ensures GoDiv(a, b) * b + r == a
  {
    a - GoDiv(a, b) * b
  }

  /** `RoundUpSize`: the number of allocation units needed for a size. A
      zero unit makes Go's division panic. */
  function RoundUpSize(size: int, unit: int): int
    requires unit != 0
  {
    var q := GoDiv(size, unit);
    if GoMod(size, unit) > 0 then q + 1 else q
  }

  /** For a positive unit the result is the ceiling of size / unit, for
      sizes of either sign. */
  lemma RoundUpSizeIsCeiling(size: int, unit: int)
    requires unit > 0
    ensures RoundUpSize(size, unit) * unit >= size
    ensures (RoundUpSize(size, unit) - 1) * unit < size
  {
    var q := GoDiv(size, unit);
    var m := GoMod(size, unit);
    assert q * unit + m == size;
    if size >= 0 {
      assert q == size / unit;
      assert 0 <= m < unit;
    } else {
      assert q == -((-size) / unit);
      assert m == -((-size) % unit);
      assert -unit < m <= 0;
    }
    if m > 0 {
      assert (q + 1) * unit == q * unit + unit;
    } else {
      assert (q - 1) * unit == q * unit - unit;
    }
  }

  /** 1500 MiB need two 1 GiB units. */
  lemma RoundUpSizeExample()
    ensures RoundUpSize(1500 * Mib, Gib) == 2
  {
  }

  // ---------------------------------------------------------------------
  // Contains

  /** The kinds of collection `Contains` distinguishes by reflection: a
      slice or array, a map, or any other value. */
  datatype Collection<K, V> = Sequence(items: seq<K>) | Dictionary(entries: map<K, V>) | Scalar

  /** `Contains`: whether `obj` is an element of a slice or array or a key of
      a map; a false answer comes with the error "not in". */
  method Contains<K(==), V>(obj: K, target: Collection<K, V>) returns (found: bool, err: Option<string>)
    ensures found <==> (target.Sequence? && obj in target.items) || (target.Dictionary? && obj in target.entries)
    ensures found <==> err.None?
    ensures err.Some? ==> err.value == "not in"
  {
    if target.Sequence? {
      var items := target.items;
      for i := 0 to |items|
        invariant obj !in items[..i]
      {
        if items[i] == obj {
          return true, None;
        }
      }
      assert items[..|items|] == items;
    } else if target.Dictionary? {
      if obj in target.entries {
        return true, None;
      }
    }
    return false, Some("not in");
  }

  // ---------------------------------------------------------------------
  // Catalog lookups

  /** `GetVolumeById`: the entry stored under the id, or none. */
  function GetVolumeById(volumes: map<string, Volume>, id: string): (r: Option<Volume>)
    ensures r.None? <==> id !in volumes
    ensures r.Some? ==> r.value == volumes[id]
  {
    if id in volumes then Some(volumes[id]) else None
  }

  /** `GetSnapshotById`. */
  function GetSnapshotById(snapshots: map<string, Snapshot>, id: string): (r: Option<Snapshot>)
    ensures r.None? <==> id !in snapshots
    ensures r.Some? ==> r.value == snapshots[id]
  {
    if id in snapshots then Some(snapshots[id]) else None
  }

  /** Some volume in the catalog carries this name. */
  predicate HasVolumeNamed(volumes: map<string, Volume>, name: string) {
    exists id :: id in volumes && volumes[id].name == name
  }

  predicate HasSnapshotNamed(snapshots: map<string, Snapshot>, name: string) {
    exists id :: id in snapshots && snapshots[id].name == name
  }

  /** `GetVolumeByName`: walks the map in Go's unspecified order and returns
      the first entry with the name; which of several is not determined. */
  method GetVolumeByName(volumes: map<string, Volume>, name: string) returns (r: Option<Volume>)
    ensures r.None? <==> !HasVolumeNamed(volumes, name)
    ensures r.Some? ==> r.value in volumes.Values && r.value.name == name
  {
    var remaining := volumes.Keys;
    while remaining != {}
      invariant remaining <= volumes.Keys
      invariant forall id :: id in volumes && id !in remaining ==> volumes[id].name != name
      decreases remaining
    {
      var id :| id in remaining;
      if volumes[id].name == name {
        return Some(volumes[id]);
      }
      remaining := remaining - {id};
    }
    return None;
  }

  /** `GetSnapshotByName`. */
  method GetSnapshotByName(snapshots: map<string, Snapshot>, name: string) returns (r: Option<Snapshot>)
    ensures r.None? <==> !HasSnapshotNamed(snapshots, name)
    ensures r.Some? ==> r.value in snapshots.Values && r.value.name == name
  {
    var remaining := snapshots.Keys;
    while remaining != {}
      invariant remaining <= snapshots.Keys
      invariant forall id :: id in snapshots && id !in remaining ==> snapshots[id].name != name
      decreases remaining
    {
      var id :| id in remaining;
      if snapshots[id].name == name {
        return Some(snapshots[id]);
      }
      remaining := remaining - {id};
    }
    return None;
  }

  /** `GetVolume`: by id first, then by name. */
  method GetVolume(volumes: map<string, Volume>, unique: string) returns (r: Option<Volume>)
    ensures unique in volumes ==> r == Some(volumes[unique])
    ensures unique !in volumes ==> (r.None? <==> !HasVolumeNamed(volumes, unique))
    ensures unique !in volumes && r.Some? ==> r.value in volumes.Values && r.value.name == unique
  {
    r := GetVolumeById(volumes, unique);
    if r.Some? {
      return r;
    }
    r := GetVolumeByName(volumes, unique);
  }

  /** `GetSnapshot`: by id first, then by name. */
  method GetSnapshot(snapshots: map<string, Snapshot>, unique: string) returns (r: Option<Snapshot>)
    ensures unique in snapshots ==> r == Some(snapshots[unique])
    ensures unique !in snapshots ==> (r.None? <==> !HasSnapshotNamed(snapshots, unique))
    ensures unique !in snapshots && r.Some? ==> r.value in snapshots.Values && r.value.name == unique
  {
    r := GetSnapshotById(snapshots, unique);
    if r.Some? {
      return r;
    }
    r := GetSnapshotByName(snapshots, unique);
  }
}
