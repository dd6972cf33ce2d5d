/** The loop-device manager: how the plugin reads `losetup`, `fdisk`,
    `file -s` and `kpartx` output, binds volume files to loop devices,
    sweeps bindings left behind on stale NFS handles, and formats mapper
    devices. The commands run on the node (`Host`); their outputs are
    whatever the node prints. */
module LoopDevice {
  import opened Common
  import opened GoStrings
  import opened Types
  import opened Host

  const ErrDeviceNotFound: string := "device not found"
  const MapperPrefix: string := "/dev/mapper/"
  const LoopPrefix: string := "/dev/"
  const PartitionPrefix: string := "p"
  /** NFS renames a file that is deleted while open to `.nfs<digits>`. */
  const LostMarker: string := "/.nfs"
  /** `/kubernetes/volumes/volume_`: every volume file lies below it. */
  const VolumeFilePrefix: string := KubernetesPath + VolumePath + "/" + VolumePrefix
  /** Slicing `[0:-1]` when a mapper name holds no 'p'. */
  const SliceOutOfRange: string := "panic: runtime error: slice bounds out of range [:-1]"

  // ----- characters of device names

  /** No character of `s` is `c`. */
  predicate Lacks(s: string, c: char) {
    forall k :: 0 <= k < |s| ==> s[k] != c
  }

  /** A kernel loop device name holds no ':', no white space and no '.'. */
  lemma LoopNameChars(dev: string)
    requires IsLoopName(dev)
    ensures forall k :: 0 <= k < |dev| ==> dev[k] != ':' && dev[k] != '.' && !IsSpace(dev[k])
    ensures dev[0] == '/' && IsDigit(dev[|dev| - 1])
    ensures IsAt(dev, "loop", 5)
  {
    assert LoopNamePrefix == ['/', 'd', 'e', 'v', '/', 'l', 'o', 'o', 'p'];
    forall k | 0 <= k < |dev|
      ensures dev[k] != ':' && dev[k] != '.' && !IsSpace(dev[k])
    {
      if k < |LoopNamePrefix| {
        assert dev[k] == LoopNamePrefix[k];
      } else {
        assert IsDigit(dev[k]);
      }
    }
    assert dev[0] == LoopNamePrefix[0];
    assert dev[5..9] == LoopNamePrefix[5..9];
  }

  /** A text without white space at either end is its own `TrimSpace`. */
  lemma TrimSpaceOfTrimmed(s: string)
    requires s != "" && !IsSpace(s[0]) && !IsSpace(s[|s| - 1])
    ensures TrimSpace(s) == s
  {
  }

  // ----- parseLosetupOutputForDevice

  /** The text before the first ':' (all of it when there is none). */
  function BeforeColon(s: string): (r: string)
    ensures HasPrefix(s, r) && Lacks(r, ':')
  {
    var i := Index(s, ":");
    NoCharBefore(s, ':', if i < 0 then |s| else i);
    if i < 0 then s else s[..i]
  }

  /** `parseLosetupOutputForDevice`: the device a `losetup` line starts
      with. */
  function ParseLosetupOutputForDevice(output: string): (r: Result<string>)
    ensures r.Err? ==> r.msg == ErrDeviceNotFound
    ensures output == "" ==> r.Err?
    ensures r.Ok? ==> r.value != "" && !IsSpace(r.value[0]) && !IsSpace(r.value[|r.value| - 1])
  {
    if output == "" then Err(ErrDeviceNotFound)
    else
      var device := TrimSpace(BeforeColon(output));
      if device == "" then Err(ErrDeviceNotFound) else Ok(device)
  }

  /** A loop device followed by ':' is read back before that ':'. */
  lemma DeviceBeforeColon(dev: string, tail: string)
    requires IsLoopName(dev)
    ensures TrimSpace(BeforeColon(dev + ":" + tail)) == dev
  {
    LoopNameChars(dev);
    var s := dev + ":" + tail;
    assert IsAt(s, ":", |dev|);
    forall j | 0 <= j < |dev|
      ensures !IsAt(s, ":", j)
    {
      assert s[j] == dev[j];
    }
    assert Index(s, ":") == |dev|;
    assert s[..|dev|] == dev;
    TrimSpaceOfTrimmed(dev);
  }

  /** The line `losetup -j` prints for a binding parses back to its device,
      whatever follows it. */
  lemma ParseListingLine(dev: string, file: string, rest: string)
    requires IsLoopName(dev)
    ensures ParseLosetupOutputForDevice(ListingLine(dev, file) + rest) == Ok(dev)
  {
    assert ListingLine(dev, file) + rest == dev + ":" + (" [0]:0 (" + file + ")\n" + rest);
    DeviceBeforeColon(dev, " [0]:0 (" + file + ")\n" + rest);
  }

  /** Output that is blank before its first ':' names no device. */
  lemma ParseBlankDevice(blank: string, tail: string)
    requires forall k :: 0 <= k < |blank| ==> IsSpace(blank[k])
    requires Lacks(blank, ':')
    ensures ParseLosetupOutputForDevice(blank + ":" + tail) == Err(ErrDeviceNotFound)
  {
    var s := blank + ":" + tail;
    assert IsAt(s, ":", |blank|);
    forall j | 0 <= j < |blank|
      ensures !IsAt(s, ":", j)
    {
      assert s[j] == blank[j];
    }
    assert Index(s, ":") == |blank|;
    assert s[..|blank|] == blank;
  }

  // ----- ListLoopDeviceByFile, as written

  /** The name `ListLoopDeviceByFile` takes from one ':'-separated segment:
      its first space-separated token without surrounding newlines. */
  function SegmentName(v: string): string {
    Trim(Split(v, " ")[0], "\n")
  }

  /** "loop" occurs in the segment after its first character. */
  predicate NamesLoop(v: string) {
    Index(v, "loop") > 0
  }

  /** The names read from the segments, in order: a segment yields one when
      it `NamesLoop`. */
  function SegmentNames(segments: seq<string>): seq<string> {
    if segments == [] then []
    else (if NamesLoop(segments[0]) then [SegmentName(segments[0])] else []) + SegmentNames(segments[1..])
  }

  /** The device names `ListLoopDeviceByFile` reads from `losetup -j`
      output. */
  function ListedNames(output: string): seq<string> {
    if output == "" then [] else SegmentNames(Split(output, ":"))
  }

  /** The parsing loop of `ListLoopDeviceByFile`. */
  method ParseListedNames(output: string) returns (names: seq<string>)
    ensures names == ListedNames(output)
  {
    names := [];
    if output == "" {
      return;
    }
    names := NamesOfSegments(Split(output, ":"));
  }

  method NamesOfSegments(segments: seq<string>) returns (names: seq<string>)
    ensures names == SegmentNames(segments)
  {
    names := [];
    var i := 0;
    while i < |segments|
      invariant 0 <= i <= |segments|
      invariant names + SegmentNames(segments[i..]) == SegmentNames(segments)
    {
      assert segments[i..][1..] == segments[i + 1..];
      if NamesLoop(segments[i]) {
        names := names + [SegmentName(segments[i])];
      }
      i := i + 1;
    }
    assert segments[i..] == [];
  }

  /** The text `losetup -j` prints between one device name and the next:
      the rest of the line after the second ':'. */
  function LineTail(file: string): string {
    "0 (" + file + ")\n"
  }

  /** The ':'-separated segments of `Listing(devs, file)`: each line's tail
      runs into the next device's name. */
  function ListingSegments(devs: seq<string>, file: string): (r: seq<string>)
    ensures |r| >= 1
    ensures devs != [] ==> r[0] == devs[0]
  {
    if devs == [] then [""]
    else
      var rest := ListingSegments(devs[1..], file);
      [devs[0], " [0]", LineTail(file) + rest[0]] + rest[1..]
  }

  lemma {:induction false} ListingSegmentsJoin(devs: seq<string>, file: string)
    ensures Join(ListingSegments(devs, file), ":") == Listing(devs, file)
  {
    if devs != [] {
      var rest := ListingSegments(devs[1..], file);
      ListingSegmentsJoin(devs[1..], file);
      ListingLineParts(devs[0], file);
      JoinStep(devs[0], " [0]", LineTail(file), rest, ":", ListingLine(devs[0], file));
    }
  }

  /** Joining a line's three segments, the last glued to the next line's
      first, gives the line followed by the join of the next lines. */
  lemma JoinStep(d: string, p: string, tail: string, rest: seq<string>, sep: string, line: string)
    requires |rest| >= 1
    requires line == d + sep + p + sep + tail
    ensures Join([d, p, tail + rest[0]] + rest[1..], sep) == line + Join(rest, sep)
  {
    var more := [tail + rest[0]] + rest[1..];
    var head := d + sep + p + sep;
    JoinPrependFirst(tail, rest, sep);
    assert [d, p, tail + rest[0]] + rest[1..] == [d, p] + more;
    JoinTwoFirst(d, p, more, sep);
    AppendAssoc(head, tail, Join(rest, sep));
  }

  lemma AppendAssoc(x: string, y: string, z: string)
    ensures x + (y + z) == (x + y) + z
  {
  }

  lemma JoinTwoFirst(a: string, b: string, more: seq<string>, sep: string)
    requires |more| >= 1
    ensures Join([a, b] + more, sep) == a + sep + b + sep + Join(more, sep)
  {
    var s := [a, b] + more;
    assert s[1..] == [b] + more;
    assert s[1..][1..] == more;
  }

  lemma ListingLineParts(dev: string, file: string)
    ensures ListingLine(dev, file) == dev + ":" + " [0]" + ":" + LineTail(file)
  {
  }

  lemma {:induction false} ListingSegmentsLackColon(devs: seq<string>, file: string)
    requires forall d :: d in devs ==> IsLoopName(d)
    requires Lacks(file, ':')
    ensures forall k :: 0 <= k < |ListingSegments(devs, file)| ==> !Contains(ListingSegments(devs, file)[k], ":")
  {
    if devs != [] {
      ListingSegmentsLackColon(devs[1..], file);
      var rest := ListingSegments(devs[1..], file);
      var segs := ListingSegments(devs, file);
      LoopNameChars(devs[0]);
      forall k | 0 <= k < |segs|
        ensures !Contains(segs[k], ":")
      {
        ContainsChar(segs[k], ':');
        if k == 2 {
          ContainsChar(rest[0], ':');
          assert segs[2] == LineTail(file) + rest[0];
        } else if k > 2 {
          assert segs[k] == rest[k - 2];
        }
      }
    }
  }

  /** `Split` recovers the segments. */
  lemma ListingSplit(devs: seq<string>, file: string)
    requires forall d :: d in devs ==> IsLoopName(d)
    requires Lacks(file, ':')
    ensures Split(Listing(devs, file), ":") == ListingSegments(devs, file)
  {
    ListingSegmentsJoin(devs, file);
    ListingSegmentsLackColon(devs, file);
    SplitJoin(ListingSegments(devs, file), ':');
  }

  /** A loop device name yields itself as a segment name. */
  lemma LoopNameSegment(dev: string)
    requires IsLoopName(dev)
    ensures NamesLoop(dev) && SegmentName(dev) == dev
  {
    LoopNameChars(dev);
    ContainsChar(dev, ' ');
    SplitWithout(dev, " ");
  }

  /** A line tail whose file has no "loop" in it yields no name. */
  lemma TailWithoutLoop(file: string)
    requires !Contains(file, "loop")
    ensures !NamesLoop(LineTail(file))
  {
    var t := LineTail(file);
    var n := |file|;
    assert t[0] == '0' && t[1] == ' ' && t[2] == '(' && t[3 + n] == ')';
    forall j | 0 <= j <= |t|
      ensures !IsAt(t, "loop", j)
    {
      if IsAt(t, "loop", j) {
        if j < 3 {
          IsAtChar(t, "loop", j, 0);
          assert false;
        } else if j + 4 <= 3 + n {
          LoopWithinFile(file, j);
          assert false;
        } else {
          IsAtChar(t, "loop", j, 3 + n - j);
          assert false;
        }
      }
    }
  }

  lemma LoopWithinFile(file: string, j: nat)
    requires 3 <= j && j + 4 <= 3 + |file| && IsAt(LineTail(file), "loop", j)
    ensures IsAt(file, "loop", j - 3)
  {
    assert LineTail(file)[j..j + 4] == file[j - 3..j + 1];
  }

  /** The segment between a line's two ':' yields no name. */
  lemma BracketsNameNothing()
    ensures !NamesLoop(" [0]")
  {
    var b := " [0]";
    forall j | 0 <= j <= |b|
      ensures !IsAt(b, "loop", j)
    {
      if j == 0 {
        assert b[0] != 'l';
      }
    }
  }

  /** A line tail followed by a loop device yields a name. */
  lemma TailBeforeDevice(file: string, dev: string)
    requires IsLoopName(dev)
    ensures NamesLoop(LineTail(file) + dev)
  {
    LoopNameChars(dev);
    var t := LineTail(file) + dev;
    assert t[|LineTail(file)| + 5..|LineTail(file)| + 9] == dev[5..9];
    assert IsAt(t, "loop", |LineTail(file)| + 5);
    assert !IsAt(t, "loop", 0) by {
      assert t[0] == '0';
    }
  }

  /** When the file's path does not contain "loop", `ListLoopDeviceByFile`
      reads as many names as there are bindings, the first of them right.
      (The later names are the inode numbers ending the previous lines.) */
  lemma {:induction false} ListedNamesCount(devs: seq<string>, file: string)
    requires forall d :: d in devs ==> IsLoopName(d)
    requires Lacks(file, ':') && !Contains(file, "loop")
    ensures |ListedNames(Listing(devs, file))| == |devs|
    ensures devs != [] ==> ListedNames(Listing(devs, file))[0] == devs[0]
  {
    ListingSplit(devs, file);
    SegmentNamesCount(devs, file);
    if devs == [] {
      assert Listing(devs, file) == "";
    } else {
      assert Listing(devs, file) != "" by {
        assert |Listing(devs, file)| >= |ListingLine(devs[0], file)|;
      }
    }
  }

  lemma {:induction false} SegmentNamesCount(devs: seq<string>, file: string)
    requires forall d :: d in devs ==> IsLoopName(d)
    requires !Contains(file, "loop")
    ensures |SegmentNames(ListingSegments(devs, file))| == |devs|
    ensures devs != [] ==> SegmentNames(ListingSegments(devs, file))[0] == devs[0]
  {
    if devs != [] {
      var rest := ListingSegments(devs[1..], file);
      var glued := [LineTail(file) + rest[0]] + rest[1..];
      ListingHeadNames(devs, file);
      SegmentNamesCount(devs[1..], file);
      if devs[1..] == [] {
        GluedLastNames(file, rest);
      } else {
        assert devs[1] in devs;
        GluedNextNames(file, devs[1], rest);
      }
    }
  }

  /** The first line of a listing yields its device, then the names of the
      glued rest. */
  lemma ListingHeadNames(devs: seq<string>, file: string)
    requires devs != [] && IsLoopName(devs[0])
    ensures SegmentNames(ListingSegments(devs, file)) ==
      [devs[0]] + SegmentNames([LineTail(file) + ListingSegments(devs[1..], file)[0]] + ListingSegments(devs[1..], file)[1..])
  {
    var rest := ListingSegments(devs[1..], file);
    var glued := [LineTail(file) + rest[0]] + rest[1..];
    assert ListingSegments(devs, file) == [devs[0]] + ([" [0]"] + glued);
    LoopNameSegment(devs[0]);
    SegmentNamesNamed(devs[0], [" [0]"] + glued);
    BracketsNameNothing();
    SegmentNamesUnnamed(" [0]", glued);
  }

  /** After the last line the glued tail yields nothing. */
  lemma GluedLastNames(file: string, rest: seq<string>)
    requires !Contains(file, "loop")
    requires rest == ListingSegments([], file)
    ensures SegmentNames([LineTail(file) + rest[0]] + rest[1..]) == []
  {
    TailWithoutLoop(file);
    assert rest == [""];
    assert LineTail(file) + rest[0] == LineTail(file);
    SegmentNamesUnnamed(LineTail(file), []);
    assert [LineTail(file) + rest[0]] + rest[1..] == [LineTail(file)] + [];
  }

  /** Before another line the glued tail yields that line's device, as the
      rest does. */
  lemma GluedNextNames(file: string, dev: string, rest: seq<string>)
    requires !Contains(file, "loop") && IsLoopName(dev)
    requires |rest| >= 1 && rest[0] == dev
    ensures |SegmentNames([LineTail(file) + rest[0]] + rest[1..])| == |SegmentNames(rest)|
  {
    TailBeforeDevice(file, dev);
    SegmentNamesNamed(LineTail(file) + dev, rest[1..]);
    assert rest == [dev] + rest[1..];
    LoopNameSegment(dev);
    SegmentNamesNamed(dev, rest[1..]);
  }

  lemma SegmentNamesNamed(v: string, rest: seq<string>)
    requires NamesLoop(v)
    ensures SegmentNames([v] + rest) == [SegmentName(v)] + SegmentNames(rest)
  {
    assert ([v] + rest)[1..] == rest;
  }

  lemma SegmentNamesUnnamed(v: string, rest: seq<string>)
    requires !NamesLoop(v)
    ensures SegmentNames([v] + rest) == SegmentNames(rest)
  {
    assert ([v] + rest)[1..] == rest;
  }

  /** When the file's path does contain "loop", one binding is read as two
      names: the device and the inode number at the end of its line. */
  lemma LoopInFileDoublesName(dev: string, file: string)
    requires IsLoopName(dev)
    requires Lacks(file, ':') && Contains(file, "loop")
    ensures ListedNames(Listing([dev], file)) == [dev, "0"]
  {
    ListingSplit([dev], file);
    var t := LineTail(file);
    assert ListingSegments([dev], file) == [dev, " [0]", t] by {
      assert ListingSegments([dev][1..], file) == [""];
      assert t + "" == t;
    }
    LoopNameSegment(dev);
    BracketsNameNothing();
    TailNamesInode(file);
    ThreeSegmentNames(dev, " [0]", t);
    assert Listing([dev], file) != "" by {
      assert |Listing([dev], file)| >= |ListingLine(dev, file)|;
    }
  }

  lemma ThreeSegmentNames(a: string, b: string, c: string)
    requires NamesLoop(a) && !NamesLoop(b) && NamesLoop(c)
    ensures SegmentNames([a, b, c]) == [SegmentName(a), SegmentName(c)]
  {
    assert [a, b, c] == [a] + [b, c] && [b, c] == [b] + [c] && [c] == [c] + [];
    SegmentNamesNamed(a, [b, c]);
    SegmentNamesUnnamed(b, [c]);
    SegmentNamesNamed(c, []);
    assert SegmentNames([]) == [];
  }

  /** A line tail whose file contains "loop" yields the inode number "0". */
  lemma TailNamesInode(file: string)
    requires Contains(file, "loop")
    ensures NamesLoop(LineTail(file)) && SegmentName(LineTail(file)) == "0"
  {
    var rest := "(" + file + ")\n";
    TailParts(file, rest);
    var t := LineTail(file);
    IsAtWithin("0 (", file, ")\n", "loop", Index(file, "loop"));
    assert !IsAt(t, "loop", 0) by {
      if IsAt(t, "loop", 0) {
        IsAtChar(t, "loop", 0, 0);
      }
    }
    IndexPositive(t, "loop", 3 + Index(file, "loop"));
    InodeSegment(rest);
  }

  lemma TailParts(file: string, rest: string)
    requires rest == "(" + file + ")\n"
    ensures LineTail(file) == "0 (" + file + ")\n" == "0" + [' '] + rest
    ensures LineTail(file)[0] == '0'
  {
  }

  /** The first ' '-separated piece of "0 ..." is "0". */
  lemma InodeSegment(rest: string)
    ensures SegmentName("0" + [' '] + rest) == "0"
  {
    InodePiece("0", rest);
  }

  lemma InodePiece(z: string, rest: string)
    requires z == "0"
    ensures SegmentName(z + [' '] + rest) == z
  {
    FirstPiece(z, rest);
    TrimDigit(z);
  }

  /** A text without ' ' is the first piece of itself, a ' ' and more. */
  lemma FirstPiece(z: string, rest: string)
    requires Lacks(z, ' ')
    ensures Split(z + [' '] + rest, " ")[0] == z
  {
    ContainsChar(z, ' ');
    SplitCons(z, ' ', rest);
  }

  lemma TrimDigit(z: string)
    requires |z| == 1 && IsDigit(z[0])
    ensures Trim(z, "\n") == z
  {
    assert !InCutset(z[0], "\n");
  }

  // ----- reading `losetup -j` line by line

  /** The device of each non-empty line, read before its first ':'. */
  function LineDevices(lines: seq<string>): seq<string> {
    if lines == [] then []
    else (if lines[0] == "" then [] else [TrimSpace(BeforeColon(lines[0]))]) + LineDevices(lines[1..])
  }

  /** The devices `losetup -j` output names, one per line. */
  function BoundDevices(output: string): seq<string> {
    LineDevices(Split(output, "\n"))
  }

  /** The lines of `Listing(devs, file)` without their newlines, and the
      empty text after the last one. */
  function ListingLines(devs: seq<string>, file: string): (r: seq<string>)
    ensures |r| == |devs| + 1
  {
    if devs == [] then [""]
    else [devs[0] + ": [0]:0 (" + file + ")"] + ListingLines(devs[1..], file)
  }

  lemma {:induction false} ListingLinesSplit(devs: seq<string>, file: string)
    requires forall d :: d in devs ==> IsLoopName(d)
    requires Lacks(file, '\n')
    ensures Split(Listing(devs, file), "\n") == ListingLines(devs, file)
  {
    ListingLinesJoin(devs, file);
    var lines := ListingLines(devs, file);
    forall k | 0 <= k < |lines|
      ensures !Contains(lines[k], "\n")
    {
      ContainsChar(lines[k], '\n');
      ListingLineChars(devs, file, k);
    }
    SplitJoin(lines, '\n');
  }

  lemma {:induction false} ListingLinesJoin(devs: seq<string>, file: string)
    ensures Join(ListingLines(devs, file), "\n") == Listing(devs, file)
  {
    if devs != [] {
      ListingLinesJoin(devs[1..], file);
      var lines := ListingLines(devs, file);
      assert lines[1..] == ListingLines(devs[1..], file);
    }
  }

  lemma {:induction false} ListingLineChars(devs: seq<string>, file: string, k: nat)
    requires forall d :: d in devs ==> IsLoopName(d)
    requires Lacks(file, '\n')
    requires k < |ListingLines(devs, file)|
    ensures Lacks(ListingLines(devs, file)[k], '\n')
  {
    if devs != [] {
      if k == 0 {
        LoopNameChars(devs[0]);
      } else {
        ListingLineChars(devs[1..], file, k - 1);
      }
    }
  }

  lemma {:induction false} LineDevicesOfListing(devs: seq<string>, file: string)
    requires forall d :: d in devs ==> IsLoopName(d)
    ensures LineDevices(ListingLines(devs, file)) == devs
  {
    if devs == [] {
      assert ListingLines(devs, file) == [""];
      LineDevicesEmpty([]);
    } else {
      var rest := ListingLines(devs[1..], file);
      LineDevicesOfListing(devs[1..], file);
      var tail := " [0]:0 (" + file + ")";
      ListingLineColon(devs[0], file, tail);
      assert ListingLines(devs, file) == [devs[0] + ":" + tail] + rest;
      assert devs[0] in devs;
      LineDevicesStep(devs[0], tail, rest);
      assert devs == [devs[0]] + devs[1..];
    }
  }

  lemma ListingLineColon(dev: string, file: string, tail: string)
    requires tail == " [0]:0 (" + file + ")"
    ensures dev + ": [0]:0 (" + file + ")" == dev + ":" + tail
  {
  }

  lemma LineDevicesStep(dev: string, tail: string, rest: seq<string>)
    requires IsLoopName(dev)
    ensures LineDevices([dev + ":" + tail] + rest) == [dev] + LineDevices(rest)
  {
    DeviceBeforeColon(dev, tail);
    LineDevicesCons(dev + ":" + tail, rest);
  }

  lemma LineDevicesCons(line: string, rest: seq<string>)
    requires line != ""
    ensures LineDevices([line] + rest) == [TrimSpace(BeforeColon(line))] + LineDevices(rest)
  {
    assert ([line] + rest)[1..] == rest;
  }

  lemma LineDevicesEmpty(rest: seq<string>)
    ensures LineDevices([""] + rest) == LineDevices(rest)
  {
    assert ([""] + rest)[1..] == rest;
  }

  /** Read line by line, the output of `losetup -j` names exactly the
      devices bound to the file, in order. */
  lemma BoundDevicesOfListing(devs: seq<string>, file: string)
    requires forall d :: d in devs ==> IsLoopName(d)
    requires Lacks(file, '\n')
    ensures BoundDevices(Listing(devs, file)) == devs
  {
    ListingLinesSplit(devs, file);
    LineDevicesOfListing(devs, file);
  }

  // ----- DetachLostLoopDevice: choosing the lost devices

  /** The lost marker occurs after the first character: NFS renames a file
      that is deleted while still open to `.nfs…` in the same directory. */
  predicate HasLostMarker(s: string) {
    Index(s, LostMarker) > 0
  }

  /** A `losetup -l` line the sweep selects: it mentions a volume file and
      carries the lost marker. */
  predicate LostLine(line: string) {
    MentionsVolumeFile(line) && HasLostMarker(line)
  }

  /** The line mentions a volume file. */
  predicate MentionsVolumeFile(line: string) {
    Index(line, VolumeFilePrefix) >= 0
  }

  /** The space-separated tokens of a line. */
  function Tokens(line: string): (r: seq<string>)
    ensures |r| >= 1
  {
    Split(line, " ")
  }

  /** The entries after the space-separated tokens of a selected line
      starting with `dev` are visited in order: each token carrying the
      marker becomes the device's file. */
  function MarkTokens(lost: map<string, string>, dev: string, tokens: seq<string>): map<string, string> {
    if tokens == [] then lost
    else
      var m := MarkTokens(lost, dev, tokens[..|tokens| - 1]);
      var t := tokens[|tokens| - 1];
      if HasLostMarker(t) then m[dev := t] else m
  }

  /** The lost devices found in `lines`, visited in order (later entries
      replace earlier ones). */
  function LostOf(lines: seq<string>): map<string, string> {
    if lines == [] then map[]
    else
      var m := LostOf(lines[..|lines| - 1]);
      var line := lines[|lines| - 1];
      if LostLine(line) then
        var info := Tokens(line);
        MarkTokens(m, info[0], info)
      else m
  }

  /** The map `DetachLostLoopDevice` builds from the `losetup -l` output:
      lost device -> lost backing file. */
  function LostDevices(output: string): map<string, string> {
    LostOf(Split(output, "\n"))
  }

  /** The selection loops of `DetachLostLoopDevice`. */
  method SelectLostDevices(output: string) returns (lost: map<string, string>)
    ensures lost == LostDevices(output)
  {
    lost := SelectLostLines(Split(output, "\n"));
  }

  /** The outer loop, over the lines of the listing. */
  method SelectLostLines(lines: seq<string>) returns (lost: map<string, string>)
    ensures lost == LostOf(lines)
  {
    lost := map[];
    var i := 0;
    while i < |lines|
      invariant 0 <= i <= |lines|
      invariant lost == LostOf(lines[..i])
    {
      var line := lines[i];
      assert lines[..i + 1][..i] == lines[..i];
      if MentionsVolumeFile(line) && HasLostMarker(line) {
        lost := MarkLine(lost, Tokens(line));
      }
      i := i + 1;
    }
    assert lines[..i] == lines;
  }

  /** The inner loop, over the tokens of one selected line. */
  method MarkLine(before: map<string, string>, info: seq<string>) returns (lost: map<string, string>)
    requires |info| >= 1
    ensures lost == MarkTokens(before, info[0], info)
  {
    lost := before;
    var j := 0;
    while j < |info|
      invariant 0 <= j <= |info|
      invariant lost == MarkTokens(before, info[0], info[..j])
    {
      assert info[..j + 1][..j] == info[..j];
      if HasLostMarker(info[j]) {
        lost := lost[info[0] := info[j]];
      }
      j := j + 1;
    }
    assert info[..j] == info;
  }

  /** `file` is a marked token of a selected line that starts with `dev`. */
  ghost predicate ListsLost(lines: seq<string>, dev: string, file: string) {
    exists k :: 0 <= k < |lines| && LostLine(lines[k]) && Tokens(lines[k])[0] == dev
      && file in Tokens(lines[k]) && HasLostMarker(file)
  }

  /** Marking keeps every entry but the device's own, and gives the device
      a marked token of the line whenever the line has one. */
  lemma {:induction false} MarkTokensEntries(lost: map<string, string>, dev: string, tokens: seq<string>)
    ensures lost.Keys <= MarkTokens(lost, dev, tokens).Keys
    ensures forall d :: d in MarkTokens(lost, dev, tokens) && d != dev ==> d in lost && MarkTokens(lost, dev, tokens)[d] == lost[d]
    ensures dev in MarkTokens(lost, dev, tokens) && (dev !in lost || MarkTokens(lost, dev, tokens)[dev] != lost[dev]) ==>
      MarkTokens(lost, dev, tokens)[dev] in tokens && HasLostMarker(MarkTokens(lost, dev, tokens)[dev])
    ensures (exists t :: t in tokens && HasLostMarker(t)) ==> dev in MarkTokens(lost, dev, tokens)
  {
    if tokens != [] {
      var init := tokens[..|tokens| - 1];
      MarkTokensEntries(lost, dev, init);
      assert tokens == init + [tokens[|tokens| - 1]];
    }
  }

  /** Every entry of the map comes from a selected line: the device is the
      line's first token and the file one of its marked tokens. */
  lemma {:induction false} LostOfSound(lines: seq<string>, dev: string)
    requires dev in LostOf(lines)
    ensures ListsLost(lines, dev, LostOf(lines)[dev])
  {
    var init := lines[..|lines| - 1];
    var line := lines[|lines| - 1];
    var m := LostOf(init);
    var f := LostOf(lines)[dev];
    if LostLine(line) && dev == Tokens(line)[0] && (dev !in m || f != m[dev]) {
      MarkTokensNew(m, dev, Tokens(line));
      LostLineListed(lines, |lines| - 1, dev, f);
    } else {
      if LostLine(line) {
        MarkTokensOld(m, Tokens(line)[0], Tokens(line), dev);
      }
      LostOfSound(init, dev);
      var k :| 0 <= k < |init| && LostLine(init[k]) && Tokens(init[k])[0] == dev
        && f in Tokens(init[k]) && HasLostMarker(f);
      LostLineListed(lines, k, dev, f);
    }
  }

  lemma LostLineListed(lines: seq<string>, k: nat, dev: string, f: string)
    requires k < |lines| && LostLine(lines[k]) && Tokens(lines[k])[0] == dev
    requires f in Tokens(lines[k]) && HasLostMarker(f)
    ensures ListsLost(lines, dev, f)
  {
  }

  lemma MarkTokensNew(lost: map<string, string>, dev: string, tokens: seq<string>)
    requires dev in MarkTokens(lost, dev, tokens)
    requires dev !in lost || MarkTokens(lost, dev, tokens)[dev] != lost[dev]
    ensures MarkTokens(lost, dev, tokens)[dev] in tokens && HasLostMarker(MarkTokens(lost, dev, tokens)[dev])
  {
    MarkTokensEntries(lost, dev, tokens);
  }

  lemma MarkTokensOld(lost: map<string, string>, dev: string, tokens: seq<string>, d: string)
    requires d in MarkTokens(lost, dev, tokens)
    requires d != dev || (d in lost && MarkTokens(lost, dev, tokens)[d] == lost[d])
    ensures d in lost && MarkTokens(lost, dev, tokens)[d] == lost[d]
  {
    MarkTokensEntries(lost, dev, tokens);
  }

  /** A selected line with a marked token has its device in the map. */
  lemma {:induction false} LostOfComplete(lines: seq<string>, k: nat, t: string)
    requires k < |lines| && LostLine(lines[k])
    requires t in Tokens(lines[k]) && HasLostMarker(t)
    ensures Tokens(lines[k])[0] in LostOf(lines)
  {
    var init := lines[..|lines| - 1];
    var line := lines[|lines| - 1];
    var m := LostOf(init);
    if LostLine(line) {
      MarkTokensEntries(m, Tokens(line)[0], Tokens(line));
    }
    if k < |init| {
      assert lines[k] == init[k];
      LostOfComplete(init, k, t);
    }
  }

  // ----- DetachLostLoopDevice: the sweep

  /** `order` lists each element of `keys` once. */
  ghost predicate Arranges(order: seq<string>, keys: set<string>) {
    (forall i, j :: 0 <= i < j < |order| ==> order[i] != order[j])
    && (forall x :: x in order <==> x in keys)
  }

  /** The elements of `order` that belong to `s`, in order. */
  function Kept(order: seq<string>, s: set<string>): (r: seq<string>)
    ensures forall x :: x in r <==> x in order && x in s
  {
    if order == [] then []
    else Kept(order[..|order| - 1], s) + (if order[|order| - 1] in s then [order[|order| - 1]] else [])
  }

  /** The requests the sweep makes for one lost device: a detach and, when
      that succeeded, the removal of the lost file. */
  function DeviceSteps(dev: string, file: string, detached: bool, cleared: bool): seq<HostEvent> {
    [HostEvent(Losetup(["-d", dev]), detached)] + (if detached then [HostEvent(Remove(file), cleared)] else [])
  }

  /** The requests of a sweep over the lost devices in `order`, of which
      those in `detached` were unbound and those in `cleared` lost their
      file as well. */
  function SweepLog(order: seq<string>, lost: map<string, string>, detached: set<string>, cleared: set<string>): seq<HostEvent>
    requires forall x :: x in order ==> x in lost
  {
    if order == [] then []
    else
      var d := order[|order| - 1];
      SweepLog(order[..|order| - 1], lost, detached, cleared) + DeviceSteps(d, lost[d], d in detached, d in cleared)
  }

  lemma {:induction false} KeptFrame(order: seq<string>, s: set<string>, t: set<string>)
    requires forall x :: x in order ==> (x in s <==> x in t)
    ensures Kept(order, s) == Kept(order, t)
  {
    if order != [] {
      KeptFrame(order[..|order| - 1], s, t);
    }
  }

  lemma {:induction false} SweepLogFrame(order: seq<string>, lost: map<string, string>, detached: set<string>, cleared: set<string>, detached': set<string>, cleared': set<string>)
    requires forall x :: x in order ==> x in lost
    requires forall x :: x in order ==> (x in detached <==> x in detached') && (x in cleared <==> x in cleared')
    ensures SweepLog(order, lost, detached, cleared) == SweepLog(order, lost, detached', cleared')
  {
    if order != [] {
      SweepLogFrame(order[..|order| - 1], lost, detached, cleared, detached', cleared');
    }
  }

  /** When `s` and `t` split the elements of `order`, the two kept lists
      together are as long as `order`. */
  lemma {:induction false} KeptLengths(order: seq<string>, s: set<string>, t: set<string>)
    requires forall x :: x in order ==> (x in s <==> x !in t)
    ensures |Kept(order, s)| + |Kept(order, t)| == |order|
  {
    if order != [] {
      KeptLengths(order[..|order| - 1], s, t);
    }
  }

  /** Keeping part of a list without repeats gives a list without repeats. */
  lemma {:induction false} KeptDistinct(order: seq<string>, s: set<string>)
    requires forall i, j :: 0 <= i < j < |order| ==> order[i] != order[j]
    ensures forall i, j :: 0 <= i < j < |Kept(order, s)| ==> Kept(order, s)[i] != Kept(order, s)[j]
  {
    if order != [] {
      var init := order[..|order| - 1];
      var last := order[|order| - 1];
      KeptDistinct(init, s);
      forall i | 0 <= i < |init|
        ensures init[i] != last
      {
        assert init[i] == order[i];
      }
    }
  }

  /** A list that arranges a set is as long as the set is large. */
  lemma {:induction false} ArrangesSize(order: seq<string>, keys: set<string>)
    requires Arranges(order, keys)
    ensures |order| == |keys|
  {
    if order == [] {
      assert forall x :: x !in keys;
    } else {
      var init := order[..|order| - 1];
      var last := order[|order| - 1];
      forall x
        ensures x in init <==> x in keys - {last}
      {
        if x in init {
          var i :| 0 <= i < |init| && init[i] == x;
          assert order[i] == x;
        }
        if x in keys - {last} {
          var i :| 0 <= i < |order| && order[i] == x;
          assert init[i] == x;
        }
      }
      ArrangesSize(init, keys - {last});
    }
  }

  /** The elements of `order` that are kept by `s` and by its complement
      partition `order`: each element is in exactly one of the two lists,
      and neither list repeats an element. */
  lemma KeptPartition(order: seq<string>, keys: set<string>, s: set<string>)
    requires Arranges(order, keys)
    ensures |Kept(order, s)| + |Kept(order, keys - s)| == |order| == |keys|
    ensures forall x :: x in keys ==> (x in Kept(order, s) <==> x !in Kept(order, keys - s))
    ensures forall i, j :: 0 <= i < j < |Kept(order, s)| ==> Kept(order, s)[i] != Kept(order, s)[j]
  {
    KeptLengths(order, s, keys - s);
    KeptDistinct(order, s);
    ArrangesSize(order, keys);
  }

  /** Every removal in a sweep is of the file of a device the sweep
      detached, and every lost device is asked to detach. */
  lemma {:induction false} SweepLogRequests(order: seq<string>, lost: map<string, string>, detached: set<string>, cleared: set<string>)
    requires forall x :: x in order ==> x in lost
    ensures forall e :: e in SweepLog(order, lost, detached, cleared) && e.call.Remove? ==>
      exists d :: d in order && d in detached && e.call.path == lost[d]
    ensures forall d :: d in order ==> HostEvent(Losetup(["-d", d]), d in detached) in SweepLog(order, lost, detached, cleared)
  {
    if order != [] {
      var init := order[..|order| - 1];
      var d := order[|order| - 1];
      SweepLogRequests(init, lost, detached, cleared);
      forall x | x in order
        ensures HostEvent(Losetup(["-d", x]), x in detached) in SweepLog(order, lost, detached, cleared)
      {
        if x != d {
          assert x in init;
        }
      }
      forall e | e in SweepLog(order, lost, detached, cleared) && e.call.Remove?
        ensures exists x :: x in order && x in detached && e.call.path == lost[x]
      {
        if e in SweepLog(init, lost, detached, cleared) {
          var x :| x in init && x in detached && e.call.path == lost[x];
          assert x in order;
        } else {
          assert d in order;
        }
      }
    }
  }

  /** The lost-device sweep of the node plugin and the lookups it shares
      with the node server. The node it acts on is `host`. */
  class LoopDeviceManager {
    const host: Host

    constructor(host: Host)
      ensures this.host == host
    {
      this.host := host;
    }

    /** One pass of `DetachLostLoopDevice`. The pass reports nothing to its
        caller; the listing, the lost map, the two key lists and the error
        message it logs are returned here so that the contract can speak of
        them. Map iteration order is `order`. */
    method DetachLostLoopDevice() returns (listing: Result<string>, lost: map<string, string>,
                                           succeeded: seq<string>, failed: seq<string>, errMessage: string,
                                           ghost order: seq<string>, ghost detached: set<string>, ghost cleared: set<string>)
      requires host.Valid()
      modifies host
      ensures host.Valid()
      ensures listing.Err? ==> lost == map[] && host.loops == old(host.loops)
      ensures listing.Ok? ==> lost == LostDevices(listing.value)
      ensures Arranges(order, lost.Keys)
      ensures forall x :: x in order ==> x in lost
      ensures host.log == old(host.log) + [HostEvent(Losetup(["-l"]), listing.Ok?)] + SweepLog(order, lost, detached, cleared)
      ensures cleared <= detached <= lost.Keys && detached <= old(host.loops).Keys
      ensures host.loops == old(host.loops) - detached
      ensures succeeded == Kept(order, cleared)
      ensures failed == Kept(order, lost.Keys - cleared)
      ensures errMessage == "" <==> failed == []
    {
      succeeded, failed, errMessage := [], [], "";
      order, detached, cleared := [], {}, {};
      listing := host.LosetupList();
      if listing.Err? {
        lost := map[];
        return;
      }
      lost := SelectLostDevices(listing.value);
      succeeded, failed, errMessage, order, detached, cleared := SweepLost(lost);
    }

    /** The loop of `DetachLostLoopDevice` over the lost devices, visited in
        the order `order`: every device is processed whatever happened to
        the others. */
    method SweepLost(lost: map<string, string>) returns (succeeded: seq<string>, failed: seq<string>, errMessage: string,
                                                        ghost order: seq<string>, ghost detached: set<string>, ghost cleared: set<string>)
      requires host.Valid()
      modifies host
      ensures host.Valid()
      ensures Arranges(order, lost.Keys)
      ensures forall x :: x in order ==> x in lost
      ensures host.log == old(host.log) + SweepLog(order, lost, detached, cleared)
      ensures cleared <= detached <= lost.Keys && detached <= old(host.loops).Keys
      ensures host.loops == old(host.loops) - detached
      ensures succeeded == Kept(order, cleared)
      ensures failed == Kept(order, lost.Keys - cleared)
      ensures errMessage == "" <==> failed == []
    {
      succeeded, failed, errMessage := [], [], "";
      order, detached, cleared := [], {}, {};
      var remaining := lost.Keys;
      while remaining != {}
        invariant host.Valid()
        invariant Swept(lost, remaining, order, detached, cleared, old(host.loops), host.loops, old(host.log), host.log,
                        succeeded, failed, errMessage)
        decreases |remaining|
      {
        var dev :| dev in remaining;
        ghost var loops1, log1 := host.loops, host.log;
        var wasDetached, wasCleared, msg := DetachOne(dev, lost[dev]);
        SweepAdvance(lost, remaining, order, detached, cleared, old(host.loops), loops1, old(host.log), log1,
                     succeeded, failed, errMessage, dev, wasDetached, wasCleared, msg, host.loops, host.log);
        if wasDetached {
          detached := detached + {dev};
        }
        if wasCleared {
          cleared := cleared + {dev};
          succeeded := succeeded + [dev];
        } else {
          errMessage := errMessage + msg;
          failed := failed + [dev];
        }
        order := order + [dev];
        remaining := remaining - {dev};
      }
    }

    /** The body of the sweep for one lost device: detach it and, once
        detached, remove its file; a file that is already gone counts as
        removed. `msg` is what the failure adds to the error message. */
    method DetachOne(dev: string, file: string) returns (wasDetached: bool, wasCleared: bool, msg: string)
      requires host.Valid()
      modifies host
      ensures host.Valid()
      ensures host.log == old(host.log) + DeviceSteps(dev, file, wasDetached, wasCleared)
      ensures wasCleared ==> wasDetached
      ensures wasDetached ==> dev in old(host.loops) && host.loops == old(host.loops) - {dev}
      ensures !wasDetached ==> host.loops == old(host.loops)
      ensures wasCleared <==> msg == ""
    {
      wasCleared := false;
      var err := host.LosetupDetach(dev);
      if err.Some? {
        wasDetached := false;
        msg := "failed to datach lost loop device " + dev + " err: " + err.value + "\n";
        return;
      }
      wasDetached := true;
      var outcome := host.DeleteFile(file);
      if outcome.RemoveFailed? {
        msg := "failed to delete file " + file + " err: " + outcome.msg + "\n";
      } else {
        wasCleared := true;
        msg := "";
      }
    }
    // ----- binding and unbinding

    /** `GetFreeLoopDevice`: the device `losetup -f` names, without
        surrounding newlines. */
    method GetFreeLoopDevice() returns (r: Result<string>, ghost printed: Result<string>)
      modifies host
      ensures host.loops == old(host.loops)
      ensures host.log == old(host.log) + [HostEvent(Losetup(["-f"]), printed.Ok?)]
      ensures printed.Ok? <==> r.Ok?
      ensures r.Ok? ==> r.value == Trim(printed.value, "\n")
    {
      var out := host.LosetupFree();
      printed := out;
      if out.Err? {
        return Err("GetFreeLoopDevice output:  error: " + out.msg), printed;
      }
      r := Ok(Trim(out.value, "\n"));
    }

    /** `AttachLoopDevice`: `losetup <device> <file>`. */
    method AttachLoopDevice(loopDevice: string, volumeFile: string) returns (err: Option<string>)
      requires host.Valid()
      modifies host
      ensures host.Valid()
      ensures host.log == old(host.log) + [HostEvent(Losetup([loopDevice, volumeFile]), err.None?)]
      ensures err.None? ==> loopDevice !in old(host.loops) && host.loops == old(host.loops)[loopDevice := volumeFile]
      ensures err.Some? ==> host.loops == old(host.loops)
    {
      var e := host.LosetupAttach(loopDevice, volumeFile);
      if e.Some? {
        return Some("AttachLoopDevice output:  error: " + e.value);
      }
      err := None;
    }

    /** `DetachLoopDevice`: `losetup -d <device>`. */
    method DetachLoopDevice(loopDevice: string) returns (err: Option<string>)
      requires host.Valid()
      modifies host
      ensures host.Valid()
      ensures host.log == old(host.log) + [HostEvent(Losetup(["-d", loopDevice]), err.None?)]
      ensures err.None? ==> loopDevice in old(host.loops) && host.loops == old(host.loops) - {loopDevice}
      ensures err.Some? ==> host.loops == old(host.loops)
    {
      var e := host.LosetupDetach(loopDevice);
      if e.Some? {
        return Some("DetachLoopDevice output:  error: " + e.value);
      }
      err := None;
    }

    /** `ListLoopDeviceByFile`: the names read from `losetup -j <file>`.
        `devs` are the devices bound to the file, in the order the command
        prints them. When the file's path holds no ':' and no "loop", one
        name is read per binding and the first is the first device. */
    method ListLoopDeviceByFile(volumeFile: string) returns (r: Result<seq<string>>, ghost devs: seq<string>)
      requires host.Valid()
      modifies host
      ensures host.loops == old(host.loops)
      ensures host.log == old(host.log) + [HostEvent(Losetup(["-j", volumeFile]), r.Ok?)]
      ensures Enumerates(devs, host.loops, volumeFile)
      ensures r.Ok? ==> r.value == ListedNames(Listing(devs, volumeFile))
      ensures r.Ok? && Lacks(volumeFile, ':') && !Contains(volumeFile, "loop") ==>
        |r.value| == |devs| && (devs != [] ==> r.value[0] == devs[0])
    {
      var printed;
      printed, devs := host.LosetupByFile(volumeFile);
      if printed.Err? {
        return Err("ListLoopDeviceByFile output:  error: " + printed.msg), devs;
      }
      var names := ParseListedNames(printed.value);
      r := Ok(names);
      if Lacks(volumeFile, ':') && !Contains(volumeFile, "loop") {
        ListedNamesCount(devs, volumeFile);
      }
    }

    /** `DetachLostLoopDeviceByVolumeId`: detaches the device of the first
        `losetup -l` line that names the volume; with no such line nothing
        is detached and the call succeeds. The listing and the chosen
        device are returned so that the contract can speak of them. */
    method DetachLostLoopDeviceByVolumeId(volumeId: string) returns (err: Option<string>, listing: Result<string>, device: string)
      requires host.Valid()
      modifies host
      ensures host.Valid()
      ensures listing.Ok? ==> device == VolumeDevice(listing.value, volumeId)
      ensures listing.Err? ==> device == "" && err.Some?
      ensures device == "" ==> host.loops == old(host.loops) && (listing.Ok? ==> err.None?)
      ensures host.log == old(host.log) + [HostEvent(Losetup(["-l"]), listing.Ok?)]
        + (if device != "" then [HostEvent(Losetup(["-d", device]), err.None?)] else [])
      ensures device != "" && err.None? ==> device in old(host.loops) && host.loops == old(host.loops) - {device}
      ensures device != "" && err.Some? ==> host.loops == old(host.loops)
    {
      device := "";
      listing := host.LosetupList();
      if listing.Err? {
        return Some("AttachLoopDevice output:  error: " + listing.msg), listing, device;
      }
      device := FindVolumeDevice(listing.value, volumeId);
      if device == "" {
        return None, listing, device;
      }
      err := DetachLoopDevice(device);
    }

    // ----- partitions and file systems

    /** `GetDevicePartition`: the partition read from `fdisk -l`. */
    method GetDevicePartition(loopDevice: string) returns (r: Result<string>, ghost printed: Result<string>)
      modifies host
      ensures host.loops == old(host.loops)
      ensures host.log == old(host.log) + [HostEvent(Run(FdiskListCommand(loopDevice)), printed.Ok?)]
      ensures printed.Ok? <==> r.Ok?
      ensures r.Ok? ==> r.value == PartitionOf(printed.value)
    {
      var out := host.RunForOutput(FdiskListCommand(loopDevice));
      printed := out;
      if out.Err? {
        return Err("GetDevicePartition  output:  error: " + out.msg), printed;
      }
      r := Ok(PartitionOf(out.value));
    }

    /** `GetFsType`: the file system `file -s` reports, "" when it is
        none of ext3, ext4 and xfs. */
    method GetFsType(device: string) returns (r: Result<string>, ghost printed: Result<string>)
      modifies host
      ensures host.loops == old(host.loops)
      ensures host.log == old(host.log) + [HostEvent(Run(FileCommand(device)), printed.Ok?)]
      ensures printed.Ok? <==> r.Ok?
      ensures r.Ok? ==> r.value == FsTypeOf(printed.value)
    {
      var out := host.RunForOutput(FileCommand(device));
      printed := out;
      if out.Err? {
        return Err("GetFsType  output:  error: " + out.msg), printed;
      }
      r := Ok(FsTypeOf(out.value));
    }

    /** `SetFsType`: runs the `mkfs` command for the type; any other type is
        refused without running anything. */
    method SetFsType(device: string, fsType: string) returns (err: Option<string>)
      modifies host
      ensures host.loops == old(host.loops)
      ensures MkfsCommand(fsType, device).None? ==> err == Some("invalid fstype " + fsType) && host.log == old(host.log)
      ensures MkfsCommand(fsType, device).Some? ==>
        host.log == old(host.log) + [HostEvent(Run(MkfsCommand(fsType, device).value), err.None?)]
    {
      var command := MkfsCommand(fsType, device);
      if command.None? {
        return Some("invalid fstype " + fsType);
      }
      var e := host.RunForStatus(command.value);
      if e.Some? {
        return Some("SetFsType  output:  error: " + e.value);
      }
      err := None;
    }

    /** `EnsureFsType`: formats the device exactly when the file system it
        carries differs from the one asked for. */
    method EnsureFsType(device: string, fsType: string) returns (err: Option<string>, ghost current: Result<string>)
      modifies host
      ensures host.loops == old(host.loops)
      ensures |host.log| > |old(host.log)|
      ensures host.log[..|old(host.log)| + 1] == old(host.log) + [HostEvent(Run(FileCommand(device)), current.Ok?)]
      ensures current.Err? ==> err.Some? && |host.log| == |old(host.log)| + 1
      ensures current.Ok? && current.value == fsType ==> err.None? && |host.log| == |old(host.log)| + 1
      ensures current.Ok? && current.value != fsType && MkfsCommand(fsType, device).None? ==>
        err == Some("invalid fstype " + fsType) && |host.log| == |old(host.log)| + 1
      ensures current.Ok? && current.value != fsType && MkfsCommand(fsType, device).Some? ==>
        host.log == old(host.log) + [HostEvent(Run(FileCommand(device)), true),
                                     HostEvent(Run(MkfsCommand(fsType, device).value), err.None?)]
    {
      ghost var printed;
      var fs;
      fs, printed := GetFsType(device);
      current := fs;
      ghost var afterQuery := host.log;
      assert afterQuery[..|old(host.log)| + 1] == afterQuery;
      if fs.Err? {
        return Some(fs.msg), current;
      }
      if fs.value == fsType {
        return None, current;
      }
      err := SetFsType(device, fsType);
    }

    /** `CheckPathDeviceType`: the path is of the expected kind. */
    method CheckPathDeviceType(path: string, expected: DeviceType) returns (err: Option<string>, ghost found: Result<DeviceType>)
      modifies host
      ensures host.loops == old(host.loops)
      ensures host.log == old(host.log) + [HostEvent(Stat(path), found.Ok?)]
      ensures err.None? <==> found == Ok(expected)
      ensures found.Err? ==> err == Some(found.msg)
    {
      var kind := host.PathDeviceType(path);
      found := kind;
      if kind.Err? {
        return Some(kind.msg), found;
      }
      if kind.value != expected {
        return Some("the device type of path " + path + " is not the expected one"), found;
      }
      err := None;
    }

    /** `GetLoopDeviceByMapperDevice`: derives the loop device from the
        mapper name and accepts it only when `kpartx` lists that mapper
        name first for it. */
    method GetLoopDeviceByMapperDevice(mapperDevice: string) returns (r: Result<string>, ghost printed: Result<string>)
      modifies host
      ensures host.loops == old(host.loops)
      ensures LoopNameOfMapper(mapperDevice).Err? ==> r == LoopNameOfMapper(mapperDevice) && host.log == old(host.log)
      ensures LoopNameOfMapper(mapperDevice).Ok? ==>
        host.log == old(host.log) + [HostEvent(Run(KpartxListCommand(LoopNameOfMapper(mapperDevice).value)), printed.Ok?)]
      ensures r.Ok? <==> LoopNameOfMapper(mapperDevice).Ok? && printed.Ok? && FirstMapperName(printed.value) == MapperName(mapperDevice)
      ensures r.Ok? ==> r == LoopNameOfMapper(mapperDevice)
    {
      printed := Err("");
      var loopDevice := LoopNameOfMapper(mapperDevice);
      if loopDevice.Err? {
        return loopDevice, printed;
      }
      var out := host.RunForOutput(KpartxListCommand(loopDevice.value));
      printed := out;
      if out.Err? {
        return Err("ListDevmapping  output:  error: " + out.msg), printed;
      }
      if FirstMapperName(out.value) != MapperName(mapperDevice) {
        return Err("rpc error: code = Internal desc = failed to get loop device by mapper Device " + mapperDevice), printed;
      }
      r := loopDevice;
    }
  }

  /** Taking one more element out of `remaining` extends the arrangement
      of the elements already taken. */
  lemma ArrangesStep(order: seq<string>, keys: set<string>, remaining: set<string>, dev: string)
    requires Arranges(order, keys - remaining) && dev in remaining && remaining <= keys
    ensures Arranges(order + [dev], keys - (remaining - {dev}))
  {
    var order' := order + [dev];
    forall i, j | 0 <= i < j < |order'|
      ensures order'[i] != order'[j]
    {
      if j == |order| {
        assert order'[i] == order[i] && order[i] in order;
      } else {
        assert order'[i] == order[i] && order'[j] == order[j];
      }
    }
    forall x
      ensures x in order' <==> x in keys - (remaining - {dev})
    {
      assert x in order' <==> x in order || x == dev;
    }
  }

  /** The state of the sweep once the devices of `order` are processed and
      those of `remaining` are still to come: the node's loop table and
      request log went from `loops0`, `log0` to `loops`, `log`. */
  ghost predicate Swept(lost: map<string, string>, remaining: set<string>, order: seq<string>,
                        detached: set<string>, cleared: set<string>,
                        loops0: map<string, string>, loops: map<string, string>,
                        log0: seq<HostEvent>, log: seq<HostEvent>,
                        succeeded: seq<string>, failed: seq<string>, errMessage: string)
  {
    remaining <= lost.Keys
    && Arranges(order, lost.Keys - remaining)
    && (forall x :: x in order ==> x in lost)
    && cleared <= detached <= lost.Keys - remaining && detached <= loops0.Keys
    && loops == loops0 - detached
    && log == log0 + SweepLog(order, lost, detached, cleared)
    && succeeded == Kept(order, cleared)
    && failed == Kept(order, lost.Keys - cleared)
    && (errMessage == "" <==> failed == [])
  }

  /** Processing one more lost device keeps `Swept`. */
  lemma SweepAdvance(lost: map<string, string>, remaining: set<string>, order: seq<string>,
                     detached: set<string>, cleared: set<string>,
                     loops0: map<string, string>, loops: map<string, string>,
                     log0: seq<HostEvent>, log: seq<HostEvent>,
                     succeeded: seq<string>, failed: seq<string>, errMessage: string,
                     dev: string, wasDetached: bool, wasCleared: bool, msg: string,
                     loops': map<string, string>, log': seq<HostEvent>)
    requires Swept(lost, remaining, order, detached, cleared, loops0, loops, log0, log, succeeded, failed, errMessage)
    requires dev in remaining
    requires log' == log + DeviceSteps(dev, lost[dev], wasDetached, wasCleared)
    requires wasCleared ==> wasDetached
    requires wasDetached ==> dev in loops && loops' == loops - {dev}
    requires !wasDetached ==> loops' == loops
    requires wasCleared <==> msg == ""
    ensures Swept(lost, remaining - {dev}, order + [dev],
                  if wasDetached then detached + {dev} else detached,
                  if wasCleared then cleared + {dev} else cleared,
                  loops0, loops', log0, log',
                  if wasCleared then succeeded + [dev] else succeeded,
                  if wasCleared then failed else failed + [dev],
                  if wasCleared then errMessage else errMessage + msg)
  {
    var detached' := if wasDetached then detached + {dev} else detached;
    var cleared' := if wasCleared then cleared + {dev} else cleared;
    AdvanceSets(lost, remaining, order, detached, cleared, loops0, loops, dev, wasDetached, wasCleared, loops');
    AdvanceLog(lost, order, detached, cleared, log0, log, dev, wasDetached, wasCleared, log');
    AdvanceLists(lost, order, cleared, succeeded, failed, errMessage, dev, wasCleared, msg);
  }

  lemma AdvanceSets(lost: map<string, string>, remaining: set<string>, order: seq<string>,
                    detached: set<string>, cleared: set<string>,
                    loops0: map<string, string>, loops: map<string, string>,
                    dev: string, wasDetached: bool, wasCleared: bool, loops': map<string, string>)
    requires remaining <= lost.Keys && Arranges(order, lost.Keys - remaining)
    requires cleared <= detached <= lost.Keys - remaining && detached <= loops0.Keys
    requires loops == loops0 - detached
    requires dev in remaining
    requires wasCleared ==> wasDetached
    requires wasDetached ==> dev in loops && loops' == loops - {dev}
    requires !wasDetached ==> loops' == loops
    ensures var detached' := if wasDetached then detached + {dev} else detached;
      var cleared' := if wasCleared then cleared + {dev} else cleared;
      remaining - {dev} <= lost.Keys
      && Arranges(order + [dev], lost.Keys - (remaining - {dev}))
      && (forall x :: x in order + [dev] ==> x in lost)
      && cleared' <= detached' <= lost.Keys - (remaining - {dev}) && detached' <= loops0.Keys
      && loops' == loops0 - detached'
  {
    ArrangesStep(order, lost.Keys, remaining, dev);
  }

  lemma AdvanceLog(lost: map<string, string>, order: seq<string>, detached: set<string>, cleared: set<string>,
                   log0: seq<HostEvent>, log: seq<HostEvent>,
                   dev: string, wasDetached: bool, wasCleared: bool, log': seq<HostEvent>)
    requires forall x :: x in order ==> x in lost
    requires dev in lost && dev !in order && dev !in detached && dev !in cleared
    requires log == log0 + SweepLog(order, lost, detached, cleared)
    requires log' == log + DeviceSteps(dev, lost[dev], wasDetached, wasCleared)
    ensures var detached' := if wasDetached then detached + {dev} else detached;
      var cleared' := if wasCleared then cleared + {dev} else cleared;
      log' == log0 + SweepLog(order + [dev], lost, detached', cleared')
  {
    var detached' := if wasDetached then detached + {dev} else detached;
    var cleared' := if wasCleared then cleared + {dev} else cleared;
    SweepLogStep(order, dev, lost, detached, cleared, detached', cleared');
  }

  lemma AdvanceLists(lost: map<string, string>, order: seq<string>, cleared: set<string>,
                     succeeded: seq<string>, failed: seq<string>, errMessage: string,
                     dev: string, wasCleared: bool, msg: string)
    requires dev in lost && dev !in order && dev !in cleared
    requires succeeded == Kept(order, cleared)
    requires failed == Kept(order, lost.Keys - cleared)
    requires errMessage == "" <==> failed == []
    requires wasCleared <==> msg == ""
    ensures var cleared' := if wasCleared then cleared + {dev} else cleared;
      (if wasCleared then succeeded + [dev] else succeeded) == Kept(order + [dev], cleared')
      && (if wasCleared then failed else failed + [dev]) == Kept(order + [dev], lost.Keys - cleared')
      && ((if wasCleared then errMessage else errMessage + msg) == "" <==> (if wasCleared then failed else failed + [dev]) == [])
  {
    var cleared' := if wasCleared then cleared + {dev} else cleared;
    KeptStep(order, dev, cleared, cleared');
    DifferenceStep(lost.Keys, dev, cleared, cleared');
    KeptStep(order, dev, lost.Keys - cleared, lost.Keys - cleared');
  }

  /** One more device processed by the sweep: the log grows by that
      device's requests alone. */
  lemma SweepLogStep(order: seq<string>, dev: string, lost: map<string, string>,
                     detached: set<string>, cleared: set<string>, detached': set<string>, cleared': set<string>)
    requires forall x :: x in order ==> x in lost
    requires dev in lost && dev !in order
    requires detached' - {dev} == detached - {dev} && cleared' - {dev} == cleared - {dev}
    ensures SweepLog(order + [dev], lost, detached', cleared')
      == SweepLog(order, lost, detached, cleared) + DeviceSteps(dev, lost[dev], dev in detached', dev in cleared')
  {
    var order' := order + [dev];
    assert order'[..|order|] == order && order'[|order|] == dev;
    forall x | x in order
      ensures (x in detached <==> x in detached') && (x in cleared <==> x in cleared')
    {
      assert x != dev;
      assert x in detached - {dev} <==> x in detached' - {dev};
      assert x in cleared - {dev} <==> x in cleared' - {dev};
    }
    SweepLogFrame(order, lost, detached, cleared, detached', cleared');
  }

  /** One more device processed: it joins the kept list exactly when it
      belongs to the new set. */
  lemma KeptStep(order: seq<string>, dev: string, s: set<string>, s': set<string>)
    requires dev !in order
    requires s' - {dev} == s - {dev}
    ensures Kept(order + [dev], s') == Kept(order, s) + (if dev in s' then [dev] else [])
  {
    assert (order + [dev])[..|order|] == order;
    KeptFrame(order, s, s');
  }

  /** Sets that agree away from `dev` have complements that agree away
      from `dev`. */
  lemma DifferenceStep(keys: set<string>, dev: string, s: set<string>, s': set<string>)
    requires s' - {dev} == s - {dev}
    ensures (keys - s') - {dev} == (keys - s) - {dev}
  {
    forall x | x in (keys - s') - {dev}
      ensures x in (keys - s) - {dev}
    {
      assert x in s' - {dev} <==> x in s - {dev};
    }
    forall x | x in (keys - s) - {dev}
      ensures x in (keys - s') - {dev}
    {
      assert x in s' - {dev} <==> x in s - {dev};
    }
  }
  // ----- DetachLostLoopDeviceByVolumeId

  /** A `losetup -l` line that names the volume: it mentions a volume file
      and the volume id occurs after its first character. */
  predicate NamesVolume(line: string, volumeId: string) {
    MentionsVolumeFile(line) && Index(line, volumeId) > 0
  }

  /** The position of the first line naming the volume (`|lines|` when no
      line does). */
  function FirstVolumeLine(lines: seq<string>, volumeId: string): (k: nat)
    ensures k <= |lines|
    ensures k < |lines| ==> NamesVolume(lines[k], volumeId)
    ensures forall j :: 0 <= j < k ==> !NamesVolume(lines[j], volumeId)
  {
    if lines == [] then 0
    else if NamesVolume(lines[0], volumeId) then 0
    else 1 + FirstVolumeLine(lines[1..], volumeId)
  }

  /** The device `DetachLostLoopDeviceByVolumeId` detaches: the first
      token of the first line naming the volume, "" when no line does. */
  function VolumeDevice(output: string, volumeId: string): string {
    var lines := Split(output, "\n");
    var k := FirstVolumeLine(lines, volumeId);
    if k < |lines| then Tokens(lines[k])[0] else ""
  }

  /** The scan of `DetachLostLoopDeviceByVolumeId` over the lines of the
      listing, which stops at the first line naming the volume. */
  method FindVolumeDevice(output: string, volumeId: string) returns (device: string)
    ensures device == VolumeDevice(output, volumeId)
  {
    var lines := Split(output, "\n");
    var k := FindVolumeLine(lines, volumeId);
    device := if k < |lines| then Tokens(lines[k])[0] else "";
  }

  /** The loop itself: it stops at the first line naming the volume. */
  method FindVolumeLine(lines: seq<string>, volumeId: string) returns (i: nat)
    ensures i == FirstVolumeLine(lines, volumeId)
  {
    i := 0;
    while i < |lines|
      invariant i <= FirstVolumeLine(lines, volumeId)
    {
      if NamesVolume(lines[i], volumeId) {
        return;
      }
      i := i + 1;
    }
  }

  /** A `losetup -l` line for a loop device bound to a volume file names
      that device, whatever lines follow it. */
  lemma VolumeDeviceOfLine(dev: string, rest: string, volumeId: string, after: string)
    requires IsLoopName(dev) && !Contains(rest, "\n")
    requires Contains(rest, VolumeFilePrefix) && Contains(rest, volumeId)
    requires volumeId != "" && volumeId[0] != '/'
    ensures VolumeDevice(dev + " " + rest + "\n" + after, volumeId) == dev
  {
    var line := dev + " " + rest;
    LineNamesVolume(dev, rest, volumeId);
    SplitCons(line, '\n', after);
    assert Split(line + "\n" + after, "\n")[0] == line;
  }

  /** A line that does not name the volume is passed over. */
  lemma VolumeDeviceSkips(line: string, after: string, volumeId: string)
    requires !Contains(line, "\n") && !NamesVolume(line, volumeId)
    ensures VolumeDevice(line + "\n" + after, volumeId) == VolumeDevice(after, volumeId)
  {
    SplitCons(line, '\n', after);
    var lines := Split(line + "\n" + after, "\n");
    assert lines[1..] == Split(after, "\n");
  }

  lemma LineNamesVolume(dev: string, rest: string, volumeId: string)
    requires IsLoopName(dev) && !Contains(rest, "\n")
    requires Contains(rest, VolumeFilePrefix) && Contains(rest, volumeId)
    requires volumeId != "" && volumeId[0] != '/'
    ensures NamesVolume(dev + " " + rest, volumeId)
    ensures Tokens(dev + " " + rest)[0] == dev
    ensures !Contains(dev + " " + rest, "\n")
  {
    var line := dev + " " + rest;
    LoopNameChars(dev);
    ContainsAfter(dev + " ", rest, VolumeFilePrefix);
    ContainsAfter(dev + " ", rest, volumeId);
    assert !IsAt(line, volumeId, 0) by {
      assert line[0] == '/';
    }
    assert !Contains(dev, " ") by { ContainsChar(dev, ' '); }
    SplitCons(dev, ' ', rest);
    NoNewline(dev, rest);
  }

  lemma NoNewline(dev: string, rest: string)
    requires IsLoopName(dev) && !Contains(rest, "\n")
    ensures !Contains(dev + " " + rest, "\n")
  {
    var line := dev + " " + rest;
    LoopNameChars(dev);
    ContainsChar(rest, '\n');
    forall k | 0 <= k < |line| ensures line[k] != '\n' {
      if k > |dev| { assert line[k] == rest[k - |dev| - 1]; }
    }
    ContainsChar(line, '\n');
  }

  /** An occurrence in the tail of a text is an occurrence in the text. */
  lemma ContainsAfter(head: string, tail: string, sub: string)
    requires Contains(tail, sub)
    ensures Contains(head + tail, sub)
  {
    var s := head + tail;
    var i := Index(tail, sub);
    assert s[|head| + i..|head| + i + |sub|] == tail[i..i + |sub|];
    assert IsAt(s, sub, |head| + i);
  }

  // ----- GetDevicePartition

  /** The partition `GetDevicePartition` reads from `fdisk -l <dev> | grep
      '^/dev/loop' | awk '{print $1}'`: nothing for empty output, otherwise
      the first space-separated piece without surrounding newlines. */
  function PartitionOf(output: string): (r: string)
    ensures !Contains(r, " ")
    ensures output == "" ==> r == ""
  {
    if output == "" then ""
    else
      var piece := Split(output, " ")[0];
      TrimKeepsAbsence(piece, "\n", ' ');
      Trim(piece, "\n")
  }

  /** Trimming never adds a character. */
  lemma TrimKeepsAbsence(s: string, cutset: string, c: char)
    requires !Contains(s, [c])
    ensures !Contains(Trim(s, cutset), [c])
  {
    ContainsChar(s, c);
    var l := TrimLeft(s, cutset);
    var r := Trim(s, cutset);
    assert forall k :: 0 <= k < |r| ==> r[k] == s[|s| - |l| + k];
    ContainsChar(r, c);
  }

  /** One partition printed on its own line is read back. */
  lemma PartitionOfOneLine(partition: string)
    requires partition != "" && partition[0] != '\n' && partition[|partition| - 1] != '\n'
    requires !Contains(partition, " ")
    ensures PartitionOf(partition + "\n") == partition
  {
    var s := partition + "\n";
    assert !Contains(s, " ") by {
      ContainsChar(partition, ' ');
      ContainsChar(s, ' ');
    }
    SplitWithout(s, " ");
    assert !InCutset(partition[0], "\n");
    assert TrimLeft(s, "\n") == s;
    assert TrimRight(s[..|s| - 1], "\n") == partition by {
      assert s[..|s| - 1] == partition;
    }
  }

  /** `awk` prints one partition per line, and no line holds a space, so a
      device with two partitions is read as both names with the newline
      between them, not as the first one. */
  lemma PartitionOfTwoLines(first: string, second: string)
    requires first != "" && first[0] != '\n' && Lacks(first, ' ')
    requires second != "" && second[|second| - 1] != '\n' && Lacks(second, ' ')
    ensures PartitionOf(first + "\n" + second + "\n") == first + "\n" + second
  {
    var s := first + "\n" + second + "\n";
    assert Lacks(s, ' ') by {
      forall k | 0 <= k < |s| ensures s[k] != ' ' {
        if k < |first| { assert s[k] == first[k]; }
        else if |first| < k < |first| + 1 + |second| { assert s[k] == second[k - |first| - 1]; }
      }
    }
    ContainsChar(s, ' ');
    SplitWithout(s, " ");
    assert !InCutset(first[0], "\n");
    assert TrimLeft(s, "\n") == s;
    assert !InCutset(second[|second| - 1], "\n");
    assert TrimRight(s[..|s| - 1], "\n") == first + "\n" + second by {
      assert s[..|s| - 1] == first + "\n" + second;
    }
  }

  // ----- GetFsType, SetFsType

  /** The file system `GetFsType` reads from `file -s <device>`: the first of
      "ext3", "ext4" and "XFS" that occurs after the first character, or
      "" when none does. */
  function FsTypeOf(output: string): (r: string)
    ensures r == "" || r == "ext3" || r == "ext4" || r == "xfs"
    ensures r == "ext3" <==> Index(output, "ext3") > 0
    ensures r == "ext4" ==> Index(output, "ext4") > 0 && Index(output, "ext3") <= 0
    ensures r == "xfs" ==> Index(output, "XFS") > 0 && Index(output, "ext3") <= 0 && Index(output, "ext4") <= 0
    ensures r == "" <==> Index(output, "ext3") <= 0 && Index(output, "ext4") <= 0 && Index(output, "XFS") <= 0
  {
    if Index(output, "ext3") > 0 then "ext3"
    else if Index(output, "ext4") > 0 then "ext4"
    else if Index(output, "XFS") > 0 then "xfs"
    else ""
  }

  /** An occurrence after the first character that is not also at the
      first character is found at a positive index. */
  lemma IndexPositive(s: string, sub: string, k: nat)
    requires 0 < k && IsAt(s, sub, k) && !IsAt(s, sub, 0)
    ensures Index(s, sub) > 0
  {
  }

  /** "ext3" wins over "ext4" and "XFS"; a name at the very start of the
      output is not seen; an output naming none of them has no type. */
  lemma FsTypeOfFirstWins()
    ensures FsTypeOf("d: ext4 " + "ext3") == "ext3"
  {
    var a := "d: ext4 " + "ext3";
    assert IsAt(a, "ext3", 8);
    assert a[0] == 'd';
    IndexPositive(a, "ext3", 8);
  }

  lemma FsTypeOfExt4()
    ensures FsTypeOf("d: XFS " + "ext4") == "ext4"
  {
    var b := "d: XFS " + "ext4";
    AbsentByChar(b, "ext3", '3');
    assert IsAt(b, "ext4", 7);
    assert b[0] == 'd';
    IndexPositive(b, "ext4", 7);
  }

  lemma FsTypeOfXfs()
    ensures FsTypeOf("d: SGI " + "XFS") == "xfs"
  {
    var c := "d: SGI " + "XFS";
    AbsentByChar(c, "ext3", 'x');
    AbsentByChar(c, "ext4", 'x');
    assert IsAt(c, "XFS", 7);
    assert c[0] == 'd';
    IndexPositive(c, "XFS", 7);
  }

  /** A type name at the very start of the output is not seen. */
  lemma FsTypeOfAtStart()
    ensures FsTypeOf("XFS" + " data") == ""
  {
    var d := "XFS" + " data";
    AbsentByChar(d, "ext3", 'x');
    AbsentByChar(d, "ext4", 'x');
    assert IsAt(d, "XFS", 0);
  }

  /** A text lacking one of the characters of `sub` does not contain it. */
  lemma AbsentByChar(s: string, sub: string, c: char)
    requires c in sub && c !in s
    ensures Index(s, sub) == -1
  {
    var i :| 0 <= i < |sub| && sub[i] == c;
    forall j | 0 <= j <= |s| ensures !IsAt(s, sub, j) {
      if j + |sub| <= |s| {
        assert s[j + i] in s;
        assert s[j..j + |sub|][i] == s[j + i];
      }
    }
  }

  /** The command `SetFsType` runs to make a file system of type `fsType`
      on `device`; there is none for another type. */
  function MkfsCommand(fsType: string, device: string): (r: Option<string>)
    ensures r.Some? <==> fsType in {"ext3", "ext4", "xfs"}
    ensures r.Some? ==> HasPrefix(r.value, "mkfs." + fsType + " ")
  {
    if fsType == "ext3" then Some("mkfs.ext3 -F -m0 " + device)
    else if fsType == "ext4" then Some("mkfs.ext4 -F -m0 " + device)
    else if fsType == "xfs" then Some("mkfs.xfs -f " + device)
    else None
  }

  /** The command `GetDevicePartition` runs. */
  function FdiskListCommand(loopDevice: string): string {
    "fdisk -l " + loopDevice + " | grep  '^/dev/loop' | awk '{print $1}'"
  }

  /** The command `GetFsType` runs. */
  function FileCommand(device: string): string {
    "file -s " + device
  }

  // ----- device names

  /** `isLoopDevice`. */
  predicate IsLoopDevice(device: string) {
    HasPrefix(device, "/dev/loop")
  }

  /** `isMapperDevice`. */
  predicate IsMapperDevice(device: string) {
    HasPrefix(device, "/dev/mapper")
  }

  /** Every name the kernel gives a loop device passes `isLoopDevice`, and
      no device passes both tests. */
  lemma DeviceKinds(device: string)
    ensures IsLoopName(device) ==> IsLoopDevice(device)
    ensures IsLoopDevice(device) ==> !IsMapperDevice(device)
  {
    if IsLoopName(device) {
      assert device[..9] == LoopNamePrefix;
    }
    if IsLoopDevice(device) && |device| >= 11 {
      assert device[5] == 'l' by { assert device[..9][5] == device[5]; }
      assert device[..11][5] == 'l';
    }
  }

  /** The mapper name: the device without its leading characters from the
      set "/dev/mapper/" (`strings.TrimLeft` takes a set, not a prefix). */
  function MapperName(mapperDevice: string): string {
    TrimLeft(mapperDevice, MapperPrefix)
  }

  /** The loop device `GetLoopDeviceByMapperDevice` derives from a mapper
      device: the mapper name cut at its last 'p', under "/dev/". Without
      a 'p' the slice `[0:-1]` panics. */
  function LoopNameOfMapper(mapperDevice: string): (r: Result<string>)
    ensures r.Err? <==> !Contains(MapperName(mapperDevice), PartitionPrefix)
    ensures r.Ok? ==> HasPrefix(r.value, LoopPrefix)
  {
    var name := MapperName(mapperDevice);
    var index := LastIndex(name, PartitionPrefix);
    if index < 0 then Err(SliceOutOfRange) else Ok(LoopPrefix + name[..index])
  }

  /** The command `ListDevmapperName` runs for a loop device. */
  function KpartxListCommand(loopDevice: string): string {
    "kpartx -lv " + loopDevice + " | awk '{print $1}' "
  }

  /** The first name `ListDevmapperName` reads from the `kpartx` output. */
  function FirstMapperName(output: string): string {
    TrimSpace(Trim(Split(output, "\n")[0], "\n"))
  }

  /** Leading characters from the cutset are all trimmed. */
  lemma {:induction false} TrimLeftCutset(p: string, x: string, cutset: string)
    requires forall k :: 0 <= k < |p| ==> InCutset(p[k], cutset)
    ensures TrimLeft(p + x, cutset) == TrimLeft(x, cutset)
    decreases |p|
  {
    if p != [] {
      assert (p + x)[1..] == p[1..] + x;
      TrimLeftCutset(p[1..], x, cutset);
    } else {
      assert p + x == x;
    }
  }

  /** The mapper device kpartx makes for partition `part` of loop device
      `dev` leads back to `dev`. */
  lemma LoopNameOfPartition(dev: string, part: string)
    requires IsLoopName(dev) && part != "" && forall k :: 0 <= k < |part| ==> IsDigit(part[k])
    ensures LoopNameOfMapper(MapperPrefix + dev[5..] + "p" + part) == Ok(dev)
  {
    var name := dev[5..];
    var x := name + "p" + part;
    ConcatFour(MapperPrefix, name, "p", part);
    LoopNameParts(dev);
    assert x[0] == dev[5];
    MapperNameAfterPrefix(x);
    LastP(name, part);
    assert x[..|name|] == name;
    LoopNameCut(MapperPrefix + x, x, |name|);
  }

  lemma ConcatFour(a: string, b: string, c: string, e: string)
    ensures a + b + c + e == a + (b + c + e)
  {
  }

  /** The loop device derived from a mapper device whose name has its last
      'p' at `k`. */
  lemma LoopNameCut(mapperDevice: string, name: string, k: nat)
    requires MapperName(mapperDevice) == name
    requires LastIndex(name, PartitionPrefix) == k
    ensures LoopNameOfMapper(mapperDevice) == Ok(LoopPrefix + name[..k])
  {
  }

  /** A loop device is "/dev/" followed by a name starting with 'l'. */
  lemma LoopNameParts(dev: string)
    requires IsLoopName(dev)
    ensures LoopPrefix + dev[5..] == dev && dev[5] == 'l'
  {
    assert dev[..9] == LoopNamePrefix;
    assert dev[..5] == dev[..9][..5];
    assert dev == dev[..5] + dev[5..];
  }

  /** A mapper device whose name does not start with a cutset character
      has that name. */
  lemma MapperNameAfterPrefix(x: string)
    requires x != "" && !InCutset(x[0], MapperPrefix)
    ensures MapperName(MapperPrefix + x) == x
  {
    TrimLeftCutset(MapperPrefix, x, MapperPrefix);
  }

  /** The last 'p' of a name followed by "p" and digits is that one. */
  lemma LastP(name: string, part: string)
    requires forall k :: 0 <= k < |part| ==> IsDigit(part[k])
    ensures LastIndex(name + "p" + part, "p") == |name|
  {
    var x := name + "p" + part;
    var n := |name|;
    assert IsAt(x, "p", n);
    forall j | n < j <= |x| ensures !IsAt(x, "p", j) {
      if j < |x| {
        assert x[j] == part[j - n - 1];
      }
    }
  }

  /** Trimming takes every leading character in the set, so a mapper name
      starting with one of "/dev/mapper/"'s letters loses it. */
  lemma MapperNameOverTrims()
    ensures LoopNameOfMapper((MapperPrefix + "p") + ("ool0" + "p" + "1")) == Ok("/dev/ool0")
  {
    var x := "ool0" + "p" + "1";
    PoolMapperName(x);
    LastP("ool0", "1");
    assert x[..4] == "ool0";
    assert LoopPrefix + "ool0" == "/dev/ool0";
  }

  lemma PoolMapperName(x: string)
    requires x != "" && x[0] == 'o'
    ensures MapperName((MapperPrefix + "p") + x) == x
  {
    assert MapperPrefix[7] == 'p';
    assert !InCutset(x[0], MapperPrefix);
    CutsetLetterTrimmed(MapperPrefix, 'p', x);
  }

  /** A cutset followed by one of its own letters is trimmed away whole. */
  lemma CutsetLetterTrimmed(cutset: string, c: char, x: string)
    requires c in cutset && x != "" && !InCutset(x[0], cutset)
    ensures TrimLeft((cutset + [c]) + x, cutset) == x
  {
    var p := cutset + [c];
    forall k | 0 <= k < |p| ensures InCutset(p[k], cutset) {
      if k < |cutset| {
        assert p[k] == cutset[k];
      }
    }
    TrimLeftCutset(p, x, cutset);
  }


}
