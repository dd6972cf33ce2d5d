/** The node the plugin runs on, as far as the plugin can observe it: the
    file system under the ArStor mount point, the commands it runs
    (`losetup`, `file`, `mkfs.*`, `kpartx`, `blkid`, `resize2fs`,
    `xfs_growfs`, mount helpers) and the kernel's table of loop devices.
    Each method records the request and answers with whatever the node
    answers; only the loop table is tracked as state, because the plugin's
    loop-device decisions depend on it. */
module Host {
  import opened Common
  import opened GoStrings
  import opened Types

  /** What the plugin asked of the node. */
  datatype HostCall =
    | Stat(path: string)
    | MkdirAll(dir: string)
    | Remove(path: string)
    | ReadDirTree(base: string, dir: string)
    | Losetup(args: seq<string>)
    | Run(command: string)
    | MountCall(source: string, target: string, fsType: string, options: seq<string>, formatFirst: bool)
    | UnmountCall(target: string)
    | ProbeMount(path: string)
    | PrepareFile(path: string)

  /** A request and whether it succeeded. */
  datatype HostEvent = HostEvent(call: HostCall, ok: bool)

  /** `os.Remove`: the file was removed, did not exist, or another error. */
  datatype RemoveOutcome = Removed | NotExist | RemoveFailed(msg: string)

  /** `blkid` either prints its output or exits with a status. */
  datatype BlkidReply = Printed(output: string) | ExitStatus(status: int, msg: string)

  /** What a mount-point probe finds at a path: no mount (a missing path
      counts as none), a mount, a mount whose file system no longer
      answers, or a failed probe. */
  datatype MountProbe = NotMounted | Mounted | Corrupted(msg: string) | ProbeFailed(msg: string)

  /** What `os.Lstat` finds at a path: something, nothing, or an error
      other than the path's absence. */
  datatype PathStat = Present | Absent | StatFailed(msg: string)

  /** What `os.Stat` says a path is: a device node, a regular file or
      something else. */
  datatype DeviceType = ModeBlock | ModeFile | ModeUnsupported

  /** The kernel names loop devices `/dev/loop<n>`. */
  const LoopNamePrefix: string := "/dev/loop"

  predicate IsLoopName(dev: string) {
    |dev| > |LoopNamePrefix| && dev[..|LoopNamePrefix|] == LoopNamePrefix
    && forall k :: |LoopNamePrefix| <= k < |dev| ==> IsDigit(dev[k])
  }

  /** `filepath.Dir` for the clean paths the plugin builds: everything
      before the last '/', "/" for a top-level name and "." without '/'. */
  function ParentDir(path: string): (r: string)
    ensures LastIndex(path, "/") > 0 ==> r + "/" + path[LastIndex(path, "/") + 1..] == path
  {
    var k := LastIndex(path, "/");
    if k < 0 then "." else if k == 0 then "/" else
      assert path[k..k + 1] == "/";
      assert path[..k] + "/" + path[k + 1..] == path[..k] + path[k..k + 1] + path[k + 1..];
      path[..k]
  }

  /** One line of `losetup -j <file>`: the device, the backing file's
      device and inode numbers (written as zeros here) and the file. */
  function ListingLine(dev: string, file: string): string {
    dev + ": [0]:0 (" + file + ")\n"
  }

  /** The whole output of `losetup -j <file>` for the devices `devs`. */
  function Listing(devs: seq<string>, file: string): string {
    if devs == [] then "" else ListingLine(devs[0], file) + Listing(devs[1..], file)
  }

  /** `devs` lists, each once, exactly the devices bound to `file`. */
  ghost predicate Enumerates(devs: seq<string>, loops: map<string, string>, file: string) {
    (forall i, j :: 0 <= i < j < |devs| ==> devs[i] != devs[j])
    && (forall d :: d in devs <==> d in loops && loops[d] == file)
  }

  /** Some loop device is bound to `file`. */
  ghost predicate Bound(loops: map<string, string>, file: string) {
    exists d :: d in loops && loops[d] == file
  }

  class Host {
    /** The kernel's loop table: device -> backing file. */
    var loops: map<string, string>
    /** Every request so far. */
    var log: seq<HostEvent>

    /** The kernel binds only devices named `/dev/loop<n>`. */
    ghost predicate Valid()
      reads this
    {
      forall d :: d in loops ==> IsLoopName(d)
    }

    constructor(initial: map<string, string>)
      requires forall d :: d in initial ==> IsLoopName(d)
      ensures Valid() && loops == initial && log == []
    {
      loops := initial;
      log := [];
    }

    // ----- file system

    /** `GetPathInode`: an empty path is refused before any system call. */
    method GetPathInode(path: string) returns (r: Result<int>)
      modifies this
      ensures loops == old(loops)
      ensures path == "" ==> r == Err("dir is empty") && log == old(log)
      ensures path != "" ==> log == old(log) + [HostEvent(Stat(path), r.Ok?)]
      ensures r.Ok? ==> r.value >= 0
    {
      if path == "" {
        return Err("dir is empty");
      }
      var ok: bool :| true;
      if ok { var v: nat :| true; r := Ok(v); } else { var msg: string :| true; r := Err(msg); }
      log := log + [HostEvent(Stat(path), r.Ok?)];
    }

    /** `PathExists` (its retries while the file does not exist yet are
        part of the answer). */
    method PathExists(path: string) returns (r: Result<bool>)
      modifies this
      ensures loops == old(loops)
      ensures log == old(log) + [HostEvent(Stat(path), r.Ok?)]
    {
      r :| true;
      log := log + [HostEvent(Stat(path), r.Ok?)];
    }

    /** `EnsureDir`: `os.MkdirAll`. */
    method EnsureDir(dir: string) returns (err: Option<string>)
      modifies this
      ensures loops == old(loops)
      ensures log == old(log) + [HostEvent(MkdirAll(dir), err.None?)]
    {
      err :| true;
      log := log + [HostEvent(MkdirAll(dir), err.None?)];
    }

    /** `DeleteFile`: `os.Remove`; the request succeeded when the file is
        gone afterwards, whether it was removed or did not exist. */
    method DeleteFile(file: string) returns (r: RemoveOutcome)
      modifies this
      ensures loops == old(loops)
      ensures log == old(log) + [HostEvent(Remove(file), !r.RemoveFailed?)]
    {
      r :| true;
      log := log + [HostEvent(Remove(file), !r.RemoveFailed?)];
    }

    /** `GetFileDir`: the parent directory made absolute, which can fail. */
    method GetFileDir(file: string) returns (r: Result<string>)
      modifies this
      ensures loops == old(loops) && log == old(log)
      ensures r.Ok? ==> r.value == ParentDir(file)
    {
      var ok: bool :| true;
      r := if ok then Ok(ParentDir(file)) else Err("cannot make path absolute");
    }

    method GetFileSize(file: string) returns (r: Result<int>)
      modifies this
      ensures loops == old(loops)
      ensures log == old(log) + [HostEvent(Stat(file), r.Ok?)]
      ensures r.Ok? ==> r.value >= 0
    {
      var ok: bool :| true;
      if ok { var v: nat :| true; r := Ok(v); } else { var msg: string :| true; r := Err(msg); }
      log := log + [HostEvent(Stat(file), r.Ok?)];
    }

    method GetFileCreationTime(file: string) returns (r: Result<Timestamp>)
      modifies this
      ensures loops == old(loops)
      ensures log == old(log) + [HostEvent(Stat(file), r.Ok?)]
    {
      r :| true;
      log := log + [HostEvent(Stat(file), r.Ok?)];
    }

    /** `GetAllFile`: every regular file below `base + dir`, by file name,
        with its path relative to `base`. */
    method GetAllFile(base: string, dir: string) returns (r: Result<map<string, string>>)
      modifies this
      ensures loops == old(loops)
      ensures log == old(log) + [HostEvent(ReadDirTree(base, dir), r.Ok?)]
    {
      r :| true;
      log := log + [HostEvent(ReadDirTree(base, dir), r.Ok?)];
    }

    /** The kind of file at `path`. */
    method PathDeviceType(path: string) returns (r: Result<DeviceType>)
      modifies this
      ensures loops == old(loops)
      ensures log == old(log) + [HostEvent(Stat(path), r.Ok?)]
    {
      r :| true;
      log := log + [HostEvent(Stat(path), r.Ok?)];
    }

    /** `WaitSnapshotReady`: polls until the file exists or the back-off
        gives up. */
    method WaitSnapshotReady(path: string) returns (err: Option<string>)
      modifies this
      ensures loops == old(loops)
      ensures log == old(log) + [HostEvent(Stat(path), err.None?)]
    {
      err :| true;
      log := log + [HostEvent(Stat(path), err.None?)];
    }

    // ----- losetup

    /** `losetup -l`: the table in the tool's own text format. */
    method LosetupList() returns (r: Result<string>)
      modifies this
      ensures loops == old(loops)
      ensures log == old(log) + [HostEvent(Losetup(["-l"]), r.Ok?)]
    {
      r :| true;
      log := log + [HostEvent(Losetup(["-l"]), r.Ok?)];
    }

    /** `losetup -j <file>`: one line per device bound to the file, in some
        order. */
    method LosetupByFile(file: string) returns (r: Result<string>, devs: seq<string>)
      modifies this
      ensures loops == old(loops)
      ensures log == old(log) + [HostEvent(Losetup(["-j", file]), r.Ok?)]
      ensures Enumerates(devs, loops, file)
      ensures r.Ok? ==> r.value == Listing(devs, file)
    {
      var remaining := set d | d in loops && loops[d] == file;
      devs := [];
      while remaining != {}
        invariant forall i, j :: 0 <= i < j < |devs| ==> devs[i] != devs[j]
        invariant forall d :: d in remaining ==> d !in devs
        invariant forall d :: d in devs || d in remaining <==> d in loops && loops[d] == file
        decreases |remaining|
      {
        var d :| d in remaining;
        devs := devs + [d];
        remaining := remaining - {d};
      }
      var ok: bool :| true;
      if ok {
        r := Ok(Listing(devs, file));
      } else {
        var msg: string :| true;
        r := Err(msg);
      }
      log := log + [HostEvent(Losetup(["-j", file]), r.Ok?)];
    }

    /** `losetup -f`: the name of some unused device, as printed. */
    method LosetupFree() returns (r: Result<string>)
      modifies this
      ensures loops == old(loops)
      ensures log == old(log) + [HostEvent(Losetup(["-f"]), r.Ok?)]
    {
      r :| true;
      log := log + [HostEvent(Losetup(["-f"]), r.Ok?)];
    }

    /** `losetup <dev> <file>`: binds a free loop device. */
    method LosetupAttach(dev: string, file: string) returns (err: Option<string>)
      requires Valid()
      modifies this
      ensures Valid()
      ensures log == old(log) + [HostEvent(Losetup([dev, file]), err.None?)]
      ensures err.None? ==> IsLoopName(dev) && dev !in old(loops) && loops == old(loops)[dev := file]
      ensures err.Some? ==> loops == old(loops)
    {
      if IsLoopName(dev) && dev !in loops {
        err :| true;
      } else {
        var msg: string :| true;
        err := Some(msg);
      }
      if err.None? {
        loops := loops[dev := file];
      }
      log := log + [HostEvent(Losetup([dev, file]), err.None?)];
    }

    /** `losetup -d <dev>`: unbinds a device. */
    method LosetupDetach(dev: string) returns (err: Option<string>)
      requires Valid()
      modifies this
      ensures Valid()
      ensures log == old(log) + [HostEvent(Losetup(["-d", dev]), err.None?)]
      ensures err.None? ==> dev in old(loops) && loops == old(loops) - {dev}
      ensures err.Some? ==> loops == old(loops)
    {
      if dev in loops {
        err :| true;
      } else {
        var msg: string :| true;
        err := Some(msg);
      }
      if err.None? {
        loops := loops - {dev};
      }
      log := log + [HostEvent(Losetup(["-d", dev]), err.None?)];
    }

    // ----- other commands

    /** A shell command whose printed output the plugin reads. */
    method RunForOutput(command: string) returns (r: Result<string>)
      modifies this
      ensures loops == old(loops)
      ensures log == old(log) + [HostEvent(Run(command), r.Ok?)]
    {
      r :| true;
      log := log + [HostEvent(Run(command), r.Ok?)];
    }

    /** A command whose exit status alone matters. */
    method RunForStatus(command: string) returns (err: Option<string>)
      modifies this
      ensures loops == old(loops)
      ensures log == old(log) + [HostEvent(Run(command), err.None?)]
    {
      err :| true;
      log := log + [HostEvent(Run(command), err.None?)];
    }

    /** `blkid -p -s TYPE -s PTTYPE -o export <disk>`. */
    method Blkid(disk: string) returns (r: BlkidReply)
      modifies this
      ensures loops == old(loops)
      ensures log == old(log) + [HostEvent(Run("blkid -p -s TYPE -s PTTYPE -o export " + disk), r.Printed?)]
    {
      r :| true;
      log := log + [HostEvent(Run("blkid -p -s TYPE -s PTTYPE -o export " + disk), r.Printed?)];
    }

    /** A mount, optionally formatting the device first when it carries no
        file system (`SafeFormatAndMount`). */
    method Mount(source: string, target: string, fsType: string, options: seq<string>, formatFirst: bool) returns (err: Option<string>)
      modifies this
      ensures loops == old(loops)
      ensures log == old(log) + [HostEvent(MountCall(source, target, fsType, options, formatFirst), err.None?)]
    {
      err :| true;
      log := log + [HostEvent(MountCall(source, target, fsType, options, formatFirst), err.None?)];
    }

    /** `UnmountPath`: unmounts `target` and removes the directory. */
    method Unmount(target: string) returns (err: Option<string>)
      modifies this
      ensures loops == old(loops)
      ensures log == old(log) + [HostEvent(UnmountCall(target), err.None?)]
    {
      err :| true;
      log := log + [HostEvent(UnmountCall(target), err.None?)];
    }

    /** `IsLikelyNotMountPoint`, a missing path counting as not mounted. */
    method ProbeMountPoint(path: string) returns (r: MountProbe)
      modifies this
      ensures loops == old(loops)
      ensures log == old(log) + [HostEvent(ProbeMount(path), r.NotMounted? || r.Mounted?)]
    {
      r :| true;
      log := log + [HostEvent(ProbeMount(path), r.NotMounted? || r.Mounted?)];
    }

    /** `IsLikelyNotMountPointAttach`: whether `path` is not a mount point,
        the directory being created when it is not; `Err` when the probe or
        the creation failed. */
    method ProbeMountTarget(path: string) returns (r: Result<bool>)
      modifies this
      ensures loops == old(loops)
      ensures log == old(log) + [HostEvent(ProbeMount(path), r.Ok?)]
    {
      r :| true;
      log := log + [HostEvent(ProbeMount(path), r.Ok?)];
    }

    /** `os.Lstat`. */
    method Lstat(path: string) returns (r: PathStat)
      modifies this
      ensures loops == old(loops)
      ensures log == old(log) + [HostEvent(Stat(path), r.Present?)]
    {
      r :| true;
      log := log + [HostEvent(Stat(path), r.Present?)];
    }

    /** `Ensurefile`: opens `path` with `O_CREATE`, creating an empty file
        when there is none. */
    method EnsureFile(path: string) returns (err: Option<string>)
      modifies this
      ensures loops == old(loops)
      ensures log == old(log) + [HostEvent(PrepareFile(path), err.None?)]
    {
      err :| true;
      log := log + [HostEvent(PrepareFile(path), err.None?)];
    }
  }
}
