/** The node service: staging a volume file on a loop device, publishing it
    into a pod (as a bind-mounted block device or a bind mount of the staged
    file system), inline ephemeral volumes, the matching teardown, and the
    node's identity. */
module NodeServer {
  import opened Common
  import opened GoStrings
  import opened Types
  import opened Utils
  import opened Host
  import opened Csi
  import opened ArStor
  import opened LoopDevice
  import opened Resize

  /** Names of the volumes the node creates for inline ephemeral volumes. */
  const EphemeralPrefix: string := "ephemeral-"
  /** The name prefix the external provisioner gives to claimed volumes. */
  const PvcPrefix: string := "pvc-"
  /** The volume-context key Kubernetes sets for inline ephemeral volumes. */
  const EphemeralContextKey: string := "csi.storage.k8s.io/ephemeral"
  /** The file system used when a mount capability names none. */
  const DefaultFsType: string := "xfs"
  /** What Go prints when a nil error is asked for its text. */
  const NilDereference: string := "panic: runtime error: invalid memory address or nil pointer dereference"
  /** What `os.Lstat` reports for a missing path. */
  const NoSuchFile: string := "no such file or directory"

  /** `fmt`'s `%v` of a list of strings. */
  function ShowList(items: seq<string>): string {
    "[" + Join(items, " ") + "]"
  }

  /** A backing file whose `losetup -j` lines parse back to exactly the
      devices bound to it: its path has no ':' and no "loop". */
  predicate PlainFile(file: string) {
    Lacks(file, ':') && !GoStrings.Contains(file, "loop")
  }

  // ----- requests

  /** A Go map read: the zero value "" for a missing key. */
  function ContextValue(context: map<string, string>, key: string): string {
    if key in context then context[key] else ""
  }

  /** The ephemeral decision of `NodePublishVolume`. */
  predicate IsEphemeralRequest(volumeContext: map<string, string>, serverEphemeral: bool) {
    var flag := ContextValue(volumeContext, EphemeralContextKey);
    flag == "true" || (flag == "" && serverEphemeral)
  }

  /** A request is ephemeral when it says so, or when it says nothing and
      the server runs in ephemeral mode; any other flag value opts out. */
  lemma EphemeralDecision(volumeContext: map<string, string>, serverEphemeral: bool)
    ensures IsEphemeralRequest(volumeContext, serverEphemeral) <==>
      (EphemeralContextKey in volumeContext && volumeContext[EphemeralContextKey] == "true")
      || (serverEphemeral && (EphemeralContextKey !in volumeContext || volumeContext[EphemeralContextKey] == ""))
    ensures EphemeralContextKey !in volumeContext ==> (IsEphemeralRequest(volumeContext, serverEphemeral) <==> serverEphemeral)
    ensures (EphemeralContextKey in volumeContext && volumeContext[EphemeralContextKey] != "true"
             && volumeContext[EphemeralContextKey] != "") ==> !IsEphemeralRequest(volumeContext, serverEphemeral)
  {
  }

  /** `NodePublishVolumeRequest`, as far as the handler reads it. */
  datatype PublishRequest = PublishRequest(
    volumeId: string,
    stagingTargetPath: string,
    targetPath: string,
    capability: Option<VolumeCapability>,
    readonly: bool,
    volumeContext: map<string, string>)

  /** `NodeStageVolumeRequest`, as far as the handler reads it. */
  datatype StageRequest = StageRequest(
    volumeId: string,
    stagingTargetPath: string,
    capability: Option<VolumeCapability>)

  /** The argument checks of `NodePublishVolume`, in their order: the volume
      id and the target path always, then, unless the request is ephemeral,
      the staging path and the capability. (A capability cannot ask for
      both a block device and a mount: the access type is a `oneof`.) */
  function PublishArgsError(req: PublishRequest, serverEphemeral: bool): (err: Option<Status>)
    ensures err.Some? ==> err.value.code == InvalidArgument
    ensures req.volumeId == "" || req.targetPath == "" ==> err.Some?
    ensures req.volumeId != "" && req.targetPath != "" && IsEphemeralRequest(req.volumeContext, serverEphemeral) ==> err.None?
    ensures req.volumeId != "" && req.targetPath != "" && !IsEphemeralRequest(req.volumeContext, serverEphemeral) ==>
      (err.None? <==> req.stagingTargetPath != "" && req.capability.Some?)
    ensures req.volumeId == "" ==> err == Some(Status(InvalidArgument, "NodePublishVolume Volume ID must be provided"))
  {
    if req.volumeId == "" then Some(Status(InvalidArgument, "NodePublishVolume Volume ID must be provided"))
    else if req.targetPath == "" then Some(Status(InvalidArgument, "NodePublishVolume Target Path must be provided"))
    else if IsEphemeralRequest(req.volumeContext, serverEphemeral) then None
    else if req.stagingTargetPath == "" then Some(Status(InvalidArgument, "NodePublishVolume Staging Target Path must be provided"))
    else if req.capability.None? then Some(Status(InvalidArgument, "NodePublishVolume Volume Capability must be provided"))
    else None
  }

  /** The argument checks of `NodeStageVolume`, in their order. */
  function StageArgsError(req: StageRequest): (err: Option<Status>)
    ensures err.None? <==> req.volumeId != "" && req.stagingTargetPath != "" && req.capability.Some?
    ensures err.Some? ==> err.value.code == InvalidArgument
    ensures req.volumeId == "" ==> err == Some(Status(InvalidArgument, "Volume ID missing in request"))
  {
    if req.volumeId == "" then Some(Status(InvalidArgument, "Volume ID missing in request"))
    else if req.stagingTargetPath == "" then Some(Status(InvalidArgument, "Target path missing in request"))
    else if req.capability.None? then Some(Status(InvalidArgument, "Volume Capability missing in request"))
    else None
  }

  /** The file system to format and mount: the one the mount capability
      names, "xfs" when it names none or when there is no mount capability. */
  function MountFsType(capability: Option<VolumeCapability>): (fsType: string)
    ensures fsType != ""
    ensures fsType == DefaultFsType || (capability.Some? && capability.value.access.MountMode? && fsType == capability.value.access.fsType)
    ensures capability.Some? && capability.value.access.MountMode? && capability.value.access.fsType != "" ==>
      fsType == capability.value.access.fsType
  {
    if capability.Some? && capability.value.access.MountMode? && capability.value.access.fsType != "" then
      capability.value.access.fsType
    else DefaultFsType
  }

  /** The mount options of a staged file system: the capability's mount
      flags. */
  function MountFlags(capability: Option<VolumeCapability>): seq<string> {
    if capability.Some? && capability.value.access.MountMode? then capability.value.access.mountFlags else []
  }

  /** The bind-mount options of `NodePublishVolume`. */
  function PublishOptions(readonly: bool): seq<string> {
    ["bind", if readonly then "ro" else "rw"]
  }

  /** `NodeUnpublishVolume` deletes a volume whose name has no "pvc-" in it
      and starts with "ephemeral-". */
  predicate DeletesOnUnpublish(name: string) {
    Index(name, PvcPrefix) < 0 && Index(name, EphemeralPrefix) == 0
  }

  /** The index tests are the prefix and containment tests they stand for. */
  lemma DeletesOnUnpublishIff(name: string)
    ensures DeletesOnUnpublish(name) <==> HasPrefix(name, EphemeralPrefix) && !GoStrings.Contains(name, PvcPrefix)
  {
    if HasPrefix(name, EphemeralPrefix) {
      assert IsAt(name, EphemeralPrefix, 0);
    }
  }

  /** The volume the node creates for an inline ephemeral volume whose id
      has no "pvc-" in it is deleted again on unpublish. */
  lemma {:induction false} EphemeralNamesDeleted(volumeId: string)
    requires !GoStrings.Contains(volumeId, PvcPrefix)
    ensures DeletesOnUnpublish(EphemeralPrefix + volumeId)
  {
    var name := EphemeralPrefix + volumeId;
    assert IsAt(name, EphemeralPrefix, 0);
    forall j | 0 <= j <= |name|
      ensures !IsAt(name, PvcPrefix, j)
    {
      if j >= |EphemeralPrefix| {
        if IsAt(name, PvcPrefix, j) {
          assert name[j..j + 4] == volumeId[j - 10..j - 6];
          assert IsAt(volumeId, PvcPrefix, j - 10);
        }
      } else if j + 4 <= |name| {
        assert name[j] == EphemeralPrefix[j];
        if j == 1 {
          assert name[j + 1] == 'h';
        }
      }
    }
    DeletesOnUnpublishIff(name);
  }

  // ----- three guards as written and as evidently intended

  /** Whether the block target of `NodePublishVolume` is ready, as written:
      when `os.Lstat` finds nothing, the directory and the file are created
      with a new `err` that shadows the one the check after them reads, so
      that check sees the "not exist" error and fails the request even after
      the file was created. `stat` is what `os.Lstat` found, `dirErr` and
      `fileErr` the outcomes of creating the directory and the file. */
  function BlockTargetAsWritten(target: string, stat: PathStat, dirErr: Option<string>, fileErr: Option<string>): Option<string> {
    match stat
    case Present => None
    case StatFailed(msg) => Some("failed to check if the target block file exists: " + msg)
    case Absent =>
      if dirErr.Some? then dirErr
      else if fileErr.Some? then Some("failed to create target path: " + target + ": " + fileErr.value)
      else Some("failed to check if the target block file exists: lstat " + target + ": " + NoSuchFile)
  }

  /** The same check as evidently intended: a target created on the spot
      is ready. */
  function BlockTarget(target: string, stat: PathStat, dirErr: Option<string>, fileErr: Option<string>): (err: Option<string>)
    ensures err.None? <==> stat.Present? || (stat.Absent? && dirErr.None? && fileErr.None?)
    ensures !stat.Absent? || dirErr.Some? || fileErr.Some? ==> err == BlockTargetAsWritten(target, stat, dirErr, fileErr)
  {
    match stat
    case Present => None
    case StatFailed(msg) => Some("failed to check if the target block file exists: " + msg)
    case Absent =>
      if dirErr.Some? then dirErr
      else if fileErr.Some? then Some("failed to create target path: " + target + ": " + fileErr.value)
      else None
  }

  /** A block target that had to be created is refused as written: the
      first publish of a block volume onto a fresh target path fails, and
      only a retry, which finds the file, goes on. */
  lemma CreatedTargetRefused(target: string)
    ensures BlockTargetAsWritten(target, Absent, None, None).Some?
    ensures BlockTarget(target, Absent, None, None).None?
    ensures BlockTargetAsWritten(target, Present, None, None).None?
  {
  }

  /** The message of a failed ephemeral publish after the loop device was
      released, as written: the guard tests the mount error, which is set
      there, and then reads the release error, which is nil when the
      release succeeded, so the handler panics. */
  function RollbackMessageAsWritten(message: string, device: string, mountErr: Option<string>, releaseErr: Option<string>): Result<string> {
    if mountErr.Some? then
      if releaseErr.None? then Err(NilDereference)
      else Ok(message + "failed to unmount loop device " + device + " :" + releaseErr.value)
    else Ok(message)
  }

  /** The same message as evidently intended: the release error is added
      when there is one. */
  function RollbackMessage(message: string, device: string, releaseErr: Option<string>): (r: string)
    ensures HasPrefix(r, message)
    ensures releaseErr.None? ==> r == message
    ensures releaseErr.Some? ==> Ok(r) == RollbackMessageAsWritten(message, device, Some(""), releaseErr)
  {
    if releaseErr.Some? then message + "failed to unmount loop device " + device + " :" + releaseErr.value
    else message
  }

  /** Whenever the mount failed and the loop device was released, the
      message as written dereferences nil. */
  lemma RollbackPanicsAfterRelease(message: string, device: string, mountErr: string)
    ensures RollbackMessageAsWritten(message, device, Some(mountErr), None) == Err(NilDereference)
    ensures RollbackMessage(message, device, None) == message
  {
  }

  /** Whether `NodeUnpublishVolume` gives up after releasing the loop device
      of an ephemeral volume, as written: it tests the error of unmounting
      the target, which is nil at that point, instead of the release's. */
  predicate UnpublishStopsAsWritten(unmountErr: Option<string>, releaseErr: Option<string>) {
    unmountErr.Some?
  }

  /** The same guard as evidently intended. */
  predicate UnpublishStops(releaseErr: Option<string>) {
    releaseErr.Some?
  }

  /** As written, a failed release goes unnoticed and the volume is deleted
      while a loop device still holds its file. */
  lemma ReleaseFailureIgnored(msg: string)
    ensures !UnpublishStopsAsWritten(None, Some(msg))
    ensures UnpublishStops(Some(msg))
  {
  }

  // ----- what the node's log shows of a mount

  /** The mount `FormatAndMount` began at position `at` of the node's log
      took: the first, formatting mount, or the plain mount made after
      `blkid` confirmed the file system. */
  predicate MountSucceeded(log: seq<HostEvent>, at: nat, source: string, target: string, fsType: string, options: seq<string>) {
    (at < |log| && log[at] == HostEvent(MountCall(source, target, fsType, options, true), true))
    || (at + 2 < |log| && log[at + 2] == HostEvent(MountCall(source, target, fsType, options, false), true))
  }

  /** An event that is not a mount does not change what the log says of
      the mount at `at`. */
  lemma MountSucceededAppend(log: seq<HostEvent>, e: HostEvent, at: nat,
                             source: string, target: string, fsType: string, options: seq<string>)
    requires at < |log| && !e.call.MountCall?
    ensures MountSucceeded(log + [e], at, source, target, fsType, options) == MountSucceeded(log, at, source, target, fsType, options)
  {
    assert (log + [e])[at] == log[at];
    if at + 2 < |log| {
      assert (log + [e])[at + 2] == log[at + 2];
    }
  }

  /** A failed mount stays failed once the log goes on with something
      other than a mount: the events after the retry's slot do not count,
      and the slot itself, when the log had not reached it, is taken by
      `next`. */
  lemma MountFailureKept(mounted: seq<HostEvent>, log: seq<HostEvent>, at: nat, next: HostCall,
                         source: string, target: string, fsType: string, options: seq<string>)
    requires mounted <= log && at + 2 <= |mounted| < |log| && log[|mounted|].call == next && !next.MountCall?
    requires !MountSucceeded(mounted, at, source, target, fsType, options)
    ensures !MountSucceeded(log, at, source, target, fsType, options)
  {
    assert log[at] == mounted[at];
    if at + 2 < |mounted| {
      assert log[at + 2] == mounted[at + 2];
    }
  }

  /** From position `at` the node's log shows the block target of
      `NodePublishVolume` ready: `Lstat` found it, or found nothing and
      its directory and the file were then created. */
  predicate TargetReadyAt(log: seq<HostEvent>, at: nat, target: string) {
    (at < |log| && log[at] == HostEvent(Stat(target), true))
    || (at + 2 < |log| && log[at] == HostEvent(Stat(target), false)
        && log[at + 1] == HostEvent(MkdirAll(ParentDir(target)), true)
        && log[at + 2] == HostEvent(PrepareFile(target), true))
  }

  lemma TargetReadyGrows(a: seq<HostEvent>, b: seq<HostEvent>, at: nat, target: string)
    requires a <= b && TargetReadyAt(a, at, target)
    ensures TargetReadyAt(b, at, target)
  {
    assert b[..|a|] == a;
    if at + 2 < |a| {
      assert b[at] == a[at] && b[at + 1] == a[at + 1] && b[at + 2] == a[at + 2];
    } else {
      assert b[at] == a[at];
    }
  }

  /** The last event of the log is the probe that found `target` mounted
      already, or a bind mount of `device` on it that succeeded. */
  predicate BlockBound(log: seq<HostEvent>, device: string, target: string, options: seq<string>) {
    |log| > 0
    && (log[|log| - 1] == HostEvent(ProbeMount(target), true)
        || log[|log| - 1] == HostEvent(MountCall(device, target, "", options, false), true))
  }

  // ----- loop-table facts

  /** A list without repetitions has as many elements as its set. */
  lemma {:induction false} DistinctCount(devs: seq<string>)
    requires forall i, j :: 0 <= i < j < |devs| ==> devs[i] != devs[j]
    ensures |set d | d in devs| == |devs|
  {
    if devs != [] {
      var init := devs[..|devs| - 1];
      DistinctCount(init);
      assert (set d | d in devs) == (set d | d in init) + {devs[|devs| - 1]};
      assert devs[|devs| - 1] !in init;
    }
  }

  /** A file backed by exactly one device is listed as that device. */
  lemma {:induction false} SoleBinding(devs: seq<string>, loops: map<string, string>, file: string, dev: string)
    requires Enumerates(devs, loops, file)
    requires dev in loops && loops[dev] == file
    requires forall d :: d in loops && loops[d] == file ==> d == dev
    ensures devs == [dev]
  {
    DistinctCount(devs);
    assert (set d | d in devs) == {dev};
  }

  /** Detaching the only device of a file leaves the file unbound. */
  lemma {:induction false} DetachSole(devs: seq<string>, loops: map<string, string>, file: string)
    requires Enumerates(devs, loops, file) && |devs| == 1
    ensures !Bound(loops - {devs[0]}, file)
  {
    forall d | d in loops - {devs[0]}
      ensures (loops - {devs[0]})[d] != file
    {
      assert devs == [devs[0]];
      assert d !in devs;
    }
  }

  // ----- node information

  /** `NodeGetInfoResponse`. */
  datatype NodeInfo = NodeInfo(nodeId: string, maxVolumesPerNode: int, accessibleTopology: map<string, string>)

  /** The node's answer to `NodeGetInfo`. */
  function NodeInfoOf(nodeID: string, maxVolumesPerNode: int): (info: NodeInfo)
    ensures info.nodeId == nodeID && info.maxVolumesPerNode == maxVolumesPerNode
    ensures info.accessibleTopology.Keys == {TopologyKeyNode, TopologyKeyArStorEnabled}
    ensures info.accessibleTopology[TopologyKeyNode] == nodeID
    ensures info.accessibleTopology[TopologyKeyArStorEnabled] == "true"
  {
    NodeInfo(nodeID, maxVolumesPerNode, Topology(nodeID))
  }

  /** The answer the unit test expects of a node named "CSINodeID" with a
      limit of 1000 volumes. */
  lemma NodeInfoOfTestNode(nodeID: string)
    requires nodeID == "CSINodeID"
    ensures NodeInfoOf(nodeID, 1000) == NodeInfo(nodeID, 1000,
      map["topology.arstor.csi/node" := nodeID, "topology.arstor.csi/arstorenabled" := "true"])
  {
  }

  /** The capabilities `NodeGetCapabilities` advertises. */
  const NodeCapabilities: seq<NodeRpc> := [StageUnstageVolume, NodeExpandVolume]

  class NodeServer {
    const nodeID: string
    const ephemeral: bool
    const maxVolumesPerNode: int
    const client: ArStorClient
    const loopDevices: LoopDeviceManager
    const resizer: ResizeFs

    /** The catalog is consistent, and the loop-device manager and the
        file-system probe look at the same node as the catalog. */
    ghost predicate Valid()
      reads client, client.host
    {
      client.Valid() && client.host.Valid() && loopDevices.host == client.host && resizer.host == client.host
    }

    /** `NewNodeServer`. */
    constructor(nodeID: string, ephemeral: bool, maxVolumesPerNode: int, client: ArStorClient)
      requires client.Valid() && client.host.Valid()
      ensures Valid()
      ensures this.nodeID == nodeID && this.ephemeral == ephemeral && this.maxVolumesPerNode == maxVolumesPerNode
      ensures this.client == client
    {
      this.nodeID := nodeID;
      this.ephemeral := ephemeral;
      this.maxVolumesPerNode := maxVolumesPerNode;
      this.client := client;
      this.loopDevices := new LoopDeviceManager(client.host);
      this.resizer := new ResizeFs(client.host);
    }

    /** `NodeGetInfo`. */
    method NodeGetInfo() returns (info: NodeInfo)
      ensures info == NodeInfoOf(nodeID, maxVolumesPerNode)
    {
      info := NodeInfo(nodeID, maxVolumesPerNode, Topology(nodeID));
    }

    /** The catalog lookup the handlers share: a volume the catalog does not
        know is looked for again after reloading the catalog. */
    method CheckVolume(volumeId: string) returns (found: bool)
      requires Valid()
      modifies client, client.tool, client.host
      ensures Valid()
      ensures found <==> volumeId in client.volumes
      ensures volumeId in old(client.volumes) ==> client.State() == old(client.State())
      ensures old(client.host.log) <= client.host.log
      ensures client.host.loops == old(client.host.loops) && client.fullDirs == old(client.fullDirs)
      ensures forall id :: id in old(client.volumes) ==> id in client.volumes && client.volumes[id] == old(client.volumes)[id]
      ensures forall id :: id in old(client.snapshots) ==> id in client.snapshots && client.snapshots[id] == old(client.snapshots)[id]
    {
      if volumeId !in client.volumes {
        var loadErr := client.LoadArStorData();
      }
      found := volumeId in client.volumes;
    }

    /** `mountToLoopDevice`: the loop device bound to `volumeFile`, a free
        one being attached when there is none. `listed` is what `losetup -j`
        reported and `devs` the devices bound to the file beforehand. */
    method MountToLoopDevice(volumeFile: string) returns (r: Result<string>, ghost listed: Result<seq<string>>, ghost devs: seq<string>)
      requires Valid()
      modifies client.host
      ensures Valid()
      ensures Enumerates(devs, old(client.host.loops), volumeFile)
      ensures |client.host.log| > |old(client.host.log)|
      ensures client.host.log[..|old(client.host.log)| + 1] == old(client.host.log) + [HostEvent(Losetup(["-j", volumeFile]), listed.Ok?)]
      // the listing failed or shows several devices: an error, nothing attached
      ensures listed.Err? || (listed.Ok? && |listed.value| > 1) ==>
        r.Err? && client.host.loops == old(client.host.loops) && |client.host.log| == |old(client.host.log)| + 1
      // one device: that one, nothing attached
      ensures listed.Ok? && |listed.value| == 1 ==>
        r == Ok(listed.value[0]) && client.host.loops == old(client.host.loops) && |client.host.log| == |old(client.host.log)| + 1
      // none: one free-device query, then at most one attach, of the device returned
      ensures listed == Ok([]) ==> (
        |old(client.host.log)| + 2 <= |client.host.log| <= |old(client.host.log)| + 3
        && client.host.log[|old(client.host.log)| + 1].call == Losetup(["-f"])
        && (r.Ok? ==>
              client.host.log[|client.host.log| - 1] == HostEvent(Losetup([r.value, volumeFile]), true)
              && r.value !in old(client.host.loops)
              && client.host.loops == old(client.host.loops)[r.value := volumeFile])
        && (r.Err? ==> client.host.loops == old(client.host.loops)))
      // for a plain file the listing is exact, and the device returned backs the file
      ensures PlainFile(volumeFile) && listed.Ok? ==> |listed.value| == |devs| && (devs != [] ==> listed.value[0] == devs[0])
      ensures PlainFile(volumeFile) && r.Ok? ==> r.value in client.host.loops && client.host.loops[r.value] == volumeFile
    {
      var names;
      names, devs := loopDevices.ListLoopDeviceByFile(volumeFile);
      listed := names;
      if names.Err? {
        return Err(names.msg), listed, devs;
      }
      if |names.value| > 1 {
        return Err("the volume " + volumeFile + " has multiple loop devices: " + ShowList(names.value)), listed, devs;
      }
      if |names.value| == 1 {
        return Ok(names.value[0]), listed, devs;
      }
      ghost var printed;
      var free;
      free, printed := loopDevices.GetFreeLoopDevice();
      if free.Err? {
        return Err(free.msg), listed, devs;
      }
      var err := loopDevices.AttachLoopDevice(free.value, volumeFile);
      if err.Some? {
        return Err(err.value), listed, devs;
      }
      r := Ok(free.value);
    }

    /** Two `mountToLoopDevice` calls for a plain file no device backs: the
        first attaches a device, and the second finds that device and
        attaches nothing (unless its listing fails). */
    method MountTwice(volumeFile: string) returns (first: Result<string>, second: Result<string>)
      requires Valid() && PlainFile(volumeFile) && !Bound(client.host.loops, volumeFile)
      modifies client.host
      ensures Valid()
      ensures |client.host.log| >= |old(client.host.log)| + 2
      ensures first.Ok? ==> client.host.loops == old(client.host.loops)[first.value := volumeFile]
      ensures first.Ok? ==> second == first || client.host.log[|client.host.log| - 1] == HostEvent(Losetup(["-j", volumeFile]), false)
    {
      ghost var listed1, devs1, listed2, devs2;
      first, listed1, devs1 := MountToLoopDevice(volumeFile);
      ghost var between := client.host.loops;
      second, listed2, devs2 := MountToLoopDevice(volumeFile);
      if first.Ok? {
        DistinctCount(devs1);
        assert (set d | d in devs1) == {};
        SoleBinding(devs2, between, volumeFile, first.value);
      }
    }

    /** `unmountLoopDevice`: releases the loop device of a volume. A volume
        the catalog does not know even after a reload is looked for in
        `losetup -l` instead (`fallback`). Otherwise `file` is the volume's
        file, `listed` what `losetup -j` reported of it and `devs` the
        devices bound to it beforehand. */
    method UnmountLoopDevice(volumeId: string)
        returns (err: Option<string>, ghost fallback: bool, ghost file: string, ghost listed: Result<seq<string>>, ghost devs: seq<string>)
      requires Valid()
      modifies client, client.tool, client.host
      ensures Valid()
      ensures fallback <==> volumeId !in client.volumes
      ensures volumeId in old(client.volumes) ==> (
        client.volumes == old(client.volumes) && client.snapshots == old(client.snapshots)
        && client.fullDirs == old(client.fullDirs) && client.tool.log == old(client.tool.log))
      ensures forall id :: id in old(client.volumes) ==> id in client.volumes && client.volumes[id] == old(client.volumes)[id]
      ensures forall id :: id in old(client.snapshots) ==> id in client.snapshots && client.snapshots[id] == old(client.snapshots)[id]
      ensures old(client.host.log) <= client.host.log
      ensures client.fullDirs == old(client.fullDirs)
      // at most one device is released
      ensures client.host.loops == old(client.host.loops)
        || exists d :: d in old(client.host.loops) && client.host.loops == old(client.host.loops) - {d}
      ensures !fallback ==> (
        file == client.mountPath + client.volumes[volumeId].path
        && Enumerates(devs, old(client.host.loops), file)
        && (listed.Err? ==> err.Some? && client.host.loops == old(client.host.loops))
        && (listed == Ok([]) ==> err.None? && client.host.loops == old(client.host.loops))
        && (listed.Ok? && |listed.value| > 1 ==> err.Some? && client.host.loops == old(client.host.loops))
        && (listed.Ok? && |listed.value| == 1 && err.None? ==>
              listed.value[0] in old(client.host.loops) && client.host.loops == old(client.host.loops) - {listed.value[0]})
        && (listed.Ok? && |listed.value| == 1 && err.Some? ==> client.host.loops == old(client.host.loops)))
      // a released plain file is backed by no device
      ensures !fallback && PlainFile(file) && listed.Ok? ==> |listed.value| == |devs| && (devs != [] ==> listed.value[0] == devs[0])
      ensures !fallback && PlainFile(file) && err.None? ==> !Bound(client.host.loops, file)
    {
      fallback, file, listed, devs := false, "", Err(""), [];
      var found := CheckVolume(volumeId);
      if !found {
        fallback := true;
        var listing, device;
        err, listing, device := loopDevices.DetachLostLoopDeviceByVolumeId(volumeId);
        return;
      }
      var volumeFile := client.mountPath + client.volumes[volumeId].path;
      file := volumeFile;
      var names;
      names, devs := loopDevices.ListLoopDeviceByFile(volumeFile);
      listed := names;
      if names.Err? {
        return Some(names.msg), fallback, file, listed, devs;
      }
      if |names.value| == 0 {
        if PlainFile(volumeFile) {
          assert devs == [];
        }
        return None, fallback, file, listed, devs;
      }
      if |names.value| > 1 {
        return Some("the volume " + volumeFile + " has multiple loop devices: " + ShowList(names.value)), fallback, file, listed, devs;
      }
      ghost var before := client.host.loops;
      err := loopDevices.DetachLoopDevice(names.value[0]);
      if PlainFile(volumeFile) && err.None? {
        DetachSole(devs, before, volumeFile);
      }
    }

    /** `FormatAndMount`: formats `source` when it carries no file system and
        mounts it on `target`; when that fails, a plain mount is retried only
        if `blkid` reports the requested file system. `formatted` says the
        first attempt succeeded; `reply` is what `blkid` answered. */
    method FormatAndMount(source: string, target: string, fsType: string, options: seq<string>)
        returns (err: Option<string>, ghost formatted: bool, ghost reply: BlkidReply)
      requires Valid()
      modifies client.host
      ensures Valid()
      ensures client.host.loops == old(client.host.loops)
      ensures |client.host.log| > |old(client.host.log)|
        && client.host.log[|old(client.host.log)|] == HostEvent(MountCall(source, target, fsType, options, true), formatted)
      ensures formatted ==> err.None? && client.host.log == old(client.host.log) + [HostEvent(MountCall(source, target, fsType, options, true), true)]
      ensures !formatted ==> (
        |client.host.log| >= |old(client.host.log)| + 2
        && client.host.log[..|old(client.host.log)| + 2] == old(client.host.log)
             + [HostEvent(MountCall(source, target, fsType, options, true), false), HostEvent(Run(BlkidCommand(source)), reply.Printed?)])
      // a failed probe or another file system: an error, no second mount
      ensures !formatted && DiskFormat(reply) != Ok(fsType) ==> err.Some? && |client.host.log| == |old(client.host.log)| + 2
      // the requested file system: one plain mount, whose outcome is the answer
      ensures !formatted && DiskFormat(reply) == Ok(fsType) ==> (
        |client.host.log| == |old(client.host.log)| + 3
        && client.host.log[|old(client.host.log)| + 2] == HostEvent(MountCall(source, target, fsType, options, false), err.None?))
      // the answer is whether a mount took
      ensures err.None? <==> MountSucceeded(client.host.log, |old(client.host.log)|, source, target, fsType, options)
    {
      formatted, reply := true, ExitStatus(0, "");
      var mountErr := client.host.Mount(source, target, fsType, options, true);
      if mountErr.None? {
        return None, formatted, reply;
      }
      formatted := false;
      var errMessage := "FormatAndMount is failed with err " + mountErr.value + "\n";
      var format;
      format, reply := resizer.GetDiskFormat(source);
      if format.Err? {
        return Some(errMessage + "ResizeFS.Resize - error checking format for device " + source + ": " + format.msg), formatted, reply;
      }
      if format.value != fsType {
        return Some(errMessage + "the volume fsType is " + format.value + ", but mount fsType is " + fsType), formatted, reply;
      }
      var retryErr := client.host.Mount(source, target, fsType, options, false);
      if retryErr.Some? {
        return Some(errMessage + "Mount is failed with err " + retryErr.value), formatted, reply;
      }
      err := None;
    }

    /** The volume file attached to a loop device (`mountToLoopDevice`),
        then formatted if need be and mounted on `target`
        (`FormatAndMount`), as `NodeStageVolume` and the ephemeral part of
        `NodePublishVolume` both do. `mountAt` is where the mount begins in
        the node's log. */
    method AttachAndMount(volumeFile: string, target: string, fsType: string, options: seq<string>)
        returns (device: Result<string>, mountErr: Option<string>, ghost mountAt: nat)
      requires Valid()
      modifies client.host
      ensures Valid()
      ensures device.Err? ==> client.host.loops == old(client.host.loops) && mountErr.None?
      ensures device.Ok? && PlainFile(volumeFile) ==>
        device.value in client.host.loops && client.host.loops[device.value] == volumeFile
      ensures old(client.host.log) <= client.host.log
      ensures device.Ok? ==> (
        |old(client.host.log)| <= mountAt < |client.host.log|
        && client.host.log[mountAt].call == MountCall(device.value, target, fsType, options, true)
        && (mountErr.None? <==> MountSucceeded(client.host.log, mountAt, device.value, target, fsType, options)))
      // a failed mount was followed by the format check at least
      ensures device.Ok? && mountErr.Some? ==> mountAt + 2 <= |client.host.log|
    {
      mountAt := 0;
      ghost var listed, devs;
      device, listed, devs := MountToLoopDevice(volumeFile);
      if device.Err? {
        return device, None, mountAt;
      }
      mountAt := |client.host.log|;
      ghost var formatted, reply;
      mountErr, formatted, reply := FormatAndMount(device.value, target, fsType, options);
    }

    /** The file-system part of `NodeStageVolume`: unless something is
        mounted on the staging path already, the volume file is attached to
        a loop device, which is formatted if need be and mounted there; a
        failed mount removes the staging path. `device` is the loop device,
        once known, and `mountAt` where its mount begins in the node's log. */
    method MountStagingPath(volumeFile: string, stagingTargetPath: string, capability: Option<VolumeCapability>)
        returns (r: Reply<()>, ghost device: Option<string>, ghost mountAt: nat)
      requires Valid()
      modifies client.host
      ensures Valid()
      ensures r.Fail? ==> r.status.code == Internal
      ensures old(client.host.log) <= client.host.log
      // the device staged backs the file and was asked to hold the requested file system
      ensures device.Some? && PlainFile(volumeFile) ==>
        device.value in client.host.loops && client.host.loops[device.value] == volumeFile
      ensures device.Some? ==> (
        |old(client.host.log)| <= mountAt < |client.host.log|
        && client.host.log[mountAt].call == MountCall(device.value, stagingTargetPath, MountFsType(capability), MountFlags(capability), true))
      // success without a device: the probe answered and found the staging path mounted, and nothing else was asked
      ensures device.None? && r.Respond? ==> client.host.log == old(client.host.log) + [HostEvent(ProbeMount(stagingTargetPath), true)]
      // once the device is known, staging succeeds exactly when the mount took; otherwise the staging path is removed
      ensures device.Some? ==>
        (r.Respond? <==> MountSucceeded(client.host.log, mountAt, device.value, stagingTargetPath, MountFsType(capability), MountFlags(capability)))
      ensures device.Some? && r.Fail? ==> client.host.log[|client.host.log| - 1].call == Remove(stagingTargetPath)
      // without a device (a path mounted already, or a failure before the attach) the loop table is as it was
      ensures device.None? ==> client.host.loops == old(client.host.loops)
    {
      device, mountAt := None, 0;
      var notMnt := client.host.ProbeMountTarget(stagingTargetPath);
      if notMnt.Err? {
        return Fail(Status(Internal, notMnt.msg)), device, mountAt;
      }
      if !notMnt.value {
        return Respond(()), device, mountAt;
      }
      var fsType := MountFsType(capability);
      var options := MountFlags(capability);
      var loopDevice, mountErr;
      loopDevice, mountErr, mountAt := AttachAndMount(volumeFile, stagingTargetPath, fsType, options);
      if loopDevice.Err? {
        return Fail(Status(Internal, loopDevice.msg)), device, 0;
      }
      device := Some(loopDevice.value);
      if mountErr.Some? {
        ghost var mounted := client.host.log;
        var removed := client.host.DeleteFile(stagingTargetPath);
        MountSucceededAppend(mounted, client.host.log[|mounted|], mountAt, loopDevice.value, stagingTargetPath, fsType, options);
        assert client.host.log == mounted + [client.host.log[|mounted|]];
        assert client.host.log[mountAt] == mounted[mountAt];
        return Fail(Status(Internal, "failed to mount volume " + loopDevice.value + " to targetPath " + stagingTargetPath
          + ", mountOptions: " + ShowList(options) + ",err: " + mountErr.value)), device, mountAt;
      }
      r := Respond(());
    }

    /** `NodeStageVolume`: a file-system volume is attached to a loop device
        and formatted and mounted on the staging path; a block volume needs
        nothing. `device` is the loop device staged, when one was. */
    method NodeStageVolume(req: StageRequest) returns (r: Reply<()>, ghost device: Option<string>, ghost mountAt: nat)
      requires Valid()
      modifies client, client.tool, client.host
      ensures Valid()
      ensures StageArgsError(req).Some? ==> r == Fail(StageArgsError(req).value) && client.State() == old(client.State())
      ensures forall id :: id in old(client.volumes) ==> id in client.volumes && client.volumes[id] == old(client.volumes)[id]
      ensures StageArgsError(req).None? ==> (r.Fail? && r.status.code == NotFound <==> req.volumeId !in client.volumes)
      ensures r.Respond? ==> client.VolumeIsReady(req.volumeId)
      // a block volume: nothing attached, nothing mounted
      ensures req.capability.Some? && req.capability.value.access.BlockMode? ==> client.host.loops == old(client.host.loops) && device.None?
      ensures (StageArgsError(req).None? && req.capability.value.access.BlockMode? && old(client.VolumeIsReady(req.volumeId))) ==>
        r.Respond? && client.State() == old(client.State())
      // a staged device backs the volume's file and was asked to hold the requested file system
      ensures device.Some? ==> req.volumeId in client.volumes
      ensures device.Some? && PlainFile(client.mountPath + client.volumes[req.volumeId].path) ==>
        device.value in client.host.loops && client.host.loops[device.value] == client.mountPath + client.volumes[req.volumeId].path
      ensures old(client.host.log) <= client.host.log
      ensures device.Some? ==> (
        |old(client.host.log)| <= mountAt < |client.host.log|
        && client.host.log[mountAt].call == MountCall(device.value, req.stagingTargetPath, MountFsType(req.capability), MountFlags(req.capability), true))
      // once the device is known, staging succeeds exactly when the mount took; otherwise the staging path is removed
      ensures device.Some? ==>
        (r.Respond? <==> MountSucceeded(client.host.log, mountAt, device.value, req.stagingTargetPath, MountFsType(req.capability), MountFlags(req.capability)))
      ensures device.Some? && r.Fail? ==> client.host.log[|client.host.log| - 1].call == Remove(req.stagingTargetPath)
    {
      device, mountAt := None, 0;
      var argErr := StageArgsError(req);
      if argErr.Some? {
        return Fail(argErr.value), device, mountAt;
      }
      var found := CheckVolume(req.volumeId);
      ghost var checked := client.host.log;
      if !found {
        return Fail(Status(NotFound, "the volume " + req.volumeId + " is not found,")), device, mountAt;
      }
      var waitErr := client.WaitVolumeReady(req.volumeId);
      if waitErr.Some? {
        return Fail(Status(Internal, "Failed to WaitVolumeReady: " + waitErr.value)), device, mountAt;
      }
      var vol := client.volumes[req.volumeId];
      if req.capability.value.access.BlockMode? {
        return Respond(()), device, mountAt;
      }
      r, device, mountAt := MountStagingPath(client.mountPath + vol.path, req.stagingTargetPath, req.capability);
      PrefixTrans(old(client.host.log), checked, client.host.log);
    }

    /** `NodeUnstageVolume`: unmounts the staging path (or removes it when
        nothing is mounted there) and releases the volume's loop device.
        `probe` is what the mount-point probe of the staging path found and
        `cleared` the node's log once the staging path was unmounted or
        removed. */
    method NodeUnstageVolume(volumeId: string, stagingTargetPath: string)
        returns (r: Reply<()>, ghost probe: MountProbe, ghost cleared: seq<HostEvent>)
      requires Valid()
      modifies client, client.tool, client.host
      ensures Valid()
      ensures volumeId == "" ==> r == Fail(Status(InvalidArgument, "Volume Id not provided")) && client.State() == old(client.State())
      ensures volumeId != "" && stagingTargetPath == "" ==>
        r == Fail(Status(InvalidArgument, "NodeUnstageVolume Staging Target Path must be provided")) && client.State() == old(client.State())
      ensures forall id :: id in old(client.volumes) ==> id in client.volumes && client.volumes[id] == old(client.volumes)[id]
      ensures client.fullDirs == old(client.fullDirs)
      // a failed probe is INTERNAL, with nothing else asked
      ensures volumeId != "" && stagingTargetPath != "" && probe.ProbeFailed? ==>
        r == Fail(Status(Internal, probe.msg)) && client.host.log == old(client.host.log) + [HostEvent(ProbeMount(stagingTargetPath), false)]
        && client.host.loops == old(client.host.loops)
      // otherwise the staging path is removed when nothing is mounted there, and unmounted when something is
      ensures volumeId != "" && stagingTargetPath != "" && !probe.ProbeFailed? ==>
        |cleared| == |old(client.host.log)| + 2
        && cleared[..|old(client.host.log)| + 1] == old(client.host.log) + [HostEvent(ProbeMount(stagingTargetPath), probe.NotMounted? || probe.Mounted?)]
        && cleared[|old(client.host.log)| + 1].call == (if probe.NotMounted? then Remove(stagingTargetPath) else UnmountCall(stagingTargetPath))
      // a failed removal or unmount is INTERNAL, with nothing else asked
      ensures (volumeId != "" && stagingTargetPath != "" && !probe.ProbeFailed? && !cleared[|old(client.host.log)| + 1].ok) ==>
        r.Fail? && r.status.code == Internal && client.host.log == cleared && client.host.loops == old(client.host.loops)
      // success needs the staging path cleared
      ensures r.Respond? ==> !probe.ProbeFailed? && |cleared| == |old(client.host.log)| + 2 && cleared[|old(client.host.log)| + 1].ok
      // at most one device is released
      ensures client.host.loops == old(client.host.loops)
        || exists d :: d in old(client.host.loops) && client.host.loops == old(client.host.loops) - {d}
      // once unstaged, the file of a known volume is backed by no device
      ensures (r.Respond? && volumeId in old(client.volumes)
               && PlainFile(client.mountPath + old(client.volumes)[volumeId].path)) ==>
        !Bound(client.host.loops, client.mountPath + old(client.volumes)[volumeId].path)
    {
      probe, cleared := NotMounted, [];
      if volumeId == "" {
        return Fail(Status(InvalidArgument, "Volume Id not provided")), probe, cleared;
      }
      if stagingTargetPath == "" {
        return Fail(Status(InvalidArgument, "NodeUnstageVolume Staging Target Path must be provided")), probe, cleared;
      }
      var found := client.host.ProbeMountPoint(stagingTargetPath);
      probe := found;
      if found.ProbeFailed? {
        return Fail(Status(Internal, found.msg)), probe, cleared;
      }
      if found.NotMounted? {
        var removed := client.host.DeleteFile(stagingTargetPath);
        cleared := client.host.log;
        if removed.RemoveFailed? {
          return Fail(Status(Internal, removed.msg)), probe, cleared;
        }
      } else {
        var unmountErr := client.host.Unmount(stagingTargetPath);
        cleared := client.host.log;
        if unmountErr.Some? {
          return Fail(Status(Internal, unmountErr.value)), probe, cleared;
        }
      }
      ghost var fallback, file, listed, devs;
      var releaseErr;
      releaseErr, fallback, file, listed, devs := UnmountLoopDevice(volumeId);
      if releaseErr.Some? {
        return Fail(Status(Internal, releaseErr.value)), probe, cleared;
      }
      r := Respond(());
    }

    /** `NodePublishEphemeralVolume`: creates a 1 GiB volume named after the
        request, attaches it to a loop device and formats and mounts it on
        the target path. A failed mount is rolled back: the device is
        released and the volume deleted (`rolledBack`, with `deleteErr` the
        outcome of the deletion). `device` is the loop device, once known,
        and `mountErr` the answer of its mount (see `AttachAndMount`). */
    method NodePublishEphemeralVolume(req: PublishRequest)
        returns (r: Reply<()>, ghost rolledBack: bool, ghost deleteErr: Option<string>,
                 ghost device: Option<string>, ghost mountErr: Option<string>,
                 ghost mountAt: nat, ghost mountLog: seq<HostEvent>)
      requires Valid()
      modifies client, client.tool, client.host
      ensures Valid()
      ensures r.Respond? ==> (
        req.volumeId in client.volumes
        && client.volumes[req.volumeId].name == EphemeralPrefix + req.volumeId
        && client.volumes[req.volumeId].size == Gib
        && client.VolumeIsReady(req.volumeId))
      ensures rolledBack ==> r.Fail? && r.status.code == Internal
      ensures rolledBack && deleteErr.None? ==> req.volumeId !in client.volumes
      // the rollback happens exactly when the device was attached and its mount failed
      ensures rolledBack <==> device.Some? && mountErr.Some?
      ensures device.Some? && mountErr.None? ==> r.Respond?
      // the device was asked to hold the file system, and `mountErr` says whether a mount took
      ensures device.Some? ==> (
        old(client.host.log) <= mountLog && |old(client.host.log)| <= mountAt < |mountLog|
        && mountLog[mountAt].call == MountCall(device.value, req.targetPath, MountFsType(req.capability), MountFlags(req.capability), true)
        && (mountErr.None? <==> MountSucceeded(mountLog, mountAt, device.value, req.targetPath, MountFsType(req.capability), MountFlags(req.capability))))
      // success with a device: the mount took, and nothing followed it
      ensures r.Respond? && device.Some? ==>
        client.host.log == mountLog
        && MountSucceeded(client.host.log, mountAt, device.value, req.targetPath, MountFsType(req.capability), MountFlags(req.capability))
      // success without a device: the target was found mounted already, and the loop table is untouched
      ensures r.Respond? && device.None? ==>
        |client.host.log| > 0 && client.host.log[|client.host.log| - 1] == HostEvent(ProbeMount(req.targetPath), true)
        && client.host.loops == old(client.host.loops)
      // the failure reported after a rollback starts with the failed mount
      ensures rolledBack ==>
        HasPrefix(r.status.message, MountFailure(device.value, req.targetPath, MountFlags(req.capability), mountErr.value))
      // on the final log too: a rollback follows the mount and removes the target first, and happens exactly when no mount took
      ensures device.Some? ==> mountLog <= client.host.log
      ensures rolledBack ==> (
        |mountLog| < |client.host.log| && client.host.log[|mountLog|].call == Remove(req.targetPath)
        && !MountSucceeded(client.host.log, mountAt, device.value, req.targetPath, MountFsType(req.capability), MountFlags(req.capability)))
      ensures device.Some? && MountSucceeded(client.host.log, mountAt, device.value, req.targetPath, MountFsType(req.capability), MountFlags(req.capability)) ==>
        r.Respond?
    {
      rolledBack, deleteErr, device, mountErr, mountAt, mountLog := false, None, None, None, 0, [];
      var volName := EphemeralPrefix + req.volumeId;
      var request := VolumeRequest(volName, req.volumeId, 1 * Gib, "", MountAccess, true, 0);
      var createErr, created, mxDir;
      ghost var retried, firstErr;
      createErr, created, mxDir, retried, firstErr := client.CreateVolume(request);
      if createErr.Some? {
        return Fail(Status(Internal, EphemeralCreateError(volName, createErr.value))), rolledBack, deleteErr, device, mountErr, mountAt, mountLog;
      }
      r, rolledBack, deleteErr, device, mountErr, mountAt, mountLog := MountEphemeral(req.volumeId, client.volumes[req.volumeId], req.targetPath, req.capability);
    }

    /** The mount part of `NodePublishEphemeralVolume`, once the volume is
        filed: unless the target is mounted already, the volume file's loop
        device is formatted and mounted on it, and a failed mount rolled
        back. `mountAt` is where the mount begins in the node's log and
        `mountLog` that log as the mount left it. */
    method MountEphemeral(volumeId: string, vol: Volume, targetPath: string, capability: Option<VolumeCapability>)
        returns (r: Reply<()>, ghost rolledBack: bool, ghost deleteErr: Option<string>,
                 ghost device: Option<string>, ghost mountErr: Option<string>,
                 ghost mountAt: nat, ghost mountLog: seq<HostEvent>)
      requires Valid()
      modifies client, client.tool, client.host
      ensures Valid()
      ensures r.Respond? ==> client.volumes == old(client.volumes)
      // the device was asked to hold the file system, and `mountErr` says whether a mount took
      ensures device.Some? ==> (
        old(client.host.log) <= mountLog && |old(client.host.log)| <= mountAt < |mountLog|
        && mountLog[mountAt].call == MountCall(device.value, targetPath, MountFsType(capability), MountFlags(capability), true)
        && (mountErr.None? <==> MountSucceeded(mountLog, mountAt, device.value, targetPath, MountFsType(capability), MountFlags(capability))))
      // success with a device: the mount took, and nothing followed it
      ensures r.Respond? && device.Some? ==> (
        client.host.log == mountLog
        && MountSucceeded(client.host.log, mountAt, device.value, targetPath, MountFsType(capability), MountFlags(capability))
        && (PlainFile(client.mountPath + vol.path) ==>
              device.value in client.host.loops && client.host.loops[device.value] == client.mountPath + vol.path))
      // success without a device: the probe answered and found the target mounted, and nothing else was asked
      ensures r.Respond? && device.None? ==>
        client.host.log == old(client.host.log) + [HostEvent(ProbeMount(targetPath), true)]
        && client.host.loops == old(client.host.loops)
      ensures rolledBack ==> r.Fail? && r.status.code == Internal
      ensures rolledBack && deleteErr.None? ==> volumeId !in client.volumes
      ensures rolledBack <==> device.Some? && mountErr.Some?
      ensures device.Some? && mountErr.None? ==> r.Respond?
      ensures rolledBack ==>
        HasPrefix(r.status.message, MountFailure(device.value, targetPath, MountFlags(capability), mountErr.value))
      // `mountLog` is where the node's log stood once the mount was over: a rollback only adds to it, starting with the
      // removal of the target, so on the final log too the rollback happens exactly when no mount took
      ensures device.Some? ==> mountLog <= client.host.log
      ensures rolledBack ==> (
        |mountLog| < |client.host.log| && client.host.log[|mountLog|].call == Remove(targetPath)
        && !MountSucceeded(client.host.log, mountAt, device.value, targetPath, MountFsType(capability), MountFlags(capability)))
      ensures device.Some? && MountSucceeded(client.host.log, mountAt, device.value, targetPath, MountFsType(capability), MountFlags(capability)) ==>
        r.Respond?
    {
      rolledBack, deleteErr, device, mountErr, mountAt, mountLog := false, None, None, None, 0, [];
      var notMnt := client.host.ProbeMountTarget(targetPath);
      if notMnt.Err? {
        return Fail(Status(Internal, notMnt.msg)), rolledBack, deleteErr, device, mountErr, mountAt, mountLog;
      }
      if notMnt.value {
        var fsType := MountFsType(capability);
        var options := MountFlags(capability);
        ghost var probed := client.host.log;
        var loopDevice, err;
        loopDevice, err, mountAt := AttachAndMount(client.mountPath + vol.path, targetPath, fsType, options);
        mountErr := err;
        if loopDevice.Err? {
          return Fail(Status(Internal, loopDevice.msg)), rolledBack, deleteErr, device, mountErr, mountAt, mountLog;
        }
        device := Some(loopDevice.value);
        mountLog := client.host.log;
        PrefixTrans(old(client.host.log), probed, mountLog);
        if err.Some? {
          var message, releaseErr;
          message, deleteErr, releaseErr := RollBackEphemeral(volumeId, vol, loopDevice.value, targetPath, options, err.value);
          MountFailureKept(mountLog, client.host.log, mountAt, Remove(targetPath), loopDevice.value, targetPath, fsType, options);
          return Fail(Status(Internal, message)), true, deleteErr, device, mountErr, mountAt, mountLog;
        }
      }
      r := Respond(());
    }

    /** The rollback of `NodePublishEphemeralVolume` after a failed mount:
        the target is removed, the loop device released and the volume
        deleted; the message gathers what went wrong. */
    method RollBackEphemeral(volumeId: string, vol: Volume, loopDevice: string, targetPath: string, options: seq<string>, mountErr: string)
        returns (message: string, rmErr: Option<string>, releaseErr: Option<string>)
      requires Valid()
      modifies client, client.tool, client.host
      ensures Valid()
      ensures rmErr.None? ==> volumeId !in client.volumes
      // no other catalogued volume is touched
      ensures forall id :: id in old(client.volumes) && id != volumeId ==>
        id in client.volumes && client.volumes[id] == old(client.volumes)[id]
      // the message names the failed mount, then the failed release, then the failed deletion
      ensures HasPrefix(message, RollbackMessage(MountFailure(loopDevice, targetPath, options, mountErr), loopDevice, releaseErr))
      ensures rmErr.None? <==> message == RollbackMessage(MountFailure(loopDevice, targetPath, options, mountErr), loopDevice, releaseErr)
      // the node's log grows, first by the removal of the target
      ensures old(client.host.log) <= client.host.log && |old(client.host.log)| < |client.host.log|
        && client.host.log[|old(client.host.log)|].call == Remove(targetPath)
    {
      var removed := client.host.DeleteFile(targetPath);
      ghost var afterRemove := client.host.log;
      message := MountFailure(loopDevice, targetPath, options, mountErr);
      ghost var fallback, file, releaseListed, releaseDevs;
      releaseErr, fallback, file, releaseListed, releaseDevs := UnmountLoopDevice(vol.id);
      ghost var afterRelease := client.host.log;
      PrefixTrans(afterRemove[..|old(client.host.log)| + 1], afterRemove, afterRelease);
      message := RollbackMessage(message, loopDevice, releaseErr);
      ghost var base := message;
      rmErr := client.DeleteVolume(volumeId);
      PrefixTrans(afterRemove[..|old(client.host.log)| + 1], afterRelease, client.host.log);
      PrefixTrans(old(client.host.log), afterRemove[..|old(client.host.log)| + 1], client.host.log);
      if rmErr.Some? {
        message := message + "failed to delete volume path " + client.mountPath + vol.path + " :" + rmErr.value;
        assert message[..|base|] == base;
      }
    }

    function MountFailure(loopDevice: string, targetPath: string, options: seq<string>, mountErr: string): string {
      "failed to mount volume " + loopDevice + " to targetPath " + targetPath
        + ", mountOptions: " + ShowList(options) + ",err: " + mountErr
    }

    function EphemeralCreateError(volName: string, msg: string): string {
      "failed to create volume " + volName + ": " + msg
    }

    /** The messages of the block part of `NodePublishVolume`. */
    function MountCheckError(targetPath: string, msg: string): string {
      "error checking path " + targetPath + " for mount: " + msg
    }

    function RemoveTargetError(targetPath: string, msg: string): string {
      "Could not remove mount target \"" + targetPath + "\": " + msg
    }

    function BlockMountError(device: string, targetPath: string, msg: string): string {
      "failed to mount block device: " + device + " at " + targetPath + ": " + msg
    }

    /** The block part of `NodePublishVolume`: the volume file's loop device
        is bind-mounted on the target file, which is created when missing,
        unless something is mounted there already. `device` is the loop
        device, once known, and `bindAt` where its binding begins in the
        node's log. */
    method PublishBlock(volumeFile: string, targetPath: string, options: seq<string>)
        returns (r: Reply<()>, ghost device: Option<string>, ghost bindAt: nat)
      requires Valid()
      modifies client.host
      ensures Valid()
      ensures r.Fail? ==> r.status.code == Internal
      ensures r.Respond? ==> device.Some?
      ensures device.Some? && PlainFile(volumeFile) ==>
        device.value in client.host.loops && client.host.loops[device.value] == volumeFile
      ensures device.None? ==> client.host.loops == old(client.host.loops)
      // once the device is known, success means the target was made ready and then bound
      ensures device.Some? ==> bindAt <= |client.host.log|
      ensures device.Some? ==> (r.Respond? <==> (
        TargetReadyAt(client.host.log, bindAt, targetPath) && BlockBound(client.host.log, device.value, targetPath, options)))
    {
      device, bindAt := None, 0;
      ghost var listed, devs;
      var loopDevice;
      loopDevice, listed, devs := MountToLoopDevice(volumeFile);
      if loopDevice.Err? {
        return Fail(Status(Internal, loopDevice.msg)), device, bindAt;
      }
      device := Some(loopDevice.value);
      bindAt := |client.host.log|;
      r := BindBlockDevice(loopDevice.value, targetPath, options);
    }

    /** The block part of `NodePublishVolume` once the loop device is
        known: the target file is made when missing, and the device is
        bind-mounted on it unless something is mounted there already. */
    method BindBlockDevice(loopDevice: string, targetPath: string, options: seq<string>) returns (r: Reply<()>)
      modifies client.host
      ensures client.host.loops == old(client.host.loops)
      ensures r.Fail? ==> r.status.code == Internal
      ensures old(client.host.log) <= client.host.log
      // success: the target is ready, and then found mounted already or bind-mounted
      ensures r.Respond? <==> (
        TargetReadyAt(client.host.log, |old(client.host.log)|, targetPath) && BlockBound(client.host.log, loopDevice, targetPath, options))
      // a failed bind mount is followed by the removal of the target
      ensures forall n :: (|old(client.host.log)| <= n < |client.host.log|
                           && client.host.log[n] == HostEvent(MountCall(loopDevice, targetPath, "", options, false), false)) ==>
        n + 1 < |client.host.log| && client.host.log[n + 1].call == Remove(targetPath)
    {
      var targetErr := PrepareBlockTarget(targetPath);
      if targetErr.Some? {
        return Fail(Status(Internal, targetErr.value));
      }
      ghost var ready := client.host.log;
      r := BindOnTarget(loopDevice, targetPath, options);
      assert client.host.log[..|ready|] == ready;
      PrefixTrans(old(client.host.log), ready, client.host.log);
      TargetReadyGrows(ready, client.host.log, |old(client.host.log)|, targetPath);
      forall n | |old(client.host.log)| <= n < |ready|
        ensures !client.host.log[n].call.MountCall?
      {
        assert client.host.log[n] == ready[n];
      }
    }

    /** The target file of a block publish made ready: `os.Lstat`, and when
        it finds nothing the directory and the file are created; the check
        that follows is `BlockTarget`. */
    method PrepareBlockTarget(targetPath: string) returns (err: Option<string>)
      modifies client.host
      ensures client.host.loops == old(client.host.loops)
      ensures old(client.host.log) <= client.host.log && |old(client.host.log)| < |client.host.log|
      ensures err.None? <==> TargetReadyAt(client.host.log, |old(client.host.log)|, targetPath)
      ensures forall n :: |old(client.host.log)| <= n < |client.host.log| ==>
        client.host.log[n].call in {Stat(targetPath), MkdirAll(ParentDir(targetPath)), PrepareFile(targetPath)}
    {
      var stat := client.host.Lstat(targetPath);
      var dirErr, fileErr := None, None;
      if stat.Absent? {
        dirErr := client.host.EnsureDir(ParentDir(targetPath));
        if dirErr.None? {
          fileErr := client.host.EnsureFile(targetPath);
        }
      }
      err := BlockTarget(targetPath, stat, dirErr, fileErr);
    }

    /** The bind mount of a block publish on a ready target: nothing is
        done when the probe finds the target mounted already; a failed
        bind mount removes the target. */
    method BindOnTarget(loopDevice: string, targetPath: string, options: seq<string>) returns (r: Reply<()>)
      modifies client.host
      ensures client.host.loops == old(client.host.loops)
      ensures r.Fail? ==> r.status.code == Internal
      ensures old(client.host.log) <= client.host.log && |old(client.host.log)| < |client.host.log|
      ensures client.host.log[|old(client.host.log)|].call == ProbeMount(targetPath)
      ensures r.Respond? <==> BlockBound(client.host.log, loopDevice, targetPath, options)
      ensures forall n :: (|old(client.host.log)| <= n < |client.host.log|
                           && client.host.log[n] == HostEvent(MountCall(loopDevice, targetPath, "", options, false), false)) ==>
        n + 1 < |client.host.log| && client.host.log[n + 1].call == Remove(targetPath)
    {
      var probe := client.host.ProbeMountPoint(targetPath);
      if probe.ProbeFailed? || probe.Corrupted? {
        return Fail(Status(Internal, MountCheckError(targetPath, probe.msg)));
      }
      if probe.Mounted? {
        return Respond(());
      }
      var mountErr := client.host.Mount(loopDevice, targetPath, "", options, false);
      if mountErr.Some? {
        var removed := client.host.DeleteFile(targetPath);
        if !removed.Removed? {
          return Fail(Status(Internal, RemoveTargetError(targetPath, mountErr.value)));
        }
        return Fail(Status(Internal, BlockMountError(loopDevice, targetPath, mountErr.value)));
      }
      r := Respond(());
    }

    /** The file-system part of `NodePublishVolume`: unless something is
        mounted on the target already, the staging path is mounted there
        (`fsType` being the file system asked for); a failed mount removes
        the target. Loop devices are not involved. */
    method PublishMount(stagingTargetPath: string, targetPath: string, fsType: string, options: seq<string>) returns (r: Reply<()>)
      modifies client.host
      ensures client.host.loops == old(client.host.loops)
      ensures r.Fail? ==> r.status.code == Internal
      ensures old(client.host.log) <= client.host.log
      ensures |client.host.log| > |old(client.host.log)| && client.host.log[|old(client.host.log)|].call == ProbeMount(targetPath)
      ensures |client.host.log| > |old(client.host.log)| + 1 ==>
        client.host.log[|old(client.host.log)| + 1] == HostEvent(MountCall(stagingTargetPath, targetPath, fsType, options, false), r.Respond?)
    {
      var notMnt := client.host.ProbeMountTarget(targetPath);
      if notMnt.Err? {
        return Fail(Status(Internal, notMnt.msg));
      }
      if notMnt.value {
        var mountErr := client.host.Mount(stagingTargetPath, targetPath, fsType, options, false);
        if mountErr.Some? {
          var removed := client.host.DeleteFile(targetPath);
          return Fail(Status(Internal, mountErr.value));
        }
      }
      r := Respond(());
    }

    /** `NodePublishVolume`: after the argument checks, an ephemeral request
        goes to `NodePublishEphemeralVolume`; otherwise a block volume's loop
        device is bind-mounted on the target file and a file-system volume's
        staging path on the target directory. `device` is the loop device
        of a block volume, once known, and `publishAt` where the publishing
        of a catalogued, ready volume begins in the node's log. */
    method NodePublishVolume(req: PublishRequest) returns (r: Reply<()>, ghost device: Option<string>, ghost publishAt: Option<nat>)
      requires Valid()
      modifies client, client.tool, client.host
      ensures Valid()
      ensures PublishArgsError(req, ephemeral).Some? ==>
        r == Fail(PublishArgsError(req, ephemeral).value) && client.State() == old(client.State())
      // an ephemeral request publishes the volume created for it
      ensures (PublishArgsError(req, ephemeral).None? && IsEphemeralRequest(req.volumeContext, ephemeral) && r.Respond?) ==>
        req.volumeId in client.volumes && client.volumes[req.volumeId].name == EphemeralPrefix + req.volumeId
      // any other request publishes a volume the catalog holds, ready
      ensures PublishArgsError(req, ephemeral).None? && !IsEphemeralRequest(req.volumeContext, ephemeral) ==> (
        (forall id :: id in old(client.volumes) ==> id in client.volumes && client.volumes[id] == old(client.volumes)[id])
        && (r.Fail? && r.status.code == NotFound <==> req.volumeId !in client.volumes)
        && (r.Respond? ==> client.VolumeIsReady(req.volumeId)))
      // publishing a staged file system leaves the loop devices alone
      ensures (PublishArgsError(req, ephemeral).None? && !IsEphemeralRequest(req.volumeContext, ephemeral)
               && !req.capability.value.access.BlockMode?) ==> client.host.loops == old(client.host.loops)
      // a published block volume is backed by its loop device
      ensures (PublishArgsError(req, ephemeral).None? && !IsEphemeralRequest(req.volumeContext, ephemeral)
               && req.capability.value.access.BlockMode? && r.Respond?) ==>
        device.Some? && (PlainFile(client.mountPath + client.volumes[req.volumeId].path) ==>
          device.value in client.host.loops && client.host.loops[device.value] == client.mountPath + client.volumes[req.volumeId].path)
      // a block or file-system publish that succeeds went as far as the publishing itself
      ensures (PublishArgsError(req, ephemeral).None? && !IsEphemeralRequest(req.volumeContext, ephemeral)
               && (req.capability.value.access.BlockMode? || req.capability.value.access.MountMode?) && r.Respond?) ==>
        publishAt.Some?
      ensures publishAt.Some? ==> PublishArgsError(req, ephemeral).None? && req.capability.Some? && publishAt.value <= |client.host.log|
      // a block volume: once its device is known, success means the target was made ready and then bound
      ensures (publishAt.Some? && req.capability.value.access.BlockMode? && device.Some?) ==>
        (r.Respond? <==> (TargetReadyAt(client.host.log, publishAt.value, req.targetPath)
                          && BlockBound(client.host.log, device.value, req.targetPath, PublishOptions(req.readonly))))
      // a file-system volume: the target is probed, and a bind mount of the staging path, when asked for, decides the answer
      ensures (publishAt.Some? && req.capability.value.access.MountMode?) ==> (
        publishAt.value < |client.host.log| && client.host.log[publishAt.value].call == ProbeMount(req.targetPath)
        && (publishAt.value + 1 < |client.host.log| ==>
              client.host.log[publishAt.value + 1]
                == HostEvent(MountCall(req.stagingTargetPath, req.targetPath, MountFsType(req.capability), PublishOptions(req.readonly), false), r.Respond?)))
    {
      device, publishAt := None, None;
      var argErr := PublishArgsError(req, ephemeral);
      if argErr.Some? {
        return Fail(argErr.value), device, publishAt;
      }
      if IsEphemeralRequest(req.volumeContext, ephemeral) {
        ghost var rolledBack, deleteErr, ephemeralDevice, mountErr, mountAt, mountLog;
        r, rolledBack, deleteErr, ephemeralDevice, mountErr, mountAt, mountLog := NodePublishEphemeralVolume(req);
        return;
      }
      var found := CheckVolume(req.volumeId);
      if !found {
        return Fail(Status(NotFound, "the volume " + req.volumeId + " is not found,")), device, publishAt;
      }
      var waitErr := client.WaitVolumeReady(req.volumeId);
      if waitErr.Some? {
        return Fail(Status(Internal, "Failed to WaitVolumeReady: " + waitErr.value)), device, publishAt;
      }
      var vol := client.volumes[req.volumeId];
      var options := PublishOptions(req.readonly);
      if req.capability.value.access.BlockMode? {
        ghost var bindAt;
        r, device, bindAt := PublishBlock(client.mountPath + vol.path, req.targetPath, options);
        if device.Some? {
          publishAt := Some(bindAt);
        }
      } else if req.capability.value.access.MountMode? {
        publishAt := Some(|client.host.log|);
        r := PublishMount(req.stagingTargetPath, req.targetPath, MountFsType(req.capability), options);
      } else {
        r := Respond(());
      }
    }

    /** `NodeUnpublishVolume`: unmounts the target path (or removes it when
        nothing is mounted there); an ephemeral volume then has its loop
        device released and is deleted. `releaseErr` is the outcome of the
        release, when one was attempted, `probe` what the mount-point probe
        of the target found, and `unmounted` whether the target was then
        unmounted. */
    method NodeUnpublishVolume(volumeId: string, targetPath: string)
        returns (r: Reply<()>, ghost releaseErr: Option<Option<string>>, ghost probe: MountProbe, ghost unmounted: bool)
      requires Valid()
      modifies client, client.tool, client.host
      ensures Valid()
      ensures targetPath == "" ==>
        r == Fail(Status(InvalidArgument, "NodeUnpublishVolume Target Path must be provided")) && client.State() == old(client.State())
      ensures targetPath != "" && volumeId == "" ==>
        r == Fail(Status(InvalidArgument, "NodeUnpublishVolume volumeID must be provided")) && client.State() == old(client.State())
      // only a volume named as an ephemeral one is ever deleted
      ensures client.volumes == old(client.volumes)
        || (volumeId in old(client.volumes) && DeletesOnUnpublish(old(client.volumes)[volumeId].name)
            && client.volumes == old(client.volumes) - {volumeId})
      // and only once its loop device was released
      ensures client.volumes != old(client.volumes) ==> (
        releaseErr == Some(None)
        && (PlainFile(client.mountPath + old(client.volumes)[volumeId].path) ==>
              !Bound(client.host.loops, client.mountPath + old(client.volumes)[volumeId].path)))
      // a failed probe is INTERNAL
      ensures targetPath != "" && volumeId != "" && probe.ProbeFailed? ==>
        r == Fail(Status(Internal, probe.msg)) && client.volumes == old(client.volumes)
        && client.host.log == old(client.host.log) + [HostEvent(ProbeMount(targetPath), false)]
      // nothing mounted: the target is removed, a missing one counting as removed, and nothing else happens
      ensures targetPath != "" && volumeId != "" && probe.NotMounted? ==>
        client.volumes == old(client.volumes) && client.host.loops == old(client.host.loops)
        && client.host.log == old(client.host.log) + [HostEvent(ProbeMount(targetPath), true), HostEvent(Remove(targetPath), r.Respond?)]
      // a mount (or a corrupted one): a failed unmount is INTERNAL with nothing else done
      ensures targetPath != "" && volumeId != "" && (probe.Mounted? || probe.Corrupted?) && !unmounted ==>
        r.Fail? && r.status.code == Internal && client.volumes == old(client.volumes)
        && client.host.log == old(client.host.log) + [HostEvent(ProbeMount(targetPath), probe.Mounted?), HostEvent(UnmountCall(targetPath), false)]
      // a mount (or a corrupted one): the node's log goes on from the probe and the unmount, whose outcome is `unmounted`
      ensures targetPath != "" && volumeId != "" && (probe.Mounted? || probe.Corrupted?) ==>
        old(client.host.log) + [HostEvent(ProbeMount(targetPath), probe.Mounted?), HostEvent(UnmountCall(targetPath), unmounted)]
          <= client.host.log
      // a success after an unmount has deleted a volume named as an ephemeral one
      ensures r.Respond? && (probe.Mounted? || probe.Corrupted?) ==> unmounted
      ensures (r.Respond? && (probe.Mounted? || probe.Corrupted?) && volumeId in old(client.volumes)
               && DeletesOnUnpublish(old(client.volumes)[volumeId].name)) ==> volumeId !in client.volumes
    {
      releaseErr, probe, unmounted := None, NotMounted, false;
      if targetPath == "" {
        return Fail(Status(InvalidArgument, "NodeUnpublishVolume Target Path must be provided")), releaseErr, probe, unmounted;
      }
      if volumeId == "" {
        return Fail(Status(InvalidArgument, "NodeUnpublishVolume volumeID must be provided")), releaseErr, probe, unmounted;
      }
      var found := client.host.ProbeMountPoint(targetPath);
      probe := found;
      if found.ProbeFailed? {
        return Fail(Status(Internal, found.msg)), releaseErr, probe, unmounted;
      }
      if found.NotMounted? {
        var removed := client.host.DeleteFile(targetPath);
        if removed.RemoveFailed? {
          return Fail(Status(Internal, removed.msg)), releaseErr, probe, unmounted;
        }
        return Respond(()), releaseErr, probe, unmounted;
      }
      var unmountErr := client.host.Unmount(targetPath);
      unmounted := unmountErr.None?;
      ghost var unmountLog := client.host.log;
      if unmountErr.Some? {
        return Fail(Status(Internal, unmountErr.value)), releaseErr, probe, unmounted;
      }
      r, releaseErr := DeleteEphemeral(volumeId);
      PrefixTrans(old(client.host.log), unmountLog, client.host.log);
    }

    /** The end of `NodeUnpublishVolume`, once the target is unmounted: a
        catalogued volume named as an ephemeral one has its loop device
        released and is then deleted; any other volume is left alone.
        `releaseErr` is the outcome of the release, when one was asked. */
    method DeleteEphemeral(volumeId: string) returns (r: Reply<()>, ghost releaseErr: Option<Option<string>>)
      requires Valid()
      modifies client, client.tool, client.host
      ensures Valid()
      ensures old(client.host.log) <= client.host.log
      ensures r.Fail? ==> r.status.code == Internal
      // a volume not catalogued, or not named as an ephemeral one, is left alone
      ensures (volumeId !in old(client.volumes) || !DeletesOnUnpublish(old(client.volumes)[volumeId].name)) ==>
        r.Respond? && releaseErr.None? && client.State() == old(client.State())
      // only a volume named as an ephemeral one is ever deleted
      ensures client.volumes == old(client.volumes)
        || (volumeId in old(client.volumes) && DeletesOnUnpublish(old(client.volumes)[volumeId].name)
            && client.volumes == old(client.volumes) - {volumeId})
      // and only once its loop device was released
      ensures client.volumes != old(client.volumes) ==> (
        releaseErr == Some(None)
        && (PlainFile(client.mountPath + old(client.volumes)[volumeId].path) ==>
              !Bound(client.host.loops, client.mountPath + old(client.volumes)[volumeId].path)))
      // a success has deleted it
      ensures (r.Respond? && volumeId in old(client.volumes) && DeletesOnUnpublish(old(client.volumes)[volumeId].name)) ==>
        volumeId !in client.volumes
    {
      releaseErr := None;
      if volumeId in client.volumes {
        var vol := client.volumes[volumeId];
        if DeletesOnUnpublish(vol.name) {
          ghost var fallback, file, listed, devs;
          var e;
          e, fallback, file, listed, devs := UnmountLoopDevice(vol.id);
          ghost var released := client.host.log;
          releaseErr := Some(e);
          if UnpublishStops(e) {
            return Fail(Status(Internal, "failed to unmount the loop device of ephemeral volume" + vol.id + " :" + e.value)), releaseErr;
          }
          var rmErr := client.DeleteVolume(volumeId);
          PrefixTrans(old(client.host.log), released, client.host.log);
          if rmErr.Some? {
            return Fail(Status(Internal, "failed to delete ephemeral volume path " + client.mountPath + vol.path + " :" + rmErr.value)), releaseErr;
          }
        }
      }
      r := Respond(());
    }
  }
}
