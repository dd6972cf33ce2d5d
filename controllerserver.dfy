/** The controller service: capability gating, the argument checks of each
    handler, and the dispatch of volume and snapshot requests to the
    catalog. Unique ids and the clock are parameters of the handlers. */
module ControllerServer {
  import opened Common
  import opened GoStrings
  import opened Types
  import opened Utils
  import opened Backend
  import opened Host
  import opened Csi
  import opened ArStor
  import opened LoopDevice

  /** The RPCs a controller with a catalog advertises, in its own order. */
  const ControllerRpcs: seq<ControllerRpc> :=
    [CreateDeleteVolume, CreateDeleteSnapshot, ListSnapshots, ListVolumes, CloneVolume, ExpandVolume]

  /** `caps` advertises the RPC `c`. */
  predicate Advertises(caps: seq<ControllerCapability>, c: ControllerRpc) {
    exists i :: 0 <= i < |caps| && caps[i].rpc == c
  }

  /** `getControllerServiceCapabilities`: one capability per RPC type, in
      the order given. */
  method GetControllerServiceCapabilities(cl: seq<ControllerRpc>) returns (csc: seq<ControllerCapability>)
    ensures |csc| == |cl|
    ensures forall i :: 0 <= i < |cl| ==> csc[i].rpc == cl[i]
  {
    csc := [];
    for i := 0 to |cl|
      invariant |csc| == i
      invariant forall k :: 0 <= k < i ==> csc[k].rpc == cl[k]
    {
      csc := csc + [ControllerCapability(cl[i])];
    }
  }

  /** The loop both validators run: UNKNOWN needs no capability, any other
      RPC must be advertised. */
  method Supports(caps: seq<ControllerCapability>, c: ControllerRpc) returns (ok: bool)
    ensures ok <==> c == RpcUnknown || Advertises(caps, c)
  {
    if c == RpcUnknown {
      return true;
    }
    for i := 0 to |caps|
      invariant forall k :: 0 <= k < i ==> caps[k].rpc != c
    {
      if caps[i].rpc == c {
        return true;
      }
    }
    return false;
  }

  /** Which requests a controller accepts: with a catalog, every RPC but
      the publish, capacity and read-only ones; without one, only UNKNOWN. */
  lemma {:induction false} AcceptedRpcs(ephemeral: bool, caps: seq<ControllerCapability>, c: ControllerRpc)
    requires |caps| == |if ephemeral then [] else ControllerRpcs|
    requires forall i :: 0 <= i < |caps| ==> caps[i].rpc == (if ephemeral then [] else ControllerRpcs)[i]
    ensures c == RpcUnknown || Advertises(caps, c) <==>
      c == RpcUnknown || (!ephemeral && !c.PublishUnpublishVolume? && !c.GetCapacity? && !c.PublishReadonly?)
  {
    if !ephemeral && c != RpcUnknown && !c.PublishUnpublishVolume? && !c.GetCapacity? && !c.PublishReadonly? {
      var i := if c.CreateDeleteVolume? then 0 else if c.CreateDeleteSnapshot? then 1
        else if c.ListSnapshots? then 2 else if c.ListVolumes? then 3 else if c.CloneVolume? then 4 else 5;
      assert caps[i].rpc == c;
    }
  }

  // ----- CreateVolume

  datatype CreateVolumeRequest = CreateVolumeRequest(
    name: string,
    capacityRange: Option<CapacityRange>,
    /** Empty when the request carries none: protobuf decodes an empty
        repeated field as nil. */
    capabilities: seq<VolumeCapability>,
    parameters: map<string, string>,
    contentSource: ContentSource)

  /** Some capability asks for a raw block device. */
  predicate AsksBlock(caps: seq<VolumeCapability>) {
    exists i :: 0 <= i < |caps| && caps[i].access.BlockMode?
  }

  /** Some capability asks for a mounted file system. */
  predicate AsksMount(caps: seq<VolumeCapability>) {
    exists i :: 0 <= i < |caps| && caps[i].access.MountMode?
  }

  /** The loop of `CreateVolume` that records the requested access types. */
  method RequestedAccessTypes(caps: seq<VolumeCapability>) returns (block: bool, mount: bool)
    ensures block <==> AsksBlock(caps)
    ensures mount <==> AsksMount(caps)
  {
    block, mount := false, false;
    for i := 0 to |caps|
      invariant block <==> exists k :: 0 <= k < i && caps[k].access.BlockMode?
      invariant mount <==> exists k :: 0 <= k < i && caps[k].access.MountMode?
    {
      if caps[i].access.BlockMode? {
        block := true;
      }
      if caps[i].access.MountMode? {
        mount := true;
      }
    }
  }

  /** The access type a new volume is created with: block when any
      capability asks for it, mount otherwise. */
  function AccessTypeOf(caps: seq<VolumeCapability>): (t: AccessType)
    ensures t == BlockAccess || t == MountAccess
    ensures t == BlockAccess <==> AsksBlock(caps)
  {
    if AsksBlock(caps) then BlockAccess else MountAccess
  }

  /** The argument checks of `CreateVolume`, in the handler's order. */
  function CreateVolumeArgsError(req: CreateVolumeRequest): (err: Option<Status>)
    ensures err.None? <==>
      req.name != "" && req.capabilities != [] && !(AsksBlock(req.capabilities) && AsksMount(req.capabilities))
      && RequiredBytes(req.capacityRange) < Tib
    ensures err.Some? ==> err.value.code == InvalidArgument || err.value.code == OutOfRange
    ensures err.Some? && err.value.code == OutOfRange <==>
      req.name != "" && req.capabilities != [] && !(AsksBlock(req.capabilities) && AsksMount(req.capabilities))
      && RequiredBytes(req.capacityRange) >= Tib
  {
    if req.name == "" then Some(Status(InvalidArgument, "Name missing in request"))
    else if req.capabilities == [] then Some(Status(InvalidArgument, "Volume Capabilities missing in request"))
    else if AsksBlock(req.capabilities) && AsksMount(req.capabilities) then
      Some(Status(InvalidArgument, "cannot have both block and mount access type"))
    else if RequiredBytes(req.capacityRange) >= Tib then
      Some(Status(OutOfRange, "Requested capacity " + FormatInt(RequiredBytes(req.capacityRange))
                              + " exceeds maximum allowed " + FormatInt(Tib)))
    else None
  }

  /** The message of a volume that could not be filed; `how` names the
      content source. */
  function FileVolumeError(volumeID: string, how: string, msg: string): string {
    "failed to create volume " + volumeID + how + ": " + msg
  }

  /** The answer to a request whose name a catalogued volume already has:
      that volume when it is at least as large as asked, else
      ALREADY_EXISTS. */
  function ReuseReply(existing: Volume, req: CreateVolumeRequest, nodeID: string): (r: Reply<CsiVolume>)
    ensures r.Respond? <==> existing.size >= RequiredBytes(req.capacityRange)
    ensures r.Respond? ==> r.response.volumeId == existing.id && r.response.capacityBytes == existing.size
                           && r.response.contentSource == NoSource
    ensures r.Fail? ==> r.status.code == AlreadyExists
  {
    if existing.size >= RequiredBytes(req.capacityRange) then
      Respond(CsiVolume(existing.id, existing.size, req.parameters, NoSource, [Topology(nodeID)]))
    else
      Fail(Status(AlreadyExists, "Volume with the same name: " + req.name + " but with different size already exist"))
  }

  /** `id` is now catalogued as a volume with this name and size, and no
      other entry changed. */
  ghost predicate Filed(before: map<string, Volume>, after: map<string, Volume>, id: string, name: string, size: int) {
    id in after && after[id].id == id && after[id].name == name && after[id].size == size
    && after == before[id := after[id]]
  }

  // ----- snapshots

  datatype CreateSnapshotRequest = CreateSnapshotRequest(name: string, sourceVolumeId: string)

  /** How a catalogued snapshot is reported: not ready while it has no
      file yet. */
  function SnapshotReply(s: Snapshot): (r: CsiSnapshot)
    ensures r.snapshotId == s.id && r.sourceVolumeId == s.volumeId
    ensures r.creationTime == s.creationTime && r.sizeBytes == s.size
    ensures r.readyToUse <==> s.readyToUse && s.path != ""
  {
    CsiSnapshot(s.id, s.volumeId, s.creationTime, s.size, if s.path == "" then false else s.readyToUse)
  }

  // ----- listing

  datatype VolumeEntry = VolumeEntry(volumeId: string, capacityBytes: int)

  /** `order` lists each key of `m` once. */
  ghost predicate ListsKeys<V>(order: seq<string>, m: map<string, V>) {
    (forall i, j :: 0 <= i < j < |order| ==> order[i] != order[j])
    && (forall id :: id in order <==> id in m)
  }

  /** A listing that reads every entry's creation time through one shared
      variable reports the same time for all of them: when two snapshots
      were taken at different times, some entry is reported wrongly. */
  lemma SharedTimeMisreports(snapshots: map<string, Snapshot>, order: seq<string>, entries: seq<CsiSnapshot>, a: string, b: string)
    requires ListsKeys(order, snapshots) && |entries| == |order|
    requires forall i :: 0 <= i < |entries| ==> entries[i].creationTime == entries[|entries| - 1].creationTime
    requires a in snapshots && b in snapshots && snapshots[a].creationTime != snapshots[b].creationTime
    ensures exists i :: 0 <= i < |order| && entries[i].creationTime != snapshots[order[i]].creationTime
  {
    var i :| 0 <= i < |order| && order[i] == a;
    var j :| 0 <= j < |order| && order[j] == b;
    if entries[i].creationTime == snapshots[a].creationTime {
      assert entries[j].creationTime != snapshots[order[j]].creationTime;
    }
  }

  datatype ExpandReply = ExpandReply(capacityBytes: int, nodeExpansionRequired: bool)

  datatype ValidateVolumeCapabilitiesRequest = ValidateVolumeCapabilitiesRequest(
    volumeId: string,
    capabilities: seq<VolumeCapability>,
    volumeContext: map<string, string>,
    parameters: map<string, string>)

  datatype Confirmed = Confirmed(
    volumeContext: map<string, string>,
    capabilities: seq<VolumeCapability>,
    parameters: map<string, string>)

  /** `ValidateVolumeCapabilities`: confirms the request as given when the
      id is set and every capability names an access type. Whether the
      volume exists is not looked at. */
  function ValidateVolumeCapabilities(req: ValidateVolumeCapabilitiesRequest): (r: Reply<Confirmed>)
    ensures r.Respond? <==> req.volumeId != "" && req.capabilities != []
                            && forall i :: 0 <= i < |req.capabilities| ==> !req.capabilities[i].access.NoAccessMode?
    ensures r.Respond? ==> r.response == Confirmed(req.volumeContext, req.capabilities, req.parameters)
    ensures r.Fail? ==> r.status.code == InvalidArgument
  {
    if req.volumeId == "" then Fail(Status(InvalidArgument, "Volume ID cannot be empty"))
    else if req.capabilities == [] then Fail(Status(InvalidArgument, req.volumeId))
    else if exists i :: 0 <= i < |req.capabilities| && req.capabilities[i].access.NoAccessMode? then
      Fail(Status(InvalidArgument, "cannot have both mount and block access type be undefined"))
    else Respond(Confirmed(req.volumeContext, req.capabilities, req.parameters))
  }

  class ControllerServer {
    const caps: seq<ControllerCapability>
    const nodeID: string
    const client: ArStorClient
    const loopDevices: LoopDeviceManager

    /** The catalog is consistent and the loop-device manager looks at the
        same node as the catalog. */
    ghost predicate Valid()
      reads client, client.host
    {
      client.Valid() && client.host.Valid() && loopDevices.host == client.host
    }

    /** `NewControllerServer`: an ephemeral controller advertises nothing. */
    constructor(ephemeral: bool, nodeID: string, client: ArStorClient)
      requires client.Valid() && client.host.Valid()
      ensures Valid()
      ensures this.nodeID == nodeID && this.client == client
      ensures forall c :: c == RpcUnknown || Advertises(caps, c) <==>
        c == RpcUnknown || (!ephemeral && !c.PublishUnpublishVolume? && !c.GetCapacity? && !c.PublishReadonly?)
    {
      var cl := if ephemeral then [] else ControllerRpcs;
      var csc := GetControllerServiceCapabilities(cl);
      this.caps := csc;
      this.nodeID := nodeID;
      this.client := client;
      this.loopDevices := new LoopDeviceManager(client.host);
      new;
      forall c: ControllerRpc
        ensures c == RpcUnknown || Advertises(caps, c) <==>
          c == RpcUnknown || (!ephemeral && !c.PublishUnpublishVolume? && !c.GetCapacity? && !c.PublishReadonly?)
      {
        AcceptedRpcs(ephemeral, caps, c);
      }
    }

    /** `ValidateControllerServiceRequest`: the error names the RPC. */
    method ValidateControllerServiceRequest(c: ControllerRpc) returns (err: Option<Status>)
      ensures err.None? <==> c == RpcUnknown || Advertises(caps, c)
      ensures err.Some? ==> err.value == Status(InvalidArgument, RpcName(c))
    {
      var ok := Supports(caps, c);
      err := if ok then None else Some(Status(InvalidArgument, RpcName(c)));
    }

    /** `validateControllerServiceRequest`, the check the handlers use. */
    method ValidateRequest(c: ControllerRpc) returns (err: Option<Status>)
      ensures err.None? <==> c == RpcUnknown || Advertises(caps, c)
      ensures err.Some? ==> err.value == Status(InvalidArgument, "unsupported capability " + RpcName(c))
    {
      var ok := Supports(caps, c);
      err := if ok then None else Some(Status(InvalidArgument, "unsupported capability " + RpcName(c)));
    }

    /** `CreateVolume`. After the capability gate and the argument checks,
        a name already in the catalog is answered from the catalog;
        otherwise the volume `volumeID` is created empty, from a snapshot
        or from a volume. A content source naming neither is answered as
        created although nothing was. `sent` is the request given to the
        catalog. */
    method CreateVolume(req: CreateVolumeRequest, volumeID: string, now: Timestamp)
      returns (r: Reply<CsiVolume>, ghost sent: VolumeRequest)
      requires Valid()
      modifies client, client.tool, client.host
      ensures Valid()
      ensures client.host.loops == old(client.host.loops)
      ensures !Advertises(caps, CreateDeleteVolume) ==>
        r == Fail(Status(InvalidArgument, "unsupported capability " + RpcName(CreateDeleteVolume))) && client.State() == old(client.State())
      ensures Advertises(caps, CreateDeleteVolume) && CreateVolumeArgsError(req).Some? ==>
        r == Fail(CreateVolumeArgsError(req).value) && client.State() == old(client.State())
      // a name already taken
      ensures (Advertises(caps, CreateDeleteVolume) && CreateVolumeArgsError(req).None?
               && HasVolumeNamed(old(client.volumes), req.name)) ==> (
        client.State() == old(client.State())
        && exists id :: id in client.volumes && client.volumes[id].name == req.name
                        && r == ReuseReply(client.volumes[id], req, nodeID))
      // a new volume
      ensures (Advertises(caps, CreateDeleteVolume) && CreateVolumeArgsError(req).None?
               && !HasVolumeNamed(old(client.volumes), req.name)) ==> (
        sent == VolumeRequest(req.name, volumeID, RequiredBytes(req.capacityRange), "",
                              AccessTypeOf(req.capabilities), false, 0)
        && (r.Respond? ==>
              r.response == CsiVolume(volumeID, RequiredBytes(req.capacityRange), req.parameters,
                                      req.contentSource, [Topology(nodeID)]))
        && (r.Fail? ==> r.status.code == Internal)
        && (req.contentSource == EmptySource ==> r.Respond? && client.State() == old(client.State()))
        && (r.Respond? && req.contentSource != EmptySource ==>
              Filed(old(client.volumes), client.volumes, volumeID, req.name, RequiredBytes(req.capacityRange))))
      ensures (Advertises(caps, CreateDeleteVolume) && CreateVolumeArgsError(req).None?
               && !HasVolumeNamed(old(client.volumes), req.name) && r.Fail?
               && (req.contentSource.NoSource? || req.contentSource.FromSnapshot?)) ==>
        client.volumes == old(client.volumes) || client.volumes == old(client.volumes) - {volumeID}
    {
      sent := VolumeRequest("", "", 0, "", MountAccess, false, 0);
      var invalid := ValidateRequest(CreateDeleteVolume);
      if invalid.Some? {
        return Fail(invalid.value), sent;
      }
      if req.name == "" {
        return Fail(Status(InvalidArgument, "Name missing in request")), sent;
      }
      if req.capabilities == [] {
        return Fail(Status(InvalidArgument, "Volume Capabilities missing in request")), sent;
      }
      var block, mount := RequestedAccessTypes(req.capabilities);
      if block && mount {
        return Fail(Status(InvalidArgument, "cannot have both block and mount access type")), sent;
      }
      var accessType := if block then BlockAccess else MountAccess;
      var capacity := RequiredBytes(req.capacityRange);
      if capacity >= Tib {
        return Fail(Status(OutOfRange, "Requested capacity " + FormatInt(capacity)
                                       + " exceeds maximum allowed " + FormatInt(Tib))), sent;
      }
      var topologies := [Topology(nodeID)];
      var existing := GetVolumeByName(client.volumes, req.name);
      if existing.Some? {
        r := ReuseReply(existing.value, req, nodeID);
        return r, sent;
      }
      var request := VolumeRequest(req.name, volumeID, capacity, "", accessType, false, 0);
      sent := request;
      r := FileVolume(req.contentSource, request, req.parameters, now);
    }

    /** The second half of `CreateVolume`: the volume is filed from nothing,
        from a snapshot or from another volume, as the content source says,
        and described with the node's topology. */
    method FileVolume(source: ContentSource, request: VolumeRequest, parameters: map<string, string>, now: Timestamp) returns (r: Reply<CsiVolume>)
      requires Valid()
      modifies client, client.tool, client.host
      ensures Valid()
      ensures client.host.loops == old(client.host.loops)
      ensures r.Respond? ==>
        r.response == CsiVolume(request.volId, request.volSize, parameters, source, [Topology(nodeID)])
      ensures r.Fail? ==> r.status.code == Internal
      ensures source == EmptySource ==> r.Respond? && client.State() == old(client.State())
      ensures r.Respond? && source != EmptySource ==>
        Filed(old(client.volumes), client.volumes, request.volId, request.volName, request.volSize)
      ensures r.Fail? && (source.NoSource? || source.FromSnapshot?) ==>
        client.volumes == old(client.volumes) || client.volumes == old(client.volumes) - {request.volId}
    {
      var volumeID := request.volId;
      match source {
        case NoSource =>
          var err, out, mxDir, retried, firstErr := client.CreateVolume(request);
          if err.Some? {
            return Fail(Status(Internal, FileVolumeError(volumeID, "", err.value)));
          }
        case FromSnapshot(snapshotId) =>
          var err, out, mxDir, retried, firstErr := client.RestoreSnapshot(snapshotId, request);
          if err.Some? {
            return Fail(Status(Internal, FileVolumeError(volumeID, " form snapshot", err.value)));
          }
        case FromVolume(srcVolumeId) =>
          var err, out, mxDir := client.CloneVolume(srcVolumeId, request, now);
          if err.Some? {
            return Fail(Status(Internal, FileVolumeError(volumeID, " from volume", err.value)));
          }
        case EmptySource =>
      }
      r := Respond(CsiVolume(volumeID, request.volSize, parameters, source, [Topology(nodeID)]));
    }

    /** `DeleteVolume`. An unknown id counts as deleted; a volume whose file
        is still bound to a loop device is refused, since a node still
        uses it. */
    method DeleteVolume(volumeId: string) returns (r: Reply<()>)
      requires Valid()
      modifies client, client.tool, client.host
      ensures Valid()
      ensures client.host.loops == old(client.host.loops)
      ensures volumeId == "" ==> r == Fail(Status(InvalidArgument, "Volume ID missing in request")) && client.State() == old(client.State())
      ensures volumeId != "" && !Advertises(caps, CreateDeleteVolume) ==>
        r == Fail(Status(InvalidArgument, "unsupported capability " + RpcName(CreateDeleteVolume))) && client.State() == old(client.State())
      ensures volumeId != "" && Advertises(caps, CreateDeleteVolume) && volumeId !in old(client.volumes) ==>
        r.Respond? && client.State() == old(client.State())
      ensures r.Respond? ==> volumeId !in client.volumes && client.volumes == old(client.volumes) - {volumeId}
      ensures (volumeId in old(client.volumes) && volumeId != ""
               && Bound(old(client.host.loops), client.mountPath + old(client.volumes)[volumeId].path)
               && Lacks(client.mountPath + old(client.volumes)[volumeId].path, ':')
               && !GoStrings.Contains(client.mountPath + old(client.volumes)[volumeId].path, "loop")) ==> (
        r.Fail? && client.volumes == old(client.volumes) && client.snapshots == old(client.snapshots)
        && client.fullDirs == old(client.fullDirs) && client.tool.log == old(client.tool.log))
      ensures r.Fail? ==> client.volumes == old(client.volumes) || client.volumes == old(client.volumes) - {volumeId}
    {
      if volumeId == "" {
        return Fail(Status(InvalidArgument, "Volume ID missing in request"));
      }
      var invalid := ValidateRequest(CreateDeleteVolume);
      if invalid.Some? {
        return Fail(invalid.value);
      }
      if volumeId !in client.volumes {
        return Respond(());
      }
      var volumeFile := client.mountPath + client.volumes[volumeId].path;
      var devices, devs := loopDevices.ListLoopDeviceByFile(volumeFile);
      if devices.Err? {
        return Fail(Status(Unknown, devices.msg));
      }
      if Bound(old(client.host.loops), volumeFile) && Lacks(volumeFile, ':') && !GoStrings.Contains(volumeFile, "loop") {
        var d :| d in client.host.loops && client.host.loops[d] == volumeFile;
        assert d in devs;
      }
      if |devices.value| > 0 {
        return Fail(Status(Unknown, "the volume " + volumeFile + " has loop devices, wait for node server deatch loopdevice"));
      }
      var err := client.DeleteVolume(volumeId);
      if err.Some? {
        return Fail(Status(Internal, "failed to delete volume " + volumeId + ": " + err.value));
      }
      r := Respond(());
    }

    /** `CreateSnapshot`. A name already in the catalog is answered from
        the catalog as it stands, whichever volume the request names;
        otherwise the snapshot `snapshotID` of the source volume is taken
        at `now`. */
    method CreateSnapshot(req: CreateSnapshotRequest, snapshotID: string, now: Timestamp) returns (r: Reply<CsiSnapshot>)
      requires Valid()
      modifies client, client.tool, client.host
      ensures Valid()
      ensures client.host.loops == old(client.host.loops)
      ensures client.volumes == old(client.volumes)
      ensures !Advertises(caps, CreateDeleteSnapshot) ==>
        r == Fail(Status(InvalidArgument, "unsupported capability " + RpcName(CreateDeleteSnapshot))) && client.State() == old(client.State())
      ensures Advertises(caps, CreateDeleteSnapshot) && (req.name == "" || req.sourceVolumeId == "") ==>
        r.Fail? && r.status.code == InvalidArgument && client.State() == old(client.State())
      ensures (Advertises(caps, CreateDeleteSnapshot) && req.name != "" && req.sourceVolumeId != ""
               && HasSnapshotNamed(old(client.snapshots), req.name)) ==> (
        client.State() == old(client.State())
        && exists id :: id in client.snapshots && client.snapshots[id].name == req.name
                        && r == Respond(SnapshotReply(client.snapshots[id])))
      ensures !HasSnapshotNamed(old(client.snapshots), req.name) && r.Respond? ==> (
        snapshotID in client.snapshots
        && client.snapshots == old(client.snapshots)[snapshotID := client.snapshots[snapshotID]]
        && client.snapshots[snapshotID].name == req.name
        && r.response == SnapshotReply(client.snapshots[snapshotID])
        && r.response.snapshotId == snapshotID && r.response.sourceVolumeId == req.sourceVolumeId
        && r.response.creationTime == now && r.response.readyToUse)
      ensures (Advertises(caps, CreateDeleteSnapshot) && req.name != "" && req.sourceVolumeId != ""
               && !HasSnapshotNamed(old(client.snapshots), req.name) && r.Fail?) ==>
        r.status.code == Internal
      ensures (req.sourceVolumeId !in old(client.volumes) && !HasSnapshotNamed(old(client.snapshots), req.name)) ==>
        r.Fail? && client.State() == old(client.State())
    {
      var invalid := ValidateRequest(CreateDeleteSnapshot);
      if invalid.Some? {
        return Fail(invalid.value);
      }
      if req.name == "" {
        return Fail(Status(InvalidArgument, "Name missing in request"));
      }
      if req.sourceVolumeId == "" {
        return Fail(Status(InvalidArgument, "SourceVolumeId missing in request"));
      }
      var existing := GetSnapshotByName(client.snapshots, req.name);
      if existing.Some? {
        return Respond(SnapshotReply(existing.value));
      }
      var snapshot := Snapshot(snapshotID, req.name, req.sourceVolumeId, "", now, 0, false);
      var err, out, mxDir, retried, firstErr := client.CreateSnapshot(req.sourceVolumeId, snapshot);
      if err.Some? {
        return Fail(Status(Internal, "failed to create snapshot " + snapshotID + " form volume: " + err.value));
      }
      assert out.path != "" by {
        assert |out.path| >= |"/"|;
      }
      r := Respond(SnapshotReply(out));
    }

    /** `DeleteSnapshot`: deleting a snapshot the catalog does not have, or
        one without a file, succeeds. */
    method DeleteSnapshot(snapshotId: string) returns (r: Reply<()>)
      requires Valid()
      modifies client, client.tool, client.host
      ensures Valid()
      ensures client.host.loops == old(client.host.loops)
      ensures client.volumes == old(client.volumes)
      ensures snapshotId == "" ==> r == Fail(Status(InvalidArgument, "Snapshot ID missing in request")) && client.State() == old(client.State())
      ensures snapshotId != "" && !Advertises(caps, CreateDeleteSnapshot) ==>
        r == Fail(Status(InvalidArgument, "unsupported capability " + RpcName(CreateDeleteSnapshot))) && client.State() == old(client.State())
      ensures (snapshotId != "" && Advertises(caps, CreateDeleteSnapshot)
               && (snapshotId !in old(client.snapshots) || old(client.snapshots)[snapshotId].path == "")) ==> r.Respond?
      ensures r.Respond? ==> client.snapshots == old(client.snapshots) - {snapshotId}
      ensures r.Fail? ==> client.snapshots == old(client.snapshots)
      ensures snapshotId != "" && Advertises(caps, CreateDeleteSnapshot) && r.Fail? ==> r.status.code == Internal
    {
      if snapshotId == "" {
        return Fail(Status(InvalidArgument, "Snapshot ID missing in request"));
      }
      var invalid := ValidateRequest(CreateDeleteSnapshot);
      if invalid.Some? {
        return Fail(invalid.value);
      }
      var err := client.DeleteSnapshot(snapshotId);
      if err.Some? {
        return Fail(Status(Internal, "failed to delete snapshot " + snapshotId + ": " + err.value));
      }
      r := Respond(());
    }

    /** `ListVolumes`: every catalogued volume once, in the map's order. */
    method ListVolumes() returns (entries: seq<VolumeEntry>, ghost order: seq<string>)
      ensures ListsKeys(order, client.volumes) && |entries| == |order|
      ensures forall i :: 0 <= i < |order| ==>
        entries[i] == VolumeEntry(client.volumes[order[i]].id, client.volumes[order[i]].size)
    {
      entries, order := [], [];
      var remaining := client.volumes.Keys;
      while remaining != {}
        invariant remaining <= client.volumes.Keys
        invariant |entries| == |order|
        invariant forall i, j :: 0 <= i < j < |order| ==> order[i] != order[j]
        invariant forall id :: id in order <==> id in client.volumes && id !in remaining
        invariant forall i :: 0 <= i < |order| ==>
          entries[i] == VolumeEntry(client.volumes[order[i]].id, client.volumes[order[i]].size)
        decreases remaining
      {
        var id :| id in remaining;
        var volume := client.volumes[id];
        entries := entries + [VolumeEntry(volume.id, volume.size)];
        order := order + [id];
        remaining := remaining - {id};
      }
    }

    /** `ListSnapshots` as the code reads: each entry points at the creation
        time of the one loop variable, so once the loop is over every entry
        shows the time of the snapshot listed last. Every entry is
        reported ready. */
    method ListSnapshotsAsWritten() returns (entries: seq<CsiSnapshot>, ghost order: seq<string>)
      ensures ListsKeys(order, client.snapshots) && |entries| == |order|
      ensures forall i :: 0 <= i < |order| ==>
        var s := client.snapshots[order[i]];
        entries[i] == CsiSnapshot(s.id, s.volumeId, client.snapshots[order[|order| - 1]].creationTime, s.size, true)
    {
      var listed: seq<CsiSnapshot> := [];
      order := [];
      var loopVariable := Snapshot("", "", "", "", Timestamp(0, 0), 0, false);
      var remaining := client.snapshots.Keys;
      while remaining != {}
        invariant remaining <= client.snapshots.Keys
        invariant |listed| == |order|
        invariant forall i, j :: 0 <= i < j < |order| ==> order[i] != order[j]
        invariant forall id :: id in order <==> id in client.snapshots && id !in remaining
        invariant forall i :: 0 <= i < |order| ==>
          var s := client.snapshots[order[i]];
          listed[i] == CsiSnapshot(s.id, s.volumeId, s.creationTime, s.size, true)
        invariant order != [] ==> loopVariable == client.snapshots[order[|order| - 1]]
        decreases remaining
      {
        var id :| id in remaining;
        loopVariable := client.snapshots[id];
        listed := listed + [CsiSnapshot(loopVariable.id, loopVariable.volumeId, loopVariable.creationTime, loopVariable.size, true)];
        order := order + [id];
        remaining := remaining - {id};
      }
      // the time is read through the shared variable when the reply is sent
      entries := seq(|listed|, i requires 0 <= i < |listed| => listed[i].(creationTime := loopVariable.creationTime));
    }

    /** `ListSnapshots` with each entry carrying its own snapshot's time:
        every catalogued snapshot once, reported ready. */
    method ListSnapshots() returns (entries: seq<CsiSnapshot>, ghost order: seq<string>)
      ensures ListsKeys(order, client.snapshots) && |entries| == |order|
      ensures forall i :: 0 <= i < |order| ==>
        var s := client.snapshots[order[i]];
        entries[i] == CsiSnapshot(s.id, s.volumeId, s.creationTime, s.size, true)
    {
      entries, order := [], [];
      var remaining := client.snapshots.Keys;
      while remaining != {}
        invariant remaining <= client.snapshots.Keys
        invariant |entries| == |order|
        invariant forall i, j :: 0 <= i < j < |order| ==> order[i] != order[j]
        invariant forall id :: id in order <==> id in client.snapshots && id !in remaining
        invariant forall i :: 0 <= i < |order| ==>
          var s := client.snapshots[order[i]];
          entries[i] == CsiSnapshot(s.id, s.volumeId, s.creationTime, s.size, true)
        decreases remaining
      {
        var id :| id in remaining;
        var snapshot := client.snapshots[id];
        entries := entries + [CsiSnapshot(snapshot.id, snapshot.volumeId, snapshot.creationTime, snapshot.size, true)];
        order := order + [id];
        remaining := remaining - {id};
      }
    }

    /** `ControllerExpandVolume`: grows the file of a catalogued volume. The
        catalog keeps the old size. */
    method ControllerExpandVolume(volumeId: string, capacityRange: Option<CapacityRange>) returns (r: Reply<ExpandReply>)
      requires Valid()
      modifies client.tool
      ensures Valid()
      ensures volumeId == "" || capacityRange.None? ==> r.Fail? && r.status.code == InvalidArgument && client.tool.log == old(client.tool.log)
      ensures volumeId != "" && capacityRange.Some? && capacityRange.value.requiredBytes >= Tib ==>
        r.Fail? && r.status.code == OutOfRange && client.tool.log == old(client.tool.log)
      ensures volumeId != "" && capacityRange.Some? && capacityRange.value.requiredBytes < Tib && volumeId !in client.volumes ==>
        r.Fail? && r.status.code == NotFound && client.tool.log == old(client.tool.log)
      ensures (volumeId in client.volumes && volumeId != "" && capacityRange.Some?
               && capacityRange.value.requiredBytes < Tib && capacityRange.value.requiredBytes < client.volumes[volumeId].size) ==>
        r.Fail? && r.status.code == Internal && client.tool.log == old(client.tool.log)
      ensures r.Respond? ==> (
        capacityRange.Some? && volumeId in client.volumes
        && client.volumes[volumeId].size <= capacityRange.value.requiredBytes < Tib
        && r.response == ExpandReply(capacityRange.value.requiredBytes, true)
        && |client.tool.log| == |old(client.tool.log)| + 1
        && client.tool.log[|old(client.tool.log)|].call
           == TruncateCall(client.mountPath + "/" + client.volumes[volumeId].path, capacityRange.value.requiredBytes))
    {
      if volumeId == "" {
        return Fail(Status(InvalidArgument, "Volume ID missing in request"));
      }
      if capacityRange.None? {
        return Fail(Status(InvalidArgument, "Capacity range not provided"));
      }
      var capacity := capacityRange.value.requiredBytes;
      if capacity >= Tib {
        return Fail(Status(OutOfRange, "Requested capacity " + FormatInt(capacity) + " exceeds maximum allowed " + FormatInt(Tib)));
      }
      var existing := GetVolumeById(client.volumes, volumeId);
      if existing.None? {
        return Fail(Status(NotFound, "Could not get volume " + volumeId));
      }
      if capacity < existing.value.size {
        return Fail(Status(Internal, "Could not expand volume " + volumeId + " from size " + FormatInt(existing.value.size)
                                     + " to size " + FormatInt(capacity)));
      }
      var err := client.ExpandVolume(volumeId, capacity);
      if err.Some? {
        return Fail(Status(Internal, "Could not resize volume " + volumeId + " to size " + FormatInt(capacity) + ": " + err.value));
      }
      r := Respond(ExpandReply(capacity, true));
    }
  }
}
