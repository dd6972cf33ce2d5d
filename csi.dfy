/** The parts of the Container Storage Interface the plugin's handlers read
    and answer: controller capabilities, volume capabilities, content
    sources, topologies and the response records. Only the fields the
    handlers look at are kept. */
module Csi {
  import opened Common
  import opened Types

  /** `ControllerServiceCapability_RPC_Type`. */
  datatype ControllerRpc =
    | RpcUnknown
    | CreateDeleteVolume
    | PublishUnpublishVolume
    | ListVolumes
    | GetCapacity
    | CreateDeleteSnapshot
    | ListSnapshots
    | CloneVolume
    | PublishReadonly
    | ExpandVolume

  /** The enum's name, which is what `%s` prints for it. */
  function RpcName(c: ControllerRpc): string {
    match c
    case RpcUnknown => "UNKNOWN"
    case CreateDeleteVolume => "CREATE_DELETE_VOLUME"
    case PublishUnpublishVolume => "PUBLISH_UNPUBLISH_VOLUME"
    case ListVolumes => "LIST_VOLUMES"
    case GetCapacity => "GET_CAPACITY"
    case CreateDeleteSnapshot => "CREATE_DELETE_SNAPSHOT"
    case ListSnapshots => "LIST_SNAPSHOTS"
    case CloneVolume => "CLONE_VOLUME"
    case PublishReadonly => "PUBLISH_READONLY"
    case ExpandVolume => "EXPAND_VOLUME"
  }

  /** `ControllerServiceCapability` holding one RPC type. */
  datatype ControllerCapability = ControllerCapability(rpc: ControllerRpc)

  /** `NodeServiceCapability_RPC_Type`, as far as the node advertises it. */
  datatype NodeRpc = StageUnstageVolume | NodeExpandVolume

  /** The access type of a volume capability is a protobuf `oneof`: a raw
      block device, a mounted file system (type and mount flags), or unset. */
  datatype AccessMode = BlockMode | MountMode(fsType: string, mountFlags: seq<string>) | NoAccessMode

  datatype VolumeCapability = VolumeCapability(access: AccessMode)

  /** `VolumeContentSource`: absent, a snapshot, a volume, or present with
      neither set. */
  datatype ContentSource = NoSource | FromSnapshot(snapshotId: string) | FromVolume(volumeId: string) | EmptySource

  datatype CapacityRange = CapacityRange(requiredBytes: int, limitBytes: int)

  /** `GetCapacityRange().GetRequiredBytes()`: protobuf getters answer 0
      for a missing range. */
  function RequiredBytes(range: Option<CapacityRange>): (n: int)
    ensures range.None? ==> n == 0
    ensures range.Some? ==> n == range.value.requiredBytes
  {
    if range.Some? then range.value.requiredBytes else 0
  }

  /** The topology keys a node reports. */
  const TopologyKeyNode: string := "topology.arstor.csi/node"
  const TopologyKeyArStorEnabled: string := "topology.arstor.csi/arstorenabled"

  /** The segments of the topology of node `nodeID`. */
  function Topology(nodeID: string): (segments: map<string, string>)
    ensures segments.Keys == {TopologyKeyNode, TopologyKeyArStorEnabled}
    ensures segments[TopologyKeyNode] == nodeID && segments[TopologyKeyArStorEnabled] == "true"
  {
    map[TopologyKeyNode := nodeID, TopologyKeyArStorEnabled := "true"]
  }

  /** `csi.Volume` in a response. */
  datatype CsiVolume = CsiVolume(
    volumeId: string,
    capacityBytes: int,
    volumeContext: map<string, string>,
    contentSource: ContentSource,
    accessibleTopology: seq<map<string, string>>)

  /** `csi.Snapshot` in a response. */
  datatype CsiSnapshot = CsiSnapshot(
    snapshotId: string,
    sourceVolumeId: string,
    creationTime: Timestamp,
    sizeBytes: int,
    readyToUse: bool)
}
