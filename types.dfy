/** The catalog entries of the plugin: a volume file and a snapshot file
    stored on the ArStor mount, the path constants that place them, and the
    access types a volume may be created with. */
module Types {

  /** `/kubernetes`, the plugin's root below the ArStor mount point. */
  const KubernetesPath: string := "/kubernetes"
  const VolumePath: string := "/volumes"
  const SnapshotPath: string := "/snapshots"
  /** Shard directories are named `volume_<n>` and `snapshot_<n>`. */
  const VolumePrefix: string := "volume_"
  const SnapshotPrefix: string := "snapshot_"

  /** A file name (`<id>_<name>`) must be shorter than this many bytes. */
  const FileNameMax: nat := 255
  /** Number of shard directories a hash is reduced to. */
  const MaxDirCount: nat := 1000

  /** The plugin's `accessType` is a Go `int`; these are its two named values. */
  type AccessType = int
  const MountAccess: AccessType := 0
  const BlockAccess: AccessType := 1

  /** A protobuf timestamp. */
  datatype Timestamp = Timestamp(seconds: int, nanos: int)

  /** `arstorVolume`: `path` is relative to the mount point and empty while
      the backend has not created the file yet. */
  datatype Volume = Volume(id: string, name: string, size: int, path: string)

  /** `arstorSnapshot`. */
  datatype Snapshot = Snapshot(
    id: string,
    name: string,
    volumeId: string,
    path: string,
    creationTime: Timestamp,
    size: int,
    readyToUse: bool)
}
