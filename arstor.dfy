/** The ArStor client: the plugin's catalog of volume and snapshot files on
    the ArStor mount and the allocator that spreads those files over shard
    directories `volume_<n>` / `snapshot_<n>`, because an ArStor directory
    holds only about a thousand entries. Directories found full are
    remembered in `fullDirs`. */
module ArStor {
  import opened Common
  import opened GoStrings
  import opened Types
  import opened Utils
  import opened Backend
  import opened Host
  import Crc32

  // ----- shard directories

  /** The shard a hash of `id` points at first. */
  function PrimaryShard(id: string, word: WordSize): (n: nat)
    ensures n < MaxDirCount
  {
    ShardInRange(id, word);
    StringToHash(id, word) % MaxDirCount
  }

  /** The error both shard searches give when every probe is used up. */
  function NoDirError(volumeId: string): string {
    "Creating volume args error: can not generate arstor dir for volume " + volumeId
  }

  /** `mxPrefix` followed by the shard number in decimal. */
  function ShardDir(mxPrefix: string, n: nat): string {
    mxPrefix + Decimal(n)
  }

  /** Triangular numbers: probe `k` lies `1 + 2 + … + k` past the primary
      shard, because the probe loop adds its counter to the hash. */
  function Tri(k: nat): nat {
    if k == 0 then 0 else Tri(k - 1) + k
  }

  /** The `k`-th probe for primary shard `h0` (the 0-th is `h0` itself). */
  function Candidate(mxPrefix: string, h0: nat, k: nat): string {
    ShardDir(mxPrefix, h0 + Tri(k))
  }

  /** A directory recorded as full. */
  predicate Marked(fullDirs: map<string, bool>, dir: string) {
    dir in fullDirs && fullDirs[dir]
  }

  /** The first probe, from the `i`-th on and below `MaxDirCount`, whose
      directory is not marked full. */
  function FirstFree(fullDirs: map<string, bool>, mxPrefix: string, h0: nat, i: nat): Option<nat>
    decreases MaxDirCount - i
  {
    if i >= MaxDirCount then None
    else if !Marked(fullDirs, Candidate(mxPrefix, h0, i)) then Some(i)
    else FirstFree(fullDirs, mxPrefix, h0, i + 1)
  }

  /** `FirstFree` finds an unmarked probe with every probe before it
      marked, and finds none exactly when every remaining probe is marked. */
  lemma {:induction false} FirstFreeSpec(fullDirs: map<string, bool>, mxPrefix: string, h0: nat, i: nat)
    ensures FirstFree(fullDirs, mxPrefix, h0, i).Some? ==>
      var k := FirstFree(fullDirs, mxPrefix, h0, i).value;
      i <= k < MaxDirCount && !Marked(fullDirs, Candidate(mxPrefix, h0, k))
      && forall j :: i <= j < k ==> Marked(fullDirs, Candidate(mxPrefix, h0, j))
    ensures FirstFree(fullDirs, mxPrefix, h0, i).None? <==>
      forall j :: i <= j < MaxDirCount ==> Marked(fullDirs, Candidate(mxPrefix, h0, j))
    decreases MaxDirCount - i
  {
    FirstFreeFound(fullDirs, mxPrefix, h0, i);
    FirstFreeNone(fullDirs, mxPrefix, h0, i);
  }

  lemma {:induction false} FirstFreeFound(fullDirs: map<string, bool>, mxPrefix: string, h0: nat, i: nat)
    ensures FirstFree(fullDirs, mxPrefix, h0, i).Some? ==>
      var k := FirstFree(fullDirs, mxPrefix, h0, i).value;
      i <= k < MaxDirCount && !Marked(fullDirs, Candidate(mxPrefix, h0, k))
      && forall j :: i <= j < k ==> Marked(fullDirs, Candidate(mxPrefix, h0, j))
    decreases MaxDirCount - i
  {
    var r := FirstFree(fullDirs, mxPrefix, h0, i);
    if i < MaxDirCount && Marked(fullDirs, Candidate(mxPrefix, h0, i)) {
      assert r == FirstFree(fullDirs, mxPrefix, h0, i + 1);
      FirstFreeFound(fullDirs, mxPrefix, h0, i + 1);
      if r.Some? {
        forall j | i <= j < r.value ensures Marked(fullDirs, Candidate(mxPrefix, h0, j)) {
          if j > i {
            assert i + 1 <= j;
          }
        }
      }
    }
  }

  lemma {:induction false} FirstFreeNone(fullDirs: map<string, bool>, mxPrefix: string, h0: nat, i: nat)
    ensures FirstFree(fullDirs, mxPrefix, h0, i).None? <==>
      forall j :: i <= j < MaxDirCount ==> Marked(fullDirs, Candidate(mxPrefix, h0, j))
    decreases MaxDirCount - i
  {
    if i < MaxDirCount && Marked(fullDirs, Candidate(mxPrefix, h0, i)) {
      FirstFreeNone(fullDirs, mxPrefix, h0, i + 1);
      if FirstFree(fullDirs, mxPrefix, h0, i).None? {
        forall j | i <= j < MaxDirCount ensures Marked(fullDirs, Candidate(mxPrefix, h0, j)) {
          if j > i {
            assert i + 1 <= j;
          }
        }
      }
    }
  }

  /** The shard directory `GenerateArStorDir` settles on, if any. */
  function ShardChoice(fullDirs: map<string, bool>, mxPrefix: string, h0: nat): Option<string> {
    var k := FirstFree(fullDirs, mxPrefix, h0, 0);
    if k.None? then None else Some(Candidate(mxPrefix, h0, k.value))
  }

  /** The choice is never a directory marked full; it is the primary shard
      whenever that one is not marked; there is none exactly when all
      `MaxDirCount` probes are marked. */
  lemma ShardChoiceSpec(fullDirs: map<string, bool>, mxPrefix: string, h0: nat)
    ensures ShardChoice(fullDirs, mxPrefix, h0).Some? ==> !Marked(fullDirs, ShardChoice(fullDirs, mxPrefix, h0).value)
    ensures !Marked(fullDirs, ShardDir(mxPrefix, h0)) ==> ShardChoice(fullDirs, mxPrefix, h0) == Some(ShardDir(mxPrefix, h0))
    ensures ShardChoice(fullDirs, mxPrefix, h0).None? <==>
      forall j :: 0 <= j < MaxDirCount ==> Marked(fullDirs, Candidate(mxPrefix, h0, j))
  {
    FirstFreeSpec(fullDirs, mxPrefix, h0, 0);
  }

  /** Probes are never reduced modulo `MaxDirCount`: with shard 999 full,
      an id hashing there is placed in shard 1000. */
  lemma ProbeLeavesRange(mxPrefix: string)
    ensures ShardChoice(map[ShardDir(mxPrefix, 999) := true], mxPrefix, 999) == Some(ShardDir(mxPrefix, 1000))
  {
    var fullDirs := map[ShardDir(mxPrefix, 999) := true];
    assert ShardDir(mxPrefix, 1000) != ShardDir(mxPrefix, 999);
    assert Candidate(mxPrefix, 999, 1) == ShardDir(mxPrefix, 1000);
    assert FirstFree(fullDirs, mxPrefix, 999, 1) == Some(1);
  }

  /** Two probes at different distances never name the same directory. */
  lemma CandidatesDistinct(mxPrefix: string, h0: nat, j: nat, k: nat)
    requires j < k
    ensures Candidate(mxPrefix, h0, j) != Candidate(mxPrefix, h0, k)
  {
    TriIncreasing(j, k);
    if Candidate(mxPrefix, h0, j) == Candidate(mxPrefix, h0, k) {
      assert Decimal(h0 + Tri(j)) == Candidate(mxPrefix, h0, j)[|mxPrefix|..];
      DecimalInjective(h0 + Tri(j), h0 + Tri(k));
    }
  }

  /** A later probe is never the primary shard's directory. */
  lemma ProbeNotPrimary(mxPrefix: string, h0: nat, k: nat, hash: nat)
    requires 1 <= k && hash == h0 + Tri(k)
    ensures ShardDir(mxPrefix, hash) == Candidate(mxPrefix, h0, k)
    ensures ShardDir(mxPrefix, hash) != ShardDir(mxPrefix, h0)
  {
    CandidatesDistinct(mxPrefix, h0, 0, k);
  }

  lemma {:induction false} TriIncreasing(j: nat, k: nat)
    requires j < k
    ensures Tri(j) < Tri(k)
    decreases k
  {
    if j < k - 1 {
      TriIncreasing(j, k - 1);
    }
  }

  /** The probe loop of `GenerateArStorDir`: from the primary shard `h0`,
      step by 0, 1, 2, … while the directory is marked full. */
  method ProbeFullDirs(fullDirs: map<string, bool>, mxPrefix: string, h0: nat) returns (hash: nat, found: bool)
    ensures found <==> ShardChoice(fullDirs, mxPrefix, h0).Some?
    ensures found ==> ShardChoice(fullDirs, mxPrefix, h0) == Some(ShardDir(mxPrefix, hash))
  {
    hash := h0;
    found := true;
    if Marked(fullDirs, ShardDir(mxPrefix, hash)) {
      var i := 0;
      while i < MaxDirCount
        invariant 0 <= i <= MaxDirCount
        invariant hash + i == h0 + Tri(i)
        invariant FirstFree(fullDirs, mxPrefix, h0, 0) == FirstFree(fullDirs, mxPrefix, h0, i)
      {
        hash := hash + i;
        if !Marked(fullDirs, ShardDir(mxPrefix, hash)) {
          FreeAt(fullDirs, mxPrefix, h0, i, hash);
          ChoiceAt(fullDirs, mxPrefix, h0, i, hash);
          break;
        }
        i := i + 1;
      }
      found := i != MaxDirCount;
      if !found {
        NoChoice(fullDirs, mxPrefix, h0);
      }
    } else {
      FreeAt(fullDirs, mxPrefix, h0, 0, hash);
      ChoiceAt(fullDirs, mxPrefix, h0, 0, hash);
    }
  }

  /** An unmarked directory at probe `i` ends the search there. */
  lemma FreeAt(fullDirs: map<string, bool>, mxPrefix: string, h0: nat, i: nat, hash: nat)
    requires i < MaxDirCount && hash == h0 + Tri(i) && !Marked(fullDirs, ShardDir(mxPrefix, hash))
    ensures FirstFree(fullDirs, mxPrefix, h0, i) == Some(i)
  {
  }

  lemma NoChoice(fullDirs: map<string, bool>, mxPrefix: string, h0: nat)
    requires FirstFree(fullDirs, mxPrefix, h0, 0) == FirstFree(fullDirs, mxPrefix, h0, MaxDirCount)
    ensures ShardChoice(fullDirs, mxPrefix, h0).None?
  {
  }

  lemma ChoiceAt(fullDirs: map<string, bool>, mxPrefix: string, h0: nat, i: nat, hash: nat)
    requires FirstFree(fullDirs, mxPrefix, h0, 0) == Some(i) && hash == h0 + Tri(i)
    ensures ShardChoice(fullDirs, mxPrefix, h0) == Some(ShardDir(mxPrefix, hash))
  {
  }

  // ----- the live entry count

  /** How `isFullArStorDir` reads the directory attribute text. */
  datatype Verdict = NotFull | Full | NoDirList

  /** Split the attribute at "dirList", take the second piece, split that
      at "dEntries"; two pieces are framing, the rest are entries, and more
      than a thousand entries is full. Without "dirList" the second piece
      does not exist. */
  function FullVerdict(attr: string): Verdict {
    if attr == "" then NotFull
    else
      var sections := Split(attr, "dirList");
      if |sections| < 2 then NoDirList
      else if |Split(sections[1], "dEntries")| - 2 > 1000 then Full
      else NotFull
  }

  /** The text between the first "dirList" and the next one (or the end). */
  function DirListSection(attr: string): string
    requires GoStrings.Contains(attr, "dirList")
  {
    var rest := attr[Index(attr, "dirList") + 7..];
    if GoStrings.Contains(rest, "dirList") then rest[..Index(rest, "dirList")] else rest
  }

  /** A non-empty attribute without "dirList" cannot be read; otherwise the
      directory is full exactly when its section holds more than 1001
      "dEntries" markers. */
  lemma {:induction false} FullVerdictIff(attr: string)
    ensures FullVerdict(attr) == NoDirList <==> attr != "" && !GoStrings.Contains(attr, "dirList")
    ensures GoStrings.Contains(attr, "dirList") ==>
      (FullVerdict(attr) == Full <==> Count(DirListSection(attr), "dEntries") > 1001)
  {
    if attr != "" {
      if GoStrings.Contains(attr, "dirList") {
        var rest := attr[Index(attr, "dirList") + 7..];
        assert Split(attr, "dirList") == [attr[..Index(attr, "dirList")]] + Split(rest, "dirList");
        if !GoStrings.Contains(rest, "dirList") {
          SplitWithout(rest, "dirList");
        }
        assert Split(attr, "dirList")[1] == DirListSection(attr);
        SplitCount(DirListSection(attr), "dEntries");
      } else {
        SplitWithout(attr, "dirList");
      }
    }
  }

  /** What `isFullArStorDir` reports: a measurement, a failed lookup or
      query, or the crash on an attribute without "dirList". */
  datatype FullCheck = Measured(full: bool) | CheckFailed(msg: string) | Crashed(msg: string)

  /** Go's message for indexing past the end of a one-element slice. */
  const IndexOutOfRange: string := "panic: runtime error: index out of range [1] with length 1"

  /** The `n`-th exchange asked for a directory attribute and got `attr`. */
  predicate AttributeAnswer(log: seq<Exchange>, n: nat)
  {
    n < |log| && log[n].call.GetVolumeAttributeCall? && log[n].reply.Ok?
  }

  /** The `n`-th exchange is an attribute answer that reads as not full:
      the live count accepted the directory. */
  predicate NotFullAnswer(log: seq<Exchange>, n: nat)
  {
    AttributeAnswer(log, n) && FullVerdict(log[n].reply.value) == NotFull
  }

  /** No live count among the exchanges `from` to `to` accepted a
      directory. */
  predicate NoneAccepted(log: seq<Exchange>, from: nat, to: nat)
  {
    forall n :: from <= n < to ==> !NotFullAnswer(log, n)
  }

  /** The last exchange of `log` is an accepting live count and none of
      those from `from` on before it accepted. */
  predicate AcceptedLast(log: seq<Exchange>, from: nat)
  {
    from < |log| && NotFullAnswer(log, |log| - 1) && NoneAccepted(log, from, |log| - 1)
  }

  lemma AcceptedLastJoin(a: seq<Exchange>, b: seq<Exchange>, from: nat)
    requires a <= b && from <= |a|
    requires NoneAccepted(a, from, |a|) && AcceptedLast(b, |a|)
    ensures AcceptedLast(b, from)
  {
    forall n | from <= n < |b| - 1
      ensures !NotFullAnswer(b, n)
    {
      if n < |a| {
        assert b[..|a|] == a;
        assert b[n] == a[n];
        assert !NotFullAnswer(a, n);
      }
    }
  }

  lemma NoneAcceptedGrows(a: seq<Exchange>, b: seq<Exchange>, from: nat, to: nat)
    requires a <= b && to <= |a| && NoneAccepted(a, from, to)
    ensures NoneAccepted(b, from, to)
  {
    forall n | from <= n < to
      ensures !NotFullAnswer(b, n)
    {
      assert b[..|a|] == a;
      assert b[n] == a[n];
      assert !NotFullAnswer(a, n);
    }
  }

  lemma NoneAcceptedJoin(a: seq<Exchange>, b: seq<Exchange>, from: nat)
    requires a <= b && from <= |a|
    requires NoneAccepted(a, from, |a|) && NoneAccepted(b, |a|, |b|)
    ensures NoneAccepted(b, from, |b|)
  {
    forall n | from <= n < |b|
      ensures !NotFullAnswer(b, n)
    {
      if n < |a| {
        assert b[..|a|] == a;
        assert b[n] == a[n];
        assert !NotFullAnswer(a, n);
      }
    }
  }

  /** The node was asked about `path`. */
  predicate Looked(log: seq<HostEvent>, path: string) {
    HostEvent(Stat(path), true) in log || HostEvent(Stat(path), false) in log
  }

  /** Every probe from `from` to `to` was marked full or looked up on the
      node, so none was passed over. */
  ghost predicate Visited(fullDirs: map<string, bool>, log: seq<HostEvent>, localPrefix: string,
                          mxPrefix: string, h0: nat, from: nat, to: nat)
  {
    forall j :: from <= j < to ==>
      Marked(fullDirs, Candidate(mxPrefix, h0, j)) || Looked(log, localPrefix + Candidate(mxPrefix, h0, j))
  }

  lemma VisitedGrows(fullDirs: map<string, bool>, a: seq<HostEvent>, b: seq<HostEvent>, localPrefix: string,
                     mxPrefix: string, h0: nat, from: nat, to: nat)
    requires a <= b && Visited(fullDirs, a, localPrefix, mxPrefix, h0, from, to)
    ensures Visited(fullDirs, b, localPrefix, mxPrefix, h0, from, to)
  {
    forall j | from <= j < to && !Marked(fullDirs, Candidate(mxPrefix, h0, j))
      ensures Looked(b, localPrefix + Candidate(mxPrefix, h0, j))
    {
      assert b[..|a|] == a;
    }
  }

  // ----- file names

  /** The file name of a catalog entry: `<id>_<name>`. */
  function FileName(id: string, name: string): string {
    id + "_" + name
  }

  /** How `LoadArStorData` reads a file name back: exactly two pieces
      around "_". */
  function ParseFileName(file: string): Option<(string, string)> {
    var parts := Split(file, "_");
    if |parts| != 2 then None else Some((parts[0], parts[1]))
  }

  /** A file name is accepted exactly when it is `<id>_<name>` with no "_"
      in either part; so the name `CreateVolume` writes parses back to its
      id and name whenever neither holds "_". */
  lemma {:induction false} ParseFileNameIff(file: string, id: string, name: string)
    ensures ParseFileName(file) == Some((id, name)) <==>
      file == FileName(id, name) && !GoStrings.Contains(id, "_") && !GoStrings.Contains(name, "_")
  {
    if file == FileName(id, name) && !GoStrings.Contains(id, "_") && !GoStrings.Contains(name, "_") {
      assert Join([id, name], "_") == FileName(id, name);
      SplitJoin([id, name], '_');
    }
    if ParseFileName(file) == Some((id, name)) {
      var parts := Split(file, "_");
      assert parts == [id, name];
      assert Join(parts, "_") == id + "_" + name;
    }
  }

  /** `arstorCreateVolumeRequest`. The client receives it by pointer and
      writes `volInode`, `volName` and `volPath` back; the updated record is
      returned. */
  datatype VolumeRequest = VolumeRequest(
    volName: string,
    volId: string,
    volSize: int,
    volPath: string,
    volAccessType: AccessType,
    ephemeral: bool,
    volInode: int)

  /** A shard directory as an absolute path and relative to the mount. */
  datatype Dirs = Dirs(localDir: string, mxDir: string)

  /** The two ways the array copies a file: a snapshot of a volume, or a
      volume cloned from a snapshot. */
  datatype CopyKind = SnapshotCopy | CloneCopy

  function CopyCall(kind: CopyKind, src: string, dst: string): ToolCall {
    if kind == SnapshotCopy then SnapshotCall(src, dst) else CloneCall(src, dst)
  }

  /** The error of `CreateVolume`, `CreateSnapshot` for a file name the
      array cannot take. */
  function NameTooLongMsg(name: string): string {
    "the volume name is too long " + name
  }

  function UnsupportedAccessMsg(accessType: int): string {
    "unsupported access type " + FormatInt(accessType)
  }

  /** The error `createVolume` reports when the array created the file but
      the node cannot see it. */
  function MissingFileMsg(file: string): string {
    "arstor created file successfully, but the volume(" + file + ") is not exist"
  }

  /** The `t`-th exchange asks the array to create `name` with `size`. */
  predicate CreateAsked(tlog: seq<Exchange>, t: nat, name: string, size: int) {
    t < |tlog| && tlog[t].call.CreateCall? && tlog[t].call.name == name && tlog[t].call.size == size
  }

  /** Where a failed `createVolume` of `name` in `localDir` got its error
      `msg`, reading the array's exchanges from `t` and the node's events
      from `h`: an empty directory; the inode lookup failing; the array
      refusing the file; after it was created, the existence check failing
      or finding nothing; or the array refusing the truncation. The node
      records only whether a call failed, not its text. */
  predicate CreateFailedAt(tlog: seq<Exchange>, t: nat, hlog: seq<HostEvent>, h: nat,
                           localDir: string, name: string, size: int, msg: string)
  {
    (localDir == "" && msg == "dir is empty")
    || (h < |hlog| && hlog[h] == HostEvent(Stat(localDir), false))
    || (h < |hlog| && hlog[h] == HostEvent(Stat(localDir), true)
        && CreateAsked(tlog, t, name, size)
        && (tlog[t].reply == Err(msg)
            || (tlog[t].reply.Ok? && h + 1 < |hlog|
                && (hlog[h + 1] == HostEvent(Stat(localDir + "/" + name), false)
                    || (hlog[h + 1] == HostEvent(Stat(localDir + "/" + name), true)
                        && (msg == MissingFileMsg(localDir + "/" + name)
                            || (t + 1 < |tlog| && tlog[t + 1] == Exchange(TruncateCall(localDir + "/" + name, size), Err(msg)))))))))
  }

  lemma PrefixTrans<T>(a: seq<T>, b: seq<T>, c: seq<T>)
    requires a <= b && b <= c
    ensures a <= c
  {
    assert c[..|b|][..|a|] == c[..|a|];
  }

  /** `CreateFailedAt` survives the logs growing. */
  lemma CreateFailedGrows(ta: seq<Exchange>, tb: seq<Exchange>, t: nat, ha: seq<HostEvent>, hb: seq<HostEvent>, h: nat,
                          localDir: string, name: string, size: int, msg: string)
    requires ta <= tb && ha <= hb
    requires CreateFailedAt(ta, t, ha, h, localDir, name, size, msg)
    ensures CreateFailedAt(tb, t, hb, h, localDir, name, size, msg)
  {
    assert tb[..|ta|] == ta;
    assert hb[..|ha|] == ha;
    if t < |ta| {
      assert tb[t] == ta[t];
    }
    if t + 1 < |ta| {
      assert tb[t + 1] == ta[t + 1];
    }
    if h < |ha| {
      assert hb[h] == ha[h];
    }
    if h + 1 < |ha| {
      assert hb[h + 1] == ha[h + 1];
    }
  }

  /** The `n`-th exchange was answered with a "file full" error. */
  predicate FileFullAnswer(log: seq<Exchange>, n: nat) {
    n < |log| && log[n].reply.Err? && IsFileFullErr(log[n].reply.msg)
  }

  /** The last exchange is `call`, answered with success. */
  predicate LastAnswered(log: seq<Exchange>, call: ToolCall) {
    |log| > 0 && log[|log| - 1].call == call && log[|log| - 1].reply.Ok?
  }

  /** What the array is asked to delete: a volume file or a snapshot file. */
  datatype FileKind = VolumeFile | SnapshotFile

  function DeleteFileCall(kind: FileKind, path: string): ToolCall {
    if kind == VolumeFile then DeleteCall(path) else DeleteSnapshotCall(path)
  }

  /** The ids of the snapshots taken of volume `volId`. */
  function SnapshotIdsOf(snapshots: map<string, Snapshot>, volId: string): (ids: set<string>)
    ensures ids == {} <==> forall k :: k in snapshots ==> snapshots[k].volumeId != volId
  {
    var ids := set k | k in snapshots && snapshots[k].volumeId == volId :: snapshots[k].id;
    assert forall k :: k in snapshots && snapshots[k].volumeId == volId ==> snapshots[k].id in ids;
    ids
  }

  /** The `n`-th exchange measured a directory and found it full, and the
      next one is `call`, answered with success. */
  predicate MeasuredFullBefore(log: seq<Exchange>, n: nat, call: ToolCall) {
    n + 1 < |log| && AttributeAnswer(log, n) && FullVerdict(log[n].reply.value) == Full
    && log[n + 1] == Exchange(call, Ok(""))
  }

  /** Filing an entry again under the same key replaces it, whether or not
      it was removed in between. */
  lemma ReinsertAfterRemove<K, V>(m: map<K, V>, k: K, a: V, b: V)
    ensures (m[k := a] - {k})[k := b] == m[k := b]
    ensures m[k := a][k := b] == m[k := b]
    ensures (m - {k})[k := b] == m[k := b]
  {
  }

  lemma RemoveAfterInsert<K, V>(m: map<K, V>, k: K, a: V)
    ensures m[k := a] - {k} == m - {k}
  {
  }

  class ArStorClient {
    /** Where the ArStor file system is mounted on this node. */
    const mountPath: string
    const volumeDir: string
    const snapshotDir: string
    /** The width of Go's `int` on the platform (it matters to the hash). */
    const word: WordSize
    const tool: Tool
    const host: Host

    /** volume id -> volume */
    var volumes: map<string, Volume>
    /** snapshot id -> snapshot */
    var snapshots: map<string, Snapshot>
    /** shard directory (relative to the mount) -> full */
    var fullDirs: map<string, bool>

    /** Entries are filed under their own id, and only `true` is ever
        stored in `fullDirs`. */
    ghost predicate Valid()
      reads this
    {
      volumeDir == KubernetesPath + VolumePath
      && snapshotDir == KubernetesPath + SnapshotPath
      && (forall id :: id in volumes ==> volumes[id].id == id)
      && (forall id :: id in snapshots ==> snapshots[id].id == id)
      && (forall d :: d in fullDirs ==> fullDirs[d])
    }

    constructor(mountPath: string, word: WordSize, tool: Tool, host: Host)
      ensures Valid()
      ensures this.mountPath == mountPath && this.word == word && this.tool == tool && this.host == host
      ensures volumes == map[] && snapshots == map[] && fullDirs == map[]
    {
      this.mountPath := mountPath;
      this.volumeDir := KubernetesPath + VolumePath;
      this.snapshotDir := KubernetesPath + SnapshotPath;
      this.word := word;
      this.tool := tool;
      this.host := host;
      volumes := map[];
      snapshots := map[];
      fullDirs := map[];
    }

    /** Everything a request handler may change: the catalog, the requests
        made of the array and of the node, and the node's loop table. */
    ghost function State(): (map<string, Volume>, map<string, Snapshot>, map<string, bool>, seq<Exchange>, seq<HostEvent>, map<string, string>)
      reads this, tool, host
    {
      (volumes, snapshots, fullDirs, tool.log, host.log, host.loops)
    }

    /** The volume has its file: it is catalogued with a non-empty path. */
    predicate VolumeIsReady(volumeId: string)
      reads this
    {
      volumeId in volumes && volumes[volumeId].path != ""
    }

    /** `WaitVolumeReady`. Nothing else runs while it polls, so the answer
        is the readiness at the first poll. */
    function WaitVolumeReady(volumeId: string): (err: Option<string>)
      reads this
      ensures err.None? <==> VolumeIsReady(volumeId)
    {
      if VolumeIsReady(volumeId) then None
      else Some("Timeout, Snapshot  " + volumeId + " is still not Ready timed out waiting for the condition")
    }

    method AddFullDir(mxDir: string)
      requires Valid()
      modifies this
      ensures Valid()
      ensures fullDirs == old(fullDirs)[mxDir := true]
      ensures volumes == old(volumes) && snapshots == old(snapshots)
    {
      fullDirs := fullDirs[mxDir := true];
    }

    method RemoveFullDir(mxDir: string)
      requires Valid()
      modifies this
      ensures Valid()
      ensures fullDirs == old(fullDirs) - {mxDir}
      ensures volumes == old(volumes) && snapshots == old(snapshots)
    {
      if mxDir in fullDirs {
        fullDirs := fullDirs - {mxDir};
      }
    }

    /** `GenerateArStorDir`: the first shard directory not marked full,
        created on the mount. */
    method GenerateArStorDir(localPrefix: string, mxPrefix: string, volumeId: string) returns (r: Result<Dirs>)
      modifies host
      ensures host.loops == old(host.loops)
      ensures r.Ok? ==> (
        ShardChoice(fullDirs, mxPrefix, PrimaryShard(volumeId, word)).Some?
        && r.value == Dirs(localPrefix + ShardChoice(fullDirs, mxPrefix, PrimaryShard(volumeId, word)).value,
                           ShardChoice(fullDirs, mxPrefix, PrimaryShard(volumeId, word)).value))
      ensures ShardChoice(fullDirs, mxPrefix, PrimaryShard(volumeId, word)).None? ==> r.Err? && host.log == old(host.log)
      ensures r.Ok? ==> host.log == old(host.log) + [HostEvent(MkdirAll(r.value.localDir), true)]
      ensures old(host.log) <= host.log
      // with a choice, its directory is created on the node, and the answer is whether that worked
      ensures ShardChoice(fullDirs, mxPrefix, PrimaryShard(volumeId, word)).Some? ==>
        host.log == old(host.log) + [HostEvent(MkdirAll(localPrefix + ShardChoice(fullDirs, mxPrefix, PrimaryShard(volumeId, word)).value), r.Ok?)]
    {
      var hash, found := ProbeFullDirs(fullDirs, mxPrefix, PrimaryShard(volumeId, word));
      if !found {
        return Err(NoDirError(volumeId));
      }
      var localDir := localPrefix + ShardDir(mxPrefix, hash);
      var err := host.EnsureDir(localDir);
      if err.Some? {
        return Err(err.value);
      }
      r := Ok(Dirs(localDir, ShardDir(mxPrefix, hash)));
    }

    /** `isFullArStorDir`: asks the array for the directory's attribute
        and counts its entries. */
    method IsFullArStorDir(localDir: string) returns (r: FullCheck)
      modifies tool, host
      ensures host.loops == old(host.loops)
      ensures CreateNames(tool.log) == CreateNames(old(tool.log))
      ensures old(tool.log) <= tool.log && old(host.log) <= host.log
      ensures localDir != "" ==> Looked(host.log, localDir)
      ensures r.Measured? ==> (
        |tool.log| == |old(tool.log)| + 1 && AttributeAnswer(tool.log, |old(tool.log)|)
        && FullVerdict(tool.log[|old(tool.log)|].reply.value) != NoDirList
        && (r.full <==> FullVerdict(tool.log[|old(tool.log)|].reply.value) == Full))
      ensures r.Crashed? ==> (
        r.msg == IndexOutOfRange && |tool.log| == |old(tool.log)| + 1
        && AttributeAnswer(tool.log, |old(tool.log)|) && FullVerdict(tool.log[|old(tool.log)|].reply.value) == NoDirList)
      ensures r.CheckFailed? ==> |tool.log| <= |old(tool.log)| + 1 && !AttributeAnswer(tool.log, |old(tool.log)|)
    {
      var inode := host.GetPathInode(localDir);
      if inode.Err? {
        return CheckFailed(inode.msg);
      }
      var attr := tool.GetVolumeAttribute(inode.value);
      CreateNamesAppend(old(tool.log), tool.log[|tool.log| - 1]);
      if attr.Err? {
        return CheckFailed(attr.msg);
      }
      match FullVerdict(attr.value)
      case NotFull => r := Measured(false);
      case Full => r := Measured(true);
      case NoDirList => r := Crashed(IndexOutOfRange);
    }

    /** `checkArStorDir`: a directory is usable when it is not marked full
        and the live count neither fails nor says full. `Err` is the crash
        of `isFullArStorDir`. */
    method CheckArStorDir(localDir: string, mxDir: string) returns (r: Result<bool>)
      modifies tool, host
      ensures host.loops == old(host.loops)
      ensures CreateNames(tool.log) == CreateNames(old(tool.log))
      ensures Marked(fullDirs, mxDir) ==> r == Ok(false) && tool.log == old(tool.log) && host.log == old(host.log)
      ensures r == Ok(true) ==> (
        !Marked(fullDirs, mxDir) && |tool.log| == |old(tool.log)| + 1 && NotFullAnswer(tool.log, |old(tool.log)|))
      ensures r == Ok(false) ==> NoneAccepted(tool.log, |old(tool.log)|, |tool.log|)
      ensures r.Err? ==> r.msg == IndexOutOfRange
      ensures old(tool.log) <= tool.log && old(host.log) <= host.log
      ensures !Marked(fullDirs, mxDir) && localDir != "" ==> Looked(host.log, localDir)
    {
      if Marked(fullDirs, mxDir) {
        return Ok(false);
      }
      var full := IsFullArStorDir(localDir);
      match full
      case Crashed(msg) => r := Err(msg);
      case CheckFailed(_) => r := Ok(false);
      case Measured(f) => r := Ok(!f);
    }

    /** `ReGenerateArStorDir`: the second-tier search after a "file full"
        error, over probes 1, 2, … (shards h+1, h+3, h+6, …), each checked
        against `fullDirs` and the live count; the first probe the count
        accepts is taken, and the search gives up only once every probe
        below `MaxDirCount` has been passed over. */
    method ReGenerateArStorDir(localPrefix: string, mxPrefix: string, volumeId: string) returns (r: Result<Dirs>, ghost k: nat)
      modifies tool, host
      ensures host.loops == old(host.loops)
      ensures CreateNames(tool.log) == CreateNames(old(tool.log))
      ensures old(tool.log) <= tool.log && old(host.log) <= host.log
      ensures r.Ok? ==> (
        1 <= k < MaxDirCount
        && r.value == Dirs(localPrefix + Candidate(mxPrefix, PrimaryShard(volumeId, word), k),
                           Candidate(mxPrefix, PrimaryShard(volumeId, word), k))
        && !Marked(fullDirs, r.value.mxDir)
        && Visited(fullDirs, host.log, localPrefix, mxPrefix, PrimaryShard(volumeId, word), 1, k)
        && AcceptedLast(tool.log, |old(tool.log)|))
      ensures r.Ok? ==> r.value.mxDir != ShardDir(mxPrefix, PrimaryShard(volumeId, word))
      ensures r.Err? ==> (
        r.msg == IndexOutOfRange
        || (r.msg == NoDirError(volumeId)
            && Visited(fullDirs, host.log, localPrefix, mxPrefix, PrimaryShard(volumeId, word), 1, MaxDirCount)
            && NoneAccepted(tool.log, |old(tool.log)|, |tool.log|))
        || (1 <= k < MaxDirCount && |host.log| > 0
            && host.log[|host.log| - 1] == HostEvent(MkdirAll(localPrefix + Candidate(mxPrefix, PrimaryShard(volumeId, word), k)), false)))
    {
      var h0 := PrimaryShard(volumeId, word);
      var ok, hash;
      ok, k, hash := FindLiveDir(localPrefix, mxPrefix, h0);
      if ok.Err? {
        return Err(ok.msg), k;
      }
      if !ok.value {
        return Err(NoDirError(volumeId)), k;
      }
      ProbeNotPrimary(mxPrefix, h0, k, hash);
      var localDir := localPrefix + ShardDir(mxPrefix, hash);
      ghost var hl, tl := host.log, tool.log;
      var err := host.EnsureDir(localDir);
      if err.Some? {
        return Err(err.value), k;
      }
      assert tool.log == tl;
      VisitedGrows(fullDirs, hl, host.log, localPrefix, mxPrefix, h0, 1, k);
      r := Ok(Dirs(localDir, ShardDir(mxPrefix, hash)));
    }

    /** The probes of `ReGenerateArStorDir`: probe 1 (shard h+1) and, when
        it is passed over, the remaining ones. `Ok(true)` carries the
        first accepted probe `k` and its shard number. */
    method FindLiveDir(localPrefix: string, mxPrefix: string, h0: nat) returns (ok: Result<bool>, ghost k: nat, hash: nat)
      modifies tool, host
      ensures host.loops == old(host.loops)
      ensures CreateNames(tool.log) == CreateNames(old(tool.log))
      ensures old(tool.log) <= tool.log && old(host.log) <= host.log
      ensures ok.Err? ==> ok.msg == IndexOutOfRange
      ensures ok == Ok(true) ==> (
        1 <= k < MaxDirCount && hash == h0 + Tri(k) && !Marked(fullDirs, ShardDir(mxPrefix, hash))
        && Visited(fullDirs, host.log, localPrefix, mxPrefix, h0, 1, k)
        && AcceptedLast(tool.log, |old(tool.log)|))
      ensures ok == Ok(false) ==> (
        Visited(fullDirs, host.log, localPrefix, mxPrefix, h0, 1, MaxDirCount)
        && NoneAccepted(tool.log, |old(tool.log)|, |tool.log|))
    {
      hash := h0 + 1;
      assert hash == h0 + Tri(1);
      k := 1;
      var dir := ShardDir(mxPrefix, hash);
      assert dir == Candidate(mxPrefix, h0, 1);
      ok := CheckArStorDir(localPrefix + dir, dir);
      if ok.Err? {
        return;
      }
      if ok.value {
        assert |tool.log| - 1 == |old(tool.log)| && NotFullAnswer(tool.log, |old(tool.log)|);
        return;
      }
      assert Visited(fullDirs, host.log, localPrefix, mxPrefix, h0, 1, 2);
      ghost var t, hl := tool.log, host.log;
      var i;
      ok, i, hash := ProbeLiveDirs(localPrefix, mxPrefix, h0);
      VisitedGrows(fullDirs, hl, host.log, localPrefix, mxPrefix, h0, 1, 2);
      if ok.Err? {
        return;
      }
      if !ok.value {
        NoneAcceptedJoin(t, tool.log, |old(tool.log)|);
        return;
      }
      AcceptedLastJoin(t, tool.log, |old(tool.log)|);
      k := i;
    }

    /** The loop of `ReGenerateArStorDir` over probes 2, 3, …: `Ok(true)`
        with the first probe the live count accepts, `Ok(false)` once all
        are spent without one. */
    method ProbeLiveDirs(localPrefix: string, mxPrefix: string, h0: nat) returns (ok: Result<bool>, i: nat, hash: nat)
      modifies tool, host
      ensures host.loops == old(host.loops)
      ensures CreateNames(tool.log) == CreateNames(old(tool.log))
      ensures old(tool.log) <= tool.log && old(host.log) <= host.log
      ensures ok.Err? ==> ok.msg == IndexOutOfRange
      ensures ok == Ok(true) ==> (
        2 <= i < MaxDirCount && hash == h0 + Tri(i) && !Marked(fullDirs, ShardDir(mxPrefix, hash))
        && Visited(fullDirs, host.log, localPrefix, mxPrefix, h0, 2, i)
        && AcceptedLast(tool.log, |old(tool.log)|))
      ensures ok == Ok(false) ==> (
        i == MaxDirCount && Visited(fullDirs, host.log, localPrefix, mxPrefix, h0, 2, MaxDirCount)
        && NoneAccepted(tool.log, |old(tool.log)|, |tool.log|))
    {
      i := 2;
      hash := h0 + 1;
      assert hash == h0 + Tri(1);
      ok := Ok(false);
      while i < MaxDirCount
        invariant 2 <= i <= MaxDirCount
        invariant hash == h0 + Tri(i - 1)
        invariant ok == Ok(false)
        invariant host.loops == old(host.loops)
        invariant CreateNames(tool.log) == CreateNames(old(tool.log))
        invariant old(tool.log) <= tool.log && old(host.log) <= host.log
        invariant Visited(fullDirs, host.log, localPrefix, mxPrefix, h0, 2, i)
        invariant NoneAccepted(tool.log, |old(tool.log)|, |tool.log|)
      {
        hash := hash + i;
        var dir := ShardDir(mxPrefix, hash);
        assert dir == Candidate(mxPrefix, h0, i);
        ghost var t, hl := tool.log, host.log;
        ok := CheckArStorDir(localPrefix + dir, dir);
        VisitedGrows(fullDirs, hl, host.log, localPrefix, mxPrefix, h0, 2, i);
        if ok.Err? || ok.value {
          if ok.Ok? {
            NoneAcceptedGrows(t, tool.log, |old(tool.log)|, |t|);
            assert |tool.log| - 1 == |t| && NotFullAnswer(tool.log, |t|);
            assert AcceptedLast(tool.log, |old(tool.log)|);
          }
          return;
        }
        NoneAcceptedJoin(t, tool.log, |old(tool.log)|);
        i := i + 1;
      }
    }

    /** `createVolume`: creates the file `<id>_<name>` in `localDir` on the
        array and truncates it to the requested size. It records the
        directory's inode and overwrites the request's name with the file
        name once the inode is known. */
    method CreateVolumeFile(req: VolumeRequest, localDir: string) returns (r: Result<string>, out: VolumeRequest)
      modifies tool, host
      ensures host.loops == old(host.loops)
      ensures out.(volName := req.volName, volInode := req.volInode) == req
      ensures (out.volName == req.volName && CreateNames(tool.log) == CreateNames(old(tool.log)))
        || (out.volName == FileName(req.volId, req.volName)
            && CreateNames(tool.log) == CreateNames(old(tool.log)) + [FileName(req.volId, req.volName)])
      ensures r.Ok? ==> out.volName == FileName(req.volId, req.volName) && r.value == localDir + "/" + out.volName
      // a failed inode lookup leaves inode 0 in the request
      ensures out.volName == req.volName ==> out.volInode == 0
      ensures old(tool.log) <= tool.log && old(host.log) <= host.log
      ensures r.Err? ==> CreateFailedAt(tool.log, |old(tool.log)|, host.log, |old(host.log)|,
                                        localDir, FileName(req.volId, req.volName), req.volSize, r.msg)
    {
      out := req;
      var inode := host.GetPathInode(localDir);
      if inode.Err? {
        out := out.(volInode := 0);
        return Err(inode.msg), out;
      }
      out := out.(volInode := inode.value);
      var name := FileName(out.volId, out.volName);
      out := out.(volName := name);
      var created := tool.Create(name, out.volSize, out.volInode);
      CreateNamesAppend(old(tool.log), tool.log[|tool.log| - 1]);
      if created.Err? {
        return Err(created.msg), out;
      }
      var filePath := localDir + "/" + name;
      var exist := host.PathExists(filePath);
      if exist.Err? {
        return Err(exist.msg), out;
      }
      if !exist.value {
        return Err(MissingFileMsg(filePath)), out;
      }
      ghost var before := tool.log;
      var truncated := tool.Truncate(filePath, out.volSize);
      CreateNamesAppend(before, tool.log[|tool.log| - 1]);
      if truncated.Err? {
        return Err(truncated.msg), out;
      }
      r := Ok(filePath);
    }

    /** One attempt of `CreateVolume` in `localDir`: `createVolume`, and
        on failure the removal of whatever file `name` was left there. */
    method CreateOrRemove(req: VolumeRequest, localDir: string, name: string) returns (r: Result<string>, out: VolumeRequest)
      modifies tool, host
      ensures host.loops == old(host.loops)
      ensures out.(volName := req.volName, volInode := req.volInode) == req
      ensures (out.volName == req.volName && CreateNames(tool.log) == CreateNames(old(tool.log)))
        || (out.volName == FileName(req.volId, req.volName)
            && CreateNames(tool.log) == CreateNames(old(tool.log)) + [FileName(req.volId, req.volName)])
      ensures r.Ok? ==> out.volName == FileName(req.volId, req.volName) && r.value == localDir + "/" + out.volName
      ensures old(tool.log) <= tool.log && old(host.log) <= host.log
      ensures r.Err? ==> (
        CreateFailedAt(tool.log, |old(tool.log)|, host.log, |old(host.log)|,
                       localDir, FileName(req.volId, req.volName), req.volSize, r.msg)
        && |host.log| > 0 && host.log[|host.log| - 1].call == Remove(localDir + "/" + name))
    {
      r, out := CreateVolumeFile(req, localDir);
      if r.Err? {
        ghost var h := host.log;
        var _ := host.DeleteFile(localDir + "/" + name);
        PrefixTrans(old(host.log), h, host.log);
        CreateFailedGrows(tool.log, tool.log, |old(tool.log)|, h, host.log, |old(host.log)|,
                          localDir, FileName(req.volId, req.volName), req.volSize, r.msg);
      }
    }

    /** The second attempt of `CreateVolume` after a "file full" answer:
        mark the first shard full, pick another and create the file there,
        removing what is left on failure. */
    method RetryCreateVolume(req: VolumeRequest, prefix: string, name: string, firstDir: string)
      returns (err: Option<string>, out: VolumeRequest, mxDir: string)
      requires Valid() && req.volId !in volumes
      modifies this, tool, host
      ensures Valid()
      ensures host.loops == old(host.loops)
      ensures volumes == old(volumes) && snapshots == old(snapshots)
      ensures fullDirs == old(fullDirs)[firstDir := true]
      ensures out.volId == req.volId && out.volSize == req.volSize
      ensures (out.volName == req.volName && CreateNames(tool.log) == CreateNames(old(tool.log)))
        || (out.volName == FileName(req.volId, req.volName)
            && CreateNames(tool.log) == CreateNames(old(tool.log)) + [FileName(req.volId, req.volName)])
      ensures err.None? ==> !Marked(fullDirs, mxDir)
      ensures old(tool.log) <= tool.log && old(host.log) <= host.log
    {
      out := req;
      mxDir := "";
      AddFullDir(firstDir);
      var dirs, k := ReGenerateArStorDir(mountPath, prefix, req.volId);
      if dirs.Err? {
        err := Some(dirs.msg);
        return;
      }
      mxDir := dirs.value.mxDir;
      ghost var t, h := tool.log, host.log;
      var created;
      created, out := CreateOrRemove(out, dirs.value.localDir, name);
      PrefixTrans(old(tool.log), t, tool.log);
      PrefixTrans(old(host.log), h, host.log);
      if created.Err? {
        assert volumes - {req.volId} == volumes;
        volumes := volumes - {req.volId};
        err := Some(created.msg);
        return;
      }
      err := None;
    }

    /** The part of `CreateVolume` after the shard is chosen: file a
        placeholder entry, create the file, and on a "file full" answer
        retry once in another shard. */
    method PlaceVolume(req: VolumeRequest, prefix: string, dirs: Dirs)
      returns (err: Option<string>, out: VolumeRequest, mxDir: string, ghost retried: bool, ghost firstErr: string)
      requires Valid() && !Marked(fullDirs, dirs.mxDir)
      modifies this, tool, host
      ensures Valid()
      ensures host.loops == old(host.loops)
      ensures snapshots == old(snapshots)
      ensures out.volId == req.volId && out.volSize == req.volSize
      ensures err.None? ==> (
        volumes == old(volumes)[req.volId := Volume(req.volId, req.volName, req.volSize, mxDir + "/" + FileName(req.volId, req.volName))]
        && out.volPath == mxDir + "/" + FileName(req.volId, req.volName)
        && !Marked(fullDirs, mxDir))
      ensures err.Some? ==> volumes == old(volumes) - {req.volId}
      ensures !retried ==> (
        mxDir == dirs.mxDir && fullDirs == old(fullDirs)
        && |CreateNames(tool.log)| <= |CreateNames(old(tool.log))| + 1)
      ensures retried ==> (
        IsFileFullErr(firstErr) && fullDirs == old(fullDirs)[dirs.mxDir := true]
        && |CreateNames(tool.log)| <= |CreateNames(old(tool.log))| + 2)
      ensures retried && |CreateNames(tool.log)| == |CreateNames(old(tool.log))| + 2 ==>
        CreateNames(tool.log)[|CreateNames(tool.log)| - 1] == FileName(req.volId, FileName(req.volId, req.volName))
      // the retry follows a "file full" failure of the first attempt, and only such a failure
      ensures old(tool.log) <= tool.log && old(host.log) <= host.log
      ensures retried ==> CreateFailedAt(tool.log, |old(tool.log)|, host.log, |old(host.log)|,
                                         dirs.localDir, FileName(req.volId, req.volName), req.volSize, firstErr)
      ensures !retried && err.Some? ==> (
        !IsFileFullErr(err.value)
        && CreateFailedAt(tool.log, |old(tool.log)|, host.log, |old(host.log)|,
                          dirs.localDir, FileName(req.volId, req.volName), req.volSize, err.value))
    {
      retried := false;
      firstErr := "";
      mxDir := dirs.mxDir;
      var name := FileName(req.volId, req.volName);
      var created;
      created, out := FirstAttempt(req, dirs.localDir);
      if created.Err? {
        if !IsFileFullErr(created.msg) {
          err := Some(created.msg);
          return;
        }
        retried := true;
        firstErr := created.msg;
        ghost var t, h := tool.log, host.log;
        err, out, mxDir := RetryCreateVolume(out, prefix, name, dirs.mxDir);
        CreateFailedGrows(t, tool.log, |old(tool.log)|, h, host.log, |old(host.log)|,
                          dirs.localDir, name, req.volSize, firstErr);
        if err.Some? {
          return;
        }
      }
      var entry := Volume(req.volId, req.volName, req.volSize, mxDir + "/" + name);
      ReinsertAfterRemove(old(volumes), req.volId, Volume(req.volId, req.volName, req.volSize, ""), entry);
      volumes := volumes[req.volId := entry];
      out := out.(volPath := mxDir + "/" + name);
      err := None;
    }

    /** The first attempt of `PlaceVolume`: file a placeholder entry with
        no path, create the file in the chosen shard, and drop the entry
        again when that fails. */
    method FirstAttempt(req: VolumeRequest, localDir: string) returns (r: Result<string>, out: VolumeRequest)
      requires Valid()
      modifies this, tool, host
      ensures Valid()
      ensures host.loops == old(host.loops)
      ensures snapshots == old(snapshots) && fullDirs == old(fullDirs)
      ensures r.Ok? ==> volumes == old(volumes)[req.volId := Volume(req.volId, req.volName, req.volSize, "")]
      ensures r.Err? ==> volumes == old(volumes) - {req.volId}
      ensures out.(volName := req.volName, volInode := req.volInode) == req
      ensures (out.volName == req.volName && CreateNames(tool.log) == CreateNames(old(tool.log)))
        || (out.volName == FileName(req.volId, req.volName)
            && CreateNames(tool.log) == CreateNames(old(tool.log)) + [FileName(req.volId, req.volName)])
      ensures old(tool.log) <= tool.log && old(host.log) <= host.log
      ensures r.Err? ==> CreateFailedAt(tool.log, |old(tool.log)|, host.log, |old(host.log)|,
                                        localDir, FileName(req.volId, req.volName), req.volSize, r.msg)
    {
      var cache := Volume(req.volId, req.volName, req.volSize, "");
      volumes := volumes[req.volId := cache];
      r, out := CreateOrRemove(req, localDir, FileName(req.volId, req.volName));
      if r.Err? {
        volumes := volumes - {req.volId};
        RemoveAfterInsert(old(volumes), req.volId, cache);
      }
    }

    /** `CreateVolume`: checks the access type, allocates a shard, checks
        the file name length, then places the volume. */
    method CreateVolume(req: VolumeRequest) returns (err: Option<string>, out: VolumeRequest,
                                                     mxDir: string, ghost retried: bool, ghost firstErr: string)
      requires Valid()
      modifies this, tool, host
      ensures Valid()
      ensures host.loops == old(host.loops)
      ensures snapshots == old(snapshots)
      ensures out.volId == req.volId && out.volSize == req.volSize
      // the checks that come before the catalog and the array are touched
      ensures req.volAccessType != MountAccess && req.volAccessType != BlockAccess ==> (
        err.Some? && volumes == old(volumes) && fullDirs == old(fullDirs)
        && tool.log == old(tool.log) && host.log == old(host.log))
      ensures Crc32.ByteLen(FileName(req.volId, req.volName)) >= FileNameMax ==> (
        err.Some? && volumes == old(volumes) && fullDirs == old(fullDirs) && tool.log == old(tool.log))
      // success
      ensures err.None? ==> (
        volumes == old(volumes)[req.volId := Volume(req.volId, req.volName, req.volSize, mxDir + "/" + FileName(req.volId, req.volName))]
        && out.volPath == mxDir + "/" + FileName(req.volId, req.volName)
        && !Marked(fullDirs, mxDir))
      ensures err.None? && !retried ==>
        Some(mxDir) == ShardChoice(old(fullDirs), volumeDir + "/" + VolumePrefix, PrimaryShard(req.volId, word))
      // failure
      ensures err.Some? ==> volumes == old(volumes) || volumes == old(volumes) - {req.volId}
      // the single retry
      ensures !retried ==> (
        fullDirs == old(fullDirs)
        && |CreateNames(tool.log)| <= |CreateNames(old(tool.log))| + 1)
      ensures retried ==> (
        IsFileFullErr(firstErr)
        && ShardChoice(old(fullDirs), volumeDir + "/" + VolumePrefix, PrimaryShard(req.volId, word)).Some?
        && fullDirs == old(fullDirs)[ShardChoice(old(fullDirs), volumeDir + "/" + VolumePrefix, PrimaryShard(req.volId, word)).value := true]
        && |CreateNames(tool.log)| <= |CreateNames(old(tool.log))| + 2)
      // the retry asks for a doubled name
      ensures retried && |CreateNames(tool.log)| == |CreateNames(old(tool.log))| + 2 ==>
        CreateNames(tool.log)[|CreateNames(tool.log)| - 1] == FileName(req.volId, FileName(req.volId, req.volName))
      ensures old(host.log) <= host.log
      // the retry follows a "file full" failure of the attempt in the first shard
      ensures retried ==>
        var first := ShardChoice(old(fullDirs), volumeDir + "/" + VolumePrefix, PrimaryShard(req.volId, word));
        first.Some? && |old(host.log)| < |host.log|
        && host.log[|old(host.log)|] == HostEvent(MkdirAll(mountPath + first.value), true)
        && CreateFailedAt(tool.log, |old(tool.log)|, host.log, |old(host.log)| + 1,
                          mountPath + first.value, FileName(req.volId, req.volName), req.volSize, firstErr)
    {
      out := req;
      mxDir := "";
      retried := false;
      firstErr := "";
      if req.volAccessType != MountAccess && req.volAccessType != BlockAccess {
        err := Some(UnsupportedAccessMsg(req.volAccessType));
        return;
      }
      var prefix := volumeDir + "/" + VolumePrefix;
      var dirs := ChooseVolumeDir(req, prefix);
      if dirs.Err? {
        err := Some(dirs.msg);
        return;
      }
      ghost var generated := host.log;
      err, out, mxDir, retried, firstErr := PlaceVolume(req, prefix, dirs.value);
      PrefixTrans(old(host.log), generated, host.log);
      assert host.log[|old(host.log)|] == generated[|old(host.log)|];
    }

    /** The directory a new volume goes to, chosen and created on the node,
        and the length check of its file name that follows. */
    method ChooseVolumeDir(req: VolumeRequest, prefix: string) returns (r: Result<Dirs>)
      modifies host
      ensures host.loops == old(host.loops) && old(host.log) <= host.log
      ensures Crc32.ByteLen(FileName(req.volId, req.volName)) >= FileNameMax ==> r.Err?
      ensures r.Ok? ==> (
        ShardChoice(fullDirs, prefix, PrimaryShard(req.volId, word)).Some?
        && r.value == Dirs(mountPath + ShardChoice(fullDirs, prefix, PrimaryShard(req.volId, word)).value,
                           ShardChoice(fullDirs, prefix, PrimaryShard(req.volId, word)).value)
        && !Marked(fullDirs, r.value.mxDir)
        && host.log == old(host.log) + [HostEvent(MkdirAll(r.value.localDir), true)])
    {
      ShardChoiceSpec(fullDirs, prefix, PrimaryShard(req.volId, word));
      r := GenerateArStorDir(mountPath, prefix, req.volId);
      if r.Ok? && Crc32.ByteLen(FileName(req.volId, req.volName)) >= FileNameMax {
        r := Err(NameTooLongMsg(req.volName));
      }
    }

    /** Asks the array for a snapshot or a clone. */
    method Copy(kind: CopyKind, src: string, dst: string) returns (r: Result<string>)
      modifies tool
      ensures tool.log == old(tool.log) + [Exchange(CopyCall(kind, src, dst), r)]
    {
      if kind == SnapshotCopy {
        r := tool.Snapshot(src, dst);
      } else {
        r := tool.Clone(src, dst);
      }
    }

    /** The second attempt of `CreateSnapshot` and `RestoreSnapshot` after a
        "file full" answer: mark the first shard full, pick another and copy
        there, removing what is left on failure. */
    method RetryCopy(kind: CopyKind, src: string, prefix: string, id: string, name: string, firstDir: string)
      returns (err: Option<string>, mxDir: string)
      requires Valid()
      modifies this, tool, host
      ensures Valid()
      ensures host.loops == old(host.loops)
      ensures volumes == old(volumes) && snapshots == old(snapshots)
      ensures fullDirs == old(fullDirs)[firstDir := true]
      ensures old(tool.log) <= tool.log
      ensures err.None? ==> !Marked(fullDirs, mxDir) && LastAnswered(tool.log, CopyCall(kind, src, mxDir + "/" + name))
    {
      mxDir := "";
      AddFullDir(firstDir);
      var dirs, k := ReGenerateArStorDir(mountPath, prefix, id);
      if dirs.Err? {
        return Some(dirs.msg), mxDir;
      }
      mxDir := dirs.value.mxDir;
      var r := Copy(kind, src, mxDir + "/" + name);
      if r.Err? {
        var _ := host.DeleteFile(dirs.value.localDir + "/" + name);
        return Some(r.msg), mxDir;
      }
      err := None;
    }

    /** A snapshot or clone into the chosen shard, and after a "file full"
        answer one more in another shard; what is left of a failed attempt
        is removed. The catalog is not touched. */
    method CopyWithRetry(kind: CopyKind, src: string, prefix: string, id: string, name: string, dirs: Dirs)
      returns (err: Option<string>, mxDir: string, retried: bool, ghost firstErr: string)
      requires Valid()
      modifies this, tool, host
      ensures Valid()
      ensures host.loops == old(host.loops)
      ensures volumes == old(volumes) && snapshots == old(snapshots)
      ensures err.None? ==> LastAnswered(tool.log, CopyCall(kind, src, mxDir + "/" + name))
      ensures err.None? && retried ==> !Marked(fullDirs, mxDir)
      ensures !retried ==> mxDir == dirs.mxDir && fullDirs == old(fullDirs)
      ensures retried ==> IsFileFullErr(firstErr) && fullDirs == old(fullDirs)[dirs.mxDir := true]
      // the first exchange is the copy into the chosen shard; its answer decides the retry
      ensures |old(tool.log)| < |tool.log| && tool.log[|old(tool.log)|].call == CopyCall(kind, src, dirs.mxDir + "/" + name)
      ensures retried <==> FileFullAnswer(tool.log, |old(tool.log)|)
      ensures retried ==> tool.log[|old(tool.log)|].reply == Err(firstErr)
      ensures !retried ==> |tool.log| == |old(tool.log)| + 1 && (err.Some? ==> tool.log[|old(tool.log)|].reply == Err(err.value))
    {
      retried := false;
      firstErr := "";
      mxDir := dirs.mxDir;
      var r := Copy(kind, src, mxDir + "/" + name);
      if r.Ok? {
        return None, mxDir, retried, firstErr;
      }
      var _ := host.DeleteFile(dirs.localDir + "/" + name);
      if !IsFileFullErr(r.msg) {
        return Some(r.msg), mxDir, retried, firstErr;
      }
      retried := true;
      firstErr := r.msg;
      ghost var t := tool.log;
      err, mxDir := RetryCopy(kind, src, prefix, id, name, dirs.mxDir);
      assert tool.log[..|t|] == t;
      assert tool.log[|old(tool.log)|] == t[|old(tool.log)|];
    }

    /** The part of `CreateSnapshot` after the shard is chosen: file the
        request as a placeholder, ask for the snapshot (retrying once after
        "file full"), wait for the file and record its size. The placeholder
        is dropped on any failure of the copy, and also when the retry
        succeeded, until the snapshot is filed at the end. */
    method PlaceSnapshot(src: string, req: Snapshot, prefix: string, dirs: Dirs)
      returns (err: Option<string>, out: Snapshot, mxDir: string, ghost retried: bool, ghost firstErr: string)
      requires Valid() && !Marked(fullDirs, dirs.mxDir)
      modifies this, tool, host
      ensures Valid()
      ensures host.loops == old(host.loops)
      ensures volumes == old(volumes)
      ensures err.None? ==> (
        snapshots == old(snapshots)[req.id := out]
        && out == req.(path := mxDir + "/" + FileName(req.id, req.name), readyToUse := true, size := out.size)
        && out.size >= 0 && !Marked(fullDirs, mxDir)
        && LastAnswered(tool.log, SnapshotCall(src, mxDir + "/" + FileName(req.id, req.name))))
      ensures err.Some? ==> snapshots == old(snapshots) - {req.id} || snapshots == old(snapshots)[req.id := req]
      ensures !retried ==> mxDir == dirs.mxDir && fullDirs == old(fullDirs)
      ensures retried ==> IsFileFullErr(firstErr) && fullDirs == old(fullDirs)[dirs.mxDir := true]
      ensures |old(tool.log)| < |tool.log| && tool.log[|old(tool.log)|].call == SnapshotCall(src, dirs.mxDir + "/" + FileName(req.id, req.name))
      ensures retried <==> FileFullAnswer(tool.log, |old(tool.log)|)
      ensures retried ==> tool.log[|old(tool.log)|].reply == Err(firstErr)
    {
      out := req;
      var name := FileName(req.id, req.name);
      snapshots := snapshots[req.id := req];
      var again;
      err, mxDir, again, firstErr := CopyWithRetry(SnapshotCopy, src, prefix, req.id, name, dirs);
      retried := again;
      if err.Some? || again {
        snapshots := snapshots - {req.id};
        RemoveAfterInsert(old(snapshots), req.id, req);
      }
      if err.Some? {
        return;
      }
      err, out := FinishSnapshot(req, mxDir + "/" + name);
      if err.None? {
        ReinsertAfterRemove(old(snapshots), req.id, req, out);
      }
    }

    /** The end of `CreateSnapshot` once the array has taken the snapshot at
        `path`: wait for the file, then file the snapshot with its size (0
        when the size cannot be read). */
    method FinishSnapshot(req: Snapshot, path: string) returns (err: Option<string>, out: Snapshot)
      requires Valid()
      modifies this, host
      ensures Valid()
      ensures host.loops == old(host.loops)
      ensures volumes == old(volumes) && fullDirs == old(fullDirs)
      ensures err.None? ==> (
        snapshots == old(snapshots)[req.id := out]
        && out == req.(path := path, readyToUse := true, size := out.size) && out.size >= 0)
      ensures err.Some? ==> snapshots == old(snapshots)
    {
      out := req.(path := path, readyToUse := true);
      var file := mountPath + path;
      var wait := host.WaitSnapshotReady(file);
      if wait.Some? {
        err := Some("Failed to WaitSnapshotReady: " + wait.value);
        return;
      }
      var size := host.GetFileSize(file);
      out := out.(size := if size.Ok? then size.value else 0);
      snapshots := snapshots[req.id := out];
      err := None;
    }

    /** `CreateSnapshot`: a snapshot of a catalogued volume, filed in a
        snapshot shard. */
    method CreateSnapshot(volumeId: string, req: Snapshot)
      returns (err: Option<string>, out: Snapshot, mxDir: string, ghost retried: bool, ghost firstErr: string)
      requires Valid()
      modifies this, tool, host
      ensures Valid()
      ensures host.loops == old(host.loops)
      ensures volumes == old(volumes)
      ensures volumeId !in old(volumes) ==> (
        err.Some? && snapshots == old(snapshots) && fullDirs == old(fullDirs)
        && tool.log == old(tool.log) && host.log == old(host.log))
      ensures Crc32.ByteLen(FileName(req.id, req.name)) >= FileNameMax ==> (
        err.Some? && snapshots == old(snapshots) && fullDirs == old(fullDirs) && tool.log == old(tool.log))
      ensures err.None? ==> (
        volumeId in volumes
        && snapshots == old(snapshots)[req.id := out]
        && out == req.(path := mxDir + "/" + FileName(req.id, req.name), readyToUse := true, size := out.size)
        && out.size >= 0 && !Marked(fullDirs, mxDir)
        && LastAnswered(tool.log, SnapshotCall(volumes[volumeId].path, mxDir + "/" + FileName(req.id, req.name))))
      ensures err.None? && !retried ==>
        Some(mxDir) == ShardChoice(old(fullDirs), snapshotDir + "/" + SnapshotPrefix, PrimaryShard(req.id, word))
      ensures err.Some? ==> (
        snapshots == old(snapshots) || snapshots == old(snapshots) - {req.id}
        || snapshots == old(snapshots)[req.id := req])
      ensures !retried ==> fullDirs == old(fullDirs)
      ensures retried ==> (
        IsFileFullErr(firstErr)
        && ShardChoice(old(fullDirs), snapshotDir + "/" + SnapshotPrefix, PrimaryShard(req.id, word)).Some?
        && fullDirs == old(fullDirs)[ShardChoice(old(fullDirs), snapshotDir + "/" + SnapshotPrefix, PrimaryShard(req.id, word)).value := true])
      // the retry follows a "file full" answer to the copy into the first shard
      ensures retried <==> FileFullAnswer(tool.log, |old(tool.log)|)
      ensures retried ==> (
        volumeId in volumes && ShardChoice(old(fullDirs), snapshotDir + "/" + SnapshotPrefix, PrimaryShard(req.id, word)).Some?
        && tool.log[|old(tool.log)|] == Exchange(
             SnapshotCall(volumes[volumeId].path,
                          ShardChoice(old(fullDirs), snapshotDir + "/" + SnapshotPrefix, PrimaryShard(req.id, word)).value + "/" + FileName(req.id, req.name)),
             Err(firstErr)))
    {
      out := req;
      mxDir := "";
      retried := false;
      firstErr := "";
      if volumeId !in volumes {
        err := Some("can not find the arstor path for volume " + volumeId);
        return;
      }
      var src := volumes[volumeId].path;
      var prefix := snapshotDir + "/" + SnapshotPrefix;
      ShardChoiceSpec(fullDirs, prefix, PrimaryShard(req.id, word));
      var dirs := GenerateArStorDir(mountPath, prefix, req.id);
      if dirs.Err? {
        err := Some(dirs.msg);
        return;
      }
      if Crc32.ByteLen(FileName(req.id, req.name)) >= FileNameMax {
        err := Some(NameTooLongMsg(req.name));
        return;
      }
      err, out, mxDir, retried, firstErr := PlaceSnapshot(src, req, prefix, dirs.value);
    }

    /** The part of `RestoreSnapshot` after the shard is chosen: file a
        placeholder volume, ask for the clone (retrying once after "file
        full") and record the path. */
    method PlaceClone(src: string, req: VolumeRequest, prefix: string, dirs: Dirs)
      returns (err: Option<string>, out: VolumeRequest, mxDir: string, ghost retried: bool, ghost firstErr: string)
      requires Valid() && !Marked(fullDirs, dirs.mxDir)
      modifies this, tool, host
      ensures Valid()
      ensures host.loops == old(host.loops)
      ensures snapshots == old(snapshots)
      ensures err.None? ==> (
        volumes == old(volumes)[req.volId := Volume(req.volId, req.volName, req.volSize, mxDir + "/" + FileName(req.volId, req.volName))]
        && out == req.(volPath := mxDir + "/" + FileName(req.volId, req.volName))
        && !Marked(fullDirs, mxDir)
        && LastAnswered(tool.log, CloneCall(src, mxDir + "/" + FileName(req.volId, req.volName))))
      ensures err.Some? ==> volumes == old(volumes) - {req.volId} && out == req
      ensures !retried ==> mxDir == dirs.mxDir && fullDirs == old(fullDirs)
      ensures retried ==> IsFileFullErr(firstErr) && fullDirs == old(fullDirs)[dirs.mxDir := true]
      ensures |old(tool.log)| < |tool.log| && tool.log[|old(tool.log)|].call == CloneCall(src, dirs.mxDir + "/" + FileName(req.volId, req.volName))
      ensures retried <==> FileFullAnswer(tool.log, |old(tool.log)|)
      ensures retried ==> tool.log[|old(tool.log)|].reply == Err(firstErr)
    {
      out := req;
      var name := FileName(req.volId, req.volName);
      var cache := Volume(req.volId, req.volName, req.volSize, "");
      volumes := volumes[req.volId := cache];
      var again;
      err, mxDir, again, firstErr := CopyWithRetry(CloneCopy, src, prefix, req.volId, name, dirs);
      retried := again;
      if err.Some? {
        volumes := volumes - {req.volId};
        return;
      }
      cache := cache.(path := mxDir + "/" + name);
      ReinsertAfterRemove(old(volumes), req.volId, Volume(req.volId, req.volName, req.volSize, ""), cache);
      volumes := volumes[req.volId := cache];
      out := req.(volPath := cache.path);
    }

    /** `RestoreSnapshot`: a new volume cloned from a catalogued snapshot.
        Unlike `CreateVolume` and `CreateSnapshot` it does not check the
        length of the file name. */
    method RestoreSnapshot(snapshotId: string, req: VolumeRequest)
      returns (err: Option<string>, out: VolumeRequest, mxDir: string, ghost retried: bool, ghost firstErr: string)
      requires Valid()
      modifies this, tool, host
      ensures Valid()
      ensures host.loops == old(host.loops)
      ensures snapshots == old(snapshots)
      ensures snapshotId !in old(snapshots) ==> (
        err.Some? && volumes == old(volumes) && fullDirs == old(fullDirs)
        && tool.log == old(tool.log) && host.log == old(host.log))
      ensures err.None? ==> (
        snapshotId in snapshots
        && volumes == old(volumes)[req.volId := Volume(req.volId, req.volName, req.volSize, mxDir + "/" + FileName(req.volId, req.volName))]
        && out == req.(volPath := mxDir + "/" + FileName(req.volId, req.volName))
        && !Marked(fullDirs, mxDir)
        && LastAnswered(tool.log, CloneCall(snapshots[snapshotId].path, mxDir + "/" + FileName(req.volId, req.volName))))
      ensures err.None? && !retried ==>
        Some(mxDir) == ShardChoice(old(fullDirs), volumeDir + "/" + VolumePrefix, PrimaryShard(req.volId, word))
      ensures err.Some? ==> volumes == old(volumes) || volumes == old(volumes) - {req.volId}
      ensures !retried ==> fullDirs == old(fullDirs)
      ensures retried ==> (
        IsFileFullErr(firstErr)
        && ShardChoice(old(fullDirs), volumeDir + "/" + VolumePrefix, PrimaryShard(req.volId, word)).Some?
        && fullDirs == old(fullDirs)[ShardChoice(old(fullDirs), volumeDir + "/" + VolumePrefix, PrimaryShard(req.volId, word)).value := true])
      // the retry follows a "file full" answer to the clone into the first shard
      ensures retried <==> FileFullAnswer(tool.log, |old(tool.log)|)
      ensures retried ==> (
        snapshotId in snapshots && ShardChoice(old(fullDirs), volumeDir + "/" + VolumePrefix, PrimaryShard(req.volId, word)).Some?
        && tool.log[|old(tool.log)|] == Exchange(
             CloneCall(snapshots[snapshotId].path,
                       ShardChoice(old(fullDirs), volumeDir + "/" + VolumePrefix, PrimaryShard(req.volId, word)).value + "/" + FileName(req.volId, req.volName)),
             Err(firstErr)))
    {
      out := req;
      mxDir := "";
      retried := false;
      firstErr := "";
      if snapshotId !in snapshots {
        err := Some("can not find the arstor path for snapshot " + snapshotId);
        return;
      }
      var src := snapshots[snapshotId].path;
      var prefix := volumeDir + "/" + VolumePrefix;
      ShardChoiceSpec(fullDirs, prefix, PrimaryShard(req.volId, word));
      var dirs := GenerateArStorDir(mountPath, prefix, req.volId);
      if dirs.Err? {
        err := Some(dirs.msg);
        return;
      }
      err, out, mxDir, retried, firstErr := PlaceClone(src, req, prefix, dirs.value);
    }

    /** `CloneVolume`: a snapshot of the source volume filed under the new
        volume's id and name, then a volume restored from it. The snapshot
        stays in the catalog. */
    method CloneVolume(srcVolumeId: string, req: VolumeRequest, now: Timestamp) returns (err: Option<string>, out: VolumeRequest, mxDir: string)
      requires Valid()
      modifies this, tool, host
      ensures Valid()
      ensures host.loops == old(host.loops)
      ensures srcVolumeId !in old(volumes) ==> (
        err.Some? && volumes == old(volumes) && snapshots == old(snapshots) && fullDirs == old(fullDirs)
        && tool.log == old(tool.log) && host.log == old(host.log))
      ensures err.None? ==> (
        req.volId in snapshots
        && snapshots == old(snapshots)[req.volId := snapshots[req.volId]]
        && snapshots[req.volId].volumeId == srcVolumeId && snapshots[req.volId].name == req.volName
        && snapshots[req.volId].creationTime == now && snapshots[req.volId].readyToUse
        && volumes == old(volumes)[req.volId := Volume(req.volId, req.volName, req.volSize, out.volPath)]
        && out == req.(volPath := mxDir + "/" + FileName(req.volId, req.volName))
        && !Marked(fullDirs, mxDir))
    {
      out := req;
      mxDir := "";
      if srcVolumeId !in volumes {
        return Some("can not find the arstor path for volume " + srcVolumeId), out, mxDir;
      }
      var snapshot := Snapshot(req.volId, req.volName, srcVolumeId, "", now, 0, false);
      var taken, snapDir;
      ghost var retried, firstErr;
      err, taken, snapDir, retried, firstErr := CreateSnapshot(srcVolumeId, snapshot);
      if err.Some? {
        return;
      }
      err, out, mxDir, retried, firstErr := RestoreSnapshot(snapshot.id, req);
    }

    /** The check `DeleteVolume` and `DeleteSnapshot` make before deleting
        `file`: the shard holding it is to be unmarked afterwards exactly
        when the array then counts it full. `Some(dir)` is that shard,
        relative to the mount; a failed lookup or count leaves `None`; `err`
        is the crash of `isFullArStorDir`. */
    method ShardToUnmark(file: string) returns (err: Option<string>, dir: Option<string>)
      modifies tool, host
      ensures host.loops == old(host.loops)
      ensures old(host.log) <= host.log
      ensures err.Some? ==> err.value == IndexOutOfRange && dir.None?
      ensures dir.Some? ==> (
        dir.value == TrimPrefix(ParentDir(file), mountPath)
        && |tool.log| == |old(tool.log)| + 1 && AttributeAnswer(tool.log, |old(tool.log)|)
        && FullVerdict(tool.log[|old(tool.log)|].reply.value) == Full)
    {
      err, dir := None, None;
      var localDir := host.GetFileDir(file);
      if localDir.Ok? {
        var full := IsFullArStorDir(localDir.value);
        if full.Crashed? {
          err := Some(full.msg);
        } else if full.Measured? && full.full {
          dir := Some(TrimPrefix(localDir.value, mountPath));
        }
      }
    }

    /** Asks the array to delete a volume or snapshot file. */
    method DeleteFromArray(kind: FileKind, file: string) returns (r: Result<string>)
      modifies tool
      ensures tool.log == old(tool.log) + [Exchange(DeleteFileCall(kind, file), r)]
      ensures r.Ok? ==> r.value == ""
    {
      if kind == VolumeFile {
        r := tool.Delete(file);
      } else {
        r := tool.DeleteSnapshot(file);
      }
    }

    /** `DeleteSnapshot`. A missing or path-less snapshot counts as deleted.
        Otherwise the entry goes only once the array has deleted the file,
        and the shard is unmarked only when it was counted full just before
        the delete. */
    method DeleteSnapshot(snapshotId: string) returns (err: Option<string>)
      requires Valid()
      modifies this, tool, host
      ensures Valid()
      ensures host.loops == old(host.loops)
      ensures old(host.log) <= host.log
      ensures volumes == old(volumes)
      ensures snapshotId !in old(snapshots) || old(snapshots)[snapshotId].path == "" ==> (
        err.None? && snapshots == old(snapshots) - {snapshotId}
        && fullDirs == old(fullDirs) && tool.log == old(tool.log))
      ensures err.None? ==> snapshots == old(snapshots) - {snapshotId}
      ensures err.Some? ==> snapshots == old(snapshots) && fullDirs == old(fullDirs)
      ensures err.None? && snapshotId in old(snapshots) && old(snapshots)[snapshotId].path != "" ==>
        LastAnswered(tool.log, DeleteSnapshotCall(mountPath + old(snapshots)[snapshotId].path))
      ensures fullDirs == old(fullDirs) || (
        snapshotId in old(snapshots) && err.None?
        && fullDirs == old(fullDirs) - {TrimPrefix(ParentDir(mountPath + old(snapshots)[snapshotId].path), mountPath)}
        && MeasuredFullBefore(tool.log, |old(tool.log)|, DeleteSnapshotCall(mountPath + old(snapshots)[snapshotId].path)))
    {
      if snapshotId !in snapshots || snapshots[snapshotId].path == "" {
        snapshots := snapshots - {snapshotId};
        return None;
      }
      var file := mountPath + snapshots[snapshotId].path;
      var dir;
      err, dir := ShardToUnmark(file);
      if err.Some? {
        return;
      }
      var r := DeleteFromArray(SnapshotFile, file);
      if r.Err? {
        return Some(r.msg);
      }
      snapshots := snapshots - {snapshotId};
      if dir.Some? {
        RemoveFullDir(dir.value);
      }
    }

    /** The part of `DeleteVolume` that deletes the file of a catalogued
        volume, with the same ordering as `DeleteSnapshot`. */
    method DeleteVolumeFile(volId: string, path: string) returns (err: Option<string>)
      requires Valid() && volId in volumes && volumes[volId].path == path
      modifies this, tool, host
      ensures Valid()
      ensures host.loops == old(host.loops)
      ensures old(host.log) <= host.log
      ensures snapshots == old(snapshots)
      ensures err.None? ==> volumes == old(volumes) - {volId} && LastAnswered(tool.log, DeleteCall(mountPath + path))
      ensures err.Some? ==> volumes == old(volumes) && fullDirs == old(fullDirs)
      ensures fullDirs == old(fullDirs) || (
        err.None?
        && fullDirs == old(fullDirs) - {TrimPrefix(ParentDir(mountPath + path), mountPath)}
        && MeasuredFullBefore(tool.log, |old(tool.log)|, DeleteCall(mountPath + path)))
    {
      var file := mountPath + path;
      var dir;
      err, dir := ShardToUnmark(file);
      if err.Some? {
        return;
      }
      var r := DeleteFromArray(VolumeFile, file);
      if r.Err? {
        return Some(r.msg);
      }
      volumes := volumes - {volId};
      if dir.Some? {
        RemoveFullDir(dir.value);
      }
    }

    /** `DeleteVolume`. A missing or path-less volume counts as deleted; a
        volume with snapshots is refused with nothing changed; otherwise the
        file is deleted, and then the snapshot filed under the volume's own
        id (the one `CloneVolume` leaves behind) is deleted too. */
    method DeleteVolume(volId: string) returns (err: Option<string>)
      requires Valid()
      modifies this, tool, host
      ensures Valid()
      ensures host.loops == old(host.loops)
      ensures old(host.log) <= host.log
      ensures volId !in old(volumes) || old(volumes)[volId].path == "" ==> (
        err.None? && volumes == old(volumes) - {volId} && snapshots == old(snapshots)
        && fullDirs == old(fullDirs) && tool.log == old(tool.log))
      ensures volId in old(volumes) && old(volumes)[volId].path != "" && SnapshotIdsOf(old(snapshots), volId) != {} ==> (
        err.Some? && volumes == old(volumes) && snapshots == old(snapshots)
        && fullDirs == old(fullDirs) && tool.log == old(tool.log))
      ensures err.None? ==> volumes == old(volumes) - {volId}
      ensures err.None? && volId in old(volumes) && old(volumes)[volId].path != "" ==> snapshots == old(snapshots) - {volId}
      ensures volumes == old(volumes) || volumes == old(volumes) - {volId}
      ensures snapshots == old(snapshots) || snapshots == old(snapshots) - {volId}
      ensures volId !in old(snapshots) && err.Some? ==> volumes == old(volumes)
      ensures fullDirs.Keys <= old(fullDirs).Keys
    {
      if volId !in volumes || volumes[volId].path == "" {
        volumes := volumes - {volId};
        return None;
      }
      var ids := SnapshotIdsOf(snapshots, volId);
      if ids != {} {
        return Some("the volume " + volId + " has snapshot, can not delete it.");
      }
      err := DeleteVolumeFile(volId, volumes[volId].path);
      if err.Some? {
        return;
      }
      if volId in snapshots {
        err := DeleteSnapshot(volId);
      }
    }

    /** Deleting a volume again after it was deleted succeeds and changes
        nothing more: the second call finds no entry. */
    method DeleteVolumeTwice(volId: string) returns (first: Option<string>, second: Option<string>)
      requires Valid()
      modifies this, tool, host
      ensures first.None? ==> second.None? && volumes == old(volumes) - {volId}
    {
      first := DeleteVolume(volId);
      ghost var afterFirst := volumes;
      second := DeleteVolume(volId);
    }

    /** `ExpandVolume`: asks the array to truncate the file to the new size.
        An unknown id is not checked: the zero volume's empty path is used.
        The size is set on a copy, so the catalog keeps the old size. */
    method ExpandVolume(volumeId: string, newSize: int) returns (err: Option<string>)
      modifies tool
      ensures |tool.log| == |old(tool.log)| + 1 && tool.log[..|old(tool.log)|] == old(tool.log)
      ensures tool.log[|old(tool.log)|].call
        == TruncateCall(mountPath + "/" + (if volumeId in volumes then volumes[volumeId].path else ""), newSize)
      ensures err.None? <==> tool.log[|old(tool.log)|].reply.Ok?
    {
      var volume := if volumeId in volumes then volumes[volumeId] else Volume("", "", 0, "");
      var r := tool.Truncate(mountPath + "/" + volume.path, newSize);
      if r.Err? {
        return Some(r.msg);
      }
      err := None;
    }

    /** The volume half of `LoadArStorData`: each file named `<id>_<name>`
        whose id is not catalogued yet becomes a volume, in the map's
        iteration order; an empty file is removed instead (by its bare name),
        and a size that cannot be read stops the load. */
    method LoadVolumes(files: map<string, string>) returns (err: Option<string>, ghost origin: map<string, string>, ghost emptied: set<string>)
      requires Valid()
      modifies this, host
      ensures Valid()
      ensures host.loops == old(host.loops)
      ensures old(host.log) <= host.log
      ensures snapshots == old(snapshots) && fullDirs == old(fullDirs)
      ensures forall id :: id in old(volumes) ==> id in volumes && volumes[id] == old(volumes)[id]
      ensures forall id :: id in volumes && id !in old(volumes) ==> (
        id in origin && origin[id] in files && ParseFileName(origin[id]) == Some((id, volumes[id].name))
        && volumes[id].path == files[origin[id]] && volumes[id].size > 0)
      ensures emptied <= files.Keys
      ensures forall f :: f in emptied ==> HostEvent(Remove(f), true) in host.log || HostEvent(Remove(f), false) in host.log
      ensures err.None? ==> forall f :: f in files && ParseFileName(f).Some? ==> ParseFileName(f).value.0 in volumes || f in emptied
    {
      err := None;
      origin := map[];
      emptied := {};
      var remaining := files.Keys;
      while remaining != {}
        invariant remaining <= files.Keys
        invariant Valid()
        invariant host.loops == old(host.loops)
        invariant old(host.log) <= host.log
        invariant snapshots == old(snapshots) && fullDirs == old(fullDirs)
        invariant KeepsVolumes(old(volumes))
        invariant VolumesFromFiles(old(volumes), files, origin)
        invariant emptied <= files.Keys
        invariant RemovalsLogged(emptied)
        invariant forall f :: f in files && f !in remaining && ParseFileName(f).Some? ==> ParseFileName(f).value.0 in volumes || f in emptied
        decreases remaining
      {
        var file :| file in remaining;
        remaining := remaining - {file};
        ghost var before, originBefore := volumes, origin;
        var added, removed;
        var id;
        err, added, removed, id := LoadVolumeEntry(file, files[file]);
        if err.Some? {
          return;
        }
        if added {
          origin := origin[id := file];
        }
        if removed {
          emptied := emptied + {file};
        }
      }
    }

    /** One entry of the volume tree: a name that does not parse, or whose
        id is catalogued already, is passed over; otherwise the file is
        read. */
    method LoadVolumeEntry(file: string, path: string) returns (err: Option<string>, added: bool, removed: bool, id: string)
      requires Valid()
      modifies this, host
      ensures Valid()
      ensures host.loops == old(host.loops)
      ensures old(host.log) <= host.log
      ensures snapshots == old(snapshots) && fullDirs == old(fullDirs)
      ensures added ==> (id !in old(volumes) && id in volumes && volumes == old(volumes)[id := volumes[id]]
        && ParseFileName(file) == Some((id, volumes[id].name))
        && volumes[id].path == path && volumes[id].size > 0)
      ensures !added ==> volumes == old(volumes)
      ensures removed ==> HostEvent(Remove(file), true) in host.log || HostEvent(Remove(file), false) in host.log
      ensures forall e :: e in old(host.log) ==> e in host.log
      ensures err.None? && ParseFileName(file).Some? ==> ParseFileName(file).value.0 in volumes || removed
      ensures err.Some? ==> !added
    {
      id := "";
      var parsed := ParseFileName(file);
      if parsed.None? {
        return None, false, false, id;
      }
      var name;
      id, name := parsed.value.0, parsed.value.1;
      if id in volumes {
        return None, false, false, id;
      }
      err, added, removed := LoadVolumeFile(file, id, name, path);
    }

    /** Every volume of `before` is still catalogued, unchanged. */
    ghost predicate KeepsVolumes(before: map<string, Volume>)
      reads this
    {
      forall id :: id in before ==> id in volumes && volumes[id] == before[id]
    }

    /** Every volume not in `before` comes from the file `origin` names. */
    ghost predicate VolumesFromFiles(before: map<string, Volume>, files: map<string, string>, origin: map<string, string>)
      reads this
    {
      forall id :: id in volumes && id !in before ==> (
        id in origin && origin[id] in files && ParseFileName(origin[id]) == Some((id, volumes[id].name))
        && volumes[id].path == files[origin[id]] && volumes[id].size > 0)
    }

    /** Every file of `emptied` was asked to be removed. */
    ghost predicate RemovalsLogged(emptied: set<string>)
      reads this, host
    {
      forall f :: f in emptied ==> HostEvent(Remove(f), true) in host.log || HostEvent(Remove(f), false) in host.log
    }

    /** One file of the volume tree: its size is read; an empty file is
        removed, any other becomes the volume `id`. */
    method LoadVolumeFile(file: string, id: string, name: string, path: string) returns (err: Option<string>, added: bool, removed: bool)
      requires Valid() && id !in volumes
      modifies this, host
      ensures Valid()
      ensures host.loops == old(host.loops)
      ensures old(host.log) <= host.log
      ensures snapshots == old(snapshots) && fullDirs == old(fullDirs)
      ensures added ==> (id in volumes && volumes == old(volumes)[id := volumes[id]]
        && volumes[id].name == name && volumes[id].path == path && volumes[id].size > 0)
      ensures !added ==> volumes == old(volumes)
      ensures removed ==> HostEvent(Remove(file), true) in host.log || HostEvent(Remove(file), false) in host.log
      ensures forall e :: e in old(host.log) ==> e in host.log
      ensures err.None? <==> added || removed
    {
      added, removed := false, false;
      var size := host.GetFileSize(mountPath + path);
      if size.Err? {
        return Some("Failed to get file size: " + mountPath + path + " : " + size.msg), false, false;
      }
      if size.value == 0 {
        var _ := host.DeleteFile(file);
        return None, false, true;
      }
      volumes := volumes[id := Volume(id, name, size.value, path)];
      return None, true, false;
    }

    /** The snapshot half of `LoadArStorData`: as for volumes, but every
        file counts (an empty one too), and the source volume is asked of
        the array by the file's inode. Any failed lookup stops the load. */
    method LoadSnapshots(files: map<string, string>) returns (err: Option<string>, ghost origin: map<string, string>)
      requires Valid()
      modifies this, tool, host
      ensures Valid()
      ensures host.loops == old(host.loops)
      ensures old(host.log) <= host.log
      ensures volumes == old(volumes) && fullDirs == old(fullDirs)
      ensures forall id :: id in old(snapshots) ==> id in snapshots && snapshots[id] == old(snapshots)[id]
      ensures forall id :: id in snapshots && id !in old(snapshots) ==> (
        id in origin && origin[id] in files && ParseFileName(origin[id]) == Some((id, snapshots[id].name))
        && snapshots[id].path == files[origin[id]] && snapshots[id].size >= 0 && snapshots[id].readyToUse)
      ensures err.None? ==> forall f :: f in files && ParseFileName(f).Some? ==> ParseFileName(f).value.0 in snapshots
    {
      err := None;
      origin := map[];
      var remaining := files.Keys;
      while remaining != {}
        invariant remaining <= files.Keys
        invariant Valid()
        invariant host.loops == old(host.loops)
        invariant old(host.log) <= host.log
        invariant volumes == old(volumes) && fullDirs == old(fullDirs)
        invariant forall id :: id in old(snapshots) ==> id in snapshots && snapshots[id] == old(snapshots)[id]
        invariant forall id :: id in snapshots && id !in old(snapshots) ==> (
          id in origin && origin[id] in files && ParseFileName(origin[id]) == Some((id, snapshots[id].name))
          && snapshots[id].path == files[origin[id]] && snapshots[id].size >= 0 && snapshots[id].readyToUse)
        invariant forall f :: f in files && f !in remaining && ParseFileName(f).Some? ==> ParseFileName(f).value.0 in snapshots
        decreases remaining
      {
        var file :| file in remaining;
        remaining := remaining - {file};
        var parsed := ParseFileName(file);
        if parsed.None? {
          continue;
        }
        var (id, name) := parsed.value;
        if id in snapshots {
          continue;
        }
        err := LoadSnapshotFile(id, name, files[file]);
        if err.Some? {
          return;
        }
        origin := origin[id := file];
      }
    }

    /** One file of the snapshot tree: its size, creation time and inode
        are read, and the array is asked for the source volume of that
        inode; the snapshot `id` is catalogued when all of them answer. */
    method LoadSnapshotFile(id: string, name: string, path: string) returns (err: Option<string>)
      requires Valid() && id !in snapshots
      modifies this, tool, host
      ensures Valid()
      ensures host.loops == old(host.loops)
      ensures old(host.log) <= host.log
      ensures volumes == old(volumes) && fullDirs == old(fullDirs)
      ensures err.None? ==> (id in snapshots && snapshots == old(snapshots)[id := snapshots[id]]
        && snapshots[id].name == name && snapshots[id].path == path
        && snapshots[id].size >= 0 && snapshots[id].readyToUse)
      ensures err.Some? ==> snapshots == old(snapshots)
    {
      var size := host.GetFileSize(mountPath + path);
      if size.Err? {
        return Some("Failed to get file size: " + mountPath + path + " : " + size.msg);
      }
      var created := host.GetFileCreationTime(mountPath + path);
      if created.Err? {
        return Some("Failed to get file created time: " + mountPath + path + " : " + created.msg);
      }
      var inode := host.GetPathInode(mountPath + path);
      if inode.Err? {
        return Some("Failed to get file inode: " + mountPath + path + " : " + inode.msg);
      }
      var volumeId := tool.GetSnapshotSrcvolumeId(inode.value);
      if volumeId.Err? {
        return Some("Failed to get snapshot file's volume id " + mountPath + path + " : " + volumeId.msg);
      }
      snapshots := snapshots[id := Snapshot(id, name, volumeId.value, path, created.value, size.value, true)];
      err := None;
    }

    /** `LoadArStorData`: reads both trees and catalogs what it finds. The
        process exit on a failed read is the returned error. */
    method LoadArStorData() returns (err: Option<string>)
      requires Valid()
      modifies this, tool, host
      ensures Valid()
      ensures host.loops == old(host.loops)
      ensures old(host.log) <= host.log
      ensures fullDirs == old(fullDirs)
      ensures forall id :: id in old(volumes) ==> id in volumes && volumes[id] == old(volumes)[id]
      ensures forall id :: id in old(snapshots) ==> id in snapshots && snapshots[id] == old(snapshots)[id]
      ensures forall id :: id in volumes && id !in old(volumes) ==> volumes[id].size > 0
    {
      var volumeFiles := host.GetAllFile(mountPath, volumeDir);
      if volumeFiles.Err? {
        return Some("Failed to initialize arstor volumes: " + volumeFiles.msg);
      }
      ghost var origin, emptied;
      err, origin, emptied := LoadVolumes(volumeFiles.value);
      if err.Some? {
        return;
      }
      var snapshotFiles := host.GetAllFile(mountPath, snapshotDir);
      if snapshotFiles.Err? {
        return Some("Failed to initialize arstor snapshots: " + snapshotFiles.msg);
      }
      err, origin := LoadSnapshots(snapshotFiles.value);
    }
  }
}
