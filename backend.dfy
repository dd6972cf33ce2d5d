/** The ArStor array's command-line tool as the plugin sees it: the `Tool`
    interface. How a call is carried out (Docker API or `docker exec`) is
    outside the model; each call is recorded with its reply, and the reply
    is whatever the array answers. */
module Backend {
  import opened Common

  /** One request to the array. Inodes are the directory or file inode
      numbers the plugin looked up on the mount. */
  datatype ToolCall =
    | CreateCall(name: string, size: int, dirInode: int)
    | GetVolumeAttributeCall(inode: int)
    | TruncateCall(file: string, size: int)
    | SnapshotCall(src: string, dst: string)
    | GetSnapshotSrcvolumeIdCall(inode: int)
    | CloneCall(src: string, dst: string)
    | DeleteCall(path: string)
    | DeleteSnapshotCall(path: string)

  /** A request and the array's reply; an `error` return is `Err`, a call
      that only returns an error answers `Ok("")` on success. */
  datatype Exchange = Exchange(call: ToolCall, reply: Result<string>)

  /** The file names asked of `Create`, in order. */
  function CreateNames(log: seq<Exchange>): seq<string> {
    if log == [] then []
    else
      var last := log[|log| - 1];
      CreateNames(log[..|log| - 1]) + if last.call.CreateCall? then [last.call.name] else []
  }

  /** Appending one exchange adds its name exactly when it is a `Create`. */
  lemma CreateNamesAppend(log: seq<Exchange>, e: Exchange)
    ensures CreateNames(log + [e]) == CreateNames(log) + if e.call.CreateCall? then [e.call.name] else []
  {
    assert (log + [e])[..|log|] == log;
  }

  class Tool {
    /** Every exchange with the array so far. */
    var log: seq<Exchange>

    constructor()
      ensures log == []
    {
      log := [];
    }

    method Create(name: string, size: int, dirInode: int) returns (r: Result<string>)
      modifies this
      ensures log == old(log) + [Exchange(CreateCall(name, size, dirInode), r)]
    {
      r :| true;
      log := log + [Exchange(CreateCall(name, size, dirInode), r)];
    }

    method GetVolumeAttribute(inode: int) returns (r: Result<string>)
      modifies this
      ensures log == old(log) + [Exchange(GetVolumeAttributeCall(inode), r)]
    {
      r :| true;
      log := log + [Exchange(GetVolumeAttributeCall(inode), r)];
    }

    method Truncate(file: string, size: int) returns (r: Result<string>)
      modifies this
      ensures log == old(log) + [Exchange(TruncateCall(file, size), r)]
    {
      r :| true;
      log := log + [Exchange(TruncateCall(file, size), r)];
    }

    method Snapshot(src: string, dst: string) returns (r: Result<string>)
      modifies this
      ensures log == old(log) + [Exchange(SnapshotCall(src, dst), r)]
    {
      r :| true;
      log := log + [Exchange(SnapshotCall(src, dst), r)];
    }

    method GetSnapshotSrcvolumeId(inode: int) returns (r: Result<string>)
      modifies this
      ensures log == old(log) + [Exchange(GetSnapshotSrcvolumeIdCall(inode), r)]
    {
      r :| true;
      log := log + [Exchange(GetSnapshotSrcvolumeIdCall(inode), r)];
    }

    method Clone(src: string, dst: string) returns (r: Result<string>)
      modifies this
      ensures log == old(log) + [Exchange(CloneCall(src, dst), r)]
    {
      r :| true;
      log := log + [Exchange(CloneCall(src, dst), r)];
    }

    method Delete(path: string) returns (r: Result<string>)
      modifies this
      ensures log == old(log) + [Exchange(DeleteCall(path), r)]
      ensures r.Ok? ==> r.value == ""
    {
      var ok: bool :| true;
      if ok { r := Ok(""); } else { var msg: string :| true; r := Err(msg); }
      log := log + [Exchange(DeleteCall(path), r)];
    }

    method DeleteSnapshot(path: string) returns (r: Result<string>)
      modifies this
      ensures log == old(log) + [Exchange(DeleteSnapshotCall(path), r)]
      ensures r.Ok? ==> r.value == ""
    {
      var ok: bool :| true;
      if ok { r := Ok(""); } else { var msg: string :| true; r := Err(msg); }
      log := log + [Exchange(DeleteSnapshotCall(path), r)];
    }
  }
}
