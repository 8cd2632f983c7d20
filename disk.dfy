/**
 * The directory the file transporter works in, and the file operations it
 * calls: a map from file name to lines, where gzip is the identity. Which
 * operations fail is fixed when the disk is made; a failing operation
 * changes nothing and reports an error. `fileExists`, `countLines` and
 * `renameAll` are defined elsewhere in the package and are not part of
 * this model; their contracts give only what the transporter relies on.
 */
module Disks {
  import opened Wrappers
  import opened Strings
  import opened Rotation

  /** The operations that can fail. */
  datatype Op =
    | ExistsOp     // fileExists
    | ReadDirOp    // ioutil.ReadDir
    | RenameOp     // renameAll
    | CreateOp     // os.OpenFile with O_CREATE|O_TRUNC, for the new archive
    | CopyOp       // io.Copy of the live file into the archive
    | TruncateOp   // (*os.File).Truncate(0)
    | OpenOp       // os.OpenFile with O_CREATE|O_APPEND, for the live file
    | StatOp       // (*os.File).Stat
    | CountOp      // countLines

  function Failure(op: Op): string {
    match op
    case ExistsOp => "stat failed"
    case ReadDirOp => "readdir failed"
    case RenameOp => "rename failed"
    case CreateOp => "create failed"
    case CopyOp => "copy failed"
    case TruncateOp => "truncate failed"
    case OpenOp => "open failed"
    case StatOp => "stat failed"
    case CountOp => "read failed"
  }

  class Disk {
    var files: Files
    const failing: set<Op>

    constructor(files: Files, failing: set<Op>)
      ensures this.files == files && this.failing == failing
    {
      this.files := files;
      this.failing := failing;
    }

    /** `fileExists(name)`: whether the file exists, unless the check fails. */
    method Exists(name: string) returns (found: bool, err: Option<string>)
      ensures err.None? <==> ExistsOp !in failing
      ensures err.Some? ==> err.value == Failure(ExistsOp)
      ensures err.None? ==> found == (name in files)
    {
      if ExistsOp in failing {
        return false, Some(Failure(ExistsOp));
      }
      return name in files, None;
    }

    /** `ioutil.ReadDir`: the names in the directory, sorted. */
    method ReadDir() returns (names: seq<string>, err: Option<string>)
      ensures err.None? <==> ReadDirOp !in failing
      ensures err.Some? ==> err.value == Failure(ReadDirOp)
      ensures err.None? ==> names == SortedOf(files.Keys)
    {
      if ReadDirOp in failing {
        return [], Some(Failure(ReadDirOp));
      }
      names := SortedKeys(files);
      err := None;
    }

    /** `os.Remove`, whose error the caller ignores. */
    method Remove(name: string)
      modifies this
      ensures files == old(files) - {name}
    {
      files := files - {name};
    }

    /**
     * `renameAll(renames)`: all renames at once. It fails, changing
     * nothing, when a source is missing.
     */
    method RenameAll(renames: map<string, string>) returns (err: Option<string>)
      modifies this
      ensures err.None? <==> RenameOp !in failing && renames.Keys <= old(files).Keys
      ensures err.Some? ==> err.value == Failure(RenameOp)
      ensures err.None? ==> RenamedAtOnce(old(files), renames, files)
      ensures err.Some? ==> files == old(files)
    {
      if RenameOp in failing || !(renames.Keys <= files.Keys) {
        return Some(Failure(RenameOp));
      }
      var result := map n | n in files && n !in renames :: files[n];
      var todo := renames.Keys;
      var done: set<string> := {};
      while todo != {}
        invariant todo + done == renames.Keys && todo !! done
        invariant result.Keys == (files.Keys - renames.Keys) + (set s | s in done :: renames[s])
        invariant forall n :: n in result && n !in (set s | s in done :: renames[s]) ==> result[n] == files[n]
        invariant forall n :: n in result && n in (set s | s in done :: renames[s]) ==>
          exists src :: src in done && renames[src] == n && result[n] == files[src]
        decreases todo
      {
        var src :| src in todo;
        var target := renames[src];
        if target !in (set s | s in done :: renames[s]) {
          result := result[target := files[src]];
        }
        todo := todo - {src};
        done := done + {src};
      }
      assert (set s | s in done :: renames[s]) == renames.Values;
      files := result;
      err := None;
    }

    /** `os.OpenFile(name, O_WRONLY|O_CREATE|O_TRUNC)`: the file exists and is empty. */
    method Create(name: string) returns (err: Option<string>)
      modifies this
      ensures err.None? <==> CreateOp !in failing
      ensures err.Some? ==> err.value == Failure(CreateOp)
      ensures err.None? ==> files == old(files)[name := []]
      ensures err.Some? ==> files == old(files)
    {
      if CreateOp in failing {
        return Some(Failure(CreateOp));
      }
      files := files[name := []];
      err := None;
    }

    /** `io.Copy` of the whole of `src` into `dst`, through the identity gzip writer. */
    method Copy(src: string, dst: string) returns (err: Option<string>)
      modifies this
      ensures err.None? <==> CopyOp !in failing && src in old(files)
      ensures err.Some? ==> err.value == Failure(CopyOp)
      ensures err.None? ==> files == old(files)[dst := old(files)[src]]
      ensures err.Some? ==> files == old(files)
    {
      if CopyOp in failing || src !in files {
        return Some(Failure(CopyOp));
      }
      files := files[dst := files[src]];
      err := None;
    }

    /** `Truncate(0)` on an open file. */
    method Truncate(name: string) returns (err: Option<string>)
      modifies this
      ensures err.None? <==> TruncateOp !in failing && name in old(files)
      ensures err.Some? ==> err.value == Failure(TruncateOp)
      ensures err.None? ==> files == old(files)[name := []]
      ensures err.Some? ==> files == old(files)
    {
      if TruncateOp in failing || name !in files {
        return Some(Failure(TruncateOp));
      }
      files := files[name := []];
      err := None;
    }

    /** `WriteString` on a file opened for appending. */
    method Append(name: string, line: string)
      requires name in files
      modifies this
      ensures files == old(files)[name := old(files)[name] + [line]]
    {
      files := files[name := files[name] + [line]];
    }

    /** `os.OpenFile(name, O_RDWR|O_CREATE|O_APPEND)`: an existing file is kept, a missing one is created empty. */
    method Open(name: string) returns (err: Option<string>)
      modifies this
      ensures err.None? <==> OpenOp !in failing
      ensures err.Some? ==> err.value == Failure(OpenOp)
      ensures err.None? ==> files == if name in old(files) then old(files) else old(files)[name := []]
      ensures err.Some? ==> files == old(files)
    {
      if OpenOp in failing {
        return Some(Failure(OpenOp));
      }
      if name !in files {
        files := files[name := []];
      }
      err := None;
    }

    /** `Stat().Size()`: the byte length of the file. */
    method Size(name: string) returns (size: int, err: Option<string>)
      ensures err.None? <==> StatOp !in failing && name in files
      ensures err.Some? ==> err.value == Failure(StatOp)
      ensures err.None? ==> size == Bytes(files[name])
    {
      if StatOp in failing || name !in files {
        return 0, Some(Failure(StatOp));
      }
      return Bytes(files[name]), None;
    }

    /** `countLines`: the number of lines in the file. */
    method CountLines(name: string) returns (count: int, err: Option<string>)
      ensures err.None? <==> CountOp !in failing && name in files
      ensures err.Some? ==> err.value == Failure(CountOp)
      ensures err.None? ==> count == |files[name]|
    {
      if CountOp in failing || name !in files {
        return 0, Some(Failure(CountOp));
      }
      return |files[name]|, None;
    }
  }
}
