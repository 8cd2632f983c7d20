/**
 * `FileTransporter` of `transporters.go` (its `ServerTransporter` is the
 * module `QueuedServer`).
 *
 * The file transporter appends one formatted line per accepted entry to
 * its live file and rotates it into `<name>.1.gz` when a byte or line
 * limit is reached, shifting older archives up by one first. Its path is
 * modelled as a name inside the one directory the `Disk` holds. Entries
 * go to a single-worker queue: the queue is the FIFO `pending`, and the
 * worker is the caller of `Work`. `Close` lets the worker finish every
 * pending entry.
 */
module Transporters {
  import opened Wrappers
  import opened Strings
  import opened Collaborators
  import opened Archives
  import opened Rotation
  import opened Disks
  import Decimal
  import Transporter

  const RotateFailure: string := "Failed to rotate log file: "

  /** `fileLogEntry`. */
  datatype FileLogEntry = FileLogEntry(level: string, message: string, date: Date)

  /** The steps of `rotate` that can fail. */
  predicate RotationSafe(failing: set<Op>) {
    failing !! {ExistsOp, ReadDirOp, RenameOp, CreateOp, CopyOp, TruncateOp}
  }

  /** The console line `showError` prints when the step `op` of a rotation fails. */
  function RotationError(op: Op, ext: Externals): string {
    Transporter.LogToString(false, true, 0, ext.errorLevel, RotateFailure + Failure(op), Date("", ""), 0, ext)
  }

  ghost predicate IsRotationError(line: string, ext: Externals) {
    exists op: Op :: line == RotationError(op, ext)
  }

  /** Standard output grew by rotation error lines only. */
  ghost predicate OnlyRotationErrors(before: seq<string>, after: seq<string>, ext: Externals) {
    && |before| <= |after| && after[..|before|] == before
    && forall i :: |before| <= i < |after| ==> IsRotationError(after[i], ext)
  }

  lemma ReportRotationError(before: seq<string>, mid: seq<string>, op: Op, ext: Externals)
    requires OnlyRotationErrors(before, mid, ext)
    ensures OnlyRotationErrors(before, mid + Transporter.ErrorLines(RotateFailure + Failure(op), ext), ext)
  {
    var after := mid + Transporter.ErrorLines(RotateFailure + Failure(op), ext);
    assert after[..|mid|] == mid;
    assert after[..|before|] == mid[..|before|];
    forall i | |before| <= i < |after| ensures IsRotationError(after[i], ext) {
      if i < |mid| {
        assert after[i] == mid[i];
      } else {
        assert after[i] == RotationError(op, ext);
      }
    }
  }

  lemma OnlyErrorsTrans(a: seq<string>, b: seq<string>, c: seq<string>, ext: Externals)
    requires OnlyRotationErrors(a, b, ext) && OnlyRotationErrors(b, c, ext)
    ensures OnlyRotationErrors(a, c, ext)
  {
    assert c[..|a|] == c[..|b|][..|a|];
    forall i | |a| <= i < |c| ensures IsRotationError(c[i], ext) {
      if i < |b| {
        assert c[i] == c[..|b|][i] == b[i];
      }
    }
  }

  /** Every decision taken is the classification of its entry. */
  ghost predicate Classified(decided: map<string, Action>, prefix: string, rotations: int) {
    forall n :: n in decided ==> decided[n] == Classify(n, prefix, rotations)
  }

  lemma ClassifiedStep(decided: map<string, Action>, prefix: string, rotations: int, name: string, action: Action)
    requires Classified(decided, prefix, rotations) && action == Classify(name, prefix, rotations)
    ensures Classified(decided[name := action], prefix, rotations)
  {
  }

  /**
   * The loop of `rotateArchives` has taken the decisions `decided`: the
   * renames collected and the files left after removals follow from them.
   */
  ghost predicate Scanned(before: Files, decided: map<string, Action>, renames: map<string, string>, files: Files) {
    && (forall n :: n in renames <==> n in decided && decided[n].Move?)
    && (forall n :: n in renames ==> renames[n] == decided[n].target)
    && (forall n :: n in files <==> n in before && !(n in decided && decided[n].Delete?))
    && (forall n :: n in files ==> files[n] == before[n])
  }

  lemma ScanStep(before: Files, decided: map<string, Action>, renames: map<string, string>, files: Files,
                 name: string, action: Action, renames': map<string, string>, files': Files)
    requires Scanned(before, decided, renames, files)
    requires name in decided ==> decided[name] == action
    requires action.Keep? ==> renames' == renames && files' == files
    requires action.Delete? ==> renames' == renames && files' == files - {name}
    requires action.Move? ==> renames' == renames[name := action.target] && files' == files
    ensures Scanned(before, decided[name := action], renames', files')
  {
  }

  /** Once every entry is classified, the removals are `Doomed` and the renames are `Plan`. */
  lemma ScanComplete(before: Files, prefix: string, rotations: int, decided: map<string, Action>,
                     renames: map<string, string>, files: Files)
    requires Classified(decided, prefix, rotations) && Scanned(before, decided, renames, files)
    requires decided.Keys == before.Keys
    ensures files == before - Doomed(before.Keys, prefix, rotations)
    ensures renames == Plan(before.Keys, prefix, rotations)
  {
  }

  /**
   * Every file that is neither `live` nor an archive of `prefix` (nor the
   * index-10 name, which no longer reads as one) is as it was.
   */
  ghost predicate OthersKept(before: Files, after: Files, prefix: string, live: string) {
    forall n :: n in before && n != live && ArchiveIndex(n, prefix).None? && n != ArchiveName(prefix, 10) ==>
      n in after && after[n] == before[n]
  }

  lemma KeptThroughUpdate(before: Files, mid: Files, prefix: string, live: string, k: string, v: seq<string>)
    requires OthersKept(before, mid, prefix, live)
    requires k == live || ArchiveIndex(k, prefix).Some?
    ensures OthersKept(before, mid[k := v], prefix, live)
  {
  }

  /** Creating `.1.gz` empty, copying the live file into it and truncating the live file. */
  lemma PushedSteps(m: Files, base: string, first: string)
    requires base in m && first == ArchiveName(TrimSpace(base), 1)
    ensures m[first := []][first := m[base]][base := []] == Pushed(m, base)
  {
  }

  /** The files after the archiving step `op` of `rotate` failed: the steps before it took effect. */
  function StoppedAt(files: Files, base: string, op: Op): (after: Files)
    requires base in files
    ensures base in after && after[base] == files[base]
    ensures forall n :: n in files ==> n in after
  {
    var first := ArchiveName(TrimSpace(base), 1);
    ArchiveNameNotLive(base, 1);
    match op
    case CopyOp => files[first := []]
    case TruncateOp => files[first := files[base]]
    case _ => files
  }

  /** Archiving the live file touches only it and `.1.gz`, and either moves its lines or leaves it as it was. */
  lemma ArchiveLiveOutcome(before: Files, base: string, failed: Option<Op>, after: Files)
    requires PlainPrefix(TrimSpace(base)) || ArchiveName(TrimSpace(base), 1) !in before
    requires base in before
    requires failed.None? ==> after == Pushed(before, base)
    requires failed.Some? ==> after == StoppedAt(before, base, failed.value)
    ensures base in after
    ensures failed.None? ==>
      after[base] == [] && ArchiveName(TrimSpace(base), 1) in after && after[ArchiveName(TrimSpace(base), 1)] == before[base]
    ensures failed.Some? ==> after[base] == before[base]
    ensures OthersKept(before, after, TrimSpace(base), base)
  {
    var prefix := TrimSpace(base);
    var first := ArchiveName(prefix, 1);
    if PlainPrefix(prefix) {
      ArchiveIndexOfName(prefix, 1);
    }
    ArchiveNameNotLive(base, 1);
    assert forall n :: n in before ==> n in after;
    assert forall n :: n in before && n != base && n != first ==> after[n] == before[n];
    OthersKeptApart(before, after, prefix, base, first);
  }

  /** Files kept apart from `live` and one new file or archive of `prefix` are kept. */
  lemma OthersKeptApart(before: Files, after: Files, prefix: string, live: string, first: string)
    requires ArchiveIndex(first, prefix).Some? || first !in before
    requires forall n :: n in before ==> n in after
    requires forall n :: n in before && n != live && n != first ==> after[n] == before[n]
    ensures OthersKept(before, after, prefix, live)
  {
  }

  lemma KeptTrans(a: Files, b: Files, c: Files, prefix: string, live: string)
    requires OthersKept(a, b, prefix, live) && OthersKept(b, c, prefix, live)
    ensures OthersKept(a, c, prefix, live)
  {
  }

  /** Every file that is no archive of `prefix` (nor the index-10 name) is as it was. */
  ghost predicate AllKept(before: Files, after: Files, prefix: string) {
    forall n :: n in before && ArchiveIndex(n, prefix).None? && n != ArchiveName(prefix, 10) ==>
      n in after && after[n] == before[n]
  }

  lemma KeptWithoutLive(before: Files, after: Files, prefix: string, live: string)
    requires AllKept(before, after, prefix)
    ensures OthersKept(before, after, prefix, live)
  {
  }

  /** `n` more writes keep a sink of `count` archives at nine archives or fewer. */
  predicate Room(count: nat, n: nat, rotations: int) {
    count + n <= 9 || (0 < rotations <= 10 && count <= KeepCount(rotations))
  }

  lemma RoomAfterWrite(s: Sink, line: string, rotateBytes: int, rotateLines: int, rotations: int, n: nat)
    requires Room(|s.archives|, n + 1, rotations)
    ensures |s.archives| <= 9 && Room(|WriteLine(s, line, rotateBytes, rotateLines, rotations).archives|, n, rotations)
  {
  }

  /** Appending a line to the live file of a layout gives the layout with that line added. */
  lemma AppendToLayout(base: string, live: seq<string>, archives: seq<seq<string>>, line: string, files: Files)
    requires files == Layout(base, live, archives, 1)
    ensures base in files && files[base := files[base] + [line]] == Layout(base, live + [line], archives, 1)
  {
    LayoutAtLive(base, live, archives, 1);
    assert Layout(base, live, archives, 1)[base := live + [line]] == Layout(base, live + [line], archives, 1);
  }

  class FileTransporter {
    const Path: string
    const Date: bool
    const Colors: bool
    var MinLevel: string
    const RotateBytes: int
    const RotateLines: int
    const Rotations: int
    const SuppressErrors: bool
    const disk: Disk

    /** `Init` succeeded: the file is open and the queue runs. */
    var isOpen: bool
    var fsize: int
    var flines: int
    var pending: seq<FileLogEntry>
    var lastMsg: int

    /** The file is open, the live file exists and the counters describe it. */
    ghost predicate Ready()
      reads this, disk
    {
      && isOpen
      && Path in disk.files
      && fsize == Bytes(disk.files[Path])
      && flines == |disk.files[Path]|
    }

    /**
     * The loop of `rotate` ends: the trimmed name is non-empty and free of
     * line breaks, or `.1.gz` does not exist. Otherwise `.1.gz` never
     * matches the archive pattern, no pass moves it, and the loop goes on
     * for ever.
     */
    ghost predicate ShiftEnds()
      reads this, disk
    {
      PlainPrefix(TrimSpace(Path)) || ArchiveName(TrimSpace(Path), 1) !in disk.files
    }

    /** The directory holds the live file of `s` and its archives, `.1.gz` first, and nothing else. */
    ghost predicate Holds(s: Sink)
      reads this, disk
    {
      disk.files == Layout(Path, s.live, s.archives, 1)
    }

    constructor(path: string, date: bool, colors: bool, minLevel: string,
                rotateBytes: int, rotateLines: int, rotations: int, suppressErrors: bool, disk: Disk)
      ensures Path == path && Date == date && Colors == colors && MinLevel == minLevel
      ensures RotateBytes == rotateBytes && RotateLines == rotateLines && Rotations == rotations
      ensures SuppressErrors == suppressErrors && this.disk == disk
      ensures !isOpen && fsize == 0 && flines == 0 && pending == [] && lastMsg == 0
    {
      Path, Date, Colors, MinLevel := path, date, colors, minLevel;
      RotateBytes, RotateLines, Rotations := rotateBytes, rotateLines, rotations;
      SuppressErrors, this.disk := suppressErrors, disk;
      isOpen, fsize, flines, pending, lastMsg := false, 0, 0, [], 0;
    }

    /**
     * `Init`: a minimum level outside the level order is dropped; the live
     * file is opened (created empty when missing), its size and line count
     * become the counters, and a fresh queue starts. The first failing
     * step ends it with its error.
     */
    method Init(ext: Externals) returns (err: Option<string>)
      modifies this, disk
      ensures MinLevel == if old(MinLevel) != "" && ext.rank(old(MinLevel)) == 0 then "" else old(MinLevel)
      ensures err.None? <==> disk.failing !! {OpenOp, StatOp, CountOp}
      ensures OpenOp !in disk.failing ==>
        disk.files == if Path in old(disk.files) then old(disk.files) else old(disk.files)[Path := []]
      ensures OpenOp in disk.failing ==> disk.files == old(disk.files)
      ensures err.None? ==> Ready() && pending == []
      ensures err.Some? ==> isOpen == old(isOpen) && pending == old(pending)
      ensures lastMsg == old(lastMsg)
    {
      if MinLevel != "" && ext.rank(MinLevel) == 0 {
        MinLevel := "";
      }
      err := disk.Open(Path);
      if err.Some? {
        return;
      }
      var size, count;
      size, err := disk.Size(Path);
      if err.Some? {
        return;
      }
      fsize := size;
      count, err := disk.CountLines(Path);
      flines := count;
      if err.Some? {
        return;
      }
      pending := [];
      isOpen := true;
    }

    /** `Transport`: entries below `MinLevel` are dropped, the others queued. */
    method Transport(level: string, msg: string, date: Collaborators.Date, ext: Externals)
      requires isOpen
      modifies this
      ensures pending == if GreaterEquals(ext, level, MinLevel) then old(pending) + [FileLogEntry(level, msg, date)] else old(pending)
      ensures isOpen && MinLevel == old(MinLevel) && fsize == old(fsize) && flines == old(flines) && lastMsg == old(lastMsg)
    {
      if !GreaterEquals(ext, level, MinLevel) {
        return;
      }
      pending := pending + [FileLogEntry(level, msg, date)];
    }

    /** `showError`: unless suppressed, print the error through a colour console transporter. */
    method ShowError(err: string, ext: Externals, stdout: Writer)
      modifies stdout
      ensures SuppressErrors ==> stdout.written == old(stdout.written)
      ensures !SuppressErrors ==> stdout.written == old(stdout.written) + Transporter.ErrorLines(RotateFailure + err, ext)
    {
      if !SuppressErrors {
        Transporter.ShowOnConsole(RotateFailure + err, ext, stdout);
      }
    }

    /** Report the failure of step `op`. */
    method Report(op: Op, ghost start: seq<string>, ext: Externals, stdout: Writer)
      requires OnlyRotationErrors(start, stdout.written, ext)
      modifies stdout
      ensures OnlyRotationErrors(start, stdout.written, ext)
      ensures SuppressErrors ==> stdout.written == old(stdout.written)
    {
      ghost var mid := stdout.written;
      ShowError(Failure(op), ext, stdout);
      ReportRotationError(start, mid, op, ext);
    }

    /**
     * What `rotate` does to files `before` whose live file has `size`
     * bytes and `lines` lines, ending with files `after` and counters
     * `size'` and `lines'`. Nothing happens to an empty live file. Otherwise
     * either the live lines moved to `.1.gz`, the live file is empty and the
     * counters are 0, or the live file and the counters are as they were;
     * the first happens exactly when creating, copying and truncating
     * succeed, whatever the shifting of archives did. Files that are no
     * archive of the name stay as they were.
     */
    ghost predicate RotateOutcome(before: Files, size: int, lines: int, after: Files, size': int, lines': int, failing: set<Op>)
      requires Path in before
    {
      && (size == 0 || lines == 0 ==> after == before && size' == size && lines' == lines)
      && (size != 0 && lines != 0 ==>
            && (Moved(before, after, size', lines') <==> failing !! {CreateOp, CopyOp, TruncateOp})
            && (Moved(before, after, size', lines') || Unmoved(before, size, lines, after, size', lines')))
      && OthersKept(before, after, TrimSpace(Path), Path)
    }

    /** The live lines are in `.1.gz`, the live file is empty and the counters are 0. */
    ghost predicate Moved(before: Files, after: Files, size': int, lines': int)
      requires Path in before
    {
      var first := ArchiveName(TrimSpace(Path), 1);
      Path in after && after[Path] == [] && first in after && after[first] == before[Path] && size' == 0 && lines' == 0
    }

    /** The live file and the counters are as they were. */
    ghost predicate Unmoved(before: Files, size: int, lines: int, after: Files, size': int, lines': int)
      requires Path in before
    {
      Path in after && after[Path] == before[Path] && size' == size && lines' == lines
    }

    /**
     * What the loop of `rotateArchives` decides for one directory entry:
     * the name must match the archive pattern, its trimmed first group
     * must be `prefix` and its second group a number N; the archive is
     * then deleted when the limit is set and N + 1 reaches it, and renamed
     * to index N + 1 otherwise.
     */
    method ClassifyEntry(name: string, prefix: string) returns (action: Action)
      ensures action == Classify(name, prefix, Rotations)
    {
      action := Keep;
      var groups := Groups(name);
      if groups.Some? {
        var p := TrimSpace(groups.value.0);
        if prefix == p {
          var index := Decimal.Parse(groups.value.1);
          if index.Some? {
            if Rotations > 0 && index.value + 1 >= Rotations {
              action := Delete;
            } else {
              action := Move(ArchiveName(prefix, index.value + 1));
            }
          }
        }
      }
    }

    /**
     * The loop of `rotateArchives` over the directory entries `names`:
     * remove what is to be deleted, collect the renames.
     */
    method Scan(names: seq<string>, prefix: string) returns (renames: map<string, string>, ghost decided: map<string, Action>)
      modifies disk
      ensures forall n :: n in decided <==> n in names
      ensures Classified(decided, prefix, Rotations) && Scanned(old(disk.files), decided, renames, disk.files)
    {
      decided := map[];
      renames := map[];
      var i := 0;
      while i < |names|
        invariant 0 <= i <= |names|
        invariant forall n :: n in decided <==> n in names[..i]
        invariant Classified(decided, prefix, Rotations) && Scanned(old(disk.files), decided, renames, disk.files)
      {
        var name := names[i];
        assert names[..i + 1] == names[..i] + [name];
        var action := ClassifyEntry(name, prefix);
        ghost var r0, f0 := renames, disk.files;
        match action {
          case Keep =>
          case Delete => disk.Remove(name);
          case Move(target) => renames := renames[name := target];
        }
        ClassifiedStep(decided, prefix, Rotations, name, action);
        ScanStep(old(disk.files), decided, r0, f0, name, action, renames, disk.files);
        decided := decided[name := action];
        i := i + 1;
      }
      assert names[..i] == names;
    }

    /**
     * `rotateArchives`: read the directory, delete the archives of
     * `prefix` the limit drops, then rename the others from index N to
     * N + 1 all at once.
     */
    method RotateArchives(prefix: string) returns (err: Option<string>)
      modifies disk
      ensures ReadDirOp in disk.failing ==> err == Some(Failure(ReadDirOp)) && disk.files == old(disk.files)
      ensures ReadDirOp !in disk.failing ==>
        var rest := old(disk.files) - Doomed(old(disk.files).Keys, prefix, Rotations);
        var renames := Plan(old(disk.files).Keys, prefix, Rotations);
        && (RenameOp in disk.failing ==> err == Some(Failure(RenameOp)) && disk.files == rest)
        && (RenameOp !in disk.failing ==> err == None && RenamedAtOnce(rest, renames, disk.files))
    {
      var names;
      names, err := disk.ReadDir();
      if err.Some? {
        return;
      }
      ghost var before := disk.files;
      var renames;
      ghost var decided;
      renames, decided := Scan(names, prefix);
      assert decided.Keys == before.Keys;
      ScanComplete(before, prefix, Rotations, decided, renames, disk.files);
      err := disk.RenameAll(renames);
    }

    /**
     * The loop of `rotate`: shift the archives while `.1.gz` exists,
     * stopping at the first error. Without failures, a layout of at most
     * nine archives ends numbered from 2, the ones over the limit gone.
     */
    method ShiftArchives(prefix: string, ext: Externals, stdout: Writer,
                         ghost live: seq<string>, ghost archives: seq<seq<string>>)
      requires prefix == TrimSpace(Path) && (PlainPrefix(prefix) || ArchiveName(prefix, 1) !in disk.files)
      modifies disk, stdout
      ensures AllKept(old(disk.files), disk.files, prefix)
      ensures !PlainPrefix(prefix) ==> disk.files == old(disk.files)
      ensures OnlyRotationErrors(old(stdout.written), stdout.written, ext)
      ensures SuppressErrors || RotationSafe(disk.failing) ==> stdout.written == old(stdout.written)
      ensures RotationSafe(disk.failing) && |archives| <= 9 && old(disk.files) == Layout(Path, live, archives, 1) ==>
        disk.files == Layout(Path, live, archives[..Survivors(Rotations, |archives|)], 2)
    {
      var newArchive := prefix + ".1.gz";
      assert newArchive == ArchiveName(prefix, 1) by {
        assert Decimal.Show(1) == "1";
      }
      ghost var start := disk.files;
      ghost var out := stdout.written;
      ghost var layout := RotationSafe(disk.failing) && |archives| <= 9 && start == Layout(Path, live, archives, 1);
      ghost var kept := archives[..Survivors(Rotations, |archives|)];
      ghost var shifted := false;
      while true
        invariant forall n :: n in start && ArchiveIndex(n, prefix).None? && n != ArchiveName(prefix, 10) ==>
          n in disk.files && disk.files[n] == start[n]
        invariant OnlyRotationErrors(out, stdout.written, ext)
        invariant SuppressErrors || RotationSafe(disk.failing) ==> stdout.written == out
        invariant !PlainPrefix(prefix) ==> disk.files == start
        invariant layout ==> disk.files == if shifted then Layout(Path, live, kept, 2) else Layout(Path, live, archives, 1)
        decreases Measure(disk.files, prefix)
      {
        var found, err := disk.Exists(newArchive);
        if found && err.None? {
          if !PlainPrefix(prefix) {
            assert false;
          }
          ghost var before := disk.files;
          if layout {
            NoFirstArchive(Path, live, kept);
          }
          err := RotateArchives(prefix);
          if err.Some? {
            Report(if ReadDirOp in disk.failing then ReadDirOp else RenameOp, out, ext, stdout);
            break;
          }
          PassShrinks(before, prefix, Rotations, disk.files);
          forall n | n in start && ArchiveIndex(n, prefix).None? && n != ArchiveName(prefix, 10)
            ensures n in disk.files && disk.files[n] == start[n]
          {
            OthersUntouched(before, prefix, Rotations, disk.files, n);
          }
          if layout {
            LayoutPass(Path, live, archives, Rotations, disk.files);
            shifted := true;
          }
        } else {
          if err.Some? {
            Report(ExistsOp, out, ext, stdout);
          }
          if layout && !shifted {
            if archives != [] {
              assert false;
            }
            EmptyLayout(Path, live, 1, 2);
            shifted := true;
          }
          break;
        }
      }
    }

    /**
     * The end of `rotate`, on the disk: create `.1.gz` (emptying it if it
     * exists), copy the live file into it, truncate the live file and
     * reset the counters. The first step that fails ends it, leaving the
     * files as `StoppedAt` says.
     */
    method ArchiveLive(prefix: string) returns (failed: Option<Op>)
      requires prefix == TrimSpace(Path) && Path in disk.files
      modifies this, disk
      ensures pending == old(pending) && lastMsg == old(lastMsg) && MinLevel == old(MinLevel) && isOpen == old(isOpen)
      ensures failed.None? <==> disk.failing !! {CreateOp, CopyOp, TruncateOp}
      ensures failed.Some? ==> failed.value in disk.failing * {CreateOp, CopyOp, TruncateOp}
      ensures failed.None? ==> disk.files == Pushed(old(disk.files), Path) && fsize == 0 && flines == 0
      ensures failed.Some? ==>
        disk.files == StoppedAt(old(disk.files), Path, failed.value) && fsize == old(fsize) && flines == old(flines)
    {
      var newArchive := prefix + ".1.gz";
      assert newArchive == ArchiveName(prefix, 1) by {
        assert Decimal.Show(1) == "1";
      }
      ArchiveNameNotLive(Path, 1);
      var err := disk.Create(newArchive);
      if err.Some? {
        return Some(CreateOp);
      }
      err := disk.Copy(Path, newArchive);
      if err.Some? {
        return Some(CopyOp);
      }
      err := disk.Truncate(Path);
      if err.Some? {
        return Some(TruncateOp);
      }
      fsize := 0;
      flines := 0;
      PushedSteps(old(disk.files), Path, newArchive);
      return None;
    }

    /**
     * `rotate`: nothing for an empty live file; otherwise shift the
     * archives, then archive the live file. Without failures, on a
     * directory that holds a sink of at most nine archives, this is
     * `RotateSink`.
     */
    method Rotate(ext: Externals, stdout: Writer, ghost sink: Sink)
      requires Ready() && ShiftEnds()
      modifies this, disk, stdout
      ensures Ready()
      ensures pending == old(pending) && lastMsg == old(lastMsg) && MinLevel == old(MinLevel)
      ensures RotateOutcome(old(disk.files), old(fsize), old(flines), disk.files, fsize, flines, disk.failing)
      ensures OnlyRotationErrors(old(stdout.written), stdout.written, ext)
      ensures SuppressErrors || RotationSafe(disk.failing) ==> stdout.written == old(stdout.written)
      ensures RotationSafe(disk.failing) && |sink.archives| <= 9 && old(Holds(sink)) ==> Holds(RotateSink(sink, Rotations))
    {
      if fsize == 0 || flines == 0 {
        return;
      }
      var prefix := TrimSpace(Path);
      LiveNotArchive(Path);
      ArchiveNameNotLive(Path, 10);
      ghost var live := disk.files[Path];
      ghost var layout := RotationSafe(disk.failing) && |sink.archives| <= 9 && Holds(sink);
      if layout {
        LayoutAtLive(Path, sink.live, sink.archives, 1);
      }
      ShiftArchives(prefix, ext, stdout, live, sink.archives);
      ghost var shifted := disk.files;
      KeptWithoutLive(old(disk.files), shifted, prefix, Path);
      assert Path in shifted && shifted[Path] == live;
      var failed := ArchiveLive(prefix);
      ArchiveLiveOutcome(shifted, Path, failed, disk.files);
      if failed.Some? {
        Report(failed.value, old(stdout.written), ext, stdout);
      }
      KeptTrans(old(disk.files), shifted, disk.files, prefix, Path);
      if layout {
        LayoutPush(Path, live, sink.archives[..Survivors(Rotations, |sink.archives|)]);
        SurvivorsRetain(Rotations, live, sink.archives);
      }
    }

    /** The line `logToString` gives for `e` handled at `now`, the previous message having been at `last`. */
    function Format(e: FileLogEntry, last: int, now: int, ext: Externals): string {
      Transporter.LogToString(Date, Colors, last, e.level, e.message, e.date, now, ext)
    }

    /**
     * Append `line` to the live file and count its bytes and its line; on
     * a sink layout this is the sink with the line added.
     */
    method Write(line: string, ghost sink: Sink)
      requires Ready()
      modifies this, disk
      ensures Ready() && disk.files == old(disk.files)[Path := old(disk.files[Path]) + [line]]
      ensures fsize == old(fsize) + |line| && flines == old(flines) + 1
      ensures pending == old(pending) && MinLevel == old(MinLevel) && lastMsg == old(lastMsg)
      ensures old(disk.files) == Layout(Path, sink.live, sink.archives, 1) ==>
        disk.files == Layout(Path, sink.live + [line], sink.archives, 1)
    {
      ghost var start := disk.files;
      BytesAppend(disk.files[Path], line);
      disk.Append(Path, line);
      fsize := fsize + |line|;
      flines := flines + 1;
      if start == Layout(Path, sink.live, sink.archives, 1) {
        AppendToLayout(Path, sink.live, sink.archives, line, start);
      }
    }

    /**
     * One handled line: `line` is appended to the live file and the
     * counters grow by its length and by one; if that makes a rotation due,
     * the outcome is `RotateOutcome` from there, and otherwise nothing else
     * changes.
     */
    ghost predicate WriteOutcome(before: Files, size: int, lines: int, line: string,
                                 after: Files, size': int, lines': int, failing: set<Op>)
      requires Path in before
    {
      var mid := before[Path := before[Path] + [line]];
      if RotateDue(RotateBytes, RotateLines, size + |line|, lines + 1) then
        RotateOutcome(mid, size + |line|, lines + 1, after, size', lines', failing)
      else
        after == mid && size' == size + |line| && lines' == lines + 1
    }

    /**
     * The check after a write: rotate if the byte limit or else the line
     * limit is reached. On a sink layout this is the rotation `WriteLine`
     * applies.
     */
    method RotateIfDue(ext: Externals, stdout: Writer, ghost sink: Sink)
      requires Ready() && (RotateDue(RotateBytes, RotateLines, fsize, flines) ==> ShiftEnds())
      modifies this, disk, stdout
      ensures Ready()
      ensures pending == old(pending) && lastMsg == old(lastMsg) && MinLevel == old(MinLevel)
      ensures !RotateDue(RotateBytes, RotateLines, old(fsize), old(flines)) ==>
        disk.files == old(disk.files) && stdout.written == old(stdout.written)
      ensures RotateDue(RotateBytes, RotateLines, old(fsize), old(flines)) ==>
        RotateOutcome(old(disk.files), old(fsize), old(flines), disk.files, fsize, flines, disk.failing)
      ensures OthersKept(old(disk.files), disk.files, TrimSpace(Path), Path)
      ensures OnlyRotationErrors(old(stdout.written), stdout.written, ext)
      ensures SuppressErrors || RotationSafe(disk.failing) ==> stdout.written == old(stdout.written)
      ensures RotationSafe(disk.failing) && |sink.archives| <= 9 && old(Holds(sink)) ==>
        Holds(if RotateDue(RotateBytes, RotateLines, Bytes(sink.live), |sink.live|) then RotateSink(sink, Rotations) else sink)
    {
      if RotateBytes > 0 && fsize >= RotateBytes {
        Rotate(ext, stdout, sink);
      } else if RotateLines > 0 && flines >= RotateLines {
        Rotate(ext, stdout, sink);
      }
    }

    /**
     * Append `line` to the live file, count its bytes and its line, then
     * rotate if due.
     */
    method WriteAndRotate(line: string, ext: Externals, stdout: Writer, ghost sink: Sink)
      requires Ready()
      requires RotateDue(RotateBytes, RotateLines, fsize + |line|, flines + 1) ==> ShiftEnds()
      modifies this, disk, stdout
      ensures Ready() && lastMsg == old(lastMsg)
      ensures pending == old(pending) && MinLevel == old(MinLevel)
      ensures WriteOutcome(old(disk.files), old(fsize), old(flines), line, disk.files, fsize, flines, disk.failing)
      ensures !RotateDue(RotateBytes, RotateLines, old(fsize) + |line|, old(flines) + 1) ==>
        stdout.written == old(stdout.written)
      ensures OthersKept(old(disk.files), disk.files, TrimSpace(Path), Path)
      ensures OnlyRotationErrors(old(stdout.written), stdout.written, ext)
      ensures SuppressErrors || RotationSafe(disk.failing) ==> stdout.written == old(stdout.written)
      ensures RotationSafe(disk.failing) && |sink.archives| <= 9 && old(Holds(sink)) ==>
        Holds(WriteLine(sink, line, RotateBytes, RotateLines, Rotations))
    {
      ghost var start, size, count := disk.files, fsize, flines;
      Write(line, sink);
      ghost var mid := disk.files;
      ghost var written := Sink(sink.live + [line], sink.archives);
      RotateIfDue(ext, stdout, written);
      assert WriteOutcome(start, size, count, line, disk.files, fsize, flines, disk.failing);
      KeptTrans(start, mid, disk.files, TrimSpace(Path), Path);
    }

    /**
     * The worker of the queue, for one entry: format it against the
     * previous message's time, remember `now`, and write the line.
     */
    method Handle(e: FileLogEntry, now: int, ext: Externals, stdout: Writer, ghost sink: Sink)
      requires Ready()
      requires RotateDue(RotateBytes, RotateLines, fsize + |Format(e, lastMsg, now, ext)|, flines + 1) ==> ShiftEnds()
      modifies this, disk, stdout
      ensures Ready() && lastMsg == now
      ensures pending == old(pending) && MinLevel == old(MinLevel)
      ensures WriteOutcome(old(disk.files), old(fsize), old(flines), Format(e, old(lastMsg), now, ext),
                           disk.files, fsize, flines, disk.failing)
      ensures !RotateDue(RotateBytes, RotateLines, old(fsize) + |Format(e, old(lastMsg), now, ext)|, old(flines) + 1) ==>
        stdout.written == old(stdout.written)
      ensures OthersKept(old(disk.files), disk.files, TrimSpace(Path), Path)
      ensures OnlyRotationErrors(old(stdout.written), stdout.written, ext)
      ensures SuppressErrors || RotationSafe(disk.failing) ==> stdout.written == old(stdout.written)
      ensures RotationSafe(disk.failing) && |sink.archives| <= 9 && old(Holds(sink)) ==>
        Holds(WriteLine(sink, Format(e, old(lastMsg), now, ext), RotateBytes, RotateLines, Rotations))
    {
      var line := Format(e, lastMsg, now, ext);
      lastMsg := now;
      WriteAndRotate(line, ext, stdout, sink);
    }

    /**
     * The worker takes the oldest pending entry off the queue and handles
     * it at clock reading `now`.
     */
    method Work(now: int, ext: Externals, stdout: Writer, ghost sink: Sink)
      requires Ready() && pending != []
      requires RotateDue(RotateBytes, RotateLines, fsize + |Format(pending[0], lastMsg, now, ext)|, flines + 1) ==> ShiftEnds()
      modifies this, disk, stdout
      ensures Ready() && lastMsg == now && pending == old(pending[1..]) && MinLevel == old(MinLevel)
      ensures WriteOutcome(old(disk.files), old(fsize), old(flines), Format(old(pending[0]), old(lastMsg), now, ext),
                           disk.files, fsize, flines, disk.failing)
      ensures OthersKept(old(disk.files), disk.files, TrimSpace(Path), Path)
      ensures OnlyRotationErrors(old(stdout.written), stdout.written, ext)
      ensures SuppressErrors || RotationSafe(disk.failing) ==> stdout.written == old(stdout.written)
      ensures RotationSafe(disk.failing) && |sink.archives| <= 9 && old(Holds(sink)) ==>
        Holds(WriteLine(sink, Format(old(pending[0]), old(lastMsg), now, ext), RotateBytes, RotateLines, Rotations))
    {
      var e := pending[0];
      pending := pending[1..];
      Handle(e, now, ext, stdout, sink);
    }

    /** The lines the worker writes for `entries` handled at `times`, the message before them having been at `last`. */
    function Lines(entries: seq<FileLogEntry>, last: int, times: seq<int>, ext: Externals): (r: seq<string>)
      requires |entries| == |times|
      ensures |r| == |entries|
      decreases |entries|
    {
      if entries == [] then []
      else [Format(entries[0], last, times[0], ext)] + Lines(entries[1..], times[0], times[1..], ext)
    }

    /** Writing the lines of a queue is writing the first entry's line, then the lines of the rest. */
    lemma FeedLines(sink: Sink, entries: seq<FileLogEntry>, last: int, times: seq<int>, ext: Externals)
      requires |entries| == |times| && entries != []
      ensures Feed(sink, Lines(entries, last, times, ext), RotateBytes, RotateLines, Rotations)
           == Feed(WriteLine(sink, Format(entries[0], last, times[0], ext), RotateBytes, RotateLines, Rotations),
                   Lines(entries[1..], times[0], times[1..], ext), RotateBytes, RotateLines, Rotations)
    {
      var ls := Lines(entries, last, times, ext);
      assert ls[0] == Format(entries[0], last, times[0], ext);
      assert ls[1..] == Lines(entries[1..], times[0], times[1..], ext);
    }

    /** Writing the lines of entries `i..` onto `cur` gives `target`. */
    ghost predicate Fed(entries: seq<FileLogEntry>, times: seq<int>, i: nat, last: int, ext: Externals, cur: Sink, target: Sink)
    {
      |entries| == |times| && i <= |entries|
      && Feed(cur, Lines(entries[i..], last, times[i..], ext), RotateBytes, RotateLines, Rotations) == target
    }

    lemma FedStep(entries: seq<FileLogEntry>, times: seq<int>, i: nat, last: int, ext: Externals, cur: Sink, target: Sink)
      requires i < |entries| && Fed(entries, times, i, last, ext, cur, target)
      ensures Fed(entries, times, i + 1, times[i], ext,
                  WriteLine(cur, Format(entries[i], last, times[i], ext), RotateBytes, RotateLines, Rotations), target)
    {
      assert entries[i..][1..] == entries[i + 1..] && times[i..][1..] == times[i + 1..];
      FeedLines(cur, entries[i..], last, times[i..], ext);
    }

    /**
     * Inside `Drain`, after `i` rounds of the worker: entries `i..` of
     * `entries` are still queued, the files have been kept apart from the
     * rotation, and, when the run started on a sink layout with room,
     * the directory holds the sink `cur`, which the remaining lines take
     * to `target`.
     */
    ghost predicate Progress(entries: seq<FileLogEntry>, times: seq<int>, i: nat, ext: Externals, stdout: Writer,
                             last0: int, files0: Files, out0: seq<string>, safe: bool, cur: Sink, target: Sink)
      reads this, disk, stdout
    {
      && Ready() && |entries| == |times| && i <= |entries| && pending == entries[i..]
      && lastMsg == (if i == 0 then last0 else times[i - 1])
      && OthersKept(files0, disk.files, TrimSpace(Path), Path)
      && OnlyRotationErrors(out0, stdout.written, ext)
      && (SuppressErrors || RotationSafe(disk.failing) ==> stdout.written == out0)
      && Fed(entries, times, i, lastMsg, ext, cur, target)
      && (safe ==> Holds(cur) && Room(|cur.archives|, |entries| - i, Rotations))
    }

    /** Before the first round nothing has changed, and the lines of the whole queue are still to be written. */
    lemma ProgressStart(times: seq<int>, ext: Externals, stdout: Writer, safe: bool, sink: Sink)
      requires Ready() && |times| == |pending|
      requires safe == (RotationSafe(disk.failing) && Room(|sink.archives|, |pending|, Rotations) && Holds(sink))
      ensures Progress(pending, times, 0, ext, stdout, lastMsg, disk.files, stdout.written, safe, sink,
                       Feed(sink, Lines(pending, lastMsg, times, ext), RotateBytes, RotateLines, Rotations))
    {
      assert pending[0..] == pending && times[0..] == times;
      assert stdout.written[..|stdout.written|] == stdout.written;
    }

    /** Once every round has run, the queue is empty and the sink reached is the target. */
    lemma ProgressEnd(entries: seq<FileLogEntry>, times: seq<int>, i: nat, ext: Externals, stdout: Writer,
                      last0: int, files0: Files, out0: seq<string>, safe: bool, cur: Sink, target: Sink)
      requires i >= |times| && Progress(entries, times, i, ext, stdout, last0, files0, out0, safe, cur, target)
      ensures Ready() && pending == []
      ensures lastMsg == if times == [] then last0 else times[|times| - 1]
      ensures OthersKept(files0, disk.files, TrimSpace(Path), Path)
      ensures OnlyRotationErrors(out0, stdout.written, ext)
      ensures SuppressErrors || RotationSafe(disk.failing) ==> stdout.written == out0
      ensures safe ==> Holds(target)
    {
      assert entries[i..] == [] && times[i..] == [];
      assert Lines(entries[i..], lastMsg, times[i..], ext) == [];
    }

    /** One round of the worker inside `Drain`: entry `i` is handled. */
    method DrainAt(ghost entries: seq<FileLogEntry>, times: seq<int>, i: nat, ext: Externals, stdout: Writer,
                   ghost last0: int, ghost files0: Files, ghost out0: seq<string>, ghost safe: bool,
                   ghost cur: Sink, ghost target: Sink) returns (j: nat, ghost next: Sink)
      requires i < |entries| && Progress(entries, times, i, ext, stdout, last0, files0, out0, safe, cur, target)
      requires RotateBytes > 0 || RotateLines > 0 ==> PlainPrefix(TrimSpace(Path))
      requires safe ==> RotationSafe(disk.failing)
      modifies this, disk, stdout
      ensures j == i + 1 && MinLevel == old(MinLevel)
      ensures Progress(entries, times, j, ext, stdout, last0, files0, out0, safe, next, target)
    {
      ghost var line := Format(pending[0], lastMsg, times[i], ext);
      FedStep(entries, times, i, lastMsg, ext, cur, target);
      if safe {
        RoomAfterWrite(cur, line, RotateBytes, RotateLines, Rotations, |entries| - i - 1);
      }
      ghost var files1, out1 := disk.files, stdout.written;
      Work(times[i], ext, stdout, cur);
      KeptTrans(files0, files1, disk.files, TrimSpace(Path), Path);
      OnlyErrorsTrans(out0, out1, stdout.written, ext);
      next := WriteLine(cur, line, RotateBytes, RotateLines, Rotations);
      j := i + 1;
    }

    /**
     * The worker handles every queued entry, in order, at clock readings
     * `times`, as `Close` waits for it to finish.
     */
    method Drain(times: seq<int>, ext: Externals, stdout: Writer, ghost sink: Sink)
      requires Ready() && |times| == |pending|
      requires RotateBytes > 0 || RotateLines > 0 ==> PlainPrefix(TrimSpace(Path))
      modifies this, disk, stdout
      ensures Ready() && pending == [] && MinLevel == old(MinLevel)
      ensures lastMsg == if times == [] then old(lastMsg) else times[|times| - 1]
      ensures OthersKept(old(disk.files), disk.files, TrimSpace(Path), Path)
      ensures OnlyRotationErrors(old(stdout.written), stdout.written, ext)
      ensures SuppressErrors || RotationSafe(disk.failing) ==> stdout.written == old(stdout.written)
      ensures RotationSafe(disk.failing) && Room(|sink.archives|, |old(pending)|, Rotations) && old(Holds(sink)) ==>
        Holds(Feed(sink, Lines(old(pending), old(lastMsg), times, ext), RotateBytes, RotateLines, Rotations))
    {
      ghost var entries, last0, files0, out0 := pending, lastMsg, disk.files, stdout.written;
      ghost var safe := RotationSafe(disk.failing) && Room(|sink.archives|, |pending|, Rotations) && Holds(sink);
      ghost var target := Feed(sink, Lines(entries, last0, times, ext), RotateBytes, RotateLines, Rotations);
      ghost var cur := sink;
      ProgressStart(times, ext, stdout, safe, sink);
      var i: nat := 0;
      while i < |times|
        invariant MinLevel == old(MinLevel)
        invariant Progress(entries, times, i, ext, stdout, last0, files0, out0, safe, cur, target)
        decreases |times| - i
      {
        i, cur := DrainAt(entries, times, i, ext, stdout, last0, files0, out0, safe, cur, target);
      }
      ProgressEnd(entries, times, i, ext, stdout, last0, files0, out0, safe, cur, target);
    }

    /** `Close`: the queue is drained, then the file is closed. */
    method Close(times: seq<int>, ext: Externals, stdout: Writer, ghost sink: Sink)
      requires Ready() && |times| == |pending|
      requires RotateBytes > 0 || RotateLines > 0 ==> PlainPrefix(TrimSpace(Path))
      modifies this, disk, stdout
      ensures !isOpen && pending == [] && MinLevel == old(MinLevel)
      ensures Path in disk.files && fsize == Bytes(disk.files[Path]) && flines == |disk.files[Path]|
      ensures lastMsg == if times == [] then old(lastMsg) else times[|times| - 1]
      ensures OthersKept(old(disk.files), disk.files, TrimSpace(Path), Path)
      ensures OnlyRotationErrors(old(stdout.written), stdout.written, ext)
      ensures SuppressErrors || RotationSafe(disk.failing) ==> stdout.written == old(stdout.written)
      ensures RotationSafe(disk.failing) && Room(|sink.archives|, |old(pending)|, Rotations) && old(Holds(sink)) ==>
        disk.files == Layout(Path, Feed(sink, Lines(old(pending), old(lastMsg), times, ext), RotateBytes, RotateLines, Rotations).live,
                             Feed(sink, Lines(old(pending), old(lastMsg), times, ext), RotateBytes, RotateLines, Rotations).archives, 1)
    {
      Drain(times, ext, stdout, sink);
      isOpen := false;
    }
  }
}
