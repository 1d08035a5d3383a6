/**
 * The file explorer as an object: its current directory, which `cd`
 * changes, and the commands it has sent to the board, which every remote
 * operation extends. Each operation is proved to return what the matching
 * function of `Ops` computes and to extend the history by exactly the
 * commands that function lists.
 */
module FileExplorer {
  import opened Paths
  import opened Remote
  import opened Classification
  import opened Patterns
  import Ops

  class MpFileExplorer {
    /** The board the explorer talks to. */
    const device: Device
    /** The current directory on the board. */
    var dir: string
    /** Every command sent to the board so far, in order. */
    var trace: seq<Command>

    ghost predicate Valid()
      reads this
    {
      IsRooted(dir)
    }

    /** A new explorer starts at the root and has sent nothing. */
    constructor (device: Device)
      ensures this.device == device && dir == "/" && trace == []
      ensures Valid()
    {
      this.device := device;
      dir := "/";
      trace := [];
    }

    /** Sends `os.listdir(path)`; `None` when the board raises. Listings change nothing. */
    method ListRemote(path: string) returns (names: Option<seq<string>>)
      modifies this`trace
      ensures names == device.listdir(Effects(old(trace)), path)
      ensures trace == old(trace) + [ListDir(path)]
      ensures Effects(trace) == Effects(old(trace))
    {
      names := device.listdir(Effects(trace), path);
      ListingsHaveNoEffect(trace, [ListDir(path)]);
      trace := trace + [ListDir(path)];
    }

    /** Sends one statement; `None` when the board raises. */
    method Run(c: Command) returns (out: Option<string>)
      modifies this`trace
      ensures out == device.run(Effects(old(trace)), c)
      ensures trace == old(trace) + [c]
    {
      out := device.run(Effects(trace), c);
      trace := trace + [c];
    }

    /** Probes one listed name and keeps it when the probe gives `kind`. */
    method ProbeName(f: string, kind: Kind, details: bool) returns (kept: seq<Entry>)
      modifies this`trace
      ensures kept == Keep(f, Ops.IsDirOnDevice(device, Effects(old(trace)), dir), kind, details)
      ensures trace == old(trace) + [ListDir(ProbePath(dir, f))]
      ensures Effects(trace) == Effects(old(trace))
    {
      var probe := ListRemote(ProbePath(dir, f));
      kept := if probe.Some? == (kind == Dir) then [Present(f, kind, details)] else [];
    }

    /**
     * One pass of `ls` over `names`: probes each name in order and keeps
     * those whose probe gives `kind`. Probing changes nothing on the board.
     */
    method ProbePass(names: seq<string>, kind: Kind, details: bool) returns (es: seq<Entry>)
      modifies this`trace
      ensures es == Pass(names, Ops.IsDirOnDevice(device, Effects(old(trace)), dir), kind, details)
      ensures trace == old(trace) + Probes(dir, names)
      ensures Effects(trace) == Effects(old(trace))
    {
      var h0 := trace;
      ghost var isDir := Ops.IsDirOnDevice(device, Effects(h0), dir);
      es := [];
      var i := 0;
      while i < |names|
        invariant 0 <= i <= |names|
        invariant trace == h0 + Probes(dir, names[..i])
        invariant Effects(trace) == Effects(h0)
        invariant es == Pass(names[..i], isDir, kind, details)
      {
        var kept := ProbeName(names[i], kind, details);
        PassPrefixStep(dir, names, i, isDir, kind, details);
        AppendAssoc(h0, Probes(dir, names[..i]), [ListDir(ProbePath(dir, names[i]))]);
        es := es + kept;
        i := i + 1;
      }
      assert names[..|names|] == names;
    }

    /** `ls`: the outer listing, then a directory pass and a file pass over the names. */
    method Ls(addFiles: bool, addDirs: bool, details: bool) returns (r: Result<seq<Entry>>)
      modifies this`trace
      ensures var s := Ops.Ls(device, dir, old(trace), addFiles, addDirs, details);
              r == s.result && trace == old(trace) + s.issued
    {
      var h0 := trace;
      var listed := ListRemote(dir);
      if listed.None? {
        return Err(CommunicationFailed);
      }
      var names := listed.value;
      ghost var isDir := Ops.IsDirOnDevice(device, Effects(h0), dir);
      ghost var h1 := trace;
      ghost var ds: seq<Command> := if addDirs then Probes(dir, names) else [];
      ghost var fs: seq<Command> := if addFiles then Probes(dir, names) else [];
      var dirs: seq<Entry> := [];
      if addDirs {
        dirs := ProbePass(names, Dir, details);
      }
      assert trace == h1 + ds && Effects(trace) == Effects(h0);
      ghost var h2 := trace;
      var files: seq<Entry> := [];
      if addFiles {
        files := ProbePass(names, File, details);
      }
      assert trace == h2 + fs;
      assert dirs + files == Listing(names, isDir, addFiles, addDirs, details);
      AppendAssoc(h0, [ListDir(dir)], ds);
      AppendAssoc(h0, [ListDir(dir)] + ds, fs);
      return Ok(dirs + files);
    }

    /** `rm(target)`: refuses a name `ls()` does not give, then removes it. */
    method Rm(target: string) returns (r: Result<()>)
      modifies this`trace
      ensures var s := Ops.Rm(device, dir, old(trace), target);
              r == s.result && trace == old(trace) + s.issued
    {
      var l := Ls(true, true, false);
      if l.Err? {
        return Err(l.error);
      }
      if Plain(target) !in l.value {
        return Err(NoSuchFile(Fqn(dir, target)));
      }
      var out := Run(Remove(Fqn(dir, target)));
      r := if out.Some? then Ok(()) else Err(CommunicationFailed);
    }

    /** `md(name)`: refuses a name `ls()` gives, then creates the directory. */
    method Md(name: string) returns (r: Result<()>)
      modifies this`trace
      ensures var s := Ops.Md(device, dir, old(trace), name);
              r == s.result && trace == old(trace) + s.issued
    {
      var l := Ls(true, true, false);
      if l.Err? {
        return Err(l.error);
      }
      if Plain(name) in l.value {
        return Err(AlreadyExists(Fqn(dir, name)));
      }
      var out := Run(MakeDir(Fqn(dir, name)));
      r := if out.Some? then Ok(()) else Err(CommunicationFailed);
    }

    /** Opens `path` on the board for reading and captures what printing it outputs. */
    method Fetch(path: string) returns (r: Result<string>)
      modifies this`trace
      ensures var s := Ops.Fetch(device, old(trace), path);
              r == s.result && trace == old(trace) + s.issued
    {
      var h0 := trace;
      var isOpen := Run(OpenRead(path));
      if isOpen.None? {
        return Err(CommunicationFailed);
      }
      var text := Run(DumpFile);
      assert h0 + [OpenRead(path)] + [DumpFile] == h0 + [OpenRead(path), DumpFile];
      r := if text.Some? then Ok(text.value) else Err(CommunicationFailed);
    }

    /** `gets(src)`: refuses a name `ls()` does not give, then returns its content. */
    method Gets(src: string) returns (r: Result<string>)
      modifies this`trace
      ensures var s := Ops.Gets(device, dir, old(trace), src);
              r == s.result && trace == old(trace) + s.issued
    {
      var l := Ls(true, true, false);
      if l.Err? {
        return Err(l.error);
      }
      if Plain(src) !in l.value {
        return Err(NoSuchFile(Fqn(dir, src)));
      }
      r := Fetch(Fqn(dir, src));
    }

    /** `size(target)`: the length of what `gets(target)` returns. */
    method Size(target: string) returns (r: Result<nat>)
      modifies this`trace
      ensures var s := Ops.Size(device, dir, old(trace), target);
              r == s.result && trace == old(trace) + s.issued
    {
      var g := Gets(target);
      r := if g.Ok? then Ok(|g.value|) else Err(g.error);
    }

    /** Writes each line to the open file in order, stopping at the first failure. */
    method WriteLines(lines: seq<string>) returns (ok: bool)
      modifies this`trace
      ensures var w := Batch(Ops.WriteLine(device), old(trace), lines);
              ok == w.result.Ok? && trace == old(trace) + w.issued
    {
      var h0 := trace;
      var op := Ops.WriteLine(device);
      var i := 0;
      while i < |lines|
        invariant 0 <= i <= |lines|
        invariant Batch(op, h0, lines[..i]).result.Ok?
        invariant trace == h0 + Batch(op, h0, lines[..i]).issued
      {
        BatchExtend(op, h0, lines, i);
        var written := Run(Write(lines[i]));
        if written.None? {
          BatchStopsAtFailure(op, h0, lines, i + 1);
          return false;
        }
        i := i + 1;
      }
      assert lines[..|lines|] == lines;
      return true;
    }

    /** `puts(dst, lines)`: opens `dst`, writes the lines one by one, closes it. */
    method Puts(dst: string, lines: seq<string>) returns (r: Result<()>)
      modifies this`trace
      ensures var s := Ops.Puts(device, dir, old(trace), dst, lines);
              r == s.result && trace == old(trace) + s.issued
    {
      var h0 := trace;
      var open := OpenWrite(Fqn(dir, dst));
      var isOpen := Run(open);
      if isOpen.None? {
        return Err(CommunicationFailed);
      }
      var ok := WriteLines(lines);
      ghost var w := Batch(Ops.WriteLine(device), h0 + [open], lines);
      AppendAssoc(h0, [open], w.issued);
      if !ok {
        return Err(CommunicationFailed);
      }
      var closed := Run(CloseFile);
      AppendAssoc(h0, [open] + w.issued, [CloseFile]);
      r := if closed.Some? then Ok(()) else Err(CommunicationFailed);
    }

    /** `put(src, dst, binary)` for a local file whose lines are `lines`. */
    method Put(src: string, lines: seq<string>, dst: Option<string>, binary: bool) returns (r: Result<()>)
      modifies this`trace
      ensures var s := Ops.Put(device, dir, old(trace), src, lines, dst, binary);
              r == s.result && trace == old(trace) + s.issued
    {
      if binary {
        return Err(BinaryNotImplemented);
      }
      r := Puts(if dst.Some? then dst.value else src, lines);
    }

    /** `get(src, dst, binary)`: what `gets` fetches, paired with the local destination. */
    method Get(src: string, dst: Option<Ops.LocalPath>, binary: bool) returns (r: Result<Ops.LocalWrite>)
      modifies this`trace
      ensures var s := Ops.Get(device, dir, old(trace), src, dst, binary);
              r == s.result && trace == old(trace) + s.issued
    {
      if binary {
        return Err(BinaryNotImplemented);
      }
      var g := Gets(src);
      if g.Err? {
        return Err(g.error);
      }
      r := Ok(Ops.LocalWrite(if dst.Some? then dst.value else Ops.Local(src), g.value));
    }

    /** The step of `mrm` for one listed name: `rm` when `find` matches it. */
    method RmStep(f: string, find: string -> bool) returns (r: Result<seq<()>>)
      modifies this`trace
      ensures var s := Ops.RmMatching(device, dir, find)(old(trace), f);
              r == s.result && trace == old(trace) + s.issued
    {
      if find(f) {
        var s := Rm(f);
        r := if s.Ok? then Ok([]) else Err(s.error);
      } else {
        r := Ok([]);
      }
    }

    /** `rm` of each of `files` that `find` matches, in order, stopping at the first failure. */
    method RmEach(files: seq<string>, find: string -> bool) returns (r: Result<seq<()>>)
      modifies this`trace
      ensures var b := Batch(Ops.RmMatching(device, dir, find), old(trace), files);
              r == b.result && trace == old(trace) + b.issued
    {
      var h0 := trace;
      var op := Ops.RmMatching(device, dir, find);
      var done: seq<()> := [];
      var i := 0;
      while i < |files|
        invariant 0 <= i <= |files|
        invariant Batch(op, h0, files[..i]).result == Ok(done)
        invariant trace == h0 + Batch(op, h0, files[..i]).issued
      {
        ghost var pre := Batch(op, h0, files[..i]);
        BatchExtend(op, h0, files, i);
        var s := RmStep(files[i], find);
        AppendAssoc(h0, pre.issued, trace[|h0 + pre.issued|..]);
        if s.Err? {
          BatchStopsAtFailure(op, h0, files, i + 1);
          return Err(s.error);
        }
        done := done + s.value;
        i := i + 1;
      }
      assert files[..|files|] == files;
      return Ok(done);
    }

    /** `mrm(pat)`: `rm` of each file of `ls(add_dirs=False)` that `pat` matches. */
    method Mrm(pat: Pattern) returns (r: Result<()>)
      modifies this`trace
      ensures var s := Ops.Mrm(device, dir, old(trace), Finder(pat));
              r == s.result && trace == old(trace) + s.issued
    {
      var h0 := trace;
      var l := Ls(true, false, false);
      if l.Err? {
        return Err(l.error);
      }
      ghost var h1 := trace;
      var b := RmEach(Names(l.value), Finder(pat));
      AppendAssoc(h0, h1[|h0|..], trace[|h1|..]);
      r := if b.Ok? then Ok(()) else Err(b.error);
    }

    /** The step of `mget` for one listed name: `get` into `dstDir` when `find` matches it. */
    method GetStep(f: string, dstDir: string, find: string -> bool) returns (r: Result<seq<Ops.LocalWrite>>)
      modifies this`trace
      ensures var s := Ops.GetMatching(device, dir, dstDir, find)(old(trace), f);
              r == s.result && trace == old(trace) + s.issued
    {
      if find(f) {
        var s := Get(f, Some(Ops.Joined(dstDir, f)), false);
        r := if s.Ok? then Ok([s.value]) else Err(s.error);
      } else {
        r := Ok([]);
      }
    }

    /** `get` of each of `files` that `find` matches, into `dstDir`, stopping at the first failure. */
    method GetEach(files: seq<string>, dstDir: string, find: string -> bool) returns (r: Result<seq<Ops.LocalWrite>>)
      modifies this`trace
      ensures var b := Batch(Ops.GetMatching(device, dir, dstDir, find), old(trace), files);
              r == b.result && trace == old(trace) + b.issued
    {
      var h0 := trace;
      var op := Ops.GetMatching(device, dir, dstDir, find);
      var done: seq<Ops.LocalWrite> := [];
      var i := 0;
      while i < |files|
        invariant 0 <= i <= |files|
        invariant Batch(op, h0, files[..i]).result == Ok(done)
        invariant trace == h0 + Batch(op, h0, files[..i]).issued
      {
        ghost var pre := Batch(op, h0, files[..i]);
        BatchExtend(op, h0, files, i);
        var s := GetStep(files[i], dstDir, find);
        AppendAssoc(h0, pre.issued, trace[|h0 + pre.issued|..]);
        if s.Err? {
          BatchStopsAtFailure(op, h0, files, i + 1);
          return Err(s.error);
        }
        done := done + s.value;
        i := i + 1;
      }
      assert files[..|files|] == files;
      return Ok(done);
    }

    /** `mget(dst_dir, pat, binary)`: `get` of each file of `ls(add_dirs=False)` that `pat` matches. */
    method Mget(dstDir: string, pat: Pattern, binary: bool) returns (r: Result<seq<Ops.LocalWrite>>)
      modifies this`trace
      ensures var s := Ops.Mget(device, dir, old(trace), dstDir, Finder(pat), binary);
              r == s.result && trace == old(trace) + s.issued
    {
      if binary {
        return Err(BinaryNotImplemented);
      }
      var h0 := trace;
      var l := Ls(true, false, false);
      if l.Err? {
        return Err(l.error);
      }
      ghost var h1 := trace;
      r := GetEach(Names(l.value), dstDir, Finder(pat));
      AppendAssoc(h0, h1[|h0|..], trace[|h1|..]);
    }

    /** The step of `mput` for one local candidate: `put` when it is a file that `find` matches. */
    method PutStep(f: Ops.LocalFile, find: string -> bool) returns (r: Result<seq<()>>)
      modifies this`trace
      ensures var s := Ops.PutMatching(device, dir, find)(old(trace), f);
              r == s.result && trace == old(trace) + s.issued
    {
      if f.isFile && find(f.name) {
        var s := Put(f.name, f.lines, Some(f.name), false);
        r := if s.Ok? then Ok([]) else Err(s.error);
      } else {
        r := Ok([]);
      }
    }

    /** `put` of each local candidate that is a file and that `find` matches, stopping at the first failure. */
    method PutEach(local: seq<Ops.LocalFile>, find: string -> bool) returns (r: Result<seq<()>>)
      modifies this`trace
      ensures var b := Batch(Ops.PutMatching(device, dir, find), old(trace), local);
              r == b.result && trace == old(trace) + b.issued
    {
      var h0 := trace;
      var op := Ops.PutMatching(device, dir, find);
      var done: seq<()> := [];
      var i := 0;
      while i < |local|
        invariant 0 <= i <= |local|
        invariant Batch(op, h0, local[..i]).result == Ok(done)
        invariant trace == h0 + Batch(op, h0, local[..i]).issued
      {
        ghost var pre := Batch(op, h0, local[..i]);
        BatchExtend(op, h0, local, i);
        var s := PutStep(local[i], find);
        AppendAssoc(h0, pre.issued, trace[|h0 + pre.issued|..]);
        if s.Err? {
          BatchStopsAtFailure(op, h0, local, i + 1);
          return Err(s.error);
        }
        done := done + s.value;
        i := i + 1;
      }
      assert local[..|local|] == local;
      return Ok(done);
    }

    /** `mput(src_dir, pat, binary)`: `put` of each local candidate that is a file and that `pat` matches. */
    method Mput(local: seq<Ops.LocalFile>, pat: Pattern, binary: bool) returns (r: Result<()>)
      modifies this`trace
      ensures var s := Ops.Mput(device, dir, old(trace), local, Finder(pat), binary);
              r == s.result && trace == old(trace) + s.issued
    {
      if binary {
        return Err(BinaryNotImplemented);
      }
      var b := PutEach(local, Finder(pat));
      r := if b.Ok? then Ok(()) else Err(b.error);
    }

    /** `cd(target)`: the directory becomes what `ChangeDir` computes, and stays rooted. */
    method Cd(target: string)
      requires Valid()
      modifies this`dir
      ensures dir == ChangeDir(old(dir), target)
      ensures Valid()
    {
      if IsRooted(target) {
        dir := target;
      } else if target == ".." {
        dir := SplitHead(dir);
      } else {
        dir := Fqn(dir, target);
      }
    }

    /** `pwd()`: the current directory, which is always rooted. */
    function Pwd(): (cwd: string)
      requires Valid()
      reads this
      ensures IsRooted(cwd)
    {
      dir
    }
  }
}
