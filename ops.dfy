/**
 * What each operation of the file explorer returns and which remote
 * commands it issues, as functions of the device, the current directory and
 * the commands issued before it. The explorer's methods are proved to behave
 * as these functions say; the lemmas state what the operations promise.
 */
module Ops {
  import opened Paths
  import opened Remote
  import opened Classification

  /** A local destination: a path, or `os.path.join(dir, name)` left unevaluated. */
  datatype LocalPath = Local(path: string) | Joined(dir: string, name: string)

  /** The content a transfer writes to a local file. */
  datatype LocalWrite = LocalWrite(dst: LocalPath, content: string)

  /**
   * A candidate of a bulk put: a name `os.listdir` gave for the local source
   * directory, what `os.path.isfile` says of that bare name, and the lines
   * that `readlines` returns for the joined path.
   */
  datatype LocalFile = LocalFile(name: string, isFile: bool, lines: seq<string>)

  // ---------------------------------------------------------------- listing

  /** The verdict of a probe: listing `dir/name` on the board succeeds. */
  function IsDirOnDevice(dev: Device, e: seq<Command>, dir: string): string -> bool {
    f => dev.listdir(e, ProbePath(dir, f)).Some?
  }

  /** The outer listing, then one probe per name for each pass that runs. */
  function LsCommands(dir: string, names: seq<string>, addFiles: bool, addDirs: bool): seq<Command> {
    [ListDir(dir)] + (if addDirs then Probes(dir, names) else []) + (if addFiles then Probes(dir, names) else [])
  }

  /** `ls(add_files, add_dirs, add_details)` in directory `dir`. */
  function Ls(dev: Device, dir: string, h: seq<Command>, addFiles: bool, addDirs: bool, details: bool): Step<seq<Entry>> {
    var e := Effects(h);
    match dev.listdir(e, dir)
    case None => Step(Err(CommunicationFailed), [ListDir(dir)])
    case Some(names) =>
      Step(Ok(Listing(names, IsDirOnDevice(dev, e, dir), addFiles, addDirs, details)),
           LsCommands(dir, names, addFiles, addDirs))
  }

  /** Only the outer listing can make `ls` fail, and then it has issued only that listing. */
  lemma LsFailsOnlyOnOuterListing(dev: Device, dir: string, h: seq<Command>, addFiles: bool, addDirs: bool, details: bool)
    ensures var s := Ls(dev, dir, h, addFiles, addDirs, details);
            && (s.result.Err? <==> dev.listdir(Effects(h), dir).None?)
            && (s.result.Err? ==> s.result.error == CommunicationFailed && s.issued == [ListDir(dir)])
  {
  }

  /**
   * `ls` issues only listings: the outer one first, then one probe per name
   * for each pass that runs.
   */
  lemma LsIssuesOnlyListings(dev: Device, dir: string, h: seq<Command>, addFiles: bool, addDirs: bool, details: bool)
    ensures var s := Ls(dev, dir, h, addFiles, addDirs, details);
            && OnlyListings(s.issued)
            && |s.issued| > 0 && s.issued[0] == ListDir(dir)
            && (dev.listdir(Effects(h), dir).Some? ==>
                  var n := |dev.listdir(Effects(h), dir).value|;
                  |s.issued| == 1 + (if addDirs then n else 0) + (if addFiles then n else 0))
  {
    var e := Effects(h);
    if dev.listdir(e, dir).Some? {
      var names := dev.listdir(e, dir).value;
      var ds := if addDirs then Probes(dir, names) else [];
      var fs := if addFiles then Probes(dir, names) else [];
      OnlyListingsAppend([ListDir(dir)], ds);
      OnlyListingsAppend([ListDir(dir)] + ds, fs);
      assert LsCommands(dir, names, addFiles, addDirs) == [ListDir(dir)] + ds + fs;
    }
  }

  lemma OnlyListingsAppend(a: seq<Command>, b: seq<Command>)
    requires OnlyListings(a) && OnlyListings(b)
    ensures OnlyListings(a + b)
  {
    assert forall k :: |a| <= k < |a + b| ==> (a + b)[k] == b[k - |a|];
  }

  /** Each entry of `ls` is a name the board listed, with the kind its probe gave. */
  lemma LsClassifiesByProbe(dev: Device, dir: string, h: seq<Command>, addFiles: bool, addDirs: bool, details: bool)
    requires dev.listdir(Effects(h), dir).Some?
    ensures var names := dev.listdir(Effects(h), dir).value;
            var es := Ls(dev, dir, h, addFiles, addDirs, details).result.value;
            forall k :: 0 <= k < |es| ==>
              && es[k].name in names
              && var isDir := dev.listdir(Effects(h), ProbePath(dir, es[k].name)).Some?;
                 es[k] == Present(es[k].name, if isDir then Dir else File, details)
                 && (if isDir then addDirs else addFiles)
  {
    ListingIsSound(dev.listdir(Effects(h), dir).value, IsDirOnDevice(dev, Effects(h), dir), addFiles, addDirs, details);
  }

  /** With both kinds and no details, a name is in `ls()` exactly when the board listed it. */
  lemma {:induction false} LsHasEveryName(dev: Device, dir: string, h: seq<Command>, name: string)
    requires dev.listdir(Effects(h), dir).Some?
    ensures Plain(name) in Ls(dev, dir, h, true, true, false).result.value <==> name in dev.listdir(Effects(h), dir).value
  {
    var names := dev.listdir(Effects(h), dir).value;
    var isDir := IsDirOnDevice(dev, Effects(h), dir);
    var es := Listing(names, isDir, true, true, false);
    if name in names {
      ListingIsComplete(names, isDir, true, true, false, name);
    }
    if Plain(name) in es {
      ListingIsSound(names, isDir, true, true, false);
      var k :| 0 <= k < |es| && es[k] == Plain(name);
      assert es[k].name == name;
    }
  }

  /** Listing twice with nothing issued in between gives the same result. */
  lemma LsIsRepeatable(dev: Device, dir: string, h: seq<Command>, addFiles: bool, addDirs: bool, details: bool,
                       addFiles': bool, addDirs': bool, details': bool)
    ensures var first := Ls(dev, dir, h, addFiles, addDirs, details);
            Ls(dev, dir, h + first.issued, addFiles', addDirs', details') == Ls(dev, dir, h, addFiles', addDirs', details')
  {
    LsIssuesOnlyListings(dev, dir, h, addFiles, addDirs, details);
    ListingsHaveNoEffect(h, Ls(dev, dir, h, addFiles, addDirs, details).issued);
  }

  // ------------------------------------------------ single-name operations

  /** `rm(target)`: checks a fresh `ls()`, then removes the fully-qualified name. */
  function Rm(dev: Device, dir: string, h: seq<Command>, target: string): Step<()> {
    var l := Ls(dev, dir, h, true, true, false);
    if l.result.Err? then Step(Err(l.result.error), l.issued)
    else if Plain(target) !in l.result.value then Step(Err(NoSuchFile(Fqn(dir, target))), l.issued)
    else
      var c := Remove(Fqn(dir, target));
      Step(if dev.run(Effects(h + l.issued), c).Some? then Ok(()) else Err(CommunicationFailed), l.issued + [c])
  }

  /** `md(name)`: checks a fresh `ls()`, then creates the fully-qualified name. */
  function Md(dev: Device, dir: string, h: seq<Command>, name: string): Step<()> {
    var l := Ls(dev, dir, h, true, true, false);
    if l.result.Err? then Step(Err(l.result.error), l.issued)
    else if Plain(name) in l.result.value then Step(Err(AlreadyExists(Fqn(dir, name))), l.issued)
    else
      var c := MakeDir(Fqn(dir, name));
      Step(if dev.run(Effects(h + l.issued), c).Some? then Ok(()) else Err(CommunicationFailed), l.issued + [c])
  }

  /** `gets(src)`: checks a fresh `ls()`, then fetches the fully-qualified name. */
  function Gets(dev: Device, dir: string, h: seq<Command>, src: string): Step<string> {
    var l := Ls(dev, dir, h, true, true, false);
    if l.result.Err? then Step(Err(l.result.error), l.issued)
    else if Plain(src) !in l.result.value then Step(Err(NoSuchFile(Fqn(dir, src))), l.issued)
    else
      var f := Fetch(dev, h + l.issued, Fqn(dir, src));
      Step(f.result, l.issued + f.issued)
  }

  /** Opening `path` for reading and capturing what printing the file outputs. */
  function Fetch(dev: Device, h: seq<Command>, path: string): Step<string> {
    var open := OpenRead(path);
    if dev.run(Effects(h), open).None? then Step(Err(CommunicationFailed), [open])
    else
      match dev.run(Effects(h + [open]), DumpFile)
      case None => Step(Err(CommunicationFailed), [open, DumpFile])
      case Some(text) => Step(Ok(text), [open, DumpFile])
  }

  /**
   * A fetch opens `path` first, opens nothing else, and returns exactly what
   * the board printed once the file was open.
   */
  lemma FetchOpensThenDumps(dev: Device, h: seq<Command>, path: string)
    ensures var f := Fetch(dev, h, path);
            var open := OpenRead(path);
            && |f.issued| > 0 && f.issued[0] == open
            && Acted(f.issued, Reads) == [path]
            && (f.result.Ok? <==> dev.run(Effects(h), open).Some? && dev.run(Effects(h) + [open], DumpFile).Some?)
            && (f.result.Ok? ==> f.result.value == dev.run(Effects(h) + [open], DumpFile).value)
            && (f.result.Err? ==> f.result.error == CommunicationFailed)
  {
    var open := OpenRead(path);
    assert Effects(h + [open]) == Effects(h) + [open] by {
      assert (h + [open])[..|h|] == h;
    }
    assert Acted([open], Reads) == [path] by {
      assert [open][..0] == [];
    }
    assert Acted([open, DumpFile], Reads) == [path] by {
      assert [open, DumpFile][..1] == [open];
    }
  }

  /** `size(target)`: the length of what `gets(target)` returns. */
  function Size(dev: Device, dir: string, h: seq<Command>, target: string): Step<nat> {
    var g := Gets(dev, dir, h, target);
    Step(if g.result.Ok? then Ok(|g.result.value|) else Err(g.result.error), g.issued)
  }

  /**
   * `rm` fails on a name the board does not list without removing anything;
   * on a listed name it issues exactly one remove, of the fully-qualified name.
   */
  lemma RmChecksListingFirst(dev: Device, dir: string, h: seq<Command>, target: string)
    ensures var s := Rm(dev, dir, h, target);
            var l := Ls(dev, dir, h, true, true, false);
            var p := Fqn(dir, target);
            match dev.listdir(Effects(h), dir)
            case None => s.result == Err(CommunicationFailed) && OnlyListings(s.issued)
            case Some(names) =>
              if target !in names then s.result == Err(NoSuchFile(p)) && OnlyListings(s.issued)
              else
                && s.issued == l.issued + [Remove(p)]
                && (s.result.Ok? <==> dev.run(Effects(h), Remove(p)).Some?)
                && (s.result.Err? ==> s.result.error == CommunicationFailed)
  {
    LsIssuesOnlyListings(dev, dir, h, true, true, false);
    if dev.listdir(Effects(h), dir).Some? {
      LsHasEveryName(dev, dir, h, target);
      ListingsHaveNoEffect(h, Ls(dev, dir, h, true, true, false).issued);
    }
  }

  /**
   * `md` fails on a name the board already lists without creating anything;
   * on any other name it issues exactly one mkdir, of the fully-qualified name.
   */
  lemma MdChecksListingFirst(dev: Device, dir: string, h: seq<Command>, name: string)
    ensures var s := Md(dev, dir, h, name);
            var l := Ls(dev, dir, h, true, true, false);
            var p := Fqn(dir, name);
            match dev.listdir(Effects(h), dir)
            case None => s.result == Err(CommunicationFailed) && OnlyListings(s.issued)
            case Some(names) =>
              if name in names then s.result == Err(AlreadyExists(p)) && OnlyListings(s.issued)
              else
                && s.issued == l.issued + [MakeDir(p)]
                && (s.result.Ok? <==> dev.run(Effects(h), MakeDir(p)).Some?)
                && (s.result.Err? ==> s.result.error == CommunicationFailed)
  {
    LsIssuesOnlyListings(dev, dir, h, true, true, false);
    if dev.listdir(Effects(h), dir).Some? {
      LsHasEveryName(dev, dir, h, name);
      ListingsHaveNoEffect(h, Ls(dev, dir, h, true, true, false).issued);
    }
  }

  /** `gets` fails on a name the board does not list, having issued nothing but listings. */
  lemma GetsChecksListingFirst(dev: Device, dir: string, h: seq<Command>, src: string)
    ensures dev.listdir(Effects(h), dir).None? ==>
              Gets(dev, dir, h, src).result == Err(CommunicationFailed) && OnlyListings(Gets(dev, dir, h, src).issued)
    ensures dev.listdir(Effects(h), dir).Some? && src !in dev.listdir(Effects(h), dir).value ==>
              Gets(dev, dir, h, src).result == Err(NoSuchFile(Fqn(dir, src))) && OnlyListings(Gets(dev, dir, h, src).issued)
  {
    LsIssuesOnlyListings(dev, dir, h, true, true, false);
    if dev.listdir(Effects(h), dir).Some? {
      LsHasEveryName(dev, dir, h, src);
    }
  }

  /**
   * On a listed name `gets` opens the fully-qualified name right after the
   * listing, and returns exactly what the board printed for it.
   */
  lemma GetsFetchesListedName(dev: Device, dir: string, h: seq<Command>, src: string)
    requires dev.listdir(Effects(h), dir).Some? && src in dev.listdir(Effects(h), dir).value
    ensures var s := Gets(dev, dir, h, src);
            var n := |Ls(dev, dir, h, true, true, false).issued|;
            var open := OpenRead(Fqn(dir, src));
            && n < |s.issued| && s.issued[..n + 1] == Ls(dev, dir, h, true, true, false).issued + [open]
            && (s.result.Ok? <==> dev.run(Effects(h), open).Some? && dev.run(Effects(h) + [open], DumpFile).Some?)
            && (s.result.Ok? ==> s.result.value == dev.run(Effects(h) + [open], DumpFile).value)
            && (s.result.Err? ==> s.result.error == CommunicationFailed)
  {
    var l := Ls(dev, dir, h, true, true, false);
    LsIssuesOnlyListings(dev, dir, h, true, true, false);
    LsHasEveryName(dev, dir, h, src);
    var p := Fqn(dir, src);
    ListingsHaveNoEffect(h, l.issued);
    FetchOpensThenDumps(dev, h + l.issued, p);
    var f := Fetch(dev, h + l.issued, p);
    assert Gets(dev, dir, h, src) == Step(f.result, l.issued + f.issued);
    assert (l.issued + f.issued)[..|l.issued| + 1] == l.issued + [OpenRead(p)];
  }

  /** `size` fails exactly when `gets` does, and is otherwise the length of its content. */
  lemma SizeIsLengthOfGets(dev: Device, dir: string, h: seq<Command>, target: string)
    ensures var s := Size(dev, dir, h, target);
            var g := Gets(dev, dir, h, target);
            && s.issued == g.issued
            && (s.result.Ok? <==> g.result.Ok?)
            && (s.result.Ok? ==> s.result.value == |g.result.value|)
            && (s.result.Err? ==> s.result.error == g.result.error)
  {
  }

  // ------------------------------------------------------------- transfers

  /** The write statement for one line, which fails when the board reports an error. */
  function WriteLine(dev: Device): (seq<Command>, string) -> Step<seq<()>> {
    (h: seq<Command>, line: string) =>
      Step(if dev.run(Effects(h), Write(line)).Some? then Ok([]) else Err(CommunicationFailed), [Write(line)])
  }

  /** `puts(dst, lines)`: open the fully-qualified name, write each line, close. */
  function Puts(dev: Device, dir: string, h: seq<Command>, dst: string, lines: seq<string>): Step<()> {
    var open := OpenWrite(Fqn(dir, dst));
    if dev.run(Effects(h), open).None? then Step(Err(CommunicationFailed), [open])
    else
      var w := Batch(WriteLine(dev), h + [open], lines);
      if w.result.Err? then Step(Err(CommunicationFailed), [open] + w.issued)
      else
        var h2 := h + [open] + w.issued;
        Step(if dev.run(Effects(h2), CloseFile).Some? then Ok(()) else Err(CommunicationFailed),
             [open] + w.issued + [CloseFile])
  }

  /** The write statements for `lines`, one per line, in order. */
  function WriteCommands(lines: seq<string>): (cs: seq<Command>)
    ensures |cs| == |lines|
    ensures forall k :: 0 <= k < |lines| ==> cs[k] == Write(lines[k])
    decreases |lines|
  {
    if lines == [] then [] else WriteCommands(lines[..|lines| - 1]) + [Write(lines[|lines| - 1])]
  }

  /** Writing lines issues a prefix of their write statements, all of them when it succeeds. */
  lemma {:induction false} WritesInOrder(dev: Device, h: seq<Command>, lines: seq<string>)
    ensures var w := Batch(WriteLine(dev), h, lines);
            && w.issued <= WriteCommands(lines)
            && (w.result.Ok? ==> w.issued == WriteCommands(lines))
            && (w.result.Err? ==> w.result.error == CommunicationFailed)
    decreases |lines|
  {
    if lines != [] {
      var init := lines[..|lines| - 1];
      WritesInOrder(dev, h, init);
      assert WriteCommands(lines) == WriteCommands(init) + [Write(lines[|lines| - 1])];
    }
  }

  /**
   * `puts` issues, in order, one open of the fully-qualified name, one write
   * per line and one close when it succeeds, `|lines| + 2` commands.
   */
  lemma PutsIssuesOpenWritesClose(dev: Device, dir: string, h: seq<Command>, dst: string, lines: seq<string>)
    ensures Puts(dev, dir, h, dst, lines).result.Ok? ==>
              && Puts(dev, dir, h, dst, lines).issued == [OpenWrite(Fqn(dir, dst))] + WriteCommands(lines) + [CloseFile]
              && |Puts(dev, dir, h, dst, lines).issued| == |lines| + 2
  {
    var open := OpenWrite(Fqn(dir, dst));
    if dev.run(Effects(h), open).Some? {
      WritesInOrder(dev, h + [open], lines);
    }
  }

  /**
   * Whatever the board answers, `puts` issues a prefix of the open, the
   * writes and the close, ending at the first failure, and every failure
   * is reported as a communication failure.
   */
  lemma PutsStopsAtFirstFailure(dev: Device, dir: string, h: seq<Command>, dst: string, lines: seq<string>)
    ensures Puts(dev, dir, h, dst, lines).issued <= [OpenWrite(Fqn(dir, dst))] + WriteCommands(lines) + [CloseFile]
    ensures Puts(dev, dir, h, dst, lines).result.Err? ==> Puts(dev, dir, h, dst, lines).result.error == CommunicationFailed
  {
    var open := OpenWrite(Fqn(dir, dst));
    var all := [open] + WriteCommands(lines) + [CloseFile];
    if dev.run(Effects(h), open).Some? {
      var w := Batch(WriteLine(dev), h + [open], lines);
      WritesInOrder(dev, h + [open], lines);
      if w.result.Err? {
        assert all[..1 + |w.issued|] == [open] + w.issued;
      }
    } else {
      assert all[..1] == [open];
    }
  }

  /** `puts` opens exactly one file for writing: the fully-qualified `dst`. */
  lemma PutsWritesOneFile(dev: Device, dir: string, h: seq<Command>, dst: string, lines: seq<string>)
    ensures Acted(Puts(dev, dir, h, dst, lines).issued, Writes) == [Fqn(dir, dst)]
  {
    var open := OpenWrite(Fqn(dir, dst));
    assert Acted([open], Writes) == [Fqn(dir, dst)] by {
      assert [open][..0] == [];
    }
    if dev.run(Effects(h), open).Some? {
      var w := Batch(WriteLine(dev), h + [open], lines);
      WritesInOrder(dev, h + [open], lines);
      WritesOpenNothing(lines, w.issued);
      ActedAppend([open], w.issued, Writes);
      if w.result.Ok? {
        ActedAppend([open] + w.issued, [CloseFile], Writes);
        assert Acted([CloseFile], Writes) == [] by {
          assert [CloseFile][..0] == [];
        }
      }
    }
  }

  /** Write statements open no file. */
  lemma WritesOpenNothing(lines: seq<string>, p: seq<Command>)
    requires p <= WriteCommands(lines)
    ensures Acted(p, Writes) == []
  {
    assert forall k :: 0 <= k < |p| ==> p[k] == Write(lines[k]);
  }

  /** `put(src, dst, binary)` for a local file whose lines are `lines`. */
  function Put(dev: Device, dir: string, h: seq<Command>, src: string, lines: seq<string>,
               dst: Option<string>, binary: bool): Step<()> {
    if binary then Step(Err(BinaryNotImplemented), [])
    else Puts(dev, dir, h, if dst.Some? then dst.value else src, lines)
  }

  /** `get(src, dst, binary)`: what `gets` fetches, to be written to the local destination. */
  function Get(dev: Device, dir: string, h: seq<Command>, src: string, dst: Option<LocalPath>, binary: bool): Step<LocalWrite> {
    if binary then Step(Err(BinaryNotImplemented), [])
    else
      var g := Gets(dev, dir, h, src);
      Step(if g.result.Ok? then Ok(LocalWrite(if dst.Some? then dst.value else Local(src), g.result.value))
           else Err(g.result.error),
           g.issued)
  }

  // ------------------------------------------------------ bulk operations

  /** The step of `mrm` for one listed name. */
  function RmMatching(dev: Device, dir: string, find: string -> bool): (seq<Command>, string) -> Step<seq<()>> {
    (h: seq<Command>, f: string) =>
      if find(f) then
        var s := Rm(dev, dir, h, f);
        Step(if s.result.Ok? then Ok([]) else Err(s.result.error), s.issued)
      else Step(Ok([]), [])
  }

  /**
   * `mrm(pat)`: `rm` of every file of `ls(add_dirs=False)` that `find` accepts, in order;
   * the explorer passes `Patterns.Finder(pat)`, the `re.match` filter of its pattern.
   */
  function Mrm(dev: Device, dir: string, h: seq<Command>, find: string -> bool): Step<()> {
    var l := Ls(dev, dir, h, true, false, false);
    if l.result.Err? then Step(Err(l.result.error), l.issued)
    else
      var b := Batch(RmMatching(dev, dir, find), h + l.issued, Names(l.result.value));
      Step(if b.result.Ok? then Ok(()) else Err(b.result.error), l.issued + b.issued)
  }

  /** The step of `mget` for one listed name. */
  function GetMatching(dev: Device, dir: string, dstDir: string, find: string -> bool): (seq<Command>, string) -> Step<seq<LocalWrite>> {
    (h: seq<Command>, f: string) =>
      if find(f) then
        var s := Get(dev, dir, h, f, Some(Joined(dstDir, f)), false);
        Step(if s.result.Ok? then Ok([s.result.value]) else Err(s.result.error), s.issued)
      else Step(Ok([]), [])
  }

  /** `mget(dst_dir, pat, binary)`: `get` of every file of `ls(add_dirs=False)` that `find` matches. */
  function Mget(dev: Device, dir: string, h: seq<Command>, dstDir: string, find: string -> bool, binary: bool): Step<seq<LocalWrite>> {
    if binary then Step(Err(BinaryNotImplemented), [])
    else
      var l := Ls(dev, dir, h, true, false, false);
      if l.result.Err? then Step(Err(l.result.error), l.issued)
      else
        var b := Batch(GetMatching(dev, dir, dstDir, find), h + l.issued, Names(l.result.value));
        Step(b.result, l.issued + b.issued)
  }

  /** The step of `mput` for one local candidate. */
  function PutMatching(dev: Device, dir: string, find: string -> bool): (seq<Command>, LocalFile) -> Step<seq<()>> {
    (h: seq<Command>, f: LocalFile) =>
      if f.isFile && find(f.name) then
        var s := Put(dev, dir, h, f.name, f.lines, Some(f.name), false);
        Step(if s.result.Ok? then Ok([]) else Err(s.result.error), s.issued)
      else Step(Ok([]), [])
  }

  /** `mput(src_dir, pat, binary)`: `put` of every local candidate that is a file and that `find` matches. */
  function Mput(dev: Device, dir: string, h: seq<Command>, local: seq<LocalFile>, find: string -> bool, binary: bool): Step<()> {
    if binary then Step(Err(BinaryNotImplemented), [])
    else
      var b := Batch(PutMatching(dev, dir, find), h, local);
      Step(if b.result.Ok? then Ok(()) else Err(b.result.error), b.issued)
  }

  /** The remote paths of the listed names that `find` matches, in listing order. */
  function MatchedPaths(dir: string, find: string -> bool): string -> seq<string> {
    f => if find(f) then [Fqn(dir, f)] else []
  }

  /**
   * `mrm` removes, once each and in listing order, the fully-qualified names
   * of the matching files of `ls(add_dirs=False)`, stopping at the first
   * failure; directories are excluded by that listing.
   */
  lemma MrmRemovesMatchingFiles(dev: Device, dir: string, h: seq<Command>, find: string -> bool)
    ensures var l := Ls(dev, dir, h, true, false, false);
            var s := Mrm(dev, dir, h, find);
            if l.result.Err? then s.result.Err? && Acted(s.issued, Removes) == []
            else
              var targets := Each(Names(l.result.value), MatchedPaths(dir, find));
              && Acted(s.issued, Removes) <= targets
              && (s.result.Ok? ==> Acted(s.issued, Removes) == targets)
  {
    var l := Ls(dev, dir, h, true, false, false);
    LsIssuesOnlyListings(dev, dir, h, true, false, false);
    assert Acted(l.issued, Removes) == [];
    if l.result.Ok? {
      var op := RmMatching(dev, dir, find);
      forall h', x ensures Acted(op(h', x).issued, Removes) <= MatchedPaths(dir, find)(x)
                        && (op(h', x).result.Ok? ==> Acted(op(h', x).issued, Removes) == MatchedPaths(dir, find)(x)) {
        RmActsOnce(dev, dir, h', x);
        if find(x) {
          assert op(h', x).issued == Rm(dev, dir, h', x).issued;
          assert op(h', x).result.Ok? ==> Rm(dev, dir, h', x).result.Ok?;
        }
      }
      BatchActs(op, h + l.issued, Names(l.result.value), Removes, MatchedPaths(dir, find));
      ActedAppend(l.issued, Batch(op, h + l.issued, Names(l.result.value)).issued, Removes);
    }
  }

  /** `rm` removes its own fully-qualified name at most once, and once when it succeeds. */
  lemma RmActsOnce(dev: Device, dir: string, h: seq<Command>, target: string)
    ensures var s := Rm(dev, dir, h, target);
            && Acted(s.issued, Removes) <= [Fqn(dir, target)]
            && (s.result.Ok? ==> Acted(s.issued, Removes) == [Fqn(dir, target)])
  {
    var l := Ls(dev, dir, h, true, true, false);
    LsIssuesOnlyListings(dev, dir, h, true, true, false);
    assert Acted(l.issued, Removes) == [];
    ActedAppend(l.issued, [Remove(Fqn(dir, target))], Removes);
    assert Acted([Remove(Fqn(dir, target))], Removes) == [Fqn(dir, target)] by {
      assert [Remove(Fqn(dir, target))][..0] == [];
    }
  }

  /** `gets` opens its own fully-qualified name for reading at most once, and once when it succeeds. */
  lemma GetsActsOnce(dev: Device, dir: string, h: seq<Command>, src: string)
    ensures var s := Gets(dev, dir, h, src);
            && Acted(s.issued, Reads) <= [Fqn(dir, src)]
            && (s.result.Ok? ==> Acted(s.issued, Reads) == [Fqn(dir, src)])
  {
    var l := Ls(dev, dir, h, true, true, false);
    LsIssuesOnlyListings(dev, dir, h, true, true, false);
    assert Acted(l.issued, Reads) == [];
    if l.result.Ok? && Plain(src) in l.result.value {
      var f := Fetch(dev, h + l.issued, Fqn(dir, src));
      FetchOpensThenDumps(dev, h + l.issued, Fqn(dir, src));
      ActedAppend(l.issued, f.issued, Reads);
    }
  }

  /**
   * `mget` opens for reading, once each and in listing order, the
   * fully-qualified names of the matching files of `ls(add_dirs=False)`,
   * stopping at the first failure.
   */
  lemma MgetFetchesMatchingFiles(dev: Device, dir: string, h: seq<Command>, dstDir: string, find: string -> bool)
    ensures var l := Ls(dev, dir, h, true, false, false);
            var s := Mget(dev, dir, h, dstDir, find, false);
            if l.result.Err? then s.result.Err? && Acted(s.issued, Reads) == []
            else
              var targets := Each(Names(l.result.value), MatchedPaths(dir, find));
              && Acted(s.issued, Reads) <= targets
              && (s.result.Ok? ==> Acted(s.issued, Reads) == targets)
  {
    var l := Ls(dev, dir, h, true, false, false);
    LsIssuesOnlyListings(dev, dir, h, true, false, false);
    assert Acted(l.issued, Reads) == [];
    if l.result.Ok? {
      var op := GetMatching(dev, dir, dstDir, find);
      forall h', x ensures Acted(op(h', x).issued, Reads) <= MatchedPaths(dir, find)(x)
                        && (op(h', x).result.Ok? ==> Acted(op(h', x).issued, Reads) == MatchedPaths(dir, find)(x)) {
        GetsActsOnce(dev, dir, h', x);
        if find(x) {
          assert op(h', x).issued == Gets(dev, dir, h', x).issued;
          assert op(h', x).result.Ok? ==> Gets(dev, dir, h', x).result.Ok?;
        }
      }
      BatchActs(op, h + l.issued, Names(l.result.value), Reads, MatchedPaths(dir, find));
      ActedAppend(l.issued, Batch(op, h + l.issued, Names(l.result.value)).issued, Reads);
    }
  }

  /** The remote paths of the local candidates that are files and that `find` matches. */
  function SelectedPaths(dir: string, find: string -> bool): LocalFile -> seq<string> {
    (f: LocalFile) => if f.isFile && find(f.name) then [Fqn(dir, f.name)] else []
  }

  /**
   * `mput` opens for writing, once each and in local order, the remote name
   * of every local candidate that is a file and matches `find`, stopping at
   * the first failure.
   */
  lemma MputSendsSelectedFiles(dev: Device, dir: string, h: seq<Command>, local: seq<LocalFile>, find: string -> bool)
    ensures var s := Mput(dev, dir, h, local, find, false);
            && Acted(s.issued, Writes) <= Each(local, SelectedPaths(dir, find))
            && (s.result.Ok? ==> Acted(s.issued, Writes) == Each(local, SelectedPaths(dir, find)))
  {
    var op := PutMatching(dev, dir, find);
    forall h', x ensures Acted(op(h', x).issued, Writes) <= SelectedPaths(dir, find)(x)
                      && (op(h', x).result.Ok? ==> Acted(op(h', x).issued, Writes) == SelectedPaths(dir, find)(x)) {
      PutsWritesOneFile(dev, dir, h', x.name, x.lines);
    }
    BatchActs(op, h, local, Writes, SelectedPaths(dir, find));
  }

  /** Binary mode fails before any remote command for `put`, `get`, `mput` and `mget`. */
  lemma BinaryFailsFast(dev: Device, dir: string, h: seq<Command>, src: string, lines: seq<string>, dst: Option<string>,
                        ldst: Option<LocalPath>, local: seq<LocalFile>, dstDir: string, find: string -> bool)
    ensures Put(dev, dir, h, src, lines, dst, true) == Step(Err(BinaryNotImplemented), [])
    ensures Get(dev, dir, h, src, ldst, true) == Step(Err(BinaryNotImplemented), [])
    ensures Mput(dev, dir, h, local, find, true) == Step(Err(BinaryNotImplemented), [])
    ensures Mget(dev, dir, h, dstDir, find, true) == Step(Err(BinaryNotImplemented), [])
  {
  }
}
