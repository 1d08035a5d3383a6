# mpfshell file explorer, modelled in Dafny

mpfshell drives a MicroPython board over its raw REPL. Its `MpFileExplorer`
(`mp/mpfexp.py`) offers a small remote filesystem:
- it keeps an absolute current directory;
- it joins names to that directory to form fully-qualified paths;
- it lists a directory, telling files from directories by probing each name with `os.listdir`;
- it removes files and creates directories;
- it transfers files by sending `open`/`write`/`close` statements line by line;
- it repeats `rm`, `get` and `put` over the names a regular expression selects.

The model has six modules:

- `Paths`: the path strings. `__fqn` is `Fqn`, the head of `os.path.split` is `SplitHead`, and the directory `cd` computes is `ChangeDir`.
- `Remote`: the board and the commands sent to it.
  - The board, `Device`, is a pair of total functions. They answer a listing or a statement from the commands that changed the board before it.
  - A command is one remote `eval`/`exec`.
  - An operation's outcome is a `Step`: the result, or the `RemoteIOError` / `AssertionError` it raises, together with the commands it sent, in order.
  - `Batch` is the stop-at-first-failure loop shared by `puts` and the bulk operations.
- `Classification`: the two passes of `ls` over the names the board listed. The directory pass runs first, then the file pass, each in listing order.
- `Ops`: each explorer operation as a function of the board, the current directory and the commands already sent. The lemmas here state what the operations promise.
- `Patterns`: the `re.compile(pat).match` filter of the bulk operations. A compiled pattern is given by where it can stop when run from the first character of a name; it sees the whole name, so end anchors are expressible.
- `FileExplorer`: the class `MpFileExplorer` itself.
  - Its fields are the current directory, which `cd` changes, and the history of commands sent, which every remote operation extends.
  - Each method runs the source's loops step by step.
  - Each method is proved to return what the matching `Ops` function computes and to extend the history by exactly the commands that function lists.

## Model

| member | source | states |
|---|---|---|
| Paths.Fqn | mp/mpfexp.py:57-64 | the directory, then exactly one separator (none added when the directory already ends in one), then the name; a rooted directory gives a rooted path |
| Paths.FqnKeepsAbsoluteNames | mp/mpfexp.py:57-64 | an absolute name is appended, not substituted: `/a` joined with `/b` is `/a//b` |
| Paths.SplitHead | mp/mpfexp.py:239 | the head of a POSIX split is the path cut at its last separator with the trailing run of separators removed, kept whole when it consists of separators only; it stays rooted |
| Paths.ChangeDir | mp/mpfexp.py:234-241 | an absolute target replaces the directory; any other target except `..` extends the directory and ends with the target; a rooted directory stays rooted |
| Paths.UpUndoesChangeDir | mp/mpfexp.py:234-241 | `cd(name)` then `cd("..")` gives back the starting directory, whenever that directory is the root or has no trailing separator and the name has no separator and is not `..` |
| Paths.UpFromTopLevel | mp/mpfexp.py:239 | the `os.path.split` head of `/name` is the root, for a name without separators |
| Paths.UpFromSubdirectory | mp/mpfexp.py:239 | the `os.path.split` head of `dir/name` is `dir`, for a non-empty `dir` without a trailing separator and a name without separators |
| Paths.UpExamples | mp/mpfexp.py:238-239 | `cd("..")` from `/a/b` gives `/a`, from `/a` gives `/`, and from `/` stays at `/` |
| Paths.ChangeDirExamples | mp/mpfexp.py:236-241 | an absolute target is taken as is; `c` under `/a` is `/a/c` and under `/` is `/c` |
| Remote.ListingsHaveNoEffect | mp/mpfexp.py:80-97 | sending only `os.listdir` statements leaves the board's state as it was |
| Remote.Batch | mp/mpfexp.py:124-129 | the loops of `puts` and the bulk operations: each item runs on the history the earlier ones left, results concatenate, and the first failure ends the loop (its properties are the two rows below) |
| Remote.BatchStopsAtFailure | mp/mpfexp.py:124-129 | once one item of a loop fails, no later item is run and the loop's outcome is that failure |
| Remote.BatchActs | mp/mpfexp.py:124-129 | when each step acts on a prefix of its own targets (all of them on success), the loop acts on a prefix of all targets in item order, and on all of them when it succeeds |
| Classification.ProbePath | mp/mpfexp.py:86 | the path a probe lists: the directory, `/`, then the name (not the fully-qualified name) |
| Classification.Present | mp/mpfexp.py:87-90 | a name is paired with its kind's letter, `D` or `F`, exactly when details are asked for, and is the bare name otherwise |
| Classification.Pass | mp/mpfexp.py:83-102 | one pass of `ls`: the names of the pass's kind in listing order (properties in `PassIsSound`, `PassIsComplete`, `PassAppend`) |
| Classification.Listing | mp/mpfexp.py:83-102 | the directory pass then the file pass, each only when asked for (properties in the `Listing...` rows) |
| Classification.Probes | mp/mpfexp.py:84-86 | a pass sends one probe per listed name, in order, of the directory joined to the name with `/` |
| Classification.PassIsSound | mp/mpfexp.py:83-102 | every entry of a pass is a listed name whose probe gives the pass's kind, tagged with `D`/`F` exactly when details are asked for |
| Classification.PassIsComplete | mp/mpfexp.py:83-102 | every listed name whose probe gives the pass's kind is in the pass |
| Classification.PassAppend | mp/mpfexp.py:84-95 | a pass keeps listing order: the pass over two listings is the concatenation of their passes |
| Classification.PassSingle | mp/mpfexp.py:85-102 | a pass over one name keeps it exactly when its probe gives the pass's kind |
| Classification.KeptOnce | mp/mpfexp.py:83-102 | of the directory pass and the file pass over one name, exactly one keeps it |
| Classification.ListingEntry | mp/mpfexp.py:83-102 | entry `k` of `ls` is a listed name of a requested kind, and it is a directory exactly when it lies in the directory pass |
| Classification.ListingIsSound | mp/mpfexp.py:83-102 | every entry of `ls` is a listed name of a requested kind, presented with that kind when details are asked for |
| Classification.ListingPutsDirsFirst | mp/mpfexp.py:83-102 | in the result of `ls` no file comes before a directory |
| Classification.ListingIsComplete | mp/mpfexp.py:83-102 | every listed name of a requested kind is in the result of `ls` |
| Classification.PassesPartition | mp/mpfexp.py:83-102 | the two passes together hold every listed name exactly as often as the board listed it |
| Classification.ListingIsPermutation | mp/mpfexp.py:74-107 | with both kinds requested, the names `ls` returns are a permutation of the names the board listed |
| Ops.Ls | mp/mpfexp.py:74-107 | `ls`: the outer listing, then the passes over the names it gave (properties in the `Ops.Ls...` rows) |
| Ops.LsFailsOnlyOnOuterListing | mp/mpfexp.py:78-105 | `ls` fails exactly when the outer listing fails; it then raises a communication failure having sent only that listing (a failed probe is never an error) |
| Ops.LsIssuesOnlyListings | mp/mpfexp.py:80-102 | `ls` sends only listings: the outer one first, then one probe per name for each pass that runs |
| Ops.LsClassifiesByProbe | mp/mpfexp.py:83-102 | each entry of `ls` is a listed name whose kind is the verdict of listing `dir/name` on the board, and that kind was requested |
| Ops.LsHasEveryName | mp/mpfexp.py:111 | with both kinds and no details, a name is in `ls()` if and only if the board listed it |
| Ops.LsIsRepeatable | mp/mpfexp.py:74-107 | a second `ls` right after a first gives the same outcome and commands as if the first had not run |
| Ops.Rm | mp/mpfexp.py:109-117 | `rm`: a fresh `ls()`, then the remove of the fully-qualified name (properties in `RmChecksListingFirst`, `RmActsOnce`) |
| Ops.RmChecksListingFirst | mp/mpfexp.py:109-117 | `rm` of an unlisted name raises not-found with the fully-qualified name and sends only listings; of a listed name it sends the listing and one remove of the fully-qualified name, succeeding exactly when the board does and otherwise raising a communication failure |
| Ops.RmActsOnce | mp/mpfexp.py:109-117 | `rm` removes at most its own fully-qualified name, and removes it when it succeeds |
| Ops.Md | mp/mpfexp.py:247-255 | `md`: a fresh `ls()`, then the mkdir of the fully-qualified name (properties in `MdChecksListingFirst`) |
| Ops.MdChecksListingFirst | mp/mpfexp.py:247-255 | `md` of a listed name raises already-exists and sends only listings; of any other name it sends one mkdir of the fully-qualified name, succeeding exactly when the board does and otherwise raising a communication failure |
| Ops.Gets | mp/mpfexp.py:203-214 | `gets`: a fresh `ls()`, then the fetch of the fully-qualified name (properties in the `Ops.Gets...` rows) |
| Ops.Fetch | mp/mpfexp.py:208-212 | the open and the dump of a remote file (properties in `FetchOpensThenDumps`) |
| Ops.Size | mp/mpfexp.py:230-232 | `size`: the length of what `gets` returns (properties in `SizeIsLengthOfGets`) |
| Ops.GetsChecksListingFirst | mp/mpfexp.py:203-206 | `gets` raises a communication failure when the listing fails, and not-found with the fully-qualified name for an unlisted name, having sent only listings |
| Ops.GetsFetchesListedName | mp/mpfexp.py:203-214 | on a listed name `gets` opens the fully-qualified name right after the listing, succeeds exactly when the open and the dump do, returns exactly what the board printed, and otherwise raises a communication failure |
| Ops.GetsActsOnce | mp/mpfexp.py:203-214 | `gets` opens at most its own fully-qualified name for reading, and opens it when it succeeds |
| Ops.FetchOpensThenDumps | mp/mpfexp.py:208-212 | a fetch opens the path first and no other file; it returns what the board printed once the file was open, and any failure is a communication failure |
| Ops.SizeIsLengthOfGets | mp/mpfexp.py:230-232 | `size` sends what `gets` sends, fails exactly when `gets` does with the same error, and otherwise is the length of its content |
| Ops.WriteLine | mp/mpfexp.py:223 | one write statement for one line, failing when the board raises |
| Ops.Puts | mp/mpfexp.py:216-228 | `puts`: open, the write loop, close (properties in the `Ops.Puts...` rows) |
| Ops.Put | mp/mpfexp.py:131-152 | `put`: the binary guard, then `puts` of `dst`, or of `src` when no `dst` is given |
| Ops.Get | mp/mpfexp.py:168-187 | `get`: the binary guard, then `gets`, paired with the local destination, `src` when none is given |
| Ops.WritesInOrder | mp/mpfexp.py:222-223 | the write loop sends a prefix of one write per line in order, all of them when it succeeds, and any failure is a communication failure |
| Ops.PutsIssuesOpenWritesClose | mp/mpfexp.py:216-228 | a successful `puts` sends one open of the fully-qualified name, one write per line in order and one close: `|lines| + 2` commands |
| Ops.PutsStopsAtFirstFailure | mp/mpfexp.py:216-228 | whatever the board answers, `puts` sends a prefix of open, writes and close ending at the first failure, and every failure is a communication failure |
| Ops.PutsWritesOneFile | mp/mpfexp.py:220 | `puts` opens exactly one file for writing: the fully-qualified destination |
| Ops.RmMatching | mp/mpfexp.py:125-129 | one iteration of `mrm`: `rm` of the name when the filter accepts it, nothing otherwise |
| Ops.Mrm | mp/mpfexp.py:119-129 | `mrm`: `ls(add_dirs=False)`, then the loop of `RmMatching` over its names |
| Ops.GetMatching | mp/mpfexp.py:197-201 | one iteration of `mget`: `get` of the name into `os.path.join(dst_dir, name)` when the filter accepts it |
| Ops.Mget | mp/mpfexp.py:189-201 | `mget`: the binary guard, `ls(add_dirs=False)`, then the loop of `GetMatching` over its names |
| Ops.PutMatching | mp/mpfexp.py:162-166 | one iteration of `mput`: `put` of the candidate under its bare name when `isfile` holds of it and the filter accepts it |
| Ops.Mput | mp/mpfexp.py:154-166 | `mput`: the binary guard, then the loop of `PutMatching` over the local candidates |
| Ops.MrmRemovesMatchingFiles | mp/mpfexp.py:119-129 | `mrm` removes, once each and in listing order, the fully-qualified names of the matching files of `ls(add_dirs=False)` up to the first failure, all of them on success, and nothing when the listing fails |
| Ops.MgetFetchesMatchingFiles | mp/mpfexp.py:189-201 | `mget` opens for reading, once each and in listing order, the fully-qualified names of the matching files up to the first failure, all of them on success |
| Ops.MputSendsSelectedFiles | mp/mpfexp.py:154-166 | `mput` opens for writing, once each and in local order, the remote name of every candidate that is a file and matches, up to the first failure, all of them on success |
| Ops.BinaryFailsFast | mp/mpfexp.py:131-191 | binary mode makes `put`, `get`, `mput` and `mget` fail with the not-implemented error before sending anything |
| Patterns.Matches | mp/mpfexp.py:125 | `find.match(f)` succeeds: run from the first character of `f`, the pattern stops somewhere in it |
| Patterns.Finder | mp/mpfexp.py:122 | the filter `re.compile(pat).match` that `mrm`, `mget` and `mput` apply to each name |
| Patterns.LiteralMatchesPrefixes | mp/mpfexp.py:122-125 | `match` anchors at the first character only: a pattern of plain characters selects exactly the names that start with it |
| Patterns.EndAnchoredMatchesWhole | mp/mpfexp.py:122-125 | a pattern of plain characters followed by `$` selects exactly that string, with or without one final newline |
| Patterns.MatchesExamples | mp/mpfexp.py:194-197 | pattern `ma` selects `main.py` while `ai` does not, although the name contains it; `foo$` selects `foo` but not `foobar` |
| FileExplorer.MpFileExplorer.constructor | mp/mpfexp.py:38-43 | a new explorer is at the root `/` and has sent nothing |
| FileExplorer.MpFileExplorer.ListRemote | mp/mpfexp.py:80 | one listing, answered from the board as the history left it; it does not change the board |
| FileExplorer.MpFileExplorer.Run | mp/mpfexp.py:115 | one statement, answered from the board as the history left it, appended to the history |
| FileExplorer.MpFileExplorer.ProbeName | mp/mpfexp.py:85-102 | one probe of `dir/name`, and the name kept with the pass's kind exactly when the probe's verdict is that kind |
| FileExplorer.MpFileExplorer.ProbePass | mp/mpfexp.py:83-102 | the loop of one pass returns `Classification.Pass` of the listed names and extends the history by exactly their probes |
| FileExplorer.MpFileExplorer.Ls | mp/mpfexp.py:74-107 | returns `Ops.Ls` and extends the history by its commands |
| FileExplorer.MpFileExplorer.Rm | mp/mpfexp.py:109-117 | returns `Ops.Rm` and extends the history by its commands |
| FileExplorer.MpFileExplorer.Md | mp/mpfexp.py:247-255 | returns `Ops.Md` and extends the history by its commands |
| FileExplorer.MpFileExplorer.Fetch | mp/mpfexp.py:208-212 | returns `Ops.Fetch` and extends the history by its commands |
| FileExplorer.MpFileExplorer.Gets | mp/mpfexp.py:203-214 | returns `Ops.Gets` and extends the history by its commands |
| FileExplorer.MpFileExplorer.Size | mp/mpfexp.py:230-232 | returns `Ops.Size` and extends the history by its commands |
| FileExplorer.MpFileExplorer.WriteLines | mp/mpfexp.py:222-223 | the write loop succeeds exactly when the `Batch` of line writes does, and sends exactly its commands |
| FileExplorer.MpFileExplorer.Puts | mp/mpfexp.py:216-228 | returns `Ops.Puts` and extends the history by its commands |
| FileExplorer.MpFileExplorer.Put | mp/mpfexp.py:131-152 | returns `Ops.Put` and extends the history by its commands |
| FileExplorer.MpFileExplorer.Get | mp/mpfexp.py:168-187 | returns `Ops.Get` and extends the history by its commands |
| FileExplorer.MpFileExplorer.RmStep | mp/mpfexp.py:125-129 | one iteration of `mrm`, as `Ops.RmMatching` says |
| FileExplorer.MpFileExplorer.RmEach | mp/mpfexp.py:124-129 | the loop of `mrm` is the `Batch` of `Ops.RmMatching` over the names |
| FileExplorer.MpFileExplorer.Mrm | mp/mpfexp.py:119-129 | returns `Ops.Mrm` with the pattern's `re.match` filter and extends the history by its commands |
| FileExplorer.MpFileExplorer.GetStep | mp/mpfexp.py:197-201 | one iteration of `mget`, as `Ops.GetMatching` says |
| FileExplorer.MpFileExplorer.GetEach | mp/mpfexp.py:196-201 | the loop of `mget` is the `Batch` of `Ops.GetMatching` over the names |
| FileExplorer.MpFileExplorer.Mget | mp/mpfexp.py:189-201 | returns `Ops.Mget` with the pattern's `re.match` filter and extends the history by its commands |
| FileExplorer.MpFileExplorer.PutStep | mp/mpfexp.py:162-166 | one iteration of `mput`, as `Ops.PutMatching` says |
| FileExplorer.MpFileExplorer.PutEach | mp/mpfexp.py:161-166 | the loop of `mput` is the `Batch` of `Ops.PutMatching` over the local candidates |
| FileExplorer.MpFileExplorer.Mput | mp/mpfexp.py:154-166 | returns `Ops.Mput` with the pattern's `re.match` filter and extends the history by its commands |
| FileExplorer.MpFileExplorer.Cd | mp/mpfexp.py:234-241 | the new directory is `Paths.ChangeDir` of the old one and the target, and it is still rooted |
| FileExplorer.MpFileExplorer.Pwd | mp/mpfexp.py:243-245 | the current directory, which is always rooted |

## Left out

- The serial transport (`Pyboard`), entering and leaving the raw REPL (`setup`, `teardown`, `__del__`) and the `import os, sys` statement. Every command is an abstract round trip; `None` from the board stands for a `PyboardError`.
- Parsing the board's reply to `os.listdir` with `eval`. The board's answer is a list of names.
- The `string-escape` encoding of each line. A write command carries the raw line, so the quoting of names and lines inside the statements is not modelled.
- The regular-expression engine: compiling a pattern string. A compiled pattern is given by the positions where it can stop when run from a name's first character (`Patterns.Pattern`), so any pattern, end-anchored ones included, has a counterpart; only plain-character patterns with or without `$` are written out (`Patterns.Literal`, `Patterns.EndAnchored`). `re.compile` raising on a malformed pattern is not modelled.
- The local filesystem:
  - the lines `put` reads are given as a parameter;
  - `os.path.join` is kept unevaluated (`Ops.Joined`);
  - `get` returns the content and its destination instead of writing a local file;
  - for `mput`, `os.listdir(src_dir)` and `os.path.isfile` are given per candidate (`Ops.LocalFile`).
- FileExplorer.MpFileExplorer.Get: in the source the local destination is opened, and so truncated, before the remote fetch. A fetch that then fails leaves an empty local file. The model returns a local write only on success.
- Ops.MputSendsSelectedFiles: `os.path.isfile(f)` in the source tests the bare name, relative to the process's working directory, not the joined path. The model keeps that as written: `LocalFile.isFile` is what `isfile` says of the bare name. It does not relate that to the source directory's contents.
- Printing in verbose mode, and the return values of `exec_` other than captured output.
- Python's `assert` statements disappear under `python -O`. The model always raises the binary-mode error, as the code does when run normally.
- The board's effects are abstract, so a round trip such as `gets` after `puts` returning the written lines is not stated. Nothing ties what the board prints to what was written.
- `os.listdir` is taken to change nothing on the board (`Remote.Effects` drops listings). As a result the two passes of `ls` get the same verdict for a name, which the source relies on but cannot guarantee.
- `__fqn` joins an absolute name like any other name, so `/a` and `/b` give `/a//b` (`Paths.FqnKeepsAbsoluteNames`); the model does not treat absolute names specially either.
- `ls` probes `dir + "/" + name` rather than the fully-qualified name, so at the root the probe path is `//name`. This is modelled as written (`Classification.ProbePath`).
- Ops.SizeIsLengthOfGets: `size` is the length of the captured string in characters. The model does not distinguish bytes from characters, since strings are sequences of characters here.
- FileExplorer.MpFileExplorer.Pwd: a function reading the current directory rather than a method.
