/**
 * Path strings of the explorer: joining the current directory with a name,
 * the head of a POSIX `os.path.split`, and the directory change that `cd`
 * computes from them.
 */
module Paths {

  /** A path that starts at the device's filesystem root. */
  predicate IsRooted(p: string) {
    |p| > 0 && p[0] == '/'
  }

  predicate EndsWithSlash(p: string) {
    |p| > 0 && p[|p| - 1] == '/'
  }

  predicate NoSlash(s: string) {
    forall k :: 0 <= k < |s| ==> s[k] != '/'
  }

  predicate AllSlashes(s: string) {
    forall k :: 0 <= k < |s| ==> s[k] == '/'
  }

  /**
   * The fully-qualified name of `name` in directory `dir`: the two joined
   * with exactly one separator, none added when `dir` already ends in one.
   * An absolute `name` is not treated specially.
   */
  function Fqn(dir: string, name: string): (path: string)
    ensures |path| == |dir| + |name| + (if EndsWithSlash(dir) then 0 else 1)
    ensures path[..|dir|] == dir
    ensures path[|path| - |name|..] == name
    ensures !EndsWithSlash(dir) ==> path[|dir|] == '/'
    ensures IsRooted(dir) ==> IsRooted(path)
  {
    if EndsWithSlash(dir) then dir + name else dir + "/" + name
  }

  /** One past the index of the last '/' of `p`, or 0 when there is none. */
  function AfterLastSlash(p: string): (i: nat)
    ensures i <= |p|
    ensures i > 0 ==> p[i - 1] == '/'
    ensures NoSlash(p[i..])
    decreases |p|
  {
    if p == [] then 0
    else if p[|p| - 1] == '/' then |p|
    else
      var i := AfterLastSlash(p[..|p| - 1]);
      assert p[i..] == p[..|p| - 1][i..] + [p[|p| - 1]];
      i
  }

  /** `s` with its trailing run of '/' removed. */
  function StripTrailingSlashes(s: string): (r: string)
    ensures r <= s
    ensures !EndsWithSlash(r)
    ensures AllSlashes(s[|r|..])
    decreases |s|
  {
    if EndsWithSlash(s) then
      var r := StripTrailingSlashes(s[..|s| - 1]);
      assert s[|r|..] == s[..|s| - 1][|r|..] + [s[|s| - 1]];
      r
    else s
  }

  /**
   * The head of a POSIX `os.path.split(p)`: everything up to the last '/',
   * with trailing separators removed unless the head consists of them only.
   */
  function SplitHead(p: string): (head: string)
    ensures head <= p
    ensures |head| <= AfterLastSlash(p)
    ensures AllSlashes(p[|head|..AfterLastSlash(p)])
    ensures AllSlashes(head) || !EndsWithSlash(head)
    ensures AllSlashes(p[..AfterLastSlash(p)]) ==> head == p[..AfterLastSlash(p)]
    ensures IsRooted(p) ==> IsRooted(head)
  {
    var i := AfterLastSlash(p);
    var h := p[..i];
    if h != [] && !AllSlashes(h) then
      var r := StripTrailingSlashes(h);
      assert r[0] == h[0];
      assert p[|r|..i] == h[|r|..];
      r
    else h
  }

  /** The directory `cd(target)` makes current when `dir` is current. */
  function ChangeDir(dir: string, target: string): (next: string)
    ensures IsRooted(dir) ==> IsRooted(next)
    ensures IsRooted(target) ==> next == target
    ensures !IsRooted(target) && target != ".." ==>
              dir <= next && |target| <= |next| && next[|next| - |target|..] == target
  {
    if IsRooted(target) then target
    else if target == ".." then SplitHead(dir)
    else Fqn(dir, target)
  }

  /**
   * A directory that is the root or does not end in a separator is what
   * `cd("..")` returns to after `cd(name)` for a name without separators.
   */
  lemma UpUndoesChangeDir(dir: string, name: string)
    requires IsRooted(dir) && (dir == "/" || !EndsWithSlash(dir))
    requires NoSlash(name) && name != ".."
    ensures ChangeDir(ChangeDir(dir, name), "..") == dir
  {
    assert !IsRooted(name);
    if dir == "/" {
      UpFromTopLevel(name);
    } else {
      UpFromSubdirectory(dir, name);
    }
  }

  /** The head of `/name` is the root. */
  lemma UpFromTopLevel(name: string)
    requires NoSlash(name)
    ensures SplitHead(Fqn("/", name)) == "/"
  {
    var p := Fqn("/", name);
    assert p == "/" + name;
    AfterLastSlashPast(p, 1);
    assert p[..1] == "/";
  }

  /** The head of `dir/name` is `dir`, for a `dir` that does not end in a separator. */
  lemma UpFromSubdirectory(dir: string, name: string)
    requires |dir| > 0 && !EndsWithSlash(dir) && NoSlash(name)
    ensures SplitHead(Fqn(dir, name)) == dir
  {
    var p := Fqn(dir, name);
    assert p == dir + "/" + name;
    AfterLastSlashPast(p, |dir| + 1);
    assert p[..|dir| + 1] == dir + "/";
    assert !AllSlashes(dir + "/") by {
      assert (dir + "/")[|dir| - 1] == dir[|dir| - 1];
    }
    StripOneSlash(dir);
  }

  /** When `p[i - 1]` is a '/' and nothing after it is, AfterLastSlash(p) is `i`. */
  lemma {:induction false} AfterLastSlashPast(p: string, i: nat)
    requires 0 < i <= |p| && p[i - 1] == '/' && NoSlash(p[i..])
    ensures AfterLastSlash(p) == i
    decreases |p|
  {
    if i < |p| {
      assert p[|p| - 1] == p[i..][|p| - 1 - i];
      assert p[..|p| - 1][i..] == p[i..|p| - 1];
      AfterLastSlashPast(p[..|p| - 1], i);
    }
  }

  lemma StripOneSlash(dir: string)
    requires |dir| > 0 && !EndsWithSlash(dir)
    ensures StripTrailingSlashes(dir + "/") == dir
  {
    assert (dir + "/")[..|dir|] == dir;
  }

  /** The three cases of `cd("..")` that the explorer's users rely on. */
  lemma UpExamples()
    ensures ChangeDir("/a/b", "..") == "/a"
    ensures ChangeDir("/a", "..") == "/"
    ensures ChangeDir("/", "..") == "/"
  {
    AfterLastSlashPast("/a/b", 3);
    StripOneSlash("/a");
    assert "/a/b"[..3] == "/a" + "/";
    AfterLastSlashPast("/a", 1);
    assert "/a"[..1] == "/";
    AfterLastSlashPast("/", 1);
  }

  /** Absolute targets replace the directory; relative ones are joined to it. */
  lemma ChangeDirExamples(dir: string)
    ensures ChangeDir(dir, "/x") == "/x"
    ensures ChangeDir("/a", "c") == "/a/c"
    ensures ChangeDir("/", "c") == "/c"
  {
  }

  /** An absolute name is appended, not substituted: `Fqn("/a", "/b")` is "/a//b". */
  lemma FqnKeepsAbsoluteNames()
    ensures Fqn("/a", "/b") == "/a//b"
  {
  }
}
