/**
 * The two-pass classification of `ls`: a name whose probe listing succeeds
 * is a directory, any other name a file; directories are collected first,
 * then files, each pass in the order the board listed the names.
 */
module Classification {
  import opened Remote

  datatype Kind = Dir | File {
    /** The letter `ls` pairs with a name when details are asked for. */
    function Tag(): char {
      if Dir? then 'D' else 'F'
    }
  }

  /** A listed name, bare or paired with the letter of its kind. */
  datatype Entry = Plain(name: string) | Tagged(name: string, tag: char)

  /** How `ls` presents a name of a kind: paired with its letter exactly when details are asked for. */
  function Present(name: string, kind: Kind, details: bool): (e: Entry)
    ensures e.name == name
    ensures e.Tagged? <==> details
    ensures e.Tagged? ==> e.tag == kind.Tag()
  {
    if details then Tagged(name, kind.Tag()) else Plain(name)
  }

  function KindOf(isDir: string -> bool, name: string): Kind {
    if isDir(name) then Dir else File
  }

  /** The path `ls` probes for `name`: the directory and name joined by '/'. */
  function ProbePath(dir: string, name: string): string {
    dir + "/" + name
  }

  /** The probes one pass issues, one per listed name, in order. */
  function Probes(dir: string, names: seq<string>): (cs: seq<Command>)
    ensures |cs| == |names|
    ensures forall k :: 0 <= k < |names| ==> cs[k] == ListDir(ProbePath(dir, names[k]))
    decreases |names|
  {
    if names == [] then []
    else Probes(dir, names[..|names| - 1]) + [ListDir(ProbePath(dir, names[|names| - 1]))]
  }

  /** One pass of `ls`: the names of the wanted kind, in listing order. */
  function Pass(names: seq<string>, isDir: string -> bool, kind: Kind, details: bool): (es: seq<Entry>)
    ensures |es| <= |names|
    decreases |names|
  {
    if names == [] then []
    else Pass(names[..|names| - 1], isDir, kind, details) + Keep(names[|names| - 1], isDir, kind, details)
  }

  /** Each entry of a pass is a listed name of the pass's kind. */
  lemma {:induction false} PassIsSound(names: seq<string>, isDir: string -> bool, kind: Kind, details: bool)
    ensures var es := Pass(names, isDir, kind, details);
            forall k :: 0 <= k < |es| ==>
              es[k].name in names && KindOf(isDir, es[k].name) == kind && es[k] == Present(es[k].name, kind, details)
    decreases |names|
  {
    if names != [] {
      var init := names[..|names| - 1];
      var f := names[|names| - 1];
      PassIsSound(init, isDir, kind, details);
      var n := |Pass(init, isDir, kind, details)|;
      assert Pass(names, isDir, kind, details) == Pass(init, isDir, kind, details) + Keep(f, isDir, kind, details);
      forall k | 0 <= k < |Pass(names, isDir, kind, details)|
        ensures Pass(names, isDir, kind, details)[k].name in names
        ensures KindOf(isDir, Pass(names, isDir, kind, details)[k].name) == kind
        ensures Pass(names, isDir, kind, details)[k] == Present(Pass(names, isDir, kind, details)[k].name, kind, details)
      {
        if k < n {
          assert Pass(names, isDir, kind, details)[k] == Pass(init, isDir, kind, details)[k];
          assert Pass(init, isDir, kind, details)[k].name in init;
        } else {
          assert Pass(names, isDir, kind, details)[k] == Present(f, kind, details);
        }
      }
    }
  }

  /** Every listed name of the pass's kind is in the pass. */
  lemma {:induction false} PassIsComplete(names: seq<string>, isDir: string -> bool, kind: Kind, details: bool, f: string)
    requires f in names && KindOf(isDir, f) == kind
    ensures Present(f, kind, details) in Pass(names, isDir, kind, details)
    decreases |names|
  {
    var init := names[..|names| - 1];
    var last := names[|names| - 1];
    assert names == init + [last];
    if f != last {
      PassIsComplete(init, isDir, kind, details, f);
    }
  }

  /** One more name of a listing: the pass adds what it keeps of it, the probes one probe. */
  lemma PassPrefixStep(dir: string, names: seq<string>, i: nat, isDir: string -> bool, kind: Kind, details: bool)
    requires i < |names|
    ensures Pass(names[..i + 1], isDir, kind, details) == Pass(names[..i], isDir, kind, details) + Keep(names[i], isDir, kind, details)
    ensures Probes(dir, names[..i + 1]) == Probes(dir, names[..i]) + [ListDir(ProbePath(dir, names[i]))]
  {
    assert names[..i + 1][..i] == names[..i];
  }

  /** What a pass contributes for one name. */
  function Keep(f: string, isDir: string -> bool, kind: Kind, details: bool): seq<Entry> {
    if KindOf(isDir, f) == kind then [Present(f, kind, details)] else []
  }

  /** Of the two passes over one name, exactly one keeps it. */
  lemma KeptOnce(f: string, isDir: string -> bool, details: bool)
    ensures multiset(Names(Keep(f, isDir, Dir, details))) + multiset(Names(Keep(f, isDir, File, details))) == multiset{f}
  {
    assert Names([]) == [];
    if KindOf(isDir, f) == Dir {
      assert Names([Present(f, Dir, details)]) == [f];
    } else {
      assert Names([Present(f, File, details)]) == [f];
    }
  }

  /** The result of `ls` for the names the board listed: a directory pass, then a file pass. */
  function Listing(names: seq<string>, isDir: string -> bool, addFiles: bool, addDirs: bool, details: bool): seq<Entry> {
    (if addDirs then Pass(names, isDir, Dir, details) else []) +
    (if addFiles then Pass(names, isDir, File, details) else [])
  }

  /**
   * Entry `k` of `ls` is a listed name of a kind that was asked for; it is a
   * directory exactly when it lies within the directory pass.
   */
  lemma ListingEntry(names: seq<string>, isDir: string -> bool, addFiles: bool, addDirs: bool, details: bool, k: nat)
    requires k < |Listing(names, isDir, addFiles, addDirs, details)|
    ensures var e := Listing(names, isDir, addFiles, addDirs, details)[k];
            && e.name in names
            && e == Present(e.name, KindOf(isDir, e.name), details)
            && (if KindOf(isDir, e.name) == Dir then addDirs else addFiles)
            && (KindOf(isDir, e.name) == Dir <==> k < if addDirs then |Pass(names, isDir, Dir, details)| else 0)
  {
    PassIsSound(names, isDir, Dir, details);
    PassIsSound(names, isDir, File, details);
    var n := if addDirs then |Pass(names, isDir, Dir, details)| else 0;
    if k < n {
      assert Listing(names, isDir, addFiles, addDirs, details)[k] == Pass(names, isDir, Dir, details)[k];
    } else {
      assert addFiles;
      assert Listing(names, isDir, addFiles, addDirs, details)[k] == Pass(names, isDir, File, details)[k - n];
    }
  }

  /**
   * Each entry of `ls` is a listed name of a kind that was asked for,
   * paired with that kind when details are asked for.
   */
  lemma ListingIsSound(names: seq<string>, isDir: string -> bool, addFiles: bool, addDirs: bool, details: bool)
    ensures var es := Listing(names, isDir, addFiles, addDirs, details);
            forall k :: 0 <= k < |es| ==>
              && es[k].name in names
              && es[k] == Present(es[k].name, KindOf(isDir, es[k].name), details)
              && if KindOf(isDir, es[k].name) == Dir then addDirs else addFiles
  {
    forall k | 0 <= k < |Listing(names, isDir, addFiles, addDirs, details)| {
      ListingEntry(names, isDir, addFiles, addDirs, details, k);
    }
  }

  /** In the result of `ls` no file comes before a directory. */
  lemma ListingPutsDirsFirst(names: seq<string>, isDir: string -> bool, addFiles: bool, addDirs: bool, details: bool)
    ensures var es := Listing(names, isDir, addFiles, addDirs, details);
            forall i, j :: 0 <= i < j < |es| && KindOf(isDir, es[i].name) == File ==> KindOf(isDir, es[j].name) == File
  {
    var es := Listing(names, isDir, addFiles, addDirs, details);
    forall i, j | 0 <= i < j < |es| && KindOf(isDir, es[i].name) == File
      ensures KindOf(isDir, es[j].name) == File
    {
      ListingEntry(names, isDir, addFiles, addDirs, details, i);
      ListingEntry(names, isDir, addFiles, addDirs, details, j);
    }
  }

  /** Every listed name of a kind that was asked for is in the result of `ls`. */
  lemma ListingIsComplete(names: seq<string>, isDir: string -> bool, addFiles: bool, addDirs: bool, details: bool, f: string)
    requires f in names && if KindOf(isDir, f) == Dir then addDirs else addFiles
    ensures Present(f, KindOf(isDir, f), details) in Listing(names, isDir, addFiles, addDirs, details)
  {
    var ds := if addDirs then Pass(names, isDir, Dir, details) else [];
    var fs := if addFiles then Pass(names, isDir, File, details) else [];
    PassIsComplete(names, isDir, KindOf(isDir, f), details, f);
    assert Listing(names, isDir, addFiles, addDirs, details) == ds + fs;
  }

  function Names(es: seq<Entry>): (ns: seq<string>)
    ensures |ns| == |es|
    ensures forall k :: 0 <= k < |es| ==> ns[k] == es[k].name
    decreases |es|
  {
    if es == [] then [] else Names(es[..|es| - 1]) + [es[|es| - 1].name]
  }

  lemma {:induction false} NamesAppend(a: seq<Entry>, b: seq<Entry>)
    ensures Names(a + b) == Names(a) + Names(b)
  {
  }

  /** A pass keeps the listing order: it distributes over concatenation. */
  lemma {:induction false} PassAppend(a: seq<string>, b: seq<string>, isDir: string -> bool, kind: Kind, details: bool)
    ensures Pass(a + b, isDir, kind, details) == Pass(a, isDir, kind, details) + Pass(b, isDir, kind, details)
    decreases |b|
  {
    if b == [] {
      assert a + b == a;
    } else {
      var b' := b[..|b| - 1];
      assert (a + b)[..|a + b| - 1] == a + b';
      assert (a + b)[|a + b| - 1] == b[|b| - 1];
      PassAppend(a, b', isDir, kind, details);
    }
  }

  /** A pass over one name keeps it exactly when it has the pass's kind. */
  lemma PassSingle(f: string, isDir: string -> bool, kind: Kind, details: bool)
    ensures Pass([f], isDir, kind, details) == if KindOf(isDir, f) == kind then [Present(f, kind, details)] else []
  {
    assert [f][..0] == [];
  }

  /** Together the two passes hold every listed name exactly as often as the board listed it. */
  lemma {:induction false} PassesPartition(names: seq<string>, isDir: string -> bool, details: bool)
    ensures multiset(Names(Pass(names, isDir, Dir, details))) + multiset(Names(Pass(names, isDir, File, details)))
            == multiset(names)
    decreases |names|
  {
    if names != [] {
      var init := names[..|names| - 1];
      var f := names[|names| - 1];
      assert names == init + [f];
      PassesPartition(init, isDir, details);
      var d0, f0 := Pass(init, isDir, Dir, details), Pass(init, isDir, File, details);
      var d1, f1 := Keep(f, isDir, Dir, details), Keep(f, isDir, File, details);
      assert Pass(names, isDir, Dir, details) == d0 + d1;
      assert Pass(names, isDir, File, details) == f0 + f1;
      NamesAppend(d0, d1);
      NamesAppend(f0, f1);
      KeptOnce(f, isDir, details);
      assert multiset(Names(d0 + d1)) == multiset(Names(d0)) + multiset(Names(d1));
      assert multiset(Names(f0 + f1)) == multiset(Names(f0)) + multiset(Names(f1));
      assert multiset(names) == multiset(init) + multiset{f};
      Regroup(multiset(Names(d0)), multiset(Names(d1)), multiset(Names(f0)), multiset(Names(f1)));
    }
  }

  lemma Regroup<T>(a: multiset<T>, b: multiset<T>, c: multiset<T>, d: multiset<T>)
    ensures (a + b) + (c + d) == (a + c) + (b + d)
  {
  }

  /** With both kinds asked for, `ls` returns a permutation of the board's listing. */
  lemma ListingIsPermutation(names: seq<string>, isDir: string -> bool, details: bool)
    ensures multiset(Names(Listing(names, isDir, true, true, details))) == multiset(names)
  {
    PassesPartition(names, isDir, details);
    NamesAppend(Pass(names, isDir, Dir, details), Pass(names, isDir, File, details));
  }
}
