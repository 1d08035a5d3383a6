/**
 * The board as the explorer sees it: the remote commands the explorer
 * issues, a device that answers them, and the errors the explorer raises.
 */
module Remote {

  datatype Option<T> = None | Some(value: T)

  /** One remote round trip, by what the statement sent to the board does. */
  datatype Command =
    | ListDir(path: string)    // eval  os.listdir(path)
    | Remove(path: string)     // eval  os.remove(path)
    | MakeDir(path: string)    // eval  os.mkdir(path)
    | OpenWrite(path: string)  // exec  f = open(path, 'w')
    | Write(line: string)      // exec  f.write(<line as an escaped literal>)
    | CloseFile                // exec  f.close()
    | OpenRead(path: string)   // exec  f = open(path, 'r')
    | DumpFile                 // exec  for l in f: sys.stdout.write(l),

  /**
   * The board. Each command is answered from the commands that changed the
   * board before it: `listdir` gives the names `os.listdir` returns, `run`
   * the output a statement prints; `None` is a failure on the board.
   */
  datatype Device = Device(
    listdir: (seq<Command>, string) -> Option<seq<string>>,
    run: (seq<Command>, Command) -> Option<string>)

  /** The errors the explorer raises. */
  datatype Error =
    | CommunicationFailed      // RemoteIOError("Device communication failed")
    | NoSuchFile(path: string) // RemoteIOError("No such file or directory: ...")
    | AlreadyExists(path: string) // RemoteIOError("File or directory already exists: ...")
    | BinaryNotImplemented     // AssertionError("Binary mode not implemented")

  datatype Result<T> = Ok(value: T) | Err(error: Error)

  /** What an operation returns and the commands, in order, it issued. */
  datatype Step<T> = Step(result: Result<T>, issued: seq<Command>)

  predicate OnlyListings(cs: seq<Command>) {
    forall k :: 0 <= k < |cs| ==> cs[k].ListDir?
  }

  /**
   * The commands of a history that can change the board: `os.listdir` is
   * taken to have no effect, so listings do not count.
   */
  function Effects(h: seq<Command>): seq<Command>
    decreases |h|
  {
    if h == [] then []
    else
      var e := Effects(h[..|h| - 1]);
      e + (if h[|h| - 1].ListDir? then [] else [h[|h| - 1]])
  }

  lemma {:induction false} EffectsAppend(a: seq<Command>, b: seq<Command>)
    ensures Effects(a + b) == Effects(a) + Effects(b)
    decreases |b|
  {
    if b == [] {
      assert a + b == a;
    } else {
      var b' := b[..|b| - 1];
      assert (a + b)[..|a + b| - 1] == a + b';
      EffectsAppend(a, b');
    }
  }

  /** Issuing listings leaves the board as it was. */
  lemma {:induction false} ListingsHaveNoEffect(h: seq<Command>, cs: seq<Command>)
    requires OnlyListings(cs)
    ensures Effects(h + cs) == Effects(h)
    decreases |cs|
  {
    if cs == [] {
      assert h + cs == h;
    } else {
      var cs' := cs[..|cs| - 1];
      assert (h + cs)[..|h + cs| - 1] == h + cs';
      ListingsHaveNoEffect(h, cs');
    }
  }

  /**
   * Runs `op` on each of `xs` in order, each seeing the commands issued
   * before it, and stops at the first failure, as a Python loop does when
   * its body raises. The results of the steps are concatenated.
   */
  function Batch<T, R>(op: (seq<Command>, T) -> Step<seq<R>>, h: seq<Command>, xs: seq<T>): Step<seq<R>>
    decreases |xs|
  {
    if xs == [] then Step(Ok([]), [])
    else
      var pre := Batch(op, h, xs[..|xs| - 1]);
      if pre.result.Err? then pre
      else
        var last := op(h + pre.issued, xs[|xs| - 1]);
        Step(if last.result.Err? then Err(last.result.error) else Ok(pre.result.value + last.result.value),
             pre.issued + last.issued)
  }

  /** Once a prefix of the items fails, the rest are never run. */
  lemma {:induction false} BatchStopsAtFailure<T, R>(op: (seq<Command>, T) -> Step<seq<R>>, h: seq<Command>, xs: seq<T>, k: nat)
    requires k <= |xs| && Batch(op, h, xs[..k]).result.Err?
    ensures Batch(op, h, xs) == Batch(op, h, xs[..k])
    decreases |xs|
  {
    if k == |xs| {
      assert xs[..k] == xs;
    } else {
      var init := xs[..|xs| - 1];
      assert init[..k] == xs[..k];
      BatchStopsAtFailure(op, h, init, k);
    }
  }

  /** One more item of a batch that has not failed yet. */
  lemma BatchExtend<T, R>(op: (seq<Command>, T) -> Step<seq<R>>, h: seq<Command>, xs: seq<T>, i: nat)
    requires i < |xs| && Batch(op, h, xs[..i]).result.Ok?
    ensures var pre := Batch(op, h, xs[..i]);
            var last := op(h + pre.issued, xs[i]);
            Batch(op, h, xs[..i + 1]) ==
              Step(if last.result.Err? then Err(last.result.error) else Ok(pre.result.value + last.result.value),
                   pre.issued + last.issued)
  {
    assert xs[..i + 1][..i] == xs[..i];
  }

  lemma AppendAssoc<T>(a: seq<T>, b: seq<T>, c: seq<T>)
    ensures a + b + c == a + (b + c)
  {
  }

  /** The ways a command can act on a file. */
  datatype Verb = Removes | Reads | Writes

  predicate Does(c: Command, v: Verb) {
    match v
    case Removes => c.Remove?
    case Reads => c.OpenRead?
    case Writes => c.OpenWrite?
  }

  /** The paths that the commands of `cs` act on in the way `v`, in order. */
  function Acted(cs: seq<Command>, v: Verb): (ps: seq<string>)
    ensures (forall k :: 0 <= k < |cs| ==> !Does(cs[k], v)) ==> ps == []
    decreases |cs|
  {
    if cs == [] then []
    else
      var c := cs[|cs| - 1];
      Acted(cs[..|cs| - 1], v) + (if Does(c, v) then [c.path] else [])
  }

  lemma {:induction false} ActedAppend(a: seq<Command>, b: seq<Command>, v: Verb)
    ensures Acted(a + b, v) == Acted(a, v) + Acted(b, v)
    decreases |b|
  {
    if b == [] {
      assert a + b == a;
    } else {
      var b' := b[..|b| - 1];
      assert (a + b)[..|a + b| - 1] == a + b';
      ActedAppend(a, b', v);
    }
  }

  /** The concatenation of `target(x)` over the items `x` of `xs`, in order. */
  function Each<T>(xs: seq<T>, target: T -> seq<string>): seq<string>
    decreases |xs|
  {
    if xs == [] then [] else Each(xs[..|xs| - 1], target) + target(xs[|xs| - 1])
  }

  /**
   * When each step acts, in the way `v`, on a prefix of its own targets, and
   * on all of them when it succeeds, a batch acts on a prefix of all the
   * items' targets in item order, and on all of them when it succeeds.
   */
  lemma {:induction false} BatchActs<T, R>(op: (seq<Command>, T) -> Step<seq<R>>, h: seq<Command>, xs: seq<T>,
                                           v: Verb, target: T -> seq<string>)
    requires forall h', x :: Acted(op(h', x).issued, v) <= target(x)
    requires forall h', x :: op(h', x).result.Ok? ==> Acted(op(h', x).issued, v) == target(x)
    ensures Acted(Batch(op, h, xs).issued, v) <= Each(xs, target)
    ensures Batch(op, h, xs).result.Ok? ==> Acted(Batch(op, h, xs).issued, v) == Each(xs, target)
    decreases |xs|
  {
    if xs != [] {
      var init := xs[..|xs| - 1];
      var x := xs[|xs| - 1];
      BatchActs(op, h, init, v, target);
      var pre := Batch(op, h, init);
      assert Each(xs, target) == Each(init, target) + target(x);
      if pre.result.Ok? {
        var last := op(h + pre.issued, x);
        ActedAppend(pre.issued, last.issued, v);
        assert Acted(Batch(op, h, xs).issued, v) == Each(init, target) + Acted(last.issued, v);
      }
    }
  }
}
