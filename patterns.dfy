/**
 * The name filter of the bulk operations: `re.compile(pat).match(name)`.
 * A compiled pattern is given by where it can stop when run from the first
 * character of a name: `pat(name, k)` holds when it matches `name[..k]`
 * there. The pattern sees the whole name, so an end anchor (`$`) or a
 * look-ahead is expressible; `match` anchors it at the first character only.
 */
module Patterns {

  type Pattern = (string, nat) -> bool

  /** `re.match(pat, name)` succeeds: run from the first character, the pattern stops somewhere in `name`. */
  predicate Matches(pat: Pattern, name: string) {
    exists k :: 0 <= k <= |name| && pat(name, k)
  }

  /** The filter a bulk operation applies to each name. */
  function Finder(pat: Pattern): string -> bool {
    name => Matches(pat, name)
  }

  /** A pattern of plain characters: it matches where the name starts with them. */
  function Literal(lit: string): Pattern {
    (name: string, k: nat) => k <= |name| && name[..k] == lit
  }

  /**
   * Plain characters followed by `$`: the match must end where the name
   * ends, or just before a newline that ends it.
   */
  function EndAnchored(lit: string): Pattern {
    (name: string, k: nat) => k <= |name| && name[..k] == lit && (k == |name| || (k == |name| - 1 && name[k] == '\n'))
  }

  /** A literal pattern selects exactly the names that start with it. */
  lemma LiteralMatchesPrefixes(lit: string, name: string)
    ensures Matches(Literal(lit), name) <==> lit <= name
  {
    if lit <= name {
      assert Literal(lit)(name, |lit|);
    }
    if Matches(Literal(lit), name) {
      var k :| 0 <= k <= |name| && Literal(lit)(name, k);
      assert name[..k] == lit;
    }
  }

  /** An end-anchored literal selects only the literal itself, with or without a final newline. */
  lemma EndAnchoredMatchesWhole(lit: string, name: string)
    ensures Matches(EndAnchored(lit), name) <==> name == lit || name == lit + "\n"
  {
    if name == lit {
      assert name[..|lit|] == lit;
      assert EndAnchored(lit)(name, |lit|);
    } else if name == lit + "\n" {
      assert name[..|lit|] == lit;
      assert EndAnchored(lit)(name, |lit|);
    }
    if Matches(EndAnchored(lit), name) {
      var k :| 0 <= k <= |name| && EndAnchored(lit)(name, k);
      if k == |name| {
        assert name == name[..k];
      } else {
        assert name == name[..k] + [name[k]];
      }
    }
  }

  /**
   * "ma" selects "main.py"; "ai" does not, though "main.py" contains it;
   * "foo$" selects "foo" but not "foobar".
   */
  lemma MatchesExamples()
    ensures Matches(Literal("ma"), "main.py")
    ensures !Matches(Literal("ai"), "main.py")
    ensures Matches(EndAnchored("foo"), "foo")
    ensures !Matches(EndAnchored("foo"), "foobar")
  {
    LiteralMatchesPrefixes("ma", "main.py");
    LiteralMatchesPrefixes("ai", "main.py");
    assert "main.py"[0] != "ai"[0];
    EndAnchoredMatchesWhole("foo", "foo");
    EndAnchoredMatchesWhole("foo", "foobar");
    assert |"foobar"| != |"foo"| && |"foobar"| != |"foo" + "\n"|;
  }
}
