/**
 * The driver script compile.py: from the command line and the exit status of the
 * compiler it derives the artifact names, the tools it runs and its own exit status.
 * The tools themselves are not modelled; a run is the list of stages started and
 * the status passed to `sys.exit` (0 when the script runs to its end, 1 when it dies
 * on an uncaught exception).
 */
module Driver {
  import opened Decimal

  // ---------------------------------------------------------------------------
  // `str.split('.')` and `'.'.join(...)`
  // ---------------------------------------------------------------------------

  /** Index of the first `.` of a string that has one. */
  function FirstDot(s: string): (k: nat)
    requires '.' in s
    ensures k < |s| && s[k] == '.' && '.' !in s[..k]
  {
    if s[0] == '.' then 0
    else
      assert '.' in s[1..] by {
        var j :| 0 <= j < |s| && s[j] == '.';
        assert s[1..][j - 1] == '.';
      }
      var k := 1 + FirstDot(s[1..]);
      assert s[..k] == [s[0]] + s[1..][..k - 1];
      k
  }

  /** `s.split('.')`: the dot-free pieces between the dots, always at least one. */
  function Split(s: string): (parts: seq<string>)
    ensures |parts| >= 1
    ensures forall k | 0 <= k < |parts| :: '.' !in parts[k]
    decreases |s|
  {
    if '.' !in s then [s]
    else
      var i := FirstDot(s);
      [s[..i]] + Split(s[i + 1..])
  }

  /** `'.'.join(parts)`. */
  function Join(parts: seq<string>): string
    decreases |parts|
  {
    if parts == [] then ""
    else if |parts| == 1 then parts[0]
    else Join(parts[..|parts| - 1]) + "." + parts[|parts| - 1]
  }

  /** Line 9 of compile.py: the path without its last `.`-separated piece. */
  function Stem(path: string): (stem: string)
    ensures '.' !in path ==> stem == ""
  {
    var parts := Split(path);
    Join(parts[..|parts| - 1])
  }

  // ---------------------------------------------------------------------------
  // Properties of the names
  // ---------------------------------------------------------------------------

  lemma {:induction false} JoinCons(a: string, parts: seq<string>)
    requires |parts| >= 1
    ensures Join([a] + parts) == a + "." + Join(parts)
    decreases |parts|
  {
    if |parts| > 1 {
      var front := parts[..|parts| - 1];
      JoinCons(a, front);
      assert ([a] + parts)[..|parts|] == [a] + front;
    }
  }

  /** Joining the pieces gives back the string. */
  lemma {:induction false} JoinSplit(s: string)
    ensures Join(Split(s)) == s
    decreases |s|
  {
    if '.' in s {
      var i := FirstDot(s);
      var head, rest := s[..i], s[i + 1..];
      assert s == head + "." + rest;
      JoinSplit(rest);
      JoinSplitStep(head, rest);
    }
  }

  lemma JoinSplitStep(head: string, rest: string)
    requires '.' !in head
    ensures Join(Split(head + "." + rest)) == head + "." + Join(Split(rest))
  {
    SplitAfter(head, rest);
    JoinCons(head, Split(rest));
  }

  lemma {:induction false} LastDotNone(s: string)
    ensures '.' !in s <==> LastDot(s) == -1
    decreases |s|
  {
    if s != [] {
      LastDotNone(s[..|s| - 1]);
      assert s == s[..|s| - 1] + [s[|s| - 1]];
    }
  }

  lemma {:induction false} LastDotAfter(a: string, b: string)
    requires '.' in b
    ensures LastDot(a + "." + b) == |a| + 1 + LastDot(b)
    decreases |b|
  {
    var s := a + "." + b;
    if b[|b| - 1] != '.' {
      var b' := b[..|b| - 1];
      assert s[..|s| - 1] == a + "." + b';
      assert '.' in b' by {
        var j :| 0 <= j < |b| && b[j] == '.';
        assert b'[j] == '.';
      }
      LastDotAfter(a, b');
    }
  }

  /** The first dot of `head + "." + rest` is the one after a dot-free `head`. */
  lemma FirstDotAfter(head: string, rest: string)
    requires '.' !in head
    ensures FirstDot(head + "." + rest) == |head|
  {
    var s := head + "." + rest;
    assert s[|head|] == '.';
  }

  /** The pieces of `head + "." + rest` for a dot-free `head`: `head`, then the pieces of `rest`. */
  lemma SplitAfter(head: string, rest: string)
    requires '.' !in head
    ensures Split(head + "." + rest) == [head] + Split(rest)
  {
    var s := head + "." + rest;
    FirstDotAfter(head, rest);
    assert s[..|head|] == head && s[|head| + 1..] == rest;
  }

  /** With one dot, the stem is the part before it. */
  lemma StemOneDot(head: string, rest: string)
    requires '.' !in head && '.' !in rest
    ensures Stem(head + "." + rest) == head
  {
    SplitAfter(head, rest);
    assert Split(head + "." + rest) == [head, rest];
  }

  /** With more dots, the stem keeps the first piece and continues with the stem of the rest. */
  lemma StemMoreDots(head: string, rest: string)
    requires '.' !in head && '.' in rest
    ensures Stem(head + "." + rest) == head + "." + Stem(rest)
  {
    SplitAfter(head, rest);
    var parts := Split(rest);
    assert |parts| > 1 by {
      JoinSplit(rest);
    }
    assert ([head] + parts)[..|parts|] == [head] + parts[..|parts| - 1];
    JoinCons(head, parts[..|parts| - 1]);
  }

  /** The stem is everything before the last `.`, and empty when there is no `.`. */
  lemma {:induction false} StemBeforeLastDot(path: string)
    ensures Stem(path) == if LastDot(path) < 0 then "" else path[..LastDot(path)]
    decreases |path|
  {
    LastDotNone(path);
    if '.' in path {
      var i := FirstDot(path);
      var head, rest := path[..i], path[i + 1..];
      assert path == head + "." + rest;
      if '.' !in rest {
        StemLastPiece(head, rest);
      } else {
        StemBeforeLastDot(rest);
        LastDotNone(rest);
        StemInnerPiece(head, rest);
      }
    }
  }

  /** `StemBeforeLastDot` when the first dot is the last one. */
  lemma StemLastPiece(head: string, rest: string)
    requires '.' !in head && '.' !in rest
    ensures var path := head + "." + rest;
      LastDot(path) == |head| && Stem(path) == path[..LastDot(path)]
  {
    LastDotBefore(head, rest);
    StemOneDot(head, rest);
    assert (head + "." + rest)[..|head|] == head;
  }

  /** `StemBeforeLastDot` after the first dot, given that it holds for the rest. */
  lemma StemInnerPiece(head: string, rest: string)
    requires '.' !in head && '.' in rest
    requires 0 <= LastDot(rest) && Stem(rest) == rest[..LastDot(rest)]
    ensures var path := head + "." + rest;
      LastDot(path) >= 0 && Stem(path) == path[..LastDot(path)]
  {
    var path := head + "." + rest;
    StemMoreDots(head, rest);
    LastDotAfter(head, rest);
    assert path[..LastDot(path)] == head + "." + rest[..LastDot(rest)];
  }

  /** `"foo.bar"` has stem `"foo"` and `"a.b.c"` has stem `"a.b"`. */
  lemma StemExamples()
    ensures Stem("foo.bar") == "foo"
    ensures Stem("a.b.c") == "a.b"
  {
    assert "foo.bar" == "foo" + "." + "bar" && '.' !in "bar";
    StemOfLiteral("foo", "bar");
    assert "a.b.c" == "a.b" + "." + "c" && '.' !in "c";
    StemOfLiteral("a.b", "c");
  }

  /** The stem of a path whose last piece has no dot. */
  lemma StemOfLiteral(front: string, last: string)
    requires '.' !in last
    ensures Stem(front + "." + last) == front
  {
    var path := front + "." + last;
    LastDotBefore(front, last);
    StemBeforeLastDot(path);
    assert path[..|front|] == front;
  }

  /** A path without a dot has the empty stem, so the preprocessor writes `.i`. */
  lemma NoDotEmptyStem(path: string)
    requires '.' !in path
    ensures Stem(path) == "" && Preprocessed(path) == ".i"
  {
  }

  /** Line 10 of compile.py: the preprocessor's output. */
  function Preprocessed(path: string): (name: string)
    ensures |name| >= 2 && name[|name| - 2..] == ".i"
  {
    Stem(path) + ".i"
  }

  /** Line 11 of compile.py: the compiler's output, which the linker reads. */
  function AssemblyName(path: string): (name: string)
    ensures |name| >= 2 && name[|name| - 2..] == ".S"
  {
    Stem(path) + ".S"
  }

  /** The three artifacts of one run have three different names. */
  lemma ArtifactNamesDistinct(path: string)
    ensures Preprocessed(path) != AssemblyName(path)
    ensures Preprocessed(path) != Stem(path) && AssemblyName(path) != Stem(path)
  {
    var n := |Stem(path)|;
    assert Preprocessed(path)[n + 1] == 'i' && AssemblyName(path)[n + 1] == 'S';
  }

  // ---------------------------------------------------------------------------
  // The run
  // ---------------------------------------------------------------------------

  /** The external tools compile.py starts, with the file names it passes them. */
  datatype Stage =
    | Preprocess(source: string, output: string)   // gcc -E -P source -o output
    | Generate(input: string)                      // the compiler, on the preprocessed file
    | Link(assembly: string, output: string)       // gcc assembly -o output

  /** The stages started, in order, and the driver's exit status. */
  datatype Run = Run(stages: seq<Stage>, exitCode: int)

  /**
   * compile.py given its `sys.argv` and the compiler's return code. The statuses of
   * the preprocessor and the linker are never read. A missing source argument is an
   * uncaught `IndexError`, which ends the script with status 1 before any tool runs.
   */
  function Drive(argv: seq<string>, generatorStatus: int): (r: Run)
    ensures r.stages == [] <==> |argv| < 2
    ensures r.exitCode == 0 <==> |argv| >= 2 && generatorStatus == 0
    ensures |r.stages| <= 3
  {
    if |argv| < 2 then Run([], 1)
    else
      var source := argv[1];
      var started := [Preprocess(source, Preprocessed(source)), Generate(Preprocessed(source))];
      if generatorStatus != 0 then Run(started, generatorStatus)
      else if "-S" in argv then Run(started, 0)
      else Run(started + [Link(AssemblyName(source), Stem(source))], 0)
  }

  /** The preprocessor and then the compiler always run first, on the derived names. */
  lemma CompilerFollowsPreprocessor(argv: seq<string>, status: int)
    requires |argv| >= 2
    ensures var run := Drive(argv, status);
      && |run.stages| >= 2
      && run.stages[0] == Preprocess(argv[1], Stem(argv[1]) + ".i")
      && run.stages[1] == Generate(run.stages[0].output)
  {
  }

  /** A failing compiler's status becomes the driver's, and nothing is linked. */
  lemma GeneratorFailureStops(argv: seq<string>, status: int)
    requires |argv| >= 2 && status != 0
    ensures Drive(argv, status).exitCode == status
    ensures forall s | s in Drive(argv, status).stages :: !s.Link?
  {
  }

  /** The linker runs exactly when the compiler succeeded and `-S` was not given; it then builds the stem from the `.S` file. */
  lemma LinksIff(argv: seq<string>, status: int)
    ensures (exists s :: s in Drive(argv, status).stages && s.Link?) <==> |argv| >= 2 && status == 0 && "-S" !in argv
    ensures |argv| >= 2 && status == 0 && "-S" !in argv ==>
      Drive(argv, status).stages[2] == Link(AssemblyName(argv[1]), Stem(argv[1]))
  {
    var run := Drive(argv, status);
    if |argv| >= 2 && status == 0 && "-S" !in argv {
      assert run.stages[2] in run.stages;
    }
  }

  /** The driver succeeds exactly when the compiler does (given a source argument). */
  lemma ExitsZeroIff(argv: seq<string>, status: int)
    requires |argv| >= 2
    ensures Drive(argv, status).exitCode == 0 <==> status == 0
  {
  }

  /**
   * Only the compiler's status and whether `-S` appears anywhere in `argv` decide
   * the outcome: two command lines that agree on those end the same way.
   */
  lemma DecidedByStatusAndFlag(argv1: seq<string>, argv2: seq<string>, status: int)
    requires |argv1| >= 2 && |argv2| >= 2
    requires ("-S" in argv1) == ("-S" in argv2)
    ensures Drive(argv1, status).exitCode == Drive(argv2, status).exitCode
    ensures |Drive(argv1, status).stages| == |Drive(argv2, status).stages|
  {
  }
}
