// Properties of the processor's walk (processor/processor.go:55-89): cycles
// through the file itself or through one other file are rejected, and a
// diamond of imports is not a cycle because every import gets its own copy
// of the stack.

module ProcessFacts {
  import opened Wrappers
  import opened Positions
  import opened Processing
  import R = RawAst

  /** A file whose first import resolves to the file itself fails with
      an import cycle, and stores nothing. */
  lemma SelfImportIsCycle(os: OS, abp: map<string, R.WithPath>, stack: set<string>, a: string)
    requires a !in abp && a !in stack && a in os.asts
    requires |os.asts[a].imports| >= 1
    requires os.absPath(os.dir(a), os.asts[a].imports[0].path.value) == Some(a)
    ensures Processed(os, abp, stack, a) == Walked(Some(ImportCycle), abp)
  {
    assert Processed(os, abp, stack + {a}, a) == Walked(Some(ImportCycle), abp);
  }

  /** A file `a` whose first import is a file `b` whose first import is `a`
      fails with an import cycle, and stores nothing. */
  lemma TwoFileCycle(os: OS, abp: map<string, R.WithPath>, stack: set<string>, a: string, b: string)
    requires a != b
    requires a !in abp && a !in stack && a in os.asts
    requires b !in abp && b !in stack && b in os.asts
    requires |os.asts[a].imports| >= 1 && |os.asts[b].imports| >= 1
    requires os.absPath(os.dir(a), os.asts[a].imports[0].path.value) == Some(b)
    requires os.absPath(os.dir(b), os.asts[b].imports[0].path.value) == Some(a)
    ensures Processed(os, abp, stack, a) == Walked(Some(ImportCycle), abp)
  {
    var s1 := stack + {a};
    var s2 := s1 + {b};
    assert Processed(os, abp, s2, a) == Walked(Some(ImportCycle), abp);
    StackGrows(os.asts.Keys, s1, b);
    assert ImportsProcessed(os, abp, s2, b, 0, map[]) == Walked(Some(ImportCycle), abp);
    assert Processed(os, abp, s1, b) == Walked(Some(ImportCycle), abp);
    assert ImportsProcessed(os, abp, s1, a, 0, map[]) == Walked(Some(ImportCycle), abp);
  }

  // ---- a diamond: a imports b and c, which both import d ----

  function Imp(rel: string): R.Import
  {
    var loc := Location(ZeroPosition(), ZeroPosition());
    R.Import(R.Ident(rel, loc), R.ImportPath(rel, loc))
  }

  function FileOf(imports: seq<R.Import>): R.File
  {
    R.File(imports, R.Object([], Location(ZeroPosition(), ZeroPosition())))
  }

  /** Raw paths are already absolute, and every path is its own directory. */
  function DiamondOS(): OS
  {
    OS(map["a" := FileOf([Imp("b"), Imp("c")]),
           "b" := FileOf([Imp("d")]),
           "c" := FileOf([Imp("d")]),
           "d" := FileOf([])],
       (base: string, rel: string) => Some(rel),
       (p: string) => p,
       map[])
  }

  /** The diamond is processed without error and stores all four files,
      d once: c meets d already stored instead of on its stack. */
  lemma DiamondIsNotCycle()
    ensures var r := Processed(DiamondOS(), map[], {}, "a");
      r.err.None? && r.abp.Keys == {"a", "b", "c", "d"}
  {
    var os := DiamondOS();
    var wd := R.WithPath(FileOf([]), "d", map[]);
    var wb := R.WithPath(FileOf([Imp("d")]), "b", map["d" := "d"]);
    var wc := R.WithPath(FileOf([Imp("d")]), "c", map["d" := "d"]);
    var wa := R.WithPath(FileOf([Imp("b"), Imp("c")]), "a", map["b" := "b", "c" := "c"]);
    var abp1 := map["d" := wd];
    var abp2 := abp1["b" := wb];
    var abp3 := abp2["c" := wc];
    // b's branch: the stack is {a, b}, d is new
    assert ImportsProcessed(os, map[], {"a", "b", "d"}, "d", 0, map[]) == Walked(None, abp1);
    assert Processed(os, map[], {"a", "b"}, "d") == Walked(None, abp1);
    assert ImportsProcessed(os, abp1, {"a", "b"}, "b", 1, map["d" := "d"]) == Walked(None, abp2);
    assert ImportsProcessed(os, map[], {"a", "b"}, "b", 0, map[]) == Walked(None, abp2);
    assert {"a"} + {"b"} == {"a", "b"};
    assert Processed(os, map[], {"a"}, "b") == Walked(None, abp2);
    // c's branch: the stack is {a, c}, d is stored
    assert Processed(os, abp2, {"a", "c"}, "d") == Walked(None, abp2);
    assert ImportsProcessed(os, abp2, {"a", "c"}, "c", 1, map["d" := "d"]) == Walked(None, abp3);
    assert ImportsProcessed(os, abp2, {"a", "c"}, "c", 0, map[]) == Walked(None, abp3);
    assert {"a"} + {"c"} == {"a", "c"};
    assert Processed(os, abp2, {"a"}, "c") == Walked(None, abp3);
    // a itself
    assert ImportsProcessed(os, abp3, {"a"}, "a", 2, map["b" := "b", "c" := "c"]) == Walked(None, abp3["a" := wa]);
    assert ImportsProcessed(os, abp2, {"a"}, "a", 1, map["b" := "b"]) == Walked(None, abp3["a" := wa]);
    assert ImportsProcessed(os, map[], {"a"}, "a", 0, map[]) == Walked(None, abp3["a" := wa]);
    assert {} + {"a"} == {"a"};
    assert Processed(os, map[], {}, "a") == Walked(None, abp3["a" := wa]);
  }
}
