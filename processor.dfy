// The processor (processor/processor.go, processor/import.go): a memoised
// depth-first walk of the import graph that detects cycles with a stack
// cloned for every import, stores each file only after all of its imports,
// and finally links the main file.

module Processing {
  import opened Wrappers
  import opened LinkedAst
  import opened Linking
  import R = RawAst

  /** The outside world the processor sees. `asts` is what makeAst yields
      for each readable, well-formed file (reading, lexing, parsing and
      analysing a path); a path outside it fails in makeAst. `absPath` is
      AbsPath(baseDir, relPath), which may fail; `dir` is filepath.Dir. */
  datatype OS = OS(
    asts: map<string, R.File>,
    absPath: (string, string) -> Option<string>,
    dir: string -> string,
    env: Env)

  datatype ProcessError =
    | AbsPathFailed
    | ImportCycle
    | MakeAstFailed
    | LinkFailed(cause: LinkError)

  /** The outcome of process: an error or none, and the files stored. */
  datatype Walked = Walked(err: Option<ProcessError>, abp: map<string, R.WithPath>)

  /** A path pushed on the stack leaves fewer readable paths off it. */
  lemma StackGrows(ks: set<string>, s: set<string>, p: string)
    requires p in ks && p !in s
    ensures |ks - (s + {p})| < |ks - s|
  {
    assert ks - s == (ks - (s + {p})) + {p};
  }

  // ---- the specification of process ----

  /** process(path, stack): a stored path succeeds at once, a path on the
      stack is a cycle, otherwise the path is pushed and its imports are
      processed in order. */
  function Processed(os: OS, abp: map<string, R.WithPath>, stack: set<string>, path: string): (r: Walked)
    ensures path in abp ==> r == Walked(None, abp)
    ensures path !in abp && path in stack ==> r == Walked(Some(ImportCycle), abp)
    ensures path !in abp && path !in stack && path !in os.asts ==> r == Walked(Some(MakeAstFailed), abp)
    ensures r.err.Some? ==> !r.err.value.LinkFailed?
    decreases |os.asts.Keys - stack|, 1, 0
  {
    if path in abp then Walked(None, abp)
    else if path in stack then Walked(Some(ImportCycle), abp)
    else if path !in os.asts then Walked(Some(MakeAstFailed), abp)
    else
      StackGrows(os.asts.Keys, stack, path);
      ImportsProcessed(os, abp, stack + {path}, path, 0, map[])
  }

  /** The import loop of process from the i-th import on: resolve the raw
      path against the file's directory, record it, process the target with
      a copy of the stack, and store the file once every import succeeded. */
  function ImportsProcessed(os: OS, abp: map<string, R.WithPath>, stack: set<string>, path: string,
                            i: nat, importPaths: map<string, string>): (r: Walked)
    requires path in os.asts && path in stack
    requires i <= |os.asts[path].imports|
    ensures i == |os.asts[path].imports| ==>
      r == Walked(None, abp[path := R.WithPath(os.asts[path], path, importPaths)])
    ensures r.err.Some? ==> !r.err.value.LinkFailed?
    decreases |os.asts.Keys - stack| + 1, 0, |os.asts[path].imports| - i
  {
    var imports := os.asts[path].imports;
    if i == |imports| then Walked(None, abp[path := R.WithPath(os.asts[path], path, importPaths)])
    else
      var rel := imports[i].path.value;
      match os.absPath(os.dir(path), rel)
      case None => Walked(Some(AbsPathFailed), abp)
      case Some(abs) =>
        var sub := Processed(os, abp, stack, abs);
        if sub.err.Some? then sub
        else ImportsProcessed(os, sub.abp, stack, path, i + 1, importPaths[rel := abs])
  }

  // ---- what a stored file looks like ----

  /** The raw import paths of a list of imports. */
  function RawPaths(imports: seq<R.Import>): set<string>
  {
    if imports == [] then {}
    else RawPaths(imports[..|imports| - 1]) + {imports[|imports| - 1].path.value}
  }

  lemma RawPathsStep(imports: seq<R.Import>, i: nat)
    requires i < |imports|
    ensures RawPaths(imports[..i + 1]) == RawPaths(imports[..i]) + {imports[i].path.value}
  {
    assert imports[..i + 1][..i] == imports[..i];
  }

  /** The file stored for `p`: its AST, its own path, and every raw import
      path (and nothing else) mapped to AbsPath(Dir(p), raw). */
  ghost predicate StoredFor(os: OS, p: string, w: R.WithPath)
  {
    && p in os.asts
    && w.file == os.asts[p]
    && w.absPath == p
    && w.importPaths.Keys == RawPaths(w.file.imports)
    && forall rel :: rel in w.importPaths ==> os.absPath(os.dir(p), rel) == Some(w.importPaths[rel])
  }

  /** Every import of a stored file is stored as well. */
  ghost predicate Closed(abp: map<string, R.WithPath>)
  {
    forall p, rel :: p in abp && rel in abp[p].importPaths ==> abp[p].importPaths[rel] in abp
  }

  ghost predicate Sound(os: OS, abp: map<string, R.WithPath>)
  {
    (forall p {:trigger abp[p]} :: p in abp ==> StoredFor(os, p, abp[p])) && Closed(abp)
  }

  /** `abp2` keeps every file of `abp` unchanged. */
  ghost predicate Grows(abp: map<string, R.WithPath>, abp2: map<string, R.WithPath>)
  {
    forall p :: p in abp ==> p in abp2 && abp2[p] == abp[p]
  }

  /** process only adds to the store; it succeeds exactly when the path
      ends up stored; and a path on the stack that was not stored is still
      not stored afterwards (the walk never stores a file whose processing
      is in progress, which is why a cycle cannot store anything). */
  lemma {:induction false} ProcessedShape(os: OS, abp: map<string, R.WithPath>, stack: set<string>, path: string)
    ensures var r := Processed(os, abp, stack, path);
      && Grows(abp, r.abp)
      && (r.err.None? <==> path in r.abp)
      && forall q :: q in stack && q !in abp ==> q !in r.abp
    decreases |os.asts.Keys - stack|, 1, 0
  {
    if path !in abp && path !in stack && path in os.asts {
      StackGrows(os.asts.Keys, stack, path);
      ImportsShape(os, abp, stack + {path}, path, 0, map[]);
    }
  }

  lemma {:induction false} ImportsShape(os: OS, abp: map<string, R.WithPath>, stack: set<string>,
                                        path: string, i: nat, importPaths: map<string, string>)
    requires path in os.asts && path in stack
    requires i <= |os.asts[path].imports|
    requires path !in abp
    ensures var r := ImportsProcessed(os, abp, stack, path, i, importPaths);
      && Grows(abp, r.abp)
      && (r.err.None? <==> path in r.abp)
      && forall q :: q in stack && q != path && q !in abp ==> q !in r.abp
    decreases |os.asts.Keys - stack| + 1, 0, |os.asts[path].imports| - i
  {
    var imports := os.asts[path].imports;
    if i < |imports| {
      var rel := imports[i].path.value;
      match os.absPath(os.dir(path), rel)
      case None =>
      case Some(abs) =>
        ProcessedShape(os, abp, stack, abs);
        var sub := Processed(os, abp, stack, abs);
        if sub.err.None? {
          ImportsShape(os, sub.abp, stack, path, i + 1, importPaths[rel := abs]);
          var r := ImportsProcessed(os, sub.abp, stack, path, i + 1, importPaths[rel := abs]);
          GrowsTrans(abp, sub.abp, r.abp);
        }
    }
  }

  /** process keeps every stored file what process stores for it, and
      every import of a stored file stored. */
  lemma {:induction false} ProcessedSound(os: OS, abp: map<string, R.WithPath>, stack: set<string>, path: string)
    requires Sound(os, abp)
    ensures Sound(os, Processed(os, abp, stack, path).abp)
    decreases |os.asts.Keys - stack|, 1, 0
  {
    if path !in abp && path !in stack && path in os.asts {
      StackGrows(os.asts.Keys, stack, path);
      ImportsSound(os, abp, stack + {path}, path, 0, map[]);
    }
  }

  lemma {:induction false} ImportsSound(os: OS, abp: map<string, R.WithPath>, stack: set<string>,
                                        path: string, i: nat, importPaths: map<string, string>)
    requires path in os.asts && path in stack
    requires i <= |os.asts[path].imports|
    requires Sound(os, abp) && path !in abp
    requires importPaths.Keys == RawPaths(os.asts[path].imports[..i])
    requires forall rel :: rel in importPaths ==>
      os.absPath(os.dir(path), rel) == Some(importPaths[rel]) && importPaths[rel] in abp
    ensures Sound(os, ImportsProcessed(os, abp, stack, path, i, importPaths).abp)
    decreases |os.asts.Keys - stack| + 1, 0, |os.asts[path].imports| - i
  {
    var imports := os.asts[path].imports;
    if i == |imports| {
      assert imports[..i] == imports;
      StoreSound(os, abp, path, importPaths);
    } else {
      var rel := imports[i].path.value;
      match os.absPath(os.dir(path), rel)
      case None =>
      case Some(abs) =>
        var sub := Processed(os, abp, stack, abs);
        ProcessedSound(os, abp, stack, abs);
        if sub.err.None? {
          assert path !in sub.abp && abs in sub.abp && Grows(abp, sub.abp) by {
            ProcessedShape(os, abp, stack, abs);
          }
          var paths2 := importPaths[rel := abs];
          assert paths2.Keys == RawPaths(imports[..i + 1]) by {
            RawPathsStep(imports, i);
            assert paths2.Keys == importPaths.Keys + {rel};
          }
          assert forall r :: r in paths2 ==>
              os.absPath(os.dir(path), r) == Some(paths2[r]) && paths2[r] in sub.abp by {
            forall r | r in paths2
              ensures os.absPath(os.dir(path), r) == Some(paths2[r]) && paths2[r] in sub.abp
            {
              if r != rel {
                assert importPaths[r] in abp;
              }
            }
          }
          assert ImportsProcessed(os, abp, stack, path, i, importPaths)
              == ImportsProcessed(os, sub.abp, stack, path, i + 1, paths2);
          ImportsSound(os, sub.abp, stack, path, i + 1, paths2);
        } else {
          assert ImportsProcessed(os, abp, stack, path, i, importPaths) == sub;
        }
    }
  }

  lemma GrowsTrans(a: map<string, R.WithPath>, b: map<string, R.WithPath>, c: map<string, R.WithPath>)
    requires Grows(a, b) && Grows(b, c)
    ensures Grows(a, c)
  {
  }

  /** Storing a file whose imports are resolved and stored keeps the store
      sound. */
  lemma StoreSound(os: OS, abp: map<string, R.WithPath>, path: string, importPaths: map<string, string>)
    requires path in os.asts
    requires Sound(os, abp) && path !in abp
    requires importPaths.Keys == RawPaths(os.asts[path].imports)
    requires forall rel :: rel in importPaths ==>
      os.absPath(os.dir(path), rel) == Some(importPaths[rel]) && importPaths[rel] in abp
    ensures var abp2 := abp[path := R.WithPath(os.asts[path], path, importPaths)];
      Sound(os, abp2) && Grows(abp, abp2)
  {
    var w := R.WithPath(os.asts[path], path, importPaths);
    assert StoredFor(os, path, w);
    var abp2 := abp[path := w];
    forall p, rel | p in abp2 && rel in abp2[p].importPaths
      ensures abp2[p].importPaths[rel] in abp2
    {
      if p != path {
        assert abp[p].importPaths[rel] in abp;
      }
    }
  }

  /** One successful import of the loop: the invariant of the loop moves
      on to the next import. */
  lemma ImportStepped(os: OS, before: map<string, R.WithPath>, stack: set<string>, path: string,
                      i: nat, importPaths: map<string, string>, abs: string)
    requires path in os.asts && path in stack
    requires i < |os.asts[path].imports|
    requires path !in before
    requires importPaths.Keys == RawPaths(os.asts[path].imports[..i])
    requires forall rel :: rel in importPaths ==>
      os.absPath(os.dir(path), rel) == Some(importPaths[rel]) && importPaths[rel] in before
    requires os.absPath(os.dir(path), os.asts[path].imports[i].path.value) == Some(abs)
    requires Processed(os, before, stack, abs).err.None?
    ensures var after := Processed(os, before, stack, abs).abp;
      var paths2 := importPaths[os.asts[path].imports[i].path.value := abs];
      && path !in after
      && paths2.Keys == RawPaths(os.asts[path].imports[..i + 1])
      && (forall rel :: rel in paths2 ==>
            os.absPath(os.dir(path), rel) == Some(paths2[rel]) && paths2[rel] in after)
      && ImportsProcessed(os, after, stack, path, i + 1, paths2) ==
         ImportsProcessed(os, before, stack, path, i, importPaths)
  {
    var imports := os.asts[path].imports;
    var rel := imports[i].path.value;
    ProcessedShape(os, before, stack, abs);
    var after := Processed(os, before, stack, abs).abp;
    var paths2 := importPaths[rel := abs];
    assert imports[..i + 1][..i] == imports[..i];
    forall r | r in paths2
      ensures os.absPath(os.dir(path), r) == Some(paths2[r]) && paths2[r] in after
    {
      if r != rel {
        assert importPaths[r] in before;
      }
    }
  }

  // ---- the import stack ----

  /** importStack: the set of paths on the current branch of the walk. */
  class ImportStack {
    var paths: set<string>

    /** newEmptyImportStack */
    constructor()
      ensures paths == {}
    {
      paths := {};
    }

    /** Clone: a fresh stack holding the same paths; the original is left
        as it is, and later pushes onto either stack are not seen by the
        other. */
    method Clone() returns (c: ImportStack)
      ensures fresh(c) && c != this
      ensures c.paths == paths
    {
      c := new ImportStack();
      var rest := paths;
      while rest != {}
        invariant fresh(c)
        invariant c.paths + rest == paths
        invariant c.paths !! rest
        decreases |rest|
      {
        var p :| p in rest;
        c.paths := c.paths + {p};
        rest := rest - {p};
      }
    }
  }

  // ---- the processor ----

  class Processor {
    const os: OS
    const linker: Linker
    var astByPath: map<string, R.WithPath>
    /** The order in which files were stored: every import of a stored file
        was stored before it, which is what lets the linker's walk end. */
    ghost var rank: map<string, nat>
    ghost var next: nat

    ghost predicate Valid()
      reads this
    {
      Ordered(os, astByPath, rank, next)
    }

    /** New: an empty file store. */
    constructor(linker: Linker, os: OS)
      ensures this.os == os && this.linker == linker
      ensures astByPath == map[]
      ensures Valid()
    {
      this.os := os;
      this.linker := linker;
      astByPath := map[];
      rank := map[];
      next := 0;
    }

    /** Process: resolve the path, walk its imports from an empty stack,
        then link the main file against every stored file and the
        environment. Files stored by earlier calls are kept and reused. */
    method Process(path: string) returns (r: Result<seq<KV>, ProcessError>)
      requires Valid()
      modifies this`astByPath, this`rank, this`next, linker
      ensures Valid()
      ensures os.absPath(path, ".").None? ==> r == Err(AbsPathFailed) && astByPath == old(astByPath)
      ensures os.absPath(path, ".").Some? ==>
        var abs := os.absPath(path, ".").value;
        var w := Processed(os, old(astByPath), {}, abs);
        && astByPath == w.abp
        && (w.err.Some? ==> r == Err(w.err.value))
        && (w.err.None? ==>
              && abs in astByPath
              && ImportsBelow(astByPath, astByPath[abs], next, rank)
              && var l := LinkedFile(astByPath, os.env, rank, old(linker.linkedByPath), astByPath[abs], next);
              && linker.linkedByPath == l.cache
              && r == match l.result case Ok(v) => Ok(v) case Err(e) => Err(LinkFailed(e)))
    {
      var absOpt := os.absPath(path, ".");
      if absOpt.None? {
        return Err(AbsPathFailed);
      }
      var abs := absOpt.value;
      var stack := new ImportStack();
      ProcessedShape(os, astByPath, {}, abs);
      var err := ProcessPath(abs, stack);
      if err.Some? {
        return Err(err.value);
      }
      assert ImportsBelow(astByPath, astByPath[abs], next, rank) by {
        forall rel | rel in astByPath[abs].importPaths && astByPath[abs].importPaths[rel] in astByPath
          ensures astByPath[abs].importPaths[rel] in rank && rank[astByPath[abs].importPaths[rel]] < next
        {
        }
      }
      var linked := linker.Link(LinkParam(astByPath[abs], astByPath, os.env), rank, next);
      if linked.Err? {
        return Err(LinkFailed(linked.error));
      }
      return Ok(linked.value);
    }

    /** process */
    method ProcessPath(path: string, iStack: ImportStack) returns (err: Option<ProcessError>)
      requires Valid()
      modifies this`astByPath, this`rank, this`next, iStack
      ensures Valid()
      ensures Walked(err, astByPath) == Processed(os, old(astByPath), old(iStack.paths), path)
      decreases |os.asts.Keys - iStack.paths|, 1
    {
      if path in astByPath {
        return None;
      }
      if path in iStack.paths {
        return Some(ImportCycle);
      }
      iStack.paths := iStack.paths + {path};
      if path !in os.asts {
        return Some(MakeAstFailed);
      }
      var file := os.asts[path];
      StackGrows(os.asts.Keys, old(iStack.paths), path);
      ghost var target := ImportsProcessed(os, astByPath, iStack.paths, path, 0, map[]);
      var importPaths: map<string, string> := map[];
      var i := 0;
      while i < |file.imports|
        invariant 0 <= i <= |file.imports|
        invariant iStack.paths == old(iStack.paths) + {path}
        invariant Valid()
        invariant path !in astByPath
        invariant importPaths.Keys == RawPaths(file.imports[..i])
        invariant forall rel :: rel in importPaths ==>
          os.absPath(os.dir(path), rel) == Some(importPaths[rel]) && importPaths[rel] in astByPath
        invariant ImportsProcessed(os, astByPath, iStack.paths, path, i, importPaths) == target
        decreases |file.imports| - i
      {
        var rel := file.imports[i].path.value;
        var absOpt := os.absPath(os.dir(path), rel);
        if absOpt.None? {
          return Some(AbsPathFailed);
        }
        var abs := absOpt.value;
        ghost var before, paths0 := astByPath, importPaths;
        importPaths := importPaths[rel := abs];
        var clone := iStack.Clone();
        var sub := ProcessPath(abs, clone);
        if sub.Some? {
          return sub;
        }
        ImportStepped(os, before, iStack.paths, path, i, paths0, abs);
        i := i + 1;
      }
      assert file.imports[..i] == file.imports;
      var w := R.WithPath(file, path, importPaths);
      StoreOrdered(os, astByPath, rank, next, path, importPaths);
      astByPath := astByPath[path := w];
      rank := rank[path := next];
      next := next + 1;
      return None;
    }
  }

  /** The processor's store: sound, and ranked by the order of storing
      (`next` exceeds every rank given so far). */
  ghost predicate Ordered(os: OS, abp: map<string, R.WithPath>, rank: map<string, nat>, next: nat)
  {
    && Sound(os, abp)
    && rank.Keys == abp.Keys
    && (forall p :: p in rank ==> rank[p] < next)
    && Ranked(abp, rank)
  }

  /** Storing a file once its imports are resolved and stored keeps the
      store ordered, with the file ranked last. */
  lemma StoreOrdered(os: OS, abp: map<string, R.WithPath>, rank: map<string, nat>, next: nat,
                     path: string, importPaths: map<string, string>)
    requires Ordered(os, abp, rank, next)
    requires path in os.asts && path !in abp
    requires importPaths.Keys == RawPaths(os.asts[path].imports)
    requires forall rel :: rel in importPaths ==>
      os.absPath(os.dir(path), rel) == Some(importPaths[rel]) && importPaths[rel] in abp
    ensures Ordered(os, abp[path := R.WithPath(os.asts[path], path, importPaths)], rank[path := next], next + 1)
  {
    var w := R.WithPath(os.asts[path], path, importPaths);
    StoreSound(os, abp, path, importPaths);
    StoreRanked(abp, rank, next, path, w);
  }

  /** Storing a file whose imports are all stored, ranked after everything
      stored so far, keeps the store ranked. */
  lemma StoreRanked(abp: map<string, R.WithPath>, rank: map<string, nat>, next: nat,
                    path: string, w: R.WithPath)
    requires Closed(abp) && Ranked(abp, rank) && rank.Keys == abp.Keys
    requires forall p :: p in rank ==> rank[p] < next
    requires path !in abp
    requires forall rel :: rel in w.importPaths ==> w.importPaths[rel] in abp
    ensures Ranked(abp[path := w], rank[path := next])
  {
    var abp2, rank2 := abp[path := w], rank[path := next];
    forall p | p in abp2
      ensures p in rank2 && ImportsBelow(abp2, abp2[p], rank2[p], rank2)
    {
      if p != path {
        forall rel | rel in abp2[p].importPaths && abp2[p].importPaths[rel] in abp2
          ensures abp2[p].importPaths[rel] in rank2 && rank2[abp2[p].importPaths[rel]] < rank2[p]
        {
          assert abp[p].importPaths[rel] in abp;
        }
      }
    }
  }
}
