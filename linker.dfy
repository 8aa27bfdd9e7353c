// The linker (linker/linker.go): it links a file's imports first, binding
// each import name to the linked tree of the imported file (cached per
// absolute path), then rebuilds the file's object with variables resolved,
// environment references read, object spreads expanded, array spreads
// spliced and colliding Object values merged.
//
// The functions state what each step computes; the `Linker` class does it
// step by step, over an `OrderedSet` accumulator, and is proved to compute
// exactly that.

module Linking {
  import opened Wrappers
  import opened OrderedSets
  import opened LinkedAst
  import R = RawAst

  datatype LinkError =
    | NoImportPath                        // no absolute path recorded for an import
    | AstNotFound                         // no parsed file at that absolute path
    | NotFoundVariable(path: seq<string>) // ErrNotFoundVariable, naming the path
    | FindFailed                          // a non-Object met along a variable's path
    | UnexpectedNodeType(expected: string)
    | UnknownValueType                    // a KV whose value is a spread
    | EmptyVarPath                        // a variable without a name

  /** The scope's linkedByName: import name to the root KVs of its tree. */
  type Names = map<string, seq<KV>>

  type Env = map<string, string>

  /** getEnv: the variable's value, or "" when it is unset. */
  function GetEnv(env: Env, name: string): (v: string)
    ensures name in env ==> v == env[name]
    ensures name !in env ==> v == ""
  {
    if name in env then env[name] else ""
  }

  /** findVariableExp: the head names an import; the rest of the path is
      looked up in that import's tree. */
  function FindVariableExp(names: Names, v: R.Var): (r: Result<Expr, LinkError>)
    ensures |v.path| == 0 ==> r == Err(EmptyVarPath)
    ensures |v.path| >= 1 && v.path[0].name !in names ==> r == Err(NotFoundVariable([v.path[0].name]))
    ensures |v.path| == 1 && v.path[0].name in names ==> r == Ok(Object(names[v.path[0].name]))
    ensures r.Err? && r.error.NotFoundVariable? ==> |v.path| >= 1 && |r.error.path| >= 1 && r.error.path[0] == v.path[0].name
    ensures r.Ok? ==> |v.path| >= 1 && v.path[0].name in names
  {
    if |v.path| == 0 then Err(EmptyVarPath)
    else if v.path[0].name !in names then Err(NotFoundVariable([v.path[0].name]))
    else match FindExpByPath(names[v.path[0].name], R.StringPath(v)[1..])
      case Ok(e) => Ok(e)
      case Err(NotFound) => Err(NotFoundVariable(R.StringPath(v)))
      case Err(UnexpectedValue) => Err(FindFailed)
  }

  /** A variable that is an import name alone is that import's whole tree;
      one with more names is decided by the first KV keyed by its second
      name. */
  lemma FindVariableByLookup(names: Names, v: R.Var)
    requires |v.path| >= 1 && v.path[0].name in names
    ensures |v.path| == 1 ==> FindVariableExp(names, v) == Ok(Object(names[v.path[0].name]))
    ensures |v.path| >= 2 ==>
      var kvs, path := names[v.path[0].name], R.StringPath(v);
      FindVariableExp(names, v) ==
        match Lookup(kvs, path[1])
        case None => Err(NotFoundVariable(path))
        case Some(e) =>
          if |path| == 2 then Ok(e)
          else if !e.Object? then Err(FindFailed)
          else match FindIn(e.kvs, path[2..])
            case Ok(x) => Ok(x)
            case Err(NotFound) => Err(NotFoundVariable(path))
            case Err(UnexpectedValue) => Err(FindFailed)
  {
    if |v.path| >= 2 {
      var path := R.StringPath(v);
      FindInByLookup(names[v.path[0].name], path[1..]);
      assert path[1..][1..] == path[2..];
    }
  }

  /** linkObjectSpread: the variable must name an Object; its KVs. */
  function LinkObjectSpread(names: Names, s: R.Spread): (r: Result<seq<KV>, LinkError>)
    ensures r.Ok? <==> FindVariableExp(names, s.v).Ok? && FindVariableExp(names, s.v).value.Object?
    ensures r.Ok? ==> r.value == FindVariableExp(names, s.v).value.kvs
    ensures FindVariableExp(names, s.v).Ok? && !FindVariableExp(names, s.v).value.Object? ==>
      r == Err(UnexpectedNodeType("Object"))
  {
    match FindVariableExp(names, s.v)
    case Err(e) => Err(e)
    case Ok(Object(kvs)) => Ok(kvs)
    case Ok(_) => Err(UnexpectedNodeType("Object"))
  }

  /** linkArraySpread: the variable must name an Array; its elements. */
  function LinkArraySpread(names: Names, s: R.Spread): (r: Result<seq<Expr>, LinkError>)
    ensures r.Ok? <==> FindVariableExp(names, s.v).Ok? && FindVariableExp(names, s.v).value.Array?
    ensures r.Ok? ==> r.value == FindVariableExp(names, s.v).value.elements
    ensures FindVariableExp(names, s.v).Ok? && !FindVariableExp(names, s.v).value.Array? ==>
      r == Err(UnexpectedNodeType("Array"))
  {
    match FindVariableExp(names, s.v)
    case Err(e) => Err(e)
    case Ok(Array(es)) => Ok(es)
    case Ok(_) => Err(UnexpectedNodeType("Array"))
  }

  // ---- merging on key collisions ----

  function Max(a: nat, b: nat): nat
  {
    if a < b then b else a
  }

  /** The accumulator's invariant: each stored KV is stored under its key. */
  ghost predicate KeyedBy(acc: OMap<string, KV>)
  {
    forall k :: k in acc.m ==> acc.m[k].key == k
  }

  /** The rule for a KV entry in linkEntries and in mergeEntries: a new key
      is added; a present key gets the merge of the stored KV and the new
      one, in its old position. */
  function Upsert(acc: OMap<string, KV>, kv: KV): (r: OMap<string, KV>)
    ensures r.m.Keys == acc.m.Keys + {kv.key}
    ensures Coherent(acc) ==> Coherent(r)
    ensures KeyedBy(acc) ==> KeyedBy(r)
    ensures r.keys == if kv.key in acc.m then acc.keys else acc.keys + [kv.key]
    ensures kv.key in acc.m ==>
      Depth(r.m[kv.key].value) <= Max(Depth(acc.m[kv.key].value), Depth(kv.value))
    ensures kv.key !in acc.m ==> r.m[kv.key] == kv
    ensures forall k :: k in acc.m && k != kv.key ==> r.m[k] == acc.m[k]
    decreases if kv.key in acc.m then Max(Depth(acc.m[kv.key].value), Depth(kv.value)) else 0, 2, 0
  {
    if kv.key in acc.m then Put(acc, kv.key, Merge(acc.m[kv.key], kv)) else Put(acc, kv.key, kv)
  }

  /** Upsert over a list of KVs, every value shallower than `bound`. */
  function MergeAll(acc: OMap<string, KV>, kvs: seq<KV>, bound: nat): (r: OMap<string, KV>)
    requires Coherent(acc)
    requires forall k :: k in acc.m ==> Depth(acc.m[k].value) < bound
    requires forall i :: 0 <= i < |kvs| ==> Depth(kvs[i].value) < bound
    ensures Coherent(r)
    ensures forall k :: k in r.m ==> Depth(r.m[k].value) < bound
    ensures KeyedBy(acc) ==> KeyedBy(r)
    decreases bound, 0, |kvs|
  {
    if kvs == [] then acc
    else
      assert Depth(kvs[0].value) < bound;
      assert kvs[0].key in acc.m ==> Depth(acc.m[kvs[0].key].value) < bound;
      var next := Upsert(acc, kvs[0]);
      assert forall k :: k in next.m ==> Depth(next.m[k].value) < bound by {
        forall k | k in next.m ensures Depth(next.m[k].value) < bound
        {
          if k != kvs[0].key {
            assert k in acc.m;
          }
        }
      }
      MergeAll(next, kvs[1..], bound)
  }

  /** A KV list whose values are all shallower than `bound` is too. */
  lemma {:induction false} KVsDepthBelow(kvs: seq<KV>, bound: nat)
    requires bound >= 1
    requires forall i :: 0 <= i < |kvs| ==> Depth(kvs[i].value) < bound
    ensures KVsDepth(kvs) < bound
  {
    if kvs != [] {
      KVsDepthBelow(kvs[1..], bound);
    }
  }

  /** mergeEntries: two Object values merge key by key, the first object's
      keys first, under entry1's key; otherwise entry2 wins. */
  function Merge(e1: KV, e2: KV): (r: KV)
    ensures Depth(r.value) <= Max(Depth(e1.value), Depth(e2.value))
    ensures e1.key == e2.key ==> r.key == e1.key
    decreases Max(Depth(e1.value), Depth(e2.value)), 1, 0
  {
    if !e1.value.Object? || !e2.value.Object? then e2
    else
      var bound := Max(Depth(e1.value), Depth(e2.value));
      ValuesShallower(e1.value.kvs);
      ValuesShallower(e2.value.kvs);
      var first := MergeAll(Empty(), e1.value.kvs, bound);
      var both := MergeAll(first, e2.value.kvs, bound);
      var values := ValuesOf(both);
      KVsDepthBelow(values, bound);
      KV(e1.key, Object(values))
  }

  /** The spread rule: each KV is set plainly, replacing without merging. */
  function PutAll(acc: OMap<string, KV>, kvs: seq<KV>): (r: OMap<string, KV>)
    ensures Coherent(acc) ==> Coherent(r)
    ensures KeyedBy(acc) ==> KeyedBy(r)
    decreases |kvs|
  {
    if kvs == [] then acc else PutAll(Put(acc, kvs[0].key, kvs[0]), kvs[1..])
  }

  // ---- linking one file's object ----

  /** The value switch shared by linkKV and linkArray. */
  function LinkedValue(names: Names, env: Env, e: R.Expr): (r: Result<Expr, LinkError>)
    ensures e.EnvExpr? ==> r == Ok(Str(GetEnv(env, e.name.name)))
    ensures e.BoolLit? ==> r == Ok(Bool(e.b))
    ensures e.StringLit? ==> r == Ok(Str(e.s))
    ensures e.IntLit? ==> r == Ok(Int(e.i))
    ensures e.FloatLit? ==> r == Ok(Float(e.text))
    ensures e.VarExpr? ==> r == FindVariableExp(names, e.v)
    ensures e.SpreadExpr? ==> r == Err(UnknownValueType)
    ensures e.ObjectExpr? && r.Ok? ==> r.value.Object? && Distinct(KeysOf(r.value.kvs))
    ensures e.ArrayExpr? && r.Ok? ==> r.value.Array?
    decreases e, 2
  {
    match e
    case ObjectExpr(o) =>
      (match LinkedObject(names, env, o)
       case Ok(kvs) => Ok(Object(kvs))
       case Err(x) => Err(x))
    case ArrayExpr(elements, _) =>
      (match LinkedArray(names, env, [], elements)
       case Ok(es) => Ok(Array(es))
       case Err(x) => Err(x))
    case VarExpr(v) => FindVariableExp(names, v)
    case EnvExpr(name, _) => Ok(Str(GetEnv(env, name.name)))
    case BoolLit(b, _) => Ok(Bool(b))
    case StringLit(s, _) => Ok(Str(s))
    case IntLit(i, _) => Ok(Int(i))
    case FloatLit(t, _) => Ok(Float(t))
    case SpreadExpr(_) => Err(UnknownValueType)
  }

  /** linkKV: the key's name and the linked value. */
  function LinkedKV(names: Names, env: Env, kv: R.KV): (r: Result<KV, LinkError>)
    ensures r.Ok? ==> r.value.key == kv.key.name
    decreases kv, 3
  {
    match LinkedValue(names, env, kv.value)
    case Ok(v) => Ok(KV(kv.key.name, v))
    case Err(x) => Err(x)
  }

  /** linkObject: the linked object's KVs, each key once. */
  function LinkedObject(names: Names, env: Env, o: R.Object): (r: Result<seq<KV>, LinkError>)
    ensures o.entries == [] ==> r == Ok([])
    ensures r.Ok? ==> Distinct(KeysOf(r.value))
    decreases o, 3
  {
    match LinkedEntries(names, env, Empty(), o.entries)
    case Ok(acc) =>
      assert KeysOf(ValuesOf(acc)) == acc.keys;
      Ok(ValuesOf(acc))
    case Err(x) => Err(x)
  }

  /** One entry of linkEntries: a KV goes through Upsert, a spread's KVs
      through PutAll. */
  function LinkedEntry(names: Names, env: Env, acc: OMap<string, KV>, entry: R.Entry)
    : (r: Result<OMap<string, KV>, LinkError>)
    requires Coherent(acc)
    ensures r.Ok? ==> Coherent(r.value)
    ensures r.Ok? && KeyedBy(acc) ==> KeyedBy(r.value)
    decreases entry, 4
  {
    match entry
    case KVEntry(kv) =>
      (match LinkedKV(names, env, kv)
       case Err(x) => Err(x)
       case Ok(ent) => Ok(Upsert(acc, ent)))
    case SpreadEntry(s) =>
      (match LinkObjectSpread(names, s)
       case Err(x) => Err(x)
       case Ok(kvs) => Ok(PutAll(acc, kvs)))
  }

  /** linkEntries from accumulator `acc`; the first error stops it. */
  function LinkedEntries(names: Names, env: Env, acc: OMap<string, KV>, entries: seq<R.Entry>)
    : (r: Result<OMap<string, KV>, LinkError>)
    requires Coherent(acc)
    ensures r.Ok? ==> Coherent(r.value)
    ensures r.Ok? && KeyedBy(acc) ==> KeyedBy(r.value)
    decreases entries, 1
  {
    if entries == [] then Ok(acc)
    else match LinkedEntry(names, env, acc, entries[0])
      case Err(x) => Err(x)
      case Ok(next) => LinkedEntries(names, env, next, entries[1..])
  }

  /** linkArray after `done`: a spread element splices the named array's
      elements in; any other element links like a KV value. */
  function LinkedArray(names: Names, env: Env, done: seq<Expr>, elements: seq<R.Expr>)
    : (r: Result<seq<Expr>, LinkError>)
    ensures elements == [] ==> r == Ok(done)
    ensures r.Ok? ==> |done| <= |r.value| && r.value[..|done|] == done
    decreases elements, 1
  {
    if elements == [] then Ok(done)
    else match ArrayStep(names, env, elements[0])
      case Err(x) => Err(x)
      case Ok(xs) => LinkedArray(names, env, done + xs, elements[1..])
  }

  /** What one array element contributes: a spread's elements, or the one
      linked value. */
  function ArrayStep(names: Names, env: Env, e: R.Expr): (r: Result<seq<Expr>, LinkError>)
    decreases e, 3
  {
    if e.SpreadExpr? then LinkArraySpread(names, e.spread)
    else match LinkedValue(names, env, e)
      case Ok(v) => Ok([v])
      case Err(x) => Err(x)
  }

  // ---- linking files through their imports ----

  /** Stored files ranked so that every import leading to a stored file
      leads to one of lower rank: the import graph has no cycle. */
  ghost predicate ImportsBelow(abp: map<string, R.WithPath>, w: R.WithPath, bound: nat, rank: map<string, nat>)
  {
    forall rel :: rel in w.importPaths && w.importPaths[rel] in abp ==>
      w.importPaths[rel] in rank && rank[w.importPaths[rel]] < bound
  }

  ghost predicate Ranked(abp: map<string, R.WithPath>, rank: map<string, nat>)
  {
    forall p :: p in abp ==> p in rank && ImportsBelow(abp, abp[p], rank[p], rank)
  }

  /** What linking a file produces: its tree or an error, and the cache of
      linked files (linkedByPath) afterwards. */
  datatype Linked = Linked(result: Result<seq<KV>, LinkError>, cache: map<string, seq<KV>>)

  /** Where the import loop stands: still going, with the cache and the
      names bound so far, or finished early with an outcome. */
  datatype ImportsState = Continue(cache: map<string, seq<KV>>, names: Names) | Stop(out: Linked)

  function CacheAfter(st: ImportsState): map<string, seq<KV>>
  {
    match st
    case Continue(c, _) => c
    case Stop(out) => out.cache
  }

  /** `c2` holds every entry of `c1`, unchanged. */
  ghost predicate Extends(c1: map<string, seq<KV>>, c2: map<string, seq<KV>>)
  {
    forall p :: p in c1 ==> p in c2 && c2[p] == c1[p]
  }

  /** link's import loop from import `i`. With `memoReturns` an import
      whose file is already cached ends the loop and becomes the result, as
      the source does; without it the name is bound and the loop goes on. */
  ghost function LinkedImports(memoReturns: bool, abp: map<string, R.WithPath>, env: Env,
                               rank: map<string, nat>, cache: map<string, seq<KV>>, names: Names,
                               w: R.WithPath, i: nat, bound: nat): (st: ImportsState)
    requires Ranked(abp, rank) && ImportsBelow(abp, w, bound, rank)
    requires i <= |w.file.imports|
    ensures Extends(cache, CacheAfter(st))
    decreases bound, |w.file.imports| - i
  {
    if i == |w.file.imports| then Continue(cache, names)
    else
      var imp := w.file.imports[i];
      if imp.path.value !in w.importPaths then Stop(Linked(Err(NoImportPath), cache))
      else
        var abs := w.importPaths[imp.path.value];
        if abs in cache then
          if memoReturns then Stop(Linked(Ok(cache[abs]), cache))
          else LinkedImports(memoReturns, abp, env, rank, cache, names[imp.name.name := cache[abs]], w, i + 1, bound)
        else if abs !in abp then Stop(Linked(Err(AstNotFound), cache))
        else
          var sub := LinkedWith(memoReturns, abp, env, rank, cache, abp[abs], rank[abs]);
          if sub.result.Err? then Stop(sub)
          else
            LinkedImports(memoReturns, abp, env, rank, sub.cache[abs := sub.result.value],
                          names[imp.name.name := sub.result.value], w, i + 1, bound)
  }

  /** link: the import loop, then the file's own object under the names it
      bound. */
  ghost function LinkedWith(memoReturns: bool, abp: map<string, R.WithPath>, env: Env,
                            rank: map<string, nat>, cache: map<string, seq<KV>>,
                            w: R.WithPath, bound: nat): (r: Linked)
    requires Ranked(abp, rank) && ImportsBelow(abp, w, bound, rank)
    ensures Extends(cache, r.cache)
    decreases bound, |w.file.imports| + 1
  {
    match LinkedImports(memoReturns, abp, env, rank, cache, map[], w, 0, bound)
    case Stop(out) => out
    case Continue(c, names) => Linked(LinkedObject(names, env, w.file.obj), c)
  }

  /** The source's link. */
  ghost function LinkedAsWritten(abp: map<string, R.WithPath>, env: Env, rank: map<string, nat>,
                                 cache: map<string, seq<KV>>, w: R.WithPath, bound: nat): (r: Linked)
    requires Ranked(abp, rank) && ImportsBelow(abp, w, bound, rank)
    ensures Extends(cache, r.cache)
  {
    LinkedWith(true, abp, env, rank, cache, w, bound)
  }

  /** link as evidently intended: a cached import is bound like any other. */
  ghost function LinkedFile(abp: map<string, R.WithPath>, env: Env, rank: map<string, nat>,
                            cache: map<string, seq<KV>>, w: R.WithPath, bound: nat): (r: Linked)
    requires Ranked(abp, rank) && ImportsBelow(abp, w, bound, rank)
    ensures Extends(cache, r.cache)
  {
    LinkedWith(false, abp, env, rank, cache, w, bound)
  }

  /** The go-between of Link: the main file, all parsed files, the
      environment. */
  datatype LinkParam = LinkParam(mainAst: R.WithPath, astByPath: map<string, R.WithPath>, env: Env)

  /** The zero KV an OrderedSet hands back for an absent key; never read. */
  const NoKV := KV("", Object([]))

  class Linker {
    var astByPath: map<string, R.WithPath>
    var linkedByPath: map<string, seq<KV>>
    var env: Env

    constructor()
      ensures astByPath == map[] && linkedByPath == map[] && env == map[]
    {
      astByPath := map[];
      linkedByPath := map[];
      env := map[];
    }

    /** Link: take the files and the environment, link the main file. */
    method Link(param: LinkParam, ghost rank: map<string, nat>, ghost bound: nat)
      returns (r: Result<seq<KV>, LinkError>)
      requires Ranked(param.astByPath, rank) && ImportsBelow(param.astByPath, param.mainAst, bound, rank)
      modifies this
      ensures astByPath == param.astByPath && env == param.env
      ensures Linked(r, linkedByPath) ==
        LinkedFile(param.astByPath, param.env, rank, old(linkedByPath), param.mainAst, bound)
    {
      astByPath := param.astByPath;
      env := param.env;
      r := LinkScope(param.mainAst, rank, bound);
    }

    /** link, for the scope of file `w`. An import whose file is already
        linked is bound and the loop goes on, as `LinkedFile` describes;
        the source's early return at that point is `LinkedAsWritten`. */
    method LinkScope(w: R.WithPath, ghost rank: map<string, nat>, ghost bound: nat)
      returns (r: Result<seq<KV>, LinkError>)
      requires Ranked(astByPath, rank) && ImportsBelow(astByPath, w, bound, rank)
      modifies this`linkedByPath
      ensures Linked(r, linkedByPath) == LinkedFile(astByPath, env, rank, old(linkedByPath), w, bound)
      decreases bound
    {
      ghost var target := LinkedImports(false, astByPath, env, rank, linkedByPath, map[], w, 0, bound);
      var names: Names := map[];
      var i := 0;
      while i < |w.file.imports|
        invariant 0 <= i <= |w.file.imports|
        invariant LinkedImports(false, astByPath, env, rank, linkedByPath, names, w, i, bound) == target
        decreases |w.file.imports| - i
      {
        var imp := w.file.imports[i];
        if imp.path.value !in w.importPaths {
          assert target == Stop(Linked(Err(NoImportPath), linkedByPath));
          return Err(NoImportPath);
        }
        var abs := w.importPaths[imp.path.value];
        if abs in linkedByPath {
          names := names[imp.name.name := linkedByPath[abs]];
          i := i + 1;
          continue;
        }
        if abs !in astByPath {
          assert target == Stop(Linked(Err(AstNotFound), linkedByPath));
          return Err(AstNotFound);
        }
        ghost var before := linkedByPath;
        var linked := LinkScope(astByPath[abs], rank, rank[abs]);
        ghost var sub := LinkedFile(astByPath, env, rank, before, astByPath[abs], rank[abs]);
        assert Linked(linked, linkedByPath) == sub;
        if linked.Err? {
          assert target == Stop(sub);
          return linked;
        }
        assert target == LinkedImports(false, astByPath, env, rank, linkedByPath[abs := linked.value],
                                       names[imp.name.name := linked.value], w, i + 1, bound);
        linkedByPath := linkedByPath[abs := linked.value];
        names := names[imp.name.name := linked.value];
        i := i + 1;
      }
      assert target == Continue(linkedByPath, names);
      r := LinkObject(names, w.file.obj);
    }

    method LinkObject(names: Names, o: R.Object) returns (r: Result<seq<KV>, LinkError>)
      ensures r == LinkedObject(names, env, o)
      decreases o, 3
    {
      r := LinkEntries(names, o.entries);
    }

    method LinkEntries(names: Names, entries: seq<R.Entry>) returns (r: Result<seq<KV>, LinkError>)
      ensures r == match LinkedEntries(names, env, Empty(), entries)
                   case Ok(acc) => Ok(ValuesOf(acc))
                   case Err(x) => Err(x)
      decreases entries, 1
    {
      var kvMap := new OrderedSet<string, KV>(0, NoKV);
      var i := 0;
      while i < |entries|
        invariant 0 <= i <= |entries|
        invariant kvMap.Valid()
        invariant LinkedEntries(names, env, kvMap.State(), entries[i..]) == LinkedEntries(names, env, Empty(), entries)
        decreases |entries| - i
      {
        assert entries[i..][0] == entries[i] && entries[i..][1..] == entries[i + 1..];
        var err := LinkEntry(names, kvMap, entries[i]);
        if err.Some? {
          return Err(err.value);
        }
        i := i + 1;
      }
      var values := kvMap.Values();
      r := Ok(values);
    }

    /** The loop body of linkEntries for one entry; the error that stops
        the loop, if any. */
    method LinkEntry(names: Names, kvMap: OrderedSet<string, KV>, entry: R.Entry)
      returns (err: Option<LinkError>)
      requires kvMap.Valid()
      modifies kvMap
      ensures kvMap.Valid()
      ensures match LinkedEntry(names, env, old(kvMap.State()), entry)
              case Ok(next) => err.None? && kvMap.State() == next
              case Err(x) => err == Some(x)
      decreases entry, 4
    {
      err := None;
      match entry
      case KVEntry(kv) =>
        var ent := LinkKV(names, kv);
        if ent.Err? {
          return Some(ent.error);
        }
        SetOrMerge(kvMap, ent.value);
      case SpreadEntry(s) =>
        var spread := LinkObjectSpread(names, s);
        if spread.Err? {
          return Some(spread.error);
        }
        var j := 0;
        while j < |spread.value|
          invariant 0 <= j <= |spread.value|
          invariant kvMap.Valid()
          invariant PutAll(kvMap.State(), spread.value[j..]) == PutAll(old(kvMap.State()), spread.value)
          decreases |spread.value| - j
        {
          assert spread.value[j..][0] == spread.value[j] && spread.value[j..][1..] == spread.value[j + 1..];
          kvMap.Set(spread.value[j].key, spread.value[j]);
          j := j + 1;
        }
    }

    /** linkKV. */
    method LinkKV(names: Names, kv: R.KV) returns (r: Result<KV, LinkError>)
      ensures r == LinkedKV(names, env, kv)
      decreases kv, 3
    {
      var value := LinkValue(names, kv.value);
      if value.Err? {
        return Err(value.error);
      }
      r := Ok(KV(kv.key.name, value.value));
    }

    /** The value switch of linkKV and linkArray. */
    method LinkValue(names: Names, e: R.Expr) returns (r: Result<Expr, LinkError>)
      ensures r == LinkedValue(names, env, e)
      decreases e, 2
    {
      match e
      case ObjectExpr(o) =>
        var kvs := LinkObject(names, o);
        if kvs.Err? {
          return Err(kvs.error);
        }
        r := Ok(Object(kvs.value));
      case ArrayExpr(elements, _) =>
        var es := LinkArray(names, elements);
        if es.Err? {
          return Err(es.error);
        }
        r := Ok(Array(es.value));
      case VarExpr(v) =>
        r := FindVariableExp(names, v);
      case EnvExpr(name, _) =>
        r := Ok(Str(GetEnv(env, name.name)));
      case BoolLit(b, _) =>
        r := Ok(Bool(b));
      case StringLit(s, _) =>
        r := Ok(Str(s));
      case IntLit(n, _) =>
        r := Ok(Int(n));
      case FloatLit(t, _) =>
        r := Ok(Float(t));
      case SpreadExpr(_) =>
        r := Err(UnknownValueType);
    }

    /** linkArray. */
    method LinkArray(names: Names, elements: seq<R.Expr>) returns (r: Result<seq<Expr>, LinkError>)
      ensures r == LinkedArray(names, env, [], elements)
      decreases elements, 1
    {
      var elems: seq<Expr> := [];
      var i := 0;
      while i < |elements|
        invariant 0 <= i <= |elements|
        invariant LinkedArray(names, env, elems, elements[i..]) == LinkedArray(names, env, [], elements)
        decreases |elements| - i
      {
        assert elements[i..][0] == elements[i] && elements[i..][1..] == elements[i + 1..];
        if elements[i].SpreadExpr? {
          var exps := LinkArraySpread(names, elements[i].spread);
          if exps.Err? {
            return Err(exps.error);
          }
          elems := elems + exps.value;
        } else {
          var exp := LinkValue(names, elements[i]);
          if exp.Err? {
            return Err(exp.error);
          }
          elems := elems + [exp.value];
        }
        i := i + 1;
      }
      r := Ok(elems);
    }

    /** The loop body shared by linkEntries and mergeEntries for one KV. */
    method SetOrMerge(kvMap: OrderedSet<string, KV>, kv: KV)
      requires kvMap.Valid()
      modifies kvMap
      ensures kvMap.Valid() && kvMap.State() == Upsert(old(kvMap.State()), kv)
      decreases if kv.key in kvMap.m then Max(Depth(kvMap.m[kv.key].value), Depth(kv.value)) else 0, 2, 0
    {
      var (existing, exist) := kvMap.Get(kv.key);
      if exist {
        var merged := MergeEntries(existing, kv);
        kvMap.Set(kv.key, merged);
      } else {
        kvMap.Set(kv.key, kv);
      }
    }

    /** One of mergeEntries' two loops. */
    method MergeInto(kvMap: OrderedSet<string, KV>, kvs: seq<KV>, ghost bound: nat)
      requires kvMap.Valid()
      requires forall k :: k in kvMap.m ==> Depth(kvMap.m[k].value) < bound
      requires forall i :: 0 <= i < |kvs| ==> Depth(kvs[i].value) < bound
      modifies kvMap
      ensures kvMap.Valid() && kvMap.State() == MergeAll(old(kvMap.State()), kvs, bound)
      decreases bound, 0, |kvs|
    {
      var i := 0;
      while i < |kvs|
        invariant 0 <= i <= |kvs|
        invariant kvMap.Valid()
        invariant forall k :: k in kvMap.m ==> Depth(kvMap.m[k].value) < bound
        invariant MergeAll(kvMap.State(), kvs[i..], bound) == MergeAll(old(kvMap.State()), kvs, bound)
        decreases |kvs| - i
      {
        assert kvs[i..][0] == kvs[i] && kvs[i..][1..] == kvs[i + 1..];
        ghost var before := kvMap.State();
        SetOrMerge(kvMap, kvs[i]);
        forall k | k in kvMap.m ensures Depth(kvMap.m[k].value) < bound
        {
          if k != kvs[i].key {
            assert k in before.m;
          }
        }
        i := i + 1;
      }
    }

    /** mergeEntries. */
    method MergeEntries(entry1: KV, entry2: KV) returns (r: KV)
      ensures r == Merge(entry1, entry2)
      decreases Max(Depth(entry1.value), Depth(entry2.value)), 1, 0
    {
      if !entry1.value.Object? || !entry2.value.Object? {
        return entry2;
      }
      ghost var bound := Max(Depth(entry1.value), Depth(entry2.value));
      ValuesShallower(entry1.value.kvs);
      ValuesShallower(entry2.value.kvs);
      var kvMap := new OrderedSet<string, KV>(0, NoKV);
      MergeInto(kvMap, entry1.value.kvs, bound);
      MergeInto(kvMap, entry2.value.kvs, bound);
      var values := kvMap.Values();
      r := KV(entry1.key, Object(values));
    }
  }
}
