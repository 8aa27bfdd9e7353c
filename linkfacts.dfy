// Properties of the linker's specification (linker/linker.go): the shape of
// a linked object, the override and merge rules, array splicing, and what
// linking a file returns.

module LinkerFacts {
  import opened Wrappers
  import opened Positions
  import opened OrderedSets
  import opened LinkedAst
  import opened Linking
  import R = RawAst

  // ---- the keys of a linked object ----

  /** The keys of a KV list stored in an accumulator are its keys. */
  lemma StoredKeys(acc: OMap<string, KV>)
    requires Coherent(acc) && KeyedBy(acc)
    ensures KeysOf(ValuesOf(acc)) == acc.keys
  {
  }

  /** The keys of `ks` not in `seen`, each at its first occurrence: the
      order in which an accumulator learns keys. */
  function Fresh(seen: seq<string>, ks: seq<string>): seq<string>
    decreases |ks|
  {
    if ks == [] then []
    else if ks[0] in seen then Fresh(seen, ks[1..])
    else [ks[0]] + Fresh(seen + [ks[0]], ks[1..])
  }

  /** Upsert keeps every stored value shallower than `bound`. */
  lemma UpsertBelow(acc: OMap<string, KV>, kv: KV, bound: nat)
    requires forall k :: k in acc.m ==> Depth(acc.m[k].value) < bound
    requires Depth(kv.value) < bound
    ensures forall k :: k in Upsert(acc, kv).m ==> Depth(Upsert(acc, kv).m[k].value) < bound
  {
    var next := Upsert(acc, kv);
    forall k | k in next.m ensures Depth(next.m[k].value) < bound
    {
      if k != kv.key {
        assert k in acc.m;
      }
    }
  }

  /** Merging a KV list appends its new keys in first-occurrence order;
      keys already present keep their positions. */
  lemma {:induction false} MergeAllKeys(acc: OMap<string, KV>, kvs: seq<KV>, bound: nat)
    requires Coherent(acc)
    requires forall k :: k in acc.m ==> Depth(acc.m[k].value) < bound
    requires forall i :: 0 <= i < |kvs| ==> Depth(kvs[i].value) < bound
    ensures MergeAll(acc, kvs, bound).keys == acc.keys + Fresh(acc.keys, KeysOf(kvs))
    decreases |kvs|
  {
    if kvs != [] {
      var k := kvs[0].key;
      var next := Upsert(acc, kvs[0]);
      var ks := KeysOf(kvs);
      MergeAllStep(acc, kvs, bound);
      MergeAllKeys(next, kvs[1..], bound);
      assert acc.keys + Fresh(acc.keys, ks) == next.keys + Fresh(next.keys, KeysOf(kvs[1..])) by {
        assert ks[0] == k && ks[1..] == KeysOf(kvs[1..]);
        FreshStep(acc.keys, ks);
        assert next.keys == if k in acc.keys then acc.keys else acc.keys + [k];
      }
    }
  }

  /** One step of MergeAll: upsert the first KV, then merge the rest. */
  lemma MergeAllStep(acc: OMap<string, KV>, kvs: seq<KV>, bound: nat)
    requires Coherent(acc) && kvs != []
    requires forall k :: k in acc.m ==> Depth(acc.m[k].value) < bound
    requires forall i :: 0 <= i < |kvs| ==> Depth(kvs[i].value) < bound
    ensures Coherent(Upsert(acc, kvs[0]))
    ensures forall k :: k in Upsert(acc, kvs[0]).m ==> Depth(Upsert(acc, kvs[0]).m[k].value) < bound
    ensures forall i :: 0 <= i < |kvs[1..]| ==> Depth(kvs[1..][i].value) < bound
    ensures MergeAll(acc, kvs, bound) == MergeAll(Upsert(acc, kvs[0]), kvs[1..], bound)
  {
    UpsertBelow(acc, kvs[0], bound);
  }

  /** One step of Fresh, with the learnt key appended to what is known. */
  lemma FreshStep(seen: seq<string>, ks: seq<string>)
    requires ks != []
    ensures ks[0] in seen ==> seen + Fresh(seen, ks) == seen + Fresh(seen, ks[1..])
    ensures ks[0] !in seen ==> seen + Fresh(seen, ks) == (seen + [ks[0]]) + Fresh(seen + [ks[0]], ks[1..])
  {
  }

  /** Spread KVs are learnt in the same order. */
  lemma {:induction false} PutAllKeys(acc: OMap<string, KV>, kvs: seq<KV>)
    requires Coherent(acc)
    ensures PutAll(acc, kvs).keys == acc.keys + Fresh(acc.keys, KeysOf(kvs))
    decreases |kvs|
  {
    if kvs != [] {
      var k := kvs[0].key;
      PutAllKeys(Put(acc, k, kvs[0]), kvs[1..]);
      FreshStep(acc.keys, KeysOf(kvs));
      assert KeysOf(kvs)[0] == k && KeysOf(kvs)[1..] == KeysOf(kvs[1..]);
      assert k in acc.m <==> k in acc.keys;
    }
  }

  /** mergeEntries of two Objects lists the first object's keys in order,
      then the second object's new keys, under the first entry's key. */
  lemma MergeKeyOrder(e1: KV, e2: KV)
    requires e1.value.Object? && e2.value.Object?
    ensures Merge(e1, e2).key == e1.key
    ensures Merge(e1, e2).value.Object?
    ensures var k1 := Fresh([], KeysOf(e1.value.kvs));
      KeysOf(Merge(e1, e2).value.kvs) == k1 + Fresh(k1, KeysOf(e2.value.kvs))
  {
    var bound := Max(Depth(e1.value), Depth(e2.value));
    ValuesShallower(e1.value.kvs);
    ValuesShallower(e2.value.kvs);
    var first := MergeAll(Empty(), e1.value.kvs, bound);
    var both := MergeAll(first, e2.value.kvs, bound);
    assert Merge(e1, e2) == KV(e1.key, Object(ValuesOf(both)));
    var k1 := Fresh([], KeysOf(e1.value.kvs));
    MergeAllKeys(Empty(), e1.value.kvs, bound);
    assert first.keys == k1 by {
      assert Empty<string, KV>().keys + k1 == k1;
    }
    MergeAllKeys(first, e2.value.kvs, bound);
    assert KeyedBy(Empty<string, KV>());
    StoredKeys(both);
  }

  // ---- who wins a key ----

  /** A key's last KV in a spread is the one stored: a spread replaces
      without merging. */
  lemma {:induction false} PutAllLastWins(acc: OMap<string, KV>, kvs: seq<KV>, i: int)
    requires 0 <= i < |kvs|
    requires forall j :: i < j < |kvs| ==> kvs[j].key != kvs[i].key
    ensures kvs[i].key in PutAll(acc, kvs).m && PutAll(acc, kvs).m[kvs[i].key] == kvs[i]
    decreases |kvs|
  {
    var next := Put(acc, kvs[0].key, kvs[0]);
    if i == 0 {
      PutAllKeeps(next, kvs[1..], kvs[0].key);
    } else {
      PutAllLastWins(next, kvs[1..], i - 1);
    }
  }

  /** PutAll leaves a key alone that none of its KVs carries. */
  lemma {:induction false} PutAllKeeps(acc: OMap<string, KV>, kvs: seq<KV>, k: string)
    requires k in acc.m
    requires forall j :: 0 <= j < |kvs| ==> kvs[j].key != k
    ensures k in PutAll(acc, kvs).m && PutAll(acc, kvs).m[k] == acc.m[k]
    decreases |kvs|
  {
    if kvs != [] {
      PutAllKeeps(Put(acc, kvs[0].key, kvs[0]), kvs[1..], k);
    }
  }

  /** A key's last KV, when its value is not an Object, is the one stored
      by merging: the later KV replaces the earlier one. */
  lemma {:induction false} MergeAllLastScalarWins(acc: OMap<string, KV>, kvs: seq<KV>, bound: nat, i: int)
    requires Coherent(acc)
    requires forall k :: k in acc.m ==> Depth(acc.m[k].value) < bound
    requires forall j :: 0 <= j < |kvs| ==> Depth(kvs[j].value) < bound
    requires 0 <= i < |kvs| && !kvs[i].value.Object?
    requires forall j :: i < j < |kvs| ==> kvs[j].key != kvs[i].key
    ensures kvs[i].key in MergeAll(acc, kvs, bound).m
    ensures MergeAll(acc, kvs, bound).m[kvs[i].key] == kvs[i]
    decreases |kvs|
  {
    var next := Upsert(acc, kvs[0]);
    UpsertBelow(acc, kvs[0], bound);
    if i == 0 {
      if kvs[0].key in acc.m {
        assert Merge(acc.m[kvs[0].key], kvs[0]) == kvs[0];
      }
      assert next.m[kvs[0].key] == kvs[0];
      MergeAllKeeps(next, kvs[1..], bound, kvs[0].key);
    } else {
      MergeAllLastScalarWins(next, kvs[1..], bound, i - 1);
    }
  }

  /** Merging leaves a key alone that none of its KVs carries. */
  lemma {:induction false} MergeAllKeeps(acc: OMap<string, KV>, kvs: seq<KV>, bound: nat, k: string)
    requires Coherent(acc) && k in acc.m
    requires forall k :: k in acc.m ==> Depth(acc.m[k].value) < bound
    requires forall j :: 0 <= j < |kvs| ==> Depth(kvs[j].value) < bound
    requires forall j :: 0 <= j < |kvs| ==> kvs[j].key != k
    ensures k in MergeAll(acc, kvs, bound).m && MergeAll(acc, kvs, bound).m[k] == acc.m[k]
    decreases |kvs|
  {
    if kvs != [] {
      var next := Upsert(acc, kvs[0]);
      UpsertBelow(acc, kvs[0], bound);
      MergeAllKeeps(next, kvs[1..], bound, k);
    }
  }

  /** In mergeEntries, a key whose last KV in the second object is not an
      Object takes that KV. */
  lemma MergeSecondScalarWins(e1: KV, e2: KV, i: int)
    requires e1.value.Object? && e2.value.Object?
    requires 0 <= i < |e2.value.kvs| && !e2.value.kvs[i].value.Object?
    requires forall j :: i < j < |e2.value.kvs| ==> e2.value.kvs[j].key != e2.value.kvs[i].key
    ensures e2.value.kvs[i] in Merge(e1, e2).value.kvs
  {
    var bound := Max(Depth(e1.value), Depth(e2.value));
    ValuesShallower(e1.value.kvs);
    ValuesShallower(e2.value.kvs);
    var first := MergeAll(Empty(), e1.value.kvs, bound);
    var both := MergeAll(first, e2.value.kvs, bound);
    MergeAllLastScalarWins(first, e2.value.kvs, bound, i);
    var k := e2.value.kvs[i].key;
    var idx :| 0 <= idx < |both.keys| && both.keys[idx] == k;
    assert ValuesOf(both)[idx] == e2.value.kvs[i];
  }

  // ---- arrays ----

  /** Linking after `done` is linking from scratch, then prefixing `done`. */
  lemma {:induction false} LinkedArrayAfter(names: Names, env: Env, done: seq<Expr>, es: seq<R.Expr>)
    ensures LinkedArray(names, env, done, es) ==
      match LinkedArray(names, env, [], es)
      case Ok(xs) => Ok(done + xs)
      case Err(x) => Err(x)
    decreases |es|
  {
    if es != [] {
      var step := ArrayStep(names, env, es[0]);
      if step.Ok? {
        LinkedArrayAfter(names, env, done + step.value, es[1..]);
        LinkedArrayAfter(names, env, step.value, es[1..]);
        assert [] + step.value == step.value;
        forall xs: seq<Expr> ensures done + step.value + xs == done + (step.value + xs) { }
      }
    } else {
      assert done + [] == done;
    }
  }

  /** Linking a concatenation links each part in turn. */
  lemma {:induction false} LinkedArrayConcat(names: Names, env: Env, a: seq<R.Expr>, b: seq<R.Expr>)
    ensures LinkedArray(names, env, [], a + b) ==
      match LinkedArray(names, env, [], a)
      case Ok(xs) => LinkedArray(names, env, xs, b)
      case Err(x) => Err(x)
  {
    LinkedArrayConcatFrom(names, env, [], a, b);
  }

  lemma {:induction false} LinkedArrayConcatFrom(names: Names, env: Env, done: seq<Expr>, a: seq<R.Expr>, b: seq<R.Expr>)
    ensures LinkedArray(names, env, done, a + b) ==
      match LinkedArray(names, env, done, a)
      case Ok(xs) => LinkedArray(names, env, xs, b)
      case Err(x) => Err(x)
    decreases |a|
  {
    if a == [] {
      assert a + b == b;
    } else {
      assert (a + b)[0] == a[0] && (a + b)[1..] == a[1..] + b;
      var step := ArrayStep(names, env, a[0]);
      if step.Ok? {
        LinkedArrayConcatFrom(names, env, done + step.value, a[1..], b);
      }
    }
  }

  /** An array spread splices the named array's elements in order at its
      own position. */
  lemma ArraySpreadSplices(names: Names, env: Env, pre: seq<R.Expr>, s: R.Spread, post: seq<R.Expr>)
    requires LinkedArray(names, env, [], pre).Ok?
    requires LinkArraySpread(names, s).Ok?
    requires LinkedArray(names, env, [], post).Ok?
    ensures LinkedArray(names, env, [], pre + [R.SpreadExpr(s)] + post) ==
      Ok(LinkedArray(names, env, [], pre).value + LinkArraySpread(names, s).value +
         LinkedArray(names, env, [], post).value)
  {
    var a := LinkedArray(names, env, [], pre).value;
    var es := LinkArraySpread(names, s).value;
    LinkedArrayConcat(names, env, pre + [R.SpreadExpr(s)], post);
    LinkedArrayConcat(names, env, pre, [R.SpreadExpr(s)]);
    assert [R.SpreadExpr(s)][1..] == [];
    assert LinkedArray(names, env, a, [R.SpreadExpr(s)]) == Ok(a + es);
    LinkedArrayAfter(names, env, a + es, post);
  }

  // ---- what linking a file returns ----

  /** The names bound by the first `n` imports of `w`, each to the cached
      tree of the file it resolves to; a later import of a name wins. */
  function BoundNames(w: R.WithPath, cache: map<string, seq<KV>>, n: nat): Names
    requires n <= |w.file.imports|
  {
    if n == 0 then map[]
    else
      var imp := w.file.imports[n - 1];
      var prev := BoundNames(w, cache, n - 1);
      if imp.path.value in w.importPaths && w.importPaths[imp.path.value] in cache
      then prev[imp.name.name := cache[w.importPaths[imp.path.value]]]
      else prev
  }

  /** The first `n` imports resolve to cached files. */
  ghost predicate Resolved(w: R.WithPath, cache: map<string, seq<KV>>, n: nat)
  {
    forall j :: 0 <= j < n && j < |w.file.imports| ==>
      w.file.imports[j].path.value in w.importPaths && w.importPaths[w.file.imports[j].path.value] in cache
  }

  lemma {:induction false} BoundNamesStable(w: R.WithPath, c1: map<string, seq<KV>>, c2: map<string, seq<KV>>, n: nat)
    requires n <= |w.file.imports|
    requires Extends(c1, c2) && Resolved(w, c1, n)
    ensures BoundNames(w, c2, n) == BoundNames(w, c1, n)
  {
    if n > 0 {
      BoundNamesStable(w, c1, c2, n - 1);
    }
  }

  /** Binding one more resolved import extends the bound names by it. */
  lemma BoundNamesStep(w: R.WithPath, cache: map<string, seq<KV>>, i: nat)
    requires i < |w.file.imports| && Resolved(w, cache, i)
    requires w.file.imports[i].path.value in w.importPaths
    requires w.importPaths[w.file.imports[i].path.value] in cache
    ensures Resolved(w, cache, i + 1)
    ensures BoundNames(w, cache, i + 1)
         == BoundNames(w, cache, i)[w.file.imports[i].name.name := cache[w.importPaths[w.file.imports[i].path.value]]]
  {
  }

  /** The import loop stops only on an error, and when it runs to the end
      every import of `w` is resolved and bound under its name. */
  ghost predicate BindsAll(w: R.WithPath, st: ImportsState)
  {
    && (st.Stop? ==> st.out.result.Err?)
    && (st.Continue? ==> Resolved(w, st.cache, |w.file.imports|)
                         && st.names == BoundNames(w, st.cache, |w.file.imports|))
  }

  /** The import loop without the early return binds every import. */
  lemma {:induction false} FixedImportsBindAll(abp: map<string, R.WithPath>, env: Env, rank: map<string, nat>,
                                               cache: map<string, seq<KV>>, names: Names,
                                               w: R.WithPath, i: nat, bound: nat)
    requires Ranked(abp, rank) && ImportsBelow(abp, w, bound, rank)
    requires i <= |w.file.imports|
    requires Resolved(w, cache, i) && names == BoundNames(w, cache, i)
    ensures BindsAll(w, LinkedImports(false, abp, env, rank, cache, names, w, i, bound))
    decreases |w.file.imports| - i
  {
    if i < |w.file.imports| {
      var imp := w.file.imports[i];
      if imp.path.value in w.importPaths {
        var abs := w.importPaths[imp.path.value];
        if abs in cache {
          var next := names[imp.name.name := cache[abs]];
          assert LinkedImports(false, abp, env, rank, cache, names, w, i, bound)
              == LinkedImports(false, abp, env, rank, cache, next, w, i + 1, bound);
          BoundNamesStep(w, cache, i);
          FixedImportsBindAll(abp, env, rank, cache, next, w, i + 1, bound);
        } else if abs in abp {
          var sub := LinkedWith(false, abp, env, rank, cache, abp[abs], rank[abs]);
          if sub.result.Ok? {
            var c := sub.cache[abs := sub.result.value];
            var next := names[imp.name.name := sub.result.value];
            assert LinkedImports(false, abp, env, rank, cache, names, w, i, bound)
                == LinkedImports(false, abp, env, rank, c, next, w, i + 1, bound);
            assert Extends(cache, c);
            BoundNamesStable(w, cache, c, i);
            BoundNamesStep(w, c, i);
            FixedImportsBindAll(abp, env, rank, c, next, w, i + 1, bound);
          } else {
            assert LinkedImports(false, abp, env, rank, cache, names, w, i, bound) == Stop(sub);
          }
        } else {
          assert LinkedImports(false, abp, env, rank, cache, names, w, i, bound)
              == Stop(Linked(Err(AstNotFound), cache));
        }
      } else {
        assert LinkedImports(false, abp, env, rank, cache, names, w, i, bound)
            == Stop(Linked(Err(NoImportPath), cache));
      }
    } else {
      assert LinkedImports(false, abp, env, rank, cache, names, w, i, bound) == Continue(cache, names);
    }
  }

  /** With the early return removed, linking a file that succeeds yields
      the file's own object, linked under the names of all its imports. */
  lemma LinkedFileIsOwnObject(abp: map<string, R.WithPath>, env: Env, rank: map<string, nat>,
                              cache: map<string, seq<KV>>, w: R.WithPath, bound: nat)
    requires Ranked(abp, rank) && ImportsBelow(abp, w, bound, rank)
    ensures var r := LinkedFile(abp, env, rank, cache, w, bound);
      r.result.Ok? ==>
        && Resolved(w, r.cache, |w.file.imports|)
        && r.result == LinkedObject(BoundNames(w, r.cache, |w.file.imports|), env, w.file.obj)
  {
    FixedImportsBindAll(abp, env, rank, cache, map[], w, 0, bound);
  }

  /** The source's early return: a file importing the same file twice is
      linked to that imported file's tree instead of its own. */
  lemma MemoReturnsImportedTree()
    ensures var loc := Location(ZeroPosition(), ZeroPosition());
      var x := R.WithPath(R.File([], R.Object([R.KVEntry(R.KV(R.Ident("v", loc), R.IntLit(1, loc), loc))], loc)),
                          "/x", map[]);
      var main := R.WithPath(
        R.File([R.Import(R.Ident("a", loc), R.ImportPath("./x", loc)),
                R.Import(R.Ident("b", loc), R.ImportPath("./x", loc))],
               R.Object([R.KVEntry(R.KV(R.Ident("k", loc), R.IntLit(2, loc), loc))], loc)),
        "/main", map["./x" := "/x"]);
      var abp := map["/x" := x, "/main" := main];
      var rank := map["/x" := 0, "/main" := 1];
      && Ranked(abp, rank) && ImportsBelow(abp, main, 1, rank)
      && LinkedAsWritten(abp, map[], rank, map[], main, 1).result == Ok([KV("v", Int(1))])
      && LinkedFile(abp, map[], rank, map[], main, 1).result == Ok([KV("k", Int(2))])
  {
    var loc := Location(ZeroPosition(), ZeroPosition());
    var xObj := R.Object([R.KVEntry(R.KV(R.Ident("v", loc), R.IntLit(1, loc), loc))], loc);
    var x := R.WithPath(R.File([], xObj), "/x", map[]);
    var mainObj := R.Object([R.KVEntry(R.KV(R.Ident("k", loc), R.IntLit(2, loc), loc))], loc);
    var main := R.WithPath(
      R.File([R.Import(R.Ident("a", loc), R.ImportPath("./x", loc)),
              R.Import(R.Ident("b", loc), R.ImportPath("./x", loc))], mainObj),
      "/main", map["./x" := "/x"]);
    var abp := map["/x" := x, "/main" := main];
    var rank := map["/x" := 0, "/main" := 1];
    assert Ranked(abp, rank);
    var xTree := [KV("v", Int(1))];
    var xAcc := OMap(["v"], map["v" := KV("v", Int(1))]);
    assert LinkedKV(map[], map[], xObj.entries[0].kv) == Ok(KV("v", Int(1)));
    assert Upsert(Empty(), KV("v", Int(1))) == xAcc;
    assert LinkedEntry(map[], map[], Empty(), xObj.entries[0]) == Ok(xAcc);
    assert xObj.entries[1..] == [];
    assert LinkedEntries(map[], map[], Empty(), xObj.entries) == Ok(xAcc);
    assert ValuesOf(xAcc) == xTree;
    assert LinkedObject(map[], map[], xObj) == Ok(xTree);
    assert LinkedImports(true, abp, map[], rank, map[], map[], x, 0, 0) == Continue(map[], map[]);
    assert LinkedWith(true, abp, map[], rank, map[], x, 0) == Linked(Ok(xTree), map[]);
    assert LinkedWith(false, abp, map[], rank, map[], x, 0) == Linked(Ok(xTree), map[]);
    var c := map["/x" := xTree];
    assert LinkedImports(true, abp, map[], rank, c, map["a" := xTree], main, 1, 1) == Stop(Linked(Ok(xTree), c));
    var names := map["a" := xTree, "b" := xTree];
    assert LinkedImports(false, abp, map[], rank, c, names, main, 2, 1) == Continue(c, names);
    var mainAcc := OMap(["k"], map["k" := KV("k", Int(2))]);
    assert LinkedKV(names, map[], mainObj.entries[0].kv) == Ok(KV("k", Int(2)));
    assert Upsert(Empty(), KV("k", Int(2))) == mainAcc;
    assert LinkedEntry(names, map[], Empty(), mainObj.entries[0]) == Ok(mainAcc);
    assert mainObj.entries[1..] == [];
    assert LinkedEntries(names, map[], Empty(), mainObj.entries) == Ok(mainAcc);
    assert ValuesOf(mainAcc) == [KV("k", Int(2))];
    assert LinkedObject(names, map[], mainObj) == Ok([KV("k", Int(2))]);
  }
}
