// The map binder (compiler/map.go): the linked tree becomes nested untyped
// maps and slices, and Compile copies the top level into the caller's map.

module MapCompiling {
  import opened Wrappers
  import opened LinkedAst

  /** Go's `any` as the map binder fills it: a map for an Object, a slice
      for an Array, and the scalar payloads unchanged. */
  datatype Any =
    | MapA(m: map<string, Any>)
    | SliceA(elems: seq<Any>)
    | StrA(str: string)
    | BoolA(b: bool)
    | IntA(i: int)
    | FloatA(text: string)

  // ---- the specification: compileExpr, compileObj, compileArr ----

  /** compileExpr: a dispatch on the kind of expression. The linked tree
      has no kind outside these six, so "unexpected expression type"
      cannot arise. */
  function CompiledExpr(e: Expr): (r: Any)
    ensures e.Object? <==> r.MapA?
    ensures e.Array? <==> r.SliceA?
    ensures e.Object? ==> forall i :: 0 <= i < |e.kvs| ==> e.kvs[i].key in r.m
    ensures e.Array? ==> |r.elems| == |e.elements|
    ensures e.Str? ==> r == StrA(e.s)
    ensures e.Bool? ==> r == BoolA(e.b)
    ensures e.Int? ==> r == IntA(e.i)
    ensures e.Float? ==> r == FloatA(e.text)
    decreases e, 2
  {
    match e
    case Object(kvs) => MapA(CompiledObj(kvs))
    case Array(es) => SliceA(CompiledArr(es))
    case Str(s) => StrA(s)
    case Bool(b) => BoolA(b)
    case Int(i) => IntA(i)
    case Float(t) => FloatA(t)
  }

  /** compileObj: KVs are written in order, so a later KV overwrites an
      earlier one with the same key. */
  function CompiledObj(kvs: seq<KV>): (r: map<string, Any>)
    ensures forall i :: 0 <= i < |kvs| ==> kvs[i].key in r
    ensures kvs != [] ==> r[kvs[|kvs| - 1].key] == CompiledExpr(kvs[|kvs| - 1].value)
    decreases kvs, 1
  {
    if kvs == [] then map[]
    else
      var last := kvs[|kvs| - 1];
      var init := kvs[..|kvs| - 1];
      assert forall i :: 0 <= i < |init| ==> init[i] == kvs[i];
      CompiledObj(init)[last.key := CompiledKV(last)]
  }

  /** The compiled value stored under a KV's key. */
  function CompiledKV(kv: KV): (r: Any)
    ensures kv.value.Object? <==> r.MapA?
    ensures kv.value.Array? <==> r.SliceA?
    decreases kv, 3
  {
    CompiledExpr(kv.value)
  }

  /** compileArr: the elements in order. */
  function CompiledArr(es: seq<Expr>): (r: seq<Any>)
    ensures |r| == |es|
    ensures forall i :: 0 <= i < |es| ==> r[i] == CompiledExpr(es[i])
    decreases es, 1
  {
    if es == [] then []
    else
      var r := CompiledArr(es[..|es| - 1]) + [CompiledExpr(es[|es| - 1])];
      assert forall i :: 0 <= i < |es| - 1 ==> es[..|es| - 1][i] == es[i];
      r
  }

  // ---- properties ----

  /** The value of the last KV keyed `k`: an independent statement of which
      KV decides a key. */
  function LastValue(kvs: seq<KV>, k: string): Option<Expr>
  {
    if kvs == [] then None
    else if kvs[|kvs| - 1].key == k then Some(kvs[|kvs| - 1].value)
    else LastValue(kvs[..|kvs| - 1], k)
  }

  /** An object's map holds exactly the object's keys, and each key holds
      the compiled value of the last KV with that key. */
  lemma {:induction false} CompiledObjByLast(kvs: seq<KV>)
    ensures CompiledObj(kvs).Keys == set i | 0 <= i < |kvs| :: kvs[i].key
    ensures forall k :: k in CompiledObj(kvs) ==>
      LastValue(kvs, k).Some? && CompiledObj(kvs)[k] == CompiledExpr(LastValue(kvs, k).value)
  {
    CompiledObjKeys(kvs);
    if kvs != [] {
      var init, last := kvs[..|kvs| - 1], kvs[|kvs| - 1];
      CompiledObjByLast(init);
      var m := CompiledObj(kvs);
      assert m == CompiledObj(init)[last.key := CompiledExpr(last.value)];
      forall k | k in m
        ensures LastValue(kvs, k).Some? && m[k] == CompiledExpr(LastValue(kvs, k).value)
      {
        if k != last.key {
          assert LastValue(kvs, k) == LastValue(init, k);
        }
      }
    }
  }

  lemma {:induction false} CompiledObjKeys(kvs: seq<KV>)
    ensures CompiledObj(kvs).Keys == set i | 0 <= i < |kvs| :: kvs[i].key
  {
    if kvs != [] {
      var init, last := kvs[..|kvs| - 1], kvs[|kvs| - 1];
      CompiledObjKeys(init);
      var all := set i | 0 <= i < |kvs| :: kvs[i].key;
      var before := set i | 0 <= i < |init| :: init[i].key;
      forall x | x in all ensures x in before + {last.key} {
        var i :| 0 <= i < |kvs| && kvs[i].key == x;
        if i < |init| { assert init[i] == kvs[i]; }
      }
      forall x | x in before ensures x in all {
        var i :| 0 <= i < |init| && init[i].key == x;
        assert kvs[i] == init[i];
      }
      assert last.key in all;
      assert CompiledObj(kvs).Keys == CompiledObj(init).Keys + {last.key};
    }
  }

  // ---- the binder ----

  /** The caller's map, which Compile fills in place. */
  class Target {
    var m: map<string, Any>

    constructor(m: map<string, Any>)
      ensures this.m == m
    {
      this.m := m;
    }
  }

  class MapCompiler {
    constructor()
    {
    }

    /** Compile: compile the whole root object first, then copy its
        entries into the caller's map: keys of the tree overwrite, other
        keys of the map are kept. */
    method Compile(t: Target, root: seq<KV>)
      modifies t
      ensures t.m == old(t.m) + CompiledObj(root)
    {
      var compiled := CompileObj(root);
      var rest := compiled.Keys;
      while rest != {}
        invariant rest <= compiled.Keys
        invariant t.m == old(t.m) + (map k | k in compiled.Keys - rest :: compiled[k])
        decreases rest
      {
        var k :| k in rest;
        t.m := t.m[k := compiled[k]];
        rest := rest - {k};
      }
      assert compiled.Keys - rest == compiled.Keys;
      assert (map k | k in compiled.Keys :: compiled[k]) == compiled;
    }

    /** compileObj */
    method CompileObj(kvs: seq<KV>) returns (m: map<string, Any>)
      ensures m == CompiledObj(kvs)
      decreases kvs, 1
    {
      m := map[];
      var i := 0;
      while i < |kvs|
        invariant 0 <= i <= |kvs|
        invariant m == CompiledObj(kvs[..i])
        decreases |kvs| - i
      {
        var value := CompileKV(kvs[i]);
        assert kvs[..i + 1][..i] == kvs[..i];
        m := m[kvs[i].key := value];
        i := i + 1;
      }
      assert kvs[..i] == kvs;
    }

    method CompileKV(kv: KV) returns (r: Any)
      ensures r == CompiledKV(kv)
      decreases kv, 3
    {
      r := CompileExpr(kv.value);
    }

    /** compileArr */
    method CompileArr(es: seq<Expr>) returns (a: seq<Any>)
      ensures a == CompiledArr(es)
      decreases es, 1
    {
      a := [];
      var i := 0;
      while i < |es|
        invariant 0 <= i <= |es|
        invariant a == CompiledArr(es[..i])
        decreases |es| - i
      {
        var e := CompileElement(es, i);
        assert es[..i + 1][..i] == es[..i];
        a := a + [e];
        i := i + 1;
      }
      assert es[..i] == es;
    }

    method CompileElement(es: seq<Expr>, i: nat) returns (r: Any)
      requires i < |es|
      ensures r == CompiledExpr(es[i])
      decreases es, 0
    {
      r := CompileExpr(es[i]);
    }

    /** compileExpr */
    method CompileExpr(e: Expr) returns (r: Any)
      ensures r == CompiledExpr(e)
      decreases e, 2
    {
      match e {
        case Object(kvs) =>
          var m := CompileObj(kvs);
          r := MapA(m);
        case Array(es) =>
          var a := CompileArr(es);
          r := SliceA(a);
        case Str(s) => r := StrA(s);
        case Bool(b) => r := BoolA(b);
        case Int(i) => r := IntA(i);
        case Float(t) => r := FloatA(t);
      }
    }
  }
}
