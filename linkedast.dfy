// The linked tree (linker/ast): what is left once variables, environment
// references and spreads are resolved, and lookup of an expression by key
// path (linker/ast/object.go).

module LinkedAst {
  import opened Wrappers

  /** Expressions of the linked tree. A Float keeps its lexeme. */
  datatype Expr =
    | Object(kvs: seq<KV>)
    | Array(elements: seq<Expr>)
    | Str(s: string)
    | Int(i: int)
    | Float(text: string)
    | Bool(b: bool)

  datatype KV = KV(key: string, value: Expr)

  /** A NotFound error, and the "unexpected value" met when a path goes
      through a non-Object. */
  datatype FindError = NotFound | UnexpectedValue

  /** The keys of a KV list, in order. */
  function KeysOf(kvs: seq<KV>): (ks: seq<string>)
    ensures |ks| == |kvs|
    ensures forall i :: 0 <= i < |kvs| ==> ks[i] == kvs[i].key
  {
    seq(|kvs|, i requires 0 <= i < |kvs| => kvs[i].key)
  }

  // ---- nesting depth of objects, which bounds recursive merging ----

  function Depth(e: Expr): nat
    decreases e, 1
  {
    if e.Object? then 1 + KVsDepth(e.kvs) else 0
  }

  function KVsDepth(kvs: seq<KV>): nat
    decreases kvs, 0
  {
    if kvs == [] then 0
    else
      var d, rest := Depth(kvs[0].value), KVsDepth(kvs[1..]);
      if d < rest then rest else d
  }

  /** Every value of an object is shallower than the object. */
  lemma {:induction false} ValuesShallower(kvs: seq<KV>)
    ensures forall i :: 0 <= i < |kvs| ==> Depth(kvs[i].value) < Depth(Object(kvs))
  {
    if kvs != [] {
      ValuesShallower(kvs[1..]);
      forall i | 0 <= i < |kvs|
        ensures Depth(kvs[i].value) < Depth(Object(kvs))
      {
        if i > 0 {
          assert kvs[i] == kvs[1..][i - 1];
        }
      }
    }
  }

  // ---- lookup by key path ----

  /** The value of the first KV keyed `key`: the independent statement of
      which KV a lookup uses. */
  function Lookup(kvs: seq<KV>, key: string): (r: Option<Expr>)
    ensures r.None? <==> key !in KeysOf(kvs)
  {
    if kvs == [] then None
    else if kvs[0].key == key then Some(kvs[0].value)
    else
      assert KeysOf(kvs) == [kvs[0].key] + KeysOf(kvs[1..]);
      Lookup(kvs[1..], key)
  }

  /** findExpByPath: scan the KVs for the first one keyed by the head of the
      path; a one-element path yields its value, a longer one descends into
      it when it is an Object and fails otherwise. */
  function FindIn(kvs: seq<KV>, path: seq<string>): (r: Result<Expr, FindError>)
    requires |path| >= 1
    ensures path[0] !in KeysOf(kvs) ==> r == Err(NotFound)
    ensures |path| == 1 ==> r == (if path[0] in KeysOf(kvs) then Ok(Lookup(kvs, path[0]).value) else Err(NotFound))
    decreases |path|, |kvs|
  {
    if kvs == [] then Err(NotFound)
    else if kvs[0].key != path[0] then
      assert KeysOf(kvs) == [kvs[0].key] + KeysOf(kvs[1..]);
      FindIn(kvs[1..], path)
    else if |path| == 1 then Ok(kvs[0].value)
    else match kvs[0].value
      case Object(inner) => FindIn(inner, path[1..])
      case _ => Err(UnexpectedValue)
  }

  /** FindExpByPath of an AST: its root object for the empty path. */
  function FindExpByPath(root: seq<KV>, path: seq<string>): (r: Result<Expr, FindError>)
    ensures |path| == 0 ==> r == Ok(Object(root))
    ensures |path| >= 1 && path[0] !in KeysOf(root) ==> r == Err(NotFound)
    ensures |path| == 1 && path[0] in KeysOf(root) ==> r == Ok(Lookup(root, path[0]).value)
  {
    if |path| == 0 then Ok(Object(root)) else FindIn(root, path)
  }

  /** Lookup is decided by the first KV with the head key alone. */
  lemma {:induction false} FindInByLookup(kvs: seq<KV>, path: seq<string>)
    requires |path| >= 1
    ensures FindIn(kvs, path) ==
      match Lookup(kvs, path[0])
      case None => Err(NotFound)
      case Some(v) =>
        if |path| == 1 then Ok(v)
        else if v.Object? then FindIn(v.kvs, path[1..])
        else Err(UnexpectedValue)
    decreases |kvs|
  {
    if kvs != [] && kvs[0].key != path[0] {
      FindInByLookup(kvs[1..], path);
    }
  }

  /** A successful lookup went through Objects only: every proper prefix of
      the path names an Object. */
  lemma {:induction false} FoundThroughObjects(kvs: seq<KV>, path: seq<string>, j: int)
    requires |path| >= 1 && FindIn(kvs, path).Ok?
    requires 1 <= j < |path|
    ensures FindIn(kvs, path[..j]).Ok? && FindIn(kvs, path[..j]).value.Object?
    decreases |path|, |kvs|
  {
    assert path[..j][0] == path[0];
    if kvs[0].key != path[0] {
      FoundThroughObjects(kvs[1..], path, j);
    } else if j > 1 {
      var inner := kvs[0].value.kvs;
      FoundThroughObjects(inner, path[1..], j - 1);
      assert path[..j][1..] == path[1..][..j - 1];
    }
  }

  /** A path of Objects only never meets an unexpected value: lookup either
      finds the last key or reports NotFound. */
  lemma {:induction false} AllObjectsNoUnexpected(kvs: seq<KV>, path: seq<string>)
    requires |path| >= 1
    requires AllObjects(kvs)
    ensures FindIn(kvs, path) != Err(UnexpectedValue)
    decreases |path|, |kvs|
  {
    if kvs != [] {
      if kvs[0].key != path[0] {
        AllObjectsNoUnexpected(kvs[1..], path);
      } else if |path| > 1 {
        AllObjectsNoUnexpected(kvs[0].value.kvs, path[1..]);
      }
    }
  }

  /** Every value, at every level, is an Object. */
  predicate AllObjects(kvs: seq<KV>)
    decreases kvs
  {
    forall i :: 0 <= i < |kvs| ==> kvs[i].value.Object? && AllObjects(kvs[i].value.kvs)
  }
}
