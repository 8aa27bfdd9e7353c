// Properties of the struct binder (compiler/struct.go): the range checks,
// keys that name no field, errors in the middle of an object, pointers
// allocated afresh, and nested arrays.

module StructFacts {
  import opened Wrappers
  import opened LinkedAst
  import opened StructCompiling

  // ---- the range checks ----

  /** For every value an int64 can hold, checkUInt accepts exactly the
      values the unsigned kind can hold: capping uint64 and uint at the
      largest int64 loses nothing, because no larger value reaches it. */
  lemma UnsignedCheckExact(i: int, k: UnsignedKind)
    requires MinInt64 <= i <= MaxInt64 && k != UPtr
    ensures CheckUInt(i, k).None? <==> 0 <= i < Pow2(UWidth(k))
  {
    Pow2Table();
  }

  /** 500 does not fit an int8. */
  lemma Int8Overflow()
    ensures Literal(Int(500), TInt(I8), IntV(0)) == Err(TypeOverflow)
  {
    Pow2Table();
  }

  // ---- makeValueRecursive ----

  /** A pointer field receiving an object or a literal is given a fresh
      chain: what it pointed to before does not matter. */
  lemma PointerFieldReallocated(tagName: string, e: Expr, t: Type, fv1: Value, fv2: Value)
    requires !e.Array? && HasType(fv1, TPtr(t)) && HasType(fv2, TPtr(t))
    ensures FieldInto(tagName, e, TPtr(t), fv1) == FieldInto(tagName, e, TPtr(t), fv2)
  {
  }

  // ---- processObject ----

  /** The KVs whose key some field answers to, in order. */
  function Known(tagName: string, kvs: seq<KV>, fs: seq<Field>): seq<KV>
  {
    if kvs == [] then []
    else
      var last := kvs[|kvs| - 1];
      Known(tagName, kvs[..|kvs| - 1], fs) +
        (if FieldIndex(fs, tagName, last.key).Some? then [last] else [])
  }

  /** KVs that name no field are skipped: dropping them first changes
      neither the struct nor the error. */
  lemma {:induction false} UnknownKeysSkipped(tagName: string, kvs: seq<KV>, fs: seq<Field>, v: Value)
    requires HasType(v, TStruct(fs))
    ensures KVsInto(tagName, kvs, fs, v) == KVsInto(tagName, Known(tagName, kvs, fs), fs, v)
  {
    if kvs != [] {
      var init := kvs[..|kvs| - 1];
      var last := kvs[|kvs| - 1];
      UnknownKeysSkipped(tagName, init, fs, v);
      if FieldIndex(fs, tagName, last.key).Some? {
        var known := Known(tagName, init, fs) + [last];
        assert known[..|known| - 1] == Known(tagName, init, fs);
      } else {
        assert Known(tagName, kvs, fs) == Known(tagName, init, fs) + [];
        assert Known(tagName, init, fs) + [] == Known(tagName, init, fs);
      }
    }
  }

  /** The KVs before index j were all written without error, and the
      object's result is the write of KV j on top of them. */
  ghost predicate FailsAt(tagName: string, kvs: seq<KV>, fs: seq<Field>, v: Value, j: int)
    requires HasType(v, TStruct(fs))
  {
    0 <= j < |kvs| && KVsInto(tagName, kvs[..j], fs, v).err.None? &&
    KVsInto(tagName, kvs, fs, v) == KVInto(tagName, kvs[j], fs, KVsInto(tagName, kvs[..j], fs, v).v)
  }

  /** An object that fails does so at one KV: the KVs before it were all
      written, and the result is that KV's failing write on top of them. */
  lemma {:induction false} FailsAtOneKV(tagName: string, kvs: seq<KV>, fs: seq<Field>, v: Value)
    requires HasType(v, TStruct(fs))
    requires KVsInto(tagName, kvs, fs, v).err.Some?
    ensures exists j :: FailsAt(tagName, kvs, fs, v, j)
  {
    var init := kvs[..|kvs| - 1];
    var prev := KVsInto(tagName, init, fs, v);
    if prev.err.Some? {
      FailsAtOneKV(tagName, init, fs, v);
      var j :| FailsAt(tagName, init, fs, v, j);
      assert init[..j] == kvs[..j] && init[j] == kvs[j];
      assert KVsInto(tagName, kvs, fs, v) == prev;
      assert FailsAt(tagName, kvs, fs, v, j);
    } else {
      assert kvs[..|kvs| - 1] == init;
      assert FailsAt(tagName, kvs, fs, v, |kvs| - 1);
    }
  }

  /** The value of the last KV whose key field i answers to, if any. */
  function LastFor(tagName: string, kvs: seq<KV>, fs: seq<Field>, i: nat): Option<Expr>
  {
    if kvs == [] then None
    else if FieldIndex(fs, tagName, kvs[|kvs| - 1].key) == Some(i) then Some(kvs[|kvs| - 1].value)
    else LastFor(tagName, kvs[..|kvs| - 1], fs, i)
  }

  /** A literal's result does not depend on what the location held. */
  lemma LiteralIgnoresCur(e: Expr, t: Type, c1: Value, c2: Value)
    requires !e.Array? && !e.Object? && HasType(c1, t) && HasType(c2, t)
    ensures Literal(e, t, c1) == Literal(e, t, c2)
  {
  }

  /** After an object is written without error, a field that no KV names
      keeps its old contents; a field whose last KV holds a literal holds
      that literal's value at the end of its pointer chain; and a field
      whose last KV holds an array holds the slice of its elements. */
  lemma {:induction false} KVsLastWins(tagName: string, kvs: seq<KV>, fs: seq<Field>, v: Value, i: nat)
    requires HasType(v, TStruct(fs)) && i < |fs|
    requires KVsInto(tagName, kvs, fs, v).err.None?
    ensures LastFor(tagName, kvs, fs, i).None? ==>
      KVsInto(tagName, kvs, fs, v).v.fieldValues[i] == v.fieldValues[i]
    ensures var e := LastFor(tagName, kvs, fs, i);
      e.Some? && !e.value.Array? && !e.value.Object? ==>
        var lit := Literal(e.value, Deref(fs[i].ty), Zero(Deref(fs[i].ty)));
        lit.Ok? && Follow(KVsInto(tagName, kvs, fs, v).v.fieldValues[i], fs[i].ty) == Some(lit.value)
    ensures var e := LastFor(tagName, kvs, fs, i);
      e.Some? && e.value.Array? ==>
        var fv := KVsInto(tagName, kvs, fs, v).v.fieldValues[i];
        fs[i].ty.TSlice? && fv.SliceV? && ElementsInto(tagName, e.value.elements, fs[i].ty.elem) == Ok(fv.elems)
  {
    if kvs != [] {
      var init := kvs[..|kvs| - 1];
      var last := kvs[|kvs| - 1];
      var prev := KVsInto(tagName, init, fs, v);
      assert prev.err.None?;
      KVsLastWins(tagName, init, fs, v, i);
      assert KVsInto(tagName, kvs, fs, v) == KVInto(tagName, last, fs, prev.v);
      if FieldIndex(fs, tagName, last.key) == Some(i) {
        var ft := fs[i].ty;
        if !last.value.Array? && !last.value.Object? {
          LiteralIgnoresCur(last.value, Deref(ft), Start(ft, prev.v.fieldValues[i]), Zero(Deref(ft)));
        }
      } else {
        assert LastFor(tagName, kvs, fs, i) == LastFor(tagName, init, fs, i);
      }
    }
  }

  // ---- processArray ----

  /** The element loop succeeds exactly when every element does, and then
      slot i holds element i. */
  lemma {:induction false} ElementsPointwise(tagName: string, es: seq<Expr>, et: Type)
    ensures ElementsInto(tagName, es, et).Ok? <==> forall i :: 0 <= i < |es| ==> ElementInto(tagName, es[i], et).Ok?
    ensures ElementsInto(tagName, es, et).Ok? ==>
      forall i :: 0 <= i < |es| ==> ElementInto(tagName, es[i], et) == Ok(ElementsInto(tagName, es, et).value[i])
  {
    if es != [] {
      var init := es[..|es| - 1];
      ElementsPointwise(tagName, init, et);
      assert forall i :: 0 <= i < |init| ==> init[i] == es[i];
    }
  }

  /** A field that receives an array is stored only when every element
      was; on error it keeps its old contents. */
  lemma ArrayFieldAtomic(tagName: string, es: seq<Expr>, ft: Type, fv: Value)
    requires HasType(fv, ft)
    requires FieldInto(tagName, Array(es), ft, fv).err.Some?
    ensures FieldInto(tagName, Array(es), ft, fv).v == fv
  {
  }

  // ---- nested arrays (compiler/struct.go:81-83) ----

  /** As written, an array inside an array never fills: processArray gets
      the slot, whose element type is not a slice type when the slot is a
      slice, and which cannot be written through when it is a pointer. */
  lemma NestedArrayAsWrittenFails(tagName: string, inner: seq<Expr>, et: Type)
    ensures ElementIntoAsWritten(tagName, Array(inner), et).Err?
  {
  }

  /** Corrected, an array inside an array of slices fills exactly as its
      elements do. */
  lemma NestedArrayFills(tagName: string, inner: seq<Expr>, e2: Type)
    ensures ElementInto(tagName, Array(inner), TSlice(e2)) ==
      match ElementsInto(tagName, inner, e2)
      case Ok(vs) => Ok(SliceV(vs))
      case Err(x) => Err(x)
  {
  }

  /** [[1]] into a [][]int field: the corrected binder stores it, the
      binder as written panics. */
  lemma NestedIntsCounterexample(tagName: string)
    ensures ElementInto(tagName, Array([Int(1)]), TSlice(TInt(IPlain))) == Ok(SliceV([IntV(1)]))
    ensures ElementIntoAsWritten(tagName, Array([Int(1)]), TSlice(TInt(IPlain))) == Err(Panic)
  {
    Pow2Table();
    var one := [Int(1)];
    assert one[..0] == [];
    assert CheckInt(1, IPlain).None?;
    assert ElementInto(tagName, Int(1), TInt(IPlain)) == Ok(IntV(1));
    assert [] + [IntV(1)] == [IntV(1)];
    assert ElementsInto(tagName, one, TInt(IPlain)) == Ok([IntV(1)]);
  }
}
