// The struct binder (compiler/struct.go): the linked tree is written into a
// caller's Go struct through reflection. Go types and values are modelled as
// descriptors: a Type says what reflect.Kind a location has, a Value is what
// the location holds, and a pointer is modelled by the value it points to.

module StructCompiling {
  import opened Wrappers
  import opened LinkedAst

  datatype SignedKind = I8 | I16 | I32 | I64 | IPlain
  datatype UnsignedKind = U8 | U16 | U32 | U64 | UPlain | UPtr
  datatype FloatKind = F32 | F64

  /** The static type of a Go location, as far as the binder inspects it.
      TOther stands for every kind the binder has no case for (map,
      interface, channel, function, array). */
  datatype Type =
    | TInt(sk: SignedKind)
    | TUint(uk: UnsignedKind)
    | TFloat(fk: FloatKind)
    | TString
    | TBool
    | TPtr(elem: Type)
    | TSlice(elem: Type)
    | TStruct(fields: seq<Field>)
    | TOther

  /** A struct field: its Go name, its parsed struct tag (key to value;
      a key that is absent reads as ""), and its type. */
  datatype Field = Field(name: string, tags: map<string, string>, ty: Type)

  /** The contents of a location. A pointer is nil or holds the value it
      points to; a nil slice and an empty slice are not told apart. */
  datatype Value =
    | IntV(i: int)
    | UintV(u: nat)
    | FloatV(text: string)
    | StrV(s: string)
    | BoolV(b: bool)
    | PtrV(target: Option<Value>)
    | SliceV(elems: seq<Value>)
    | StructV(fieldValues: seq<Value>)
    | OtherV

  /** NotPointer and NotStruct are the two kind checks of processObject,
      InvalidType and TypeOverflow the sentinels of compiler/errors.go,
      Panic a reflect call that panics. */
  datatype BindError = NotPointer | NotStruct | InvalidType | TypeOverflow | Panic

  const MaxInt64: int := 9223372036854775807
  const MinInt64: int := -9223372036854775808

  // ---- types and their values ----

  /** The values a Go location of type t can hold: integers within the
      width of their kind (int, uint and uintptr being 64 bits wide). */
  predicate HasType(v: Value, t: Type)
    decreases v
  {
    match t
    case TInt(k) => v.IntV? && Pow2(Width(k) - 1) * -1 <= v.i < Pow2(Width(k) - 1)
    case TUint(k) => v.UintV? && v.u < Pow2(UWidth(k))
    case TFloat(_) => v.FloatV?
    case TString => v.StrV?
    case TBool => v.BoolV?
    case TPtr(e) => v.PtrV? && (v.target.Some? ==> HasType(v.target.value, e))
    case TSlice(e) => v.SliceV? && forall i :: 0 <= i < |v.elems| ==> HasType(v.elems[i], e)
    case TStruct(fs) =>
      v.StructV? && |v.fieldValues| == |fs| &&
      forall i :: 0 <= i < |fs| ==> HasType(v.fieldValues[i], fs[i].ty)
    case TOther => v.OtherV?
  }

  function Width(k: SignedKind): nat
  {
    match k
    case I8 => 8
    case I16 => 16
    case I32 => 32
    case _ => 64
  }

  function UWidth(k: UnsignedKind): nat
  {
    match k
    case U8 => 8
    case U16 => 16
    case U32 => 32
    case _ => 64
  }

  function Pow2(n: nat): nat
  {
    if n == 0 then 1 else 2 * Pow2(n - 1)
  }

  /** The widths the binder meets, worked out once. */
  lemma {:induction false} Pow2Table()
    ensures Pow2(7) == 128 && Pow2(8) == 256
    ensures Pow2(15) == 32768 && Pow2(16) == 65536
    ensures Pow2(31) == 2147483648 && Pow2(32) == 4294967296
    ensures Pow2(63) == 9223372036854775808 && Pow2(64) == 18446744073709551616
  {
    assert Pow2(8) == 256;
    assert Pow2(16) == 256 * 256 by { Pow2Add(8, 8); }
    assert Pow2(32) == 65536 * 65536 by { Pow2Add(16, 16); }
    assert Pow2(64) == 4294967296 * 4294967296 by { Pow2Add(32, 32); }
  }

  lemma {:induction false} Pow2Add(a: nat, b: nat)
    ensures Pow2(a + b) == Pow2(a) * Pow2(b)
  {
    if a > 0 {
      Pow2Add(a - 1, b);
    }
  }

  /** reflect.Zero: the value of a fresh location. */
  function Zero(t: Type): (r: Value)
    ensures HasType(r, t)
    decreases t, 1
  {
    match t
    case TInt(_) => Pow2Table(); IntV(0)
    case TUint(_) => Pow2Table(); UintV(0)
    case TFloat(_) => FloatV("0")
    case TString => StrV("")
    case TBool => BoolV(false)
    case TPtr(_) => PtrV(None)
    case TSlice(_) => SliceV([])
    case TStruct(fs) => StructV(ZeroFields(fs))
    case TOther => OtherV
  }

  function ZeroFields(fs: seq<Field>): (r: seq<Value>)
    ensures |r| == |fs|
    ensures forall i :: 0 <= i < |fs| ==> HasType(r[i], fs[i].ty)
    decreases fs, 0
  {
    if fs == [] then []
    else
      var r := [ZeroField(fs[0])] + ZeroFields(fs[1..]);
      assert forall i :: 1 <= i < |fs| ==> fs[1..][i - 1] == fs[i];
      r
  }

  function ZeroField(f: Field): (r: Value)
    ensures HasType(r, f.ty)
    decreases f, 0
  {
    Zero(f.ty)
  }

  // ---- makeValueRecursive ----

  /** The type behind every level of pointer. */
  function Deref(t: Type): Type
  {
    if t.TPtr? then Deref(t.elem) else t
  }

  /** A chain of fresh pointers, one per level of t, ending in x. */
  function Wrap(t: Type, x: Value): (r: Value)
    requires HasType(x, Deref(t))
    ensures HasType(r, t)
  {
    if t.TPtr? then PtrV(Some(Wrap(t.elem, x))) else x
  }

  /** The value at the end of a pointer chain of type t, None when a
      pointer on the way is nil. */
  function Follow(v: Value, t: Type): Option<Value>
  {
    if t.TPtr? then
      if v.PtrV? && v.target.Some? then Follow(v.target.value, t.elem) else None
    else Some(v)
  }

  /** The chain Wrap builds reaches its value through every level. */
  lemma {:induction false} WrapThenFollow(t: Type, x: Value)
    requires HasType(x, Deref(t))
    ensures Follow(Wrap(t, x), t) == Some(x)
  {
    if t.TPtr? {
      WrapThenFollow(t.elem, x);
    }
  }

  /** What makeValueRecursive hands back for a location of type t holding
      v: the location itself when t is not a pointer, otherwise the end of
      a freshly allocated chain, which holds a zero value whatever v was. */
  function Start(t: Type, v: Value): (r: Value)
    requires HasType(v, t)
    ensures HasType(r, Deref(t))
  {
    if t.TPtr? then Zero(Deref(t)) else v
  }

  // ---- checkInt, checkUInt, processLiteral ----

  /** checkInt: the bounds of the math package for the kind. */
  function CheckInt(i: int, k: SignedKind): (r: Option<BindError>)
    ensures r.None? <==> HasType(IntV(i), TInt(k))
    ensures r.Some? ==> r.value == TypeOverflow
  {
    Pow2Table();
    var (lo, hi) := match k
      case I8 => (-128, 127)
      case I16 => (-32768, 32767)
      case I32 => (-2147483648, 2147483647)
      case I64 => (MinInt64, MaxInt64)
      case IPlain => (MinInt64, MaxInt64);
    if i > hi then Some(TypeOverflow)
    else if i < lo then Some(TypeOverflow)
    else None
  }

  /** checkUInt: uint64 and uint are capped at the largest int64, and
      uintptr is refused. */
  function CheckUInt(i: int, k: UnsignedKind): (r: Option<BindError>)
    ensures k == UPtr ==> r == Some(InvalidType)
    ensures k != UPtr ==> (r.None? <==> 0 <= i <= MaxInt64 && i < Pow2(UWidth(k)))
    ensures k != UPtr && r.Some? ==> r.value == TypeOverflow
  {
    Pow2Table();
    match k
    case UPtr => Some(InvalidType)
    case _ =>
      var hi := match k
        case U8 => 255
        case U16 => 65535
        case U32 => 4294967295
        case _ => MaxInt64;
      if i > hi then Some(TypeOverflow)
      else if i < 0 then Some(TypeOverflow)
      else None
  }

  /** processLiteral on a location of type t holding cur: the new contents
      or the error. SetString and SetBool on a location of another kind
      panic; an Object or Array reaches no case and changes nothing. */
  function Literal(e: Expr, t: Type, cur: Value): (r: Result<Value, BindError>)
    requires HasType(cur, t)
    ensures r.Ok? ==> HasType(r.value, t)
    ensures e.Int? && t.TInt? ==>
      (r.Ok? <==> HasType(IntV(e.i), t)) && (r.Ok? ==> r.value == IntV(e.i)) && (r.Err? ==> r.error == TypeOverflow)
    ensures e.Int? && t.TUint? && t.uk == UPtr ==> r == Err(InvalidType)
    ensures e.Int? && t.TUint? && t.uk != UPtr ==>
      (r.Ok? <==> 0 <= e.i <= MaxInt64 && e.i < Pow2(UWidth(t.uk))) &&
      (r.Ok? ==> r.value.UintV? && r.value.u == e.i) && (r.Err? ==> r.error == TypeOverflow)
    ensures e.Int? && !t.TInt? && !t.TUint? ==> r == Err(InvalidType)
    ensures e.Float? ==> (r.Ok? <==> t.TFloat?) && (r.Ok? ==> r.value == FloatV(e.text)) && (r.Err? ==> r.error == InvalidType)
    ensures e.Str? ==> (r.Ok? <==> t.TString?) && (r.Ok? ==> r.value == StrV(e.s)) && (r.Err? ==> r.error == Panic)
    ensures e.Bool? ==> (r.Ok? <==> t.TBool?) && (r.Ok? ==> r.value == BoolV(e.b)) && (r.Err? ==> r.error == Panic)
    ensures e.Object? || e.Array? ==> r == Ok(cur)
  {
    match e
    case Int(i) =>
      (match t
       case TInt(k) => if CheckInt(i, k).None? then Ok(IntV(i)) else Err(CheckInt(i, k).value)
       case TUint(k) => if CheckUInt(i, k).None? then Ok(UintV(i)) else Err(CheckUInt(i, k).value)
       case _ => Err(InvalidType))
    case Float(text) => if t.TFloat? then Ok(FloatV(text)) else Err(InvalidType)
    case Str(s) => if t.TString? then Ok(StrV(s)) else Err(Panic)
    case Bool(b) => if t.TBool? then Ok(BoolV(b)) else Err(Panic)
    case _ => Ok(cur)
  }

  // ---- getObjectField ----

  /** The name a field answers to: its tag under tagName when that is
      non-empty, its Go name otherwise. */
  function FieldName(f: Field, tagName: string): string
  {
    if tagName in f.tags && f.tags[tagName] != "" then f.tags[tagName] else f.name
  }

  /** getObjectField: the first field answering to name, or NotFound. */
  function FieldIndex(fs: seq<Field>, tagName: string, name: string): (r: Option<nat>)
    ensures r.Some? ==> r.value < |fs| && FieldName(fs[r.value], tagName) == name
    ensures r.Some? ==> forall j :: 0 <= j < r.value ==> FieldName(fs[j], tagName) != name
    ensures r.None? <==> forall j :: 0 <= j < |fs| ==> FieldName(fs[j], tagName) != name
  {
    if fs == [] then None
    else if FieldName(fs[0], tagName) == name then Some(0)
    else
      match FieldIndex(fs[1..], tagName, name)
      case None => None
      case Some(j) => Some(j + 1)
  }

  // ---- processObject and processArray ----

  /** What a location holds after a write, and the error that stopped it.
      Writes made before an error stay in place. */
  datatype Filled = Filled(v: Value, err: Option<BindError>)

  /** processObject on a pointer to a location of type t holding v. */
  function ObjectInto(tagName: string, kvs: seq<KV>, t: Type, v: Value): (r: Filled)
    requires HasType(v, t)
    ensures HasType(r.v, t)
    ensures !t.TStruct? ==> r == Filled(v, Some(NotStruct))
    decreases kvs, 4
  {
    if !t.TStruct? then Filled(v, Some(NotStruct))
    else KVsInto(tagName, kvs, t.fields, v)
  }

  /** The KV loop of processObject, in order, stopping at the first error. */
  function KVsInto(tagName: string, kvs: seq<KV>, fs: seq<Field>, v: Value): (r: Filled)
    requires HasType(v, TStruct(fs))
    ensures HasType(r.v, TStruct(fs))
    decreases kvs, 3
  {
    if kvs == [] then Filled(v, None)
    else
      var prev := KVsInto(tagName, kvs[..|kvs| - 1], fs, v);
      if prev.err.Some? then prev
      else KVInto(tagName, kvs[|kvs| - 1], fs, prev.v)
  }

  /** One KV: a key no field answers to is skipped. */
  function KVInto(tagName: string, kv: KV, fs: seq<Field>, v: Value): (r: Filled)
    requires HasType(v, TStruct(fs))
    ensures HasType(r.v, TStruct(fs))
    ensures FieldIndex(fs, tagName, kv.key).None? ==> r == Filled(v, None)
    ensures FieldIndex(fs, tagName, kv.key).Some? ==>
      var i := FieldIndex(fs, tagName, kv.key).value;
      var fr := FieldInto(tagName, kv.value, fs[i].ty, v.fieldValues[i]);
      r.err == fr.err && r.v.fieldValues[i] == fr.v &&
      forall j :: 0 <= j < |fs| && j != i ==> r.v.fieldValues[j] == v.fieldValues[j]
    decreases kv, 0
  {
    match FieldIndex(fs, tagName, kv.key)
    case None => Filled(v, None)
    case Some(i) =>
      var fr := FieldInto(tagName, kv.value, fs[i].ty, v.fieldValues[i]);
      Filled(StructV(v.fieldValues[i := fr.v]), fr.err)
  }

  /** A field of type ft holding fv receives e. An array is built aside
      and stored only when complete; an object or a literal goes through
      makeValueRecursive first. */
  function FieldInto(tagName: string, e: Expr, ft: Type, fv: Value): (r: Filled)
    requires HasType(fv, ft)
    ensures HasType(r.v, ft)
    ensures e.Array? ==> (r.err.None? <==> ft.TSlice? && ElementsInto(tagName, e.elements, ft.elem).Ok?)
    ensures e.Array? && r.err.None? ==> r.v == SliceV(ElementsInto(tagName, e.elements, ft.elem).value)
    ensures e.Array? && r.err.Some? ==> r.v == fv
    ensures e.Object? ==>
      var inner := ObjectInto(tagName, e.kvs, Deref(ft), Start(ft, fv));
      r.err == inner.err && Follow(r.v, ft) == Some(inner.v)
    ensures !e.Array? && !e.Object? ==>
      var lit := Literal(e, Deref(ft), Start(ft, fv));
      (r.err.None? <==> lit.Ok?) && (lit.Ok? ==> Follow(r.v, ft) == Some(lit.value)) &&
      (lit.Err? ==> r.err == Some(lit.error) && Follow(r.v, ft) == Some(Start(ft, fv)))
    decreases e, 0
  {
    match e
    case Array(es) =>
      (match ArrayInto(tagName, TPtr(ft), true, es)
       case Ok(x) => Filled(x, None)
       case Err(x) => Filled(fv, Some(x)))
    case Object(kvs) =>
      var inner := ObjectInto(tagName, kvs, Deref(ft), Start(ft, fv));
      WrapThenFollow(ft, inner.v);
      Filled(Wrap(ft, inner.v), inner.err)
    case _ =>
      var cur := Start(ft, fv);
      (match Literal(e, Deref(ft), cur)
       case Ok(x) => WrapThenFollow(ft, x); Filled(Wrap(ft, x), None)
       case Err(x) => WrapThenFollow(ft, cur); Filled(Wrap(ft, cur), Some(x)))
  }

  /** processArray given a reflect value of type holder, which is a live
      (non-nil) pointer when live holds. field.Type().Elem() panics unless
      holder is a pointer or a slice, MakeSlice panics unless that element
      type is a slice, and the final field.Elem().Set panics unless holder
      is a live pointer. On success: the new slice to store. */
  function ArrayInto(tagName: string, holder: Type, live: bool, es: seq<Expr>): (r: Result<Value, BindError>)
    ensures r.Ok? ==> holder.TPtr? && HasType(r.value, holder.elem)
    ensures r.Ok? ==> r.value.SliceV? && |r.value.elems| == |es|
    decreases es, 2
  {
    if !(holder.TPtr? || holder.TSlice?) || !holder.elem.TSlice? then Err(Panic)
    else
      match ElementsInto(tagName, es, holder.elem.elem)
      case Err(x) => Err(x)
      case Ok(vs) => if holder.TPtr? && live then Ok(SliceV(vs)) else Err(Panic)
  }

  /** The element loop of processArray, in order, stopping at the first
      error. */
  function ElementsInto(tagName: string, es: seq<Expr>, et: Type): (r: Result<seq<Value>, BindError>)
    ensures r.Ok? ==> |r.value| == |es|
    ensures r.Ok? ==> forall i :: 0 <= i < |es| ==> HasType(r.value[i], et)
    decreases es, 1
  {
    if es == [] then Ok([])
    else
      match ElementsInto(tagName, es[..|es| - 1], et)
      case Err(x) => Err(x)
      case Ok(vs) =>
        match ElementInto(tagName, es[|es| - 1], et)
        case Err(x) => Err(x)
        case Ok(v) => Ok(vs + [v])
  }

  /** One element, written into a fresh zero slot of type et. A nested
      array is processed through the slot's address, as a field is. */
  function ElementInto(tagName: string, e: Expr, et: Type): (r: Result<Value, BindError>)
    ensures r.Ok? ==> HasType(r.value, et)
    ensures e.Array? ==> (r.Ok? <==> et.TSlice? && ElementsInto(tagName, e.elements, et.elem).Ok?)
    ensures e.Array? && r.Ok? ==> r.value == SliceV(ElementsInto(tagName, e.elements, et.elem).value)
    ensures e.Object? ==>
      var inner := ObjectInto(tagName, e.kvs, Deref(et), Start(et, Zero(et)));
      (r.Ok? <==> inner.err.None?) && (r.Ok? ==> Follow(r.value, et) == Some(inner.v))
    ensures !e.Array? && !e.Object? ==> r == Literal(e, et, Zero(et))
    decreases e, 0
  {
    match e
    case Object(kvs) =>
      var inner := ObjectInto(tagName, kvs, Deref(et), Start(et, Zero(et)));
      WrapThenFollow(et, inner.v);
      if inner.err.Some? then Err(inner.err.value) else Ok(Wrap(et, inner.v))
    case Array(inner) => ArrayInto(tagName, TPtr(et), true, inner)
    case _ => Literal(e, et, Zero(et))
  }

  /** A nested array as compiler/struct.go:81-83 processes it: the slot
      itself rather than its address is handed to processArray. */
  function ElementIntoAsWritten(tagName: string, e: Expr, et: Type): Result<Value, BindError>
  {
    match e
    case Array(inner) => ArrayInto(tagName, et, false, inner)
    case _ => ElementInto(tagName, e, et)
  }

  // ---- the binder ----

  /** The struct a caller passes a pointer to. */
  class Target {
    const ty: Type
    var value: Value

    constructor(ty: Type, value: Value)
      requires HasType(value, ty)
      ensures this.ty == ty && this.value == value && Valid()
    {
      this.ty := ty;
      this.value := value;
    }

    ghost predicate Valid()
      reads this
    {
      HasType(value, ty)
    }
  }

  /** The argument of Compile: a non-nil pointer, a nil pointer, or
      something that is not a pointer. */
  datatype Arg = PointerTo(target: Target) | NilPointer | NotAPointer

  class StructCompiler {
    const tagName: string

    constructor(tagName: string)
      ensures this.tagName == tagName
    {
      this.tagName := tagName;
    }

    /** Compile: processObject on the root object and the argument. */
    method Compile(arg: Arg, root: seq<KV>) returns (err: Option<BindError>)
      requires arg.PointerTo? ==> arg.target.Valid()
      modifies if arg.PointerTo? then {arg.target} else {}
      ensures arg.NotAPointer? ==> err == Some(NotPointer)
      ensures arg.NilPointer? ==> err == Some(NotStruct)
      ensures arg.PointerTo? ==> arg.target.Valid()
      ensures arg.PointerTo? ==>
                Filled(arg.target.value, err) == ObjectInto(tagName, root, arg.target.ty, old(arg.target.value))
    {
      match arg {
        case NotAPointer => err := Some(NotPointer);
        case NilPointer => err := Some(NotStruct);
        case PointerTo(target) =>
          var r := ProcessObject(root, target.ty, target.value);
          target.value := r.v;
          err := r.err;
      }
    }

    /** processObject */
    method ProcessObject(kvs: seq<KV>, t: Type, v: Value) returns (r: Filled)
      requires HasType(v, t)
      ensures r == ObjectInto(tagName, kvs, t, v)
      decreases kvs, 4
    {
      if !t.TStruct? {
        return Filled(v, Some(NotStruct));
      }
      var cur := v;
      var i := 0;
      while i < |kvs|
        invariant 0 <= i <= |kvs|
        invariant KVsInto(tagName, kvs[..i], t.fields, v) == Filled(cur, None)
        decreases |kvs| - i
      {
        assert kvs[..i + 1][..i] == kvs[..i];
        var step := ProcessKV(kvs[i], t.fields, cur);
        if step.err.Some? {
          KVsStopAtError(tagName, kvs, i + 1, t.fields, v);
          return step;
        }
        cur := step.v;
        i := i + 1;
      }
      assert kvs[..i] == kvs;
      return Filled(cur, None);
    }

    /** The body of processObject's loop for the KV at index i. */
    method ProcessKV(kv: KV, fs: seq<Field>, v: Value) returns (r: Filled)
      requires HasType(v, TStruct(fs))
      ensures r == KVInto(tagName, kv, fs, v)
      decreases kv, 1
    {
      var idx := GetObjectField(fs, kv.key);
      if idx.None? {
        return Filled(v, None);
      }
      var j := idx.value;
      var fr := ProcessField(kv.value, fs[j].ty, v.fieldValues[j]);
      return Filled(StructV(v.fieldValues[j := fr.v]), fr.err);
    }

    /** The switch of processObject's loop on the value e of a KV. */
    method ProcessField(e: Expr, ft: Type, fv: Value) returns (r: Filled)
      requires HasType(fv, ft)
      ensures r == FieldInto(tagName, e, ft, fv)
      decreases e, 0
    {
      match e {
        case Array(es) =>
          var a := ProcessArray(TPtr(ft), true, es);
          if a.Err? {
            return Filled(fv, Some(a.error));
          }
          return Filled(a.value, None);
        case Object(kvs) =>
          var start := Start(ft, fv);
          var inner := ProcessObject(kvs, Deref(ft), start);
          return Filled(Wrap(ft, inner.v), inner.err);
        case _ =>
          var cur := Start(ft, fv);
          var lit := Literal(e, Deref(ft), cur);
          if lit.Err? {
            return Filled(Wrap(ft, cur), Some(lit.error));
          }
          return Filled(Wrap(ft, lit.value), None);
      }
    }

    /** processArray: a zero slice of the right length is filled slot by
      slot and stored at the end. */
    method ProcessArray(holder: Type, live: bool, es: seq<Expr>) returns (r: Result<Value, BindError>)
      ensures r == ArrayInto(tagName, holder, live, es)
      decreases es, 2
    {
      if !(holder.TPtr? || holder.TSlice?) || !holder.elem.TSlice? {
        return Err(Panic);
      }
      var et := holder.elem.elem;
      var result := seq(|es|, _ => Zero(et));
      var idx := 0;
      while idx < |es|
        invariant 0 <= idx <= |es| && |result| == |es|
        invariant ElementsInto(tagName, es[..idx], et) == Ok(result[..idx])
        decreases |es| - idx
      {
        assert es[..idx + 1][..idx] == es[..idx];
        var x := ProcessElement(es[idx], et);
        if x.Err? {
          ElementsStopAtError(tagName, es, idx + 1, et);
          return Err(x.error);
        }
        result := result[idx := x.value];
        assert result[..idx + 1] == result[..idx] + [x.value];
        idx := idx + 1;
      }
      assert es[..idx] == es;
      assert result[..idx] == result;
      if !(holder.TPtr? && live) {
        return Err(Panic);
      }
      return Ok(SliceV(result));
    }

    /** The switch of processArray's loop on one element. */
    method ProcessElement(e: Expr, et: Type) returns (r: Result<Value, BindError>)
      ensures r == ElementInto(tagName, e, et)
      decreases e, 0
    {
      match e {
        case Object(kvs) =>
          var inner := ProcessObject(kvs, Deref(et), Start(et, Zero(et)));
          if inner.err.Some? {
            return Err(inner.err.value);
          }
          return Ok(Wrap(et, inner.v));
        case Array(inner) =>
          r := ProcessArray(TPtr(et), true, inner);
        case _ =>
          r := Literal(e, et, Zero(et));
      }
    }

    /** getObjectField */
    method GetObjectField(fs: seq<Field>, name: string) returns (r: Option<nat>)
      ensures r == FieldIndex(fs, tagName, name)
    {
      var i := 0;
      while i < |fs|
        invariant 0 <= i <= |fs|
        invariant forall j :: 0 <= j < i ==> FieldName(fs[j], tagName) != name
        decreases |fs| - i
      {
        var fieldName := fs[i].name;
        if tagName in fs[i].tags && fs[i].tags[tagName] != "" {
          fieldName := fs[i].tags[tagName];
        }
        if fieldName == name {
          return Some(i);
        }
        i := i + 1;
      }
      return None;
    }
  }

  // ---- the folds stop at the first error ----

  /** Once a prefix of the KVs has failed, the whole list gives the same
      result: later KVs are not looked at. */
  lemma {:induction false} KVsStopAtError(tagName: string, kvs: seq<KV>, n: nat, fs: seq<Field>, v: Value)
    requires n <= |kvs| && HasType(v, TStruct(fs))
    requires KVsInto(tagName, kvs[..n], fs, v).err.Some?
    ensures KVsInto(tagName, kvs, fs, v) == KVsInto(tagName, kvs[..n], fs, v)
    decreases |kvs|
  {
    if n < |kvs| {
      var init := kvs[..|kvs| - 1];
      assert init[..n] == kvs[..n];
      KVsStopAtError(tagName, init, n, fs, v);
    } else {
      assert kvs[..n] == kvs;
    }
  }

  /** Once a prefix of the elements has failed, the whole list gives the
      same error. */
  lemma {:induction false} ElementsStopAtError(tagName: string, es: seq<Expr>, n: nat, et: Type)
    requires n <= |es|
    requires ElementsInto(tagName, es[..n], et).Err?
    ensures ElementsInto(tagName, es, et) == ElementsInto(tagName, es[..n], et)
    decreases |es|
  {
    if n < |es| {
      var init := es[..|es| - 1];
      assert init[..n] == es[..n];
      ElementsStopAtError(tagName, init, n, et);
    } else {
      assert es[..n] == es;
    }
  }
}
