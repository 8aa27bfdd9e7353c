// The syntax tree produced by the parser (parser/ast/*.go): node kinds,
// literal constructors, locations, the pre-order `inspect` walk and lookup
// of a node by key path.

module RawAst {
  import opened Wrappers
  import opened Positions

  /** An identifier with the span of its token. */
  datatype Ident = Ident(name: string, location: Location)

  /** A dotted variable reference `a.b.c`. */
  datatype Var = Var(path: seq<Ident>, location: Location)

  /** `...var`-style spread: the variable and the span up to the `...`. */
  datatype Spread = Spread(v: Var, location: Location)

  datatype Object = Object(entries: seq<Entry>, location: Location)

  datatype KV = KV(key: Ident, value: Expr, location: Location)

  datatype Entry = KVEntry(kv: KV) | SpreadEntry(spread: Spread)

  /** Expressions. A Float keeps its lexeme: floating point is not modelled. */
  datatype Expr =
    | ObjectExpr(obj: Object)
    | ArrayExpr(elements: seq<Expr>, location: Location)
    | VarExpr(v: Var)
    | SpreadExpr(spread: Spread)
    | EnvExpr(name: Ident, location: Location)
    | IntLit(i: int, location: Location)
    | FloatLit(text: string, location: Location)
    | StringLit(s: string, location: Location)
    | BoolLit(b: bool, location: Location)

  /** The path text of an import, as written. */
  datatype ImportPath = ImportPath(value: string, location: Location)

  /** An import: the name it binds and the path token. */
  datatype Import = Import(name: Ident, path: ImportPath)

  /** A file: its imports and its root object. */
  datatype File = File(imports: seq<Import>, obj: Object)

  /** A parsed file together with its absolute path and the absolute path of
      each import, keyed by the import's path as written. */
  datatype WithPath = WithPath(file: File, absPath: string, importPaths: map<string, string>)

  /** The nodes a handler can be called on. */
  datatype Node = FileNode(file: File) | ImportNode(imp: Import) | KVNode(kv: KV) | ExprNode(e: Expr)

  function ExprLocation(e: Expr): Location
  {
    match e
    case ObjectExpr(o) => o.location
    case ArrayExpr(_, l) => l
    case VarExpr(v) => v.location
    case SpreadExpr(s) => s.location
    case EnvExpr(_, l) => l
    case IntLit(_, l) => l
    case FloatLit(_, l) => l
    case StringLit(_, l) => l
    case BoolLit(_, l) => l
  }

  // ---- literal constructors (parser/ast/literal.go) ----

  const MinInt64: int := -0x8000_0000_0000_0000
  const MaxInt64: int := 0x7FFF_FFFF_FFFF_FFFF

  predicate IsDecimalDigit(c: char) { '0' <= c <= '9' }

  predicate AllDigits(s: string) { forall i :: 0 <= i < |s| ==> IsDecimalDigit(s[i]) }

  /** The value of a run of decimal digits, most significant first. */
  function DigitsValue(s: string): (n: nat)
    requires AllDigits(s)
  {
    if s == [] then 0
    else DigitsValue(s[..|s| - 1]) * 10 + (s[|s| - 1] - '0') as int
  }

  /** `strconv.ParseInt(s, 10, 64)`: an optional sign, then one or more
      decimal digits, and a value within the 64-bit signed range. */
  function ParseInt64(s: string): (r: Option<int>)
    ensures r.Some? ==> MinInt64 <= r.value <= MaxInt64
  {
    var signed := |s| > 0 && (s[0] == '-' || s[0] == '+');
    var digits := if signed then s[1..] else s;
    if digits == [] || !AllDigits(digits) then None
    else
      var magnitude: int := DigitsValue(digits);
      var v := if signed && s[0] == '-' then -magnitude else magnitude;
      if MinInt64 <= v <= MaxInt64 then Some(v) else None
  }

  /** Why a literal could not be built. */
  datatype LiteralError = InvalidInt | InvalidBool

  /** NewInt: the Int literal, or an error when the text is not a 64-bit decimal. */
  function NewInt(text: string, loc: Location): (r: Result<Expr, LiteralError>)
    ensures r.Ok? <==> ParseInt64(text).Some?
    ensures r.Ok? ==> r.value == IntLit(ParseInt64(text).value, loc)
    ensures r.Err? ==> r.error == InvalidInt
  {
    match ParseInt64(text)
    case Some(v) => Ok(IntLit(v, loc))
    case None => Err(InvalidInt)
  }

  /** NewString: the lexeme verbatim, quotes and escapes included. */
  function NewString(text: string, loc: Location): (r: Expr)
    ensures r.StringLit? && r.s == text && ExprLocation(r) == loc
  {
    StringLit(text, loc)
  }

  /** NewBool: exactly `true` and `false` are accepted. */
  function NewBool(text: string, loc: Location): (r: Result<Expr, LiteralError>)
    ensures r.Ok? <==> text == "true" || text == "false"
    ensures r.Ok? ==> r.value == BoolLit(text == "true", loc)
    ensures r.Err? ==> r.error == InvalidBool
  {
    if text == "true" then Ok(BoolLit(true, loc))
    else if text == "false" then Ok(BoolLit(false, loc))
    else Err(InvalidBool)
  }

  // ---- decimal rendering, the partner of ParseInt64 ----

  function DigitChar(d: nat): char
    requires d < 10
  {
    (d + '0' as int) as char
  }

  /** The decimal digits of `n`, without leading zeros. */
  function Decimal(n: nat): (s: string)
    ensures |s| > 0 && AllDigits(s)
  {
    if n < 10 then [DigitChar(n)] else Decimal(n / 10) + [DigitChar(n % 10)]
  }

  /** `strconv.FormatInt(v, 10)`. */
  function FormatInt(v: int): string
  {
    if v < 0 then "-" + Decimal(-v) else Decimal(v)
  }

  lemma {:induction false} DigitsValueOfDecimal(n: nat)
    ensures DigitsValue(Decimal(n)) == n
  {
    if n >= 10 {
      var s := Decimal(n);
      assert s[..|s| - 1] == Decimal(n / 10);
      DigitsValueOfDecimal(n / 10);
    }
  }

  /** The rendering of a magnitude parses back to it exactly when it is in range. */
  lemma ParseDecimal(n: nat)
    ensures ParseInt64(Decimal(n)) == if n <= MaxInt64 then Some(n) else None
  {
    var s := Decimal(n);
    assert s[0] != '-' && s[0] != '+';
    DigitsValueOfDecimal(n);
  }

  /** The rendering of a negated magnitude parses back to it exactly when it is in range. */
  lemma ParseNegatedDecimal(n: nat)
    ensures ParseInt64("-" + Decimal(n)) == if -(n as int) >= MinInt64 then Some(-(n as int)) else None
  {
    var s := "-" + Decimal(n);
    assert s[0] == '-' && s[1..] == Decimal(n);
    DigitsValueOfDecimal(n);
  }

  /** Parsing the decimal rendering of any 64-bit value gives the value back. */
  lemma ParseFormatRoundTrip(v: int)
    requires MinInt64 <= v <= MaxInt64
    ensures ParseInt64(FormatInt(v)) == Some(v)
  {
    if v < 0 {
      ParseNegatedDecimal(-v);
    } else {
      ParseDecimal(v);
    }
  }

  /** Any decimal rendering outside the 64-bit range is rejected. */
  lemma ParseRejectsOutOfRange(v: int)
    requires v < MinInt64 || v > MaxInt64
    ensures ParseInt64(FormatInt(v)) == None
  {
    if v < 0 {
      ParseNegatedDecimal(-v);
    } else {
      ParseDecimal(v);
    }
  }

  // ---- constructors with computed locations ----

  /** NewKV: the span runs from the key's start to the value's end. */
  function NewKV(key: Ident, value: Expr): (r: KV)
    ensures r.key == key && r.value == value
    ensures r.location.start == key.location.start && r.location.end == ExprLocation(value).end
  {
    KV(key, value, Location(key.location.start, ExprLocation(value).end))
  }

  /** NewVar: the span runs from the first ident's start to the last ident's
      end; an empty path gets the zero location. */
  function NewVar(path: seq<Ident>): (r: Var)
    ensures r.path == path
    ensures |path| > 0 ==> r.location == Location(path[0].location.start, path[|path| - 1].location.end)
    ensures |path| == 0 ==> r.location == Location(ZeroPosition(), ZeroPosition())
  {
    if |path| > 0 then Var(path, Location(path[0].location.start, path[|path| - 1].location.end))
    else Var(path, Location(ZeroPosition(), ZeroPosition()))
  }

  /** StringPath: the names of the path's idents, in order. */
  function StringPath(v: Var): (r: seq<string>)
    ensures |r| == |v.path|
    ensures forall i :: 0 <= i < |r| ==> r[i] == v.path[i].name
  {
    seq(|v.path|, i requires 0 <= i < |v.path| => v.path[i].name)
  }

  // ---- the inspect walk ----
  //
  // The handler calls of `Ast.Inspect`, in order. A handler that fails
  // stops the walk; the caller (the analyzer) consumes this sequence one
  // node at a time and stops at the first failure, which is the same thing.

  function VisitExpr(e: Expr): (r: seq<Node>)
    ensures !e.ObjectExpr? ==> |r| >= 1 && r[0] == ExprNode(e)
    ensures e.SpreadExpr? ==> ExprNode(VarExpr(e.spread.v)) in r
    decreases e, 1
  {
    match e
    case ObjectExpr(o) => VisitEntries(o.entries)
    case ArrayExpr(elements, _) => [ExprNode(e)] + VisitElements(elements)
    case SpreadExpr(s) => [ExprNode(e), ExprNode(VarExpr(s.v))]
    case _ => [ExprNode(e)]
  }

  function VisitElements(elements: seq<Expr>): (r: seq<Node>)
    ensures forall x :: x in elements && !x.ObjectExpr? ==> ExprNode(x) in r
    decreases elements, 0
  {
    if elements == [] then [] else VisitExpr(elements[0]) + VisitElements(elements[1..])
  }

  function VisitEntry(entry: Entry): (r: seq<Node>)
    ensures entry.KVEntry? ==> KVNode(entry.kv) in r
    ensures entry.SpreadEntry? ==> ExprNode(VarExpr(entry.spread.v)) in r
    decreases entry, 1
  {
    match entry
    case KVEntry(kv) => [KVNode(kv)] + VisitExpr(kv.value)
    case SpreadEntry(s) => [ExprNode(SpreadExpr(s)), ExprNode(VarExpr(s.v))]
  }

  function VisitEntries(entries: seq<Entry>): (r: seq<Node>)
    ensures forall x :: x in entries && x.KVEntry? ==> KVNode(x.kv) in r
    decreases entries, 0
  {
    if entries == [] then [] else VisitEntry(entries[0]) + VisitEntries(entries[1..])
  }

  function VisitImports(imports: seq<Import>): seq<Node>
  {
    if imports == [] then [] else [ImportNode(imports[0])] + VisitImports(imports[1..])
  }

  /** Ast.Inspect: the file, its imports in order, then its object's entries. */
  function VisitFile(f: File): seq<Node>
  {
    [FileNode(f)] + VisitImports(f.imports) + VisitExpr(ObjectExpr(f.obj))
  }

  // ---- what the walk visits, stated independently ----

  /** Every variable reference in an expression, in source order, spread
      variables included. */
  function VarsOfExpr(e: Expr): seq<Var>
    decreases e, 1
  {
    match e
    case ObjectExpr(o) => VarsOfEntries(o.entries)
    case ArrayExpr(elements, _) => VarsOfElements(elements)
    case VarExpr(v) => [v]
    case SpreadExpr(s) => [s.v]
    case _ => []
  }

  function VarsOfElements(elements: seq<Expr>): seq<Var>
    decreases elements, 0
  {
    if elements == [] then [] else VarsOfExpr(elements[0]) + VarsOfElements(elements[1..])
  }

  function VarsOfEntry(entry: Entry): seq<Var>
    decreases entry, 1
  {
    match entry
    case KVEntry(kv) => VarsOfExpr(kv.value)
    case SpreadEntry(s) => [s.v]
  }

  function VarsOfEntries(entries: seq<Entry>): seq<Var>
    decreases entries, 0
  {
    if entries == [] then [] else VarsOfEntry(entries[0]) + VarsOfEntries(entries[1..])
  }

  /** The Var nodes of a visit sequence, in order. */
  function VarNodes(nodes: seq<Node>): seq<Var>
  {
    if nodes == [] then []
    else (if nodes[0].ExprNode? && nodes[0].e.VarExpr? then [nodes[0].e.v] else []) + VarNodes(nodes[1..])
  }

  lemma {:induction false} VarNodesAppend(a: seq<Node>, b: seq<Node>)
    ensures VarNodes(a + b) == VarNodes(a) + VarNodes(b)
  {
    if a == [] {
      assert a + b == b;
    } else {
      assert (a + b)[0] == a[0];
      assert (a + b)[1..] == a[1..] + b;
      VarNodesAppend(a[1..], b);
      var h := if a[0].ExprNode? && a[0].e.VarExpr? then [a[0].e.v] else [];
      assert VarNodes(a + b) == h + VarNodes(a[1..] + b);
      assert VarNodes(a) == h + VarNodes(a[1..]);
    }
  }

  /** The walk calls the handler on exactly the variable references of the
      tree, in source order; this is what makes the analyzer see every use. */
  lemma {:induction false} VisitExprSeesAllVars(e: Expr)
    ensures VarNodes(VisitExpr(e)) == VarsOfExpr(e)
    decreases e, 1
  {
    match e
    case ObjectExpr(o) => VisitEntriesSeesAllVars(o.entries);
    case ArrayExpr(elements, _) =>
      VarNodesAppend([ExprNode(e)], VisitElements(elements));
      VisitElementsSeesAllVars(elements);
    case SpreadExpr(s) =>
      VarNodesAppend([ExprNode(e)], [ExprNode(VarExpr(s.v))]);
    case _ =>
  }

  lemma {:induction false} VisitElementsSeesAllVars(elements: seq<Expr>)
    ensures VarNodes(VisitElements(elements)) == VarsOfElements(elements)
    decreases elements, 0
  {
    if elements != [] {
      VarNodesAppend(VisitExpr(elements[0]), VisitElements(elements[1..]));
      VisitExprSeesAllVars(elements[0]);
      VisitElementsSeesAllVars(elements[1..]);
    }
  }

  lemma {:induction false} VisitEntrySeesAllVars(entry: Entry)
    ensures VarNodes(VisitEntry(entry)) == VarsOfEntry(entry)
    decreases entry, 1
  {
    match entry
    case KVEntry(kv) =>
      VarNodesAppend([KVNode(kv)], VisitExpr(kv.value));
      VisitExprSeesAllVars(kv.value);
    case SpreadEntry(s) =>
      VarNodesAppend([ExprNode(SpreadExpr(s))], [ExprNode(VarExpr(s.v))]);
  }

  lemma {:induction false} VisitEntriesSeesAllVars(entries: seq<Entry>)
    ensures VarNodes(VisitEntries(entries)) == VarsOfEntries(entries)
    decreases entries, 0
  {
    if entries != [] {
      VarNodesAppend(VisitEntry(entries[0]), VisitEntries(entries[1..]));
      VisitEntrySeesAllVars(entries[0]);
      VisitEntriesSeesAllVars(entries[1..]);
    }
  }

  /** Every node of the sequence is a KV or an expression other than an
      Object. */
  predicate NoObjectNode(nodes: seq<Node>)
  {
    forall i :: 0 <= i < |nodes| ==> nodes[i].KVNode? || (nodes[i].ExprNode? && !nodes[i].e.ObjectExpr?)
  }

  lemma NoObjectNodeAppend(a: seq<Node>, b: seq<Node>)
    requires NoObjectNode(a) && NoObjectNode(b)
    ensures NoObjectNode(a + b)
  {
    forall i | 0 <= i < |a + b|
      ensures (a + b)[i].KVNode? || ((a + b)[i].ExprNode? && !(a + b)[i].e.ObjectExpr?)
    {
      if i < |a| { assert (a + b)[i] == a[i]; } else { assert (a + b)[i] == b[i - |a|]; }
    }
  }

  /** Object.inspect never calls the handler on an Object, so below the
      file the handler sees KVs and non-Object expressions only. */
  lemma {:induction false} VisitExprSkipsObjects(e: Expr)
    ensures NoObjectNode(VisitExpr(e))
    decreases e, 1
  {
    match e
    case ObjectExpr(o) => VisitEntriesSkipObjects(o.entries);
    case ArrayExpr(elements, _) =>
      VisitElementsSkipObjects(elements);
      NoObjectNodeAppend([ExprNode(e)], VisitElements(elements));
    case _ =>
  }

  lemma {:induction false} VisitElementsSkipObjects(elements: seq<Expr>)
    ensures NoObjectNode(VisitElements(elements))
    decreases elements, 0
  {
    if elements != [] {
      VisitExprSkipsObjects(elements[0]);
      VisitElementsSkipObjects(elements[1..]);
      NoObjectNodeAppend(VisitExpr(elements[0]), VisitElements(elements[1..]));
    }
  }

  lemma {:induction false} VisitEntrySkipsObjects(entry: Entry)
    ensures NoObjectNode(VisitEntry(entry))
    decreases entry, 1
  {
    match entry
    case KVEntry(kv) =>
      VisitExprSkipsObjects(kv.value);
      NoObjectNodeAppend([KVNode(kv)], VisitExpr(kv.value));
    case SpreadEntry(_) =>
  }

  lemma {:induction false} VisitEntriesSkipObjects(entries: seq<Entry>)
    ensures NoObjectNode(VisitEntries(entries))
    decreases entries, 0
  {
    if entries != [] {
      VisitEntrySkipsObjects(entries[0]);
      VisitEntriesSkipObjects(entries[1..]);
      NoObjectNodeAppend(VisitEntry(entries[0]), VisitEntries(entries[1..]));
    }
  }

  /** The handler is called on a KV before anything inside its value, and on
      an Array before any element. */
  lemma ParentVisitedFirst(kv: KV, elements: seq<Expr>, loc: Location)
    ensures VisitEntry(KVEntry(kv))[0] == KVNode(kv)
    ensures VisitExpr(ArrayExpr(elements, loc))[0] == ExprNode(ArrayExpr(elements, loc))
  {
  }

  // ---- lookup by key path (parser/ast/object.go) ----

  datatype LookupError = UnexpectedEntry | UnexpectedValue | NodeNotFound

  /** findNodeByPath over the entries of one object: the first KV whose key is
      the head of the path decides; a spread met before it is an error. */
  function FindInEntries(entries: seq<Entry>, path: seq<Ident>): (r: Result<Expr, LookupError>)
    requires |path| >= 1
    ensures r.Ok? ==> exists i :: 0 <= i < |entries| && entries[i].KVEntry? && entries[i].kv.key.name == path[0].name
    ensures r.Ok? && |path| == 1 ==>
      exists i :: 0 <= i < |entries| && entries[i].KVEntry? && entries[i].kv.key.name == path[0].name
                  && r.value == entries[i].kv.value
    ensures entries == [] ==> r == Err(NodeNotFound)
    decreases |path|, |entries|
  {
    if entries == [] then Err(NodeNotFound)
    else match entries[0]
      case SpreadEntry(_) => Err(UnexpectedEntry)
      case KVEntry(kv) =>
        if kv.key.name != path[0].name then FindInEntries(entries[1..], path)
        else if |path| == 1 then Ok(kv.value)
        else match kv.value
          case ObjectExpr(o) => FindInEntries(o.entries, path[1..])
          case _ => Err(UnexpectedValue)
  }

  /** FindNodeByPath: the object itself for an empty path. */
  function FindNodeByPath(o: Object, path: seq<Ident>): (r: Result<Expr, LookupError>)
    ensures |path| == 0 ==> r == Ok(ObjectExpr(o))
    ensures r.Ok? && |path| >= 1 ==>
      exists i :: 0 <= i < |o.entries| && o.entries[i].KVEntry? && o.entries[i].kv.key.name == path[0].name
  {
    if |path| == 0 then Ok(ObjectExpr(o)) else FindInEntries(o.entries, path)
  }

  /** The index of the first entry that is a spread or a KV keyed `name`. */
  predicate FirstHit(entries: seq<Entry>, name: string, i: nat)
  {
    && i < |entries|
    && (entries[i].SpreadEntry? || entries[i].kv.key.name == name)
    && forall j :: 0 <= j < i ==> entries[j].KVEntry? && entries[j].kv.key.name != name
  }

  /** Lookup is decided by the first hit: a spread there is an error; a KV
      there yields its value for a one-element path and descends into it
      otherwise; with no hit the node is not found. */
  lemma {:induction false} FindInEntriesFirstHit(entries: seq<Entry>, path: seq<Ident>)
    requires |path| >= 1
    ensures (forall j :: 0 <= j < |entries| ==> entries[j].KVEntry? && entries[j].kv.key.name != path[0].name)
            ==> FindInEntries(entries, path) == Err(NodeNotFound)
    ensures forall i: nat :: FirstHit(entries, path[0].name, i) ==>
      FindInEntries(entries, path) ==
        if entries[i].SpreadEntry? then Err(UnexpectedEntry)
        else if |path| == 1 then Ok(entries[i].kv.value)
        else if entries[i].kv.value.ObjectExpr? then FindInEntries(entries[i].kv.value.obj.entries, path[1..])
        else Err(UnexpectedValue)
    decreases |entries|
  {
    if entries != [] {
      FindInEntriesFirstHit(entries[1..], path);
      forall i: nat | FirstHit(entries, path[0].name, i) && i > 0
        ensures FirstHit(entries[1..], path[0].name, i - 1)
      {
        forall j | 0 <= j < i - 1
          ensures entries[1..][j].KVEntry? && entries[1..][j].kv.key.name != path[0].name
        {
          assert entries[1..][j] == entries[j + 1];
        }
      }
      if forall j :: 0 <= j < |entries| ==> entries[j].KVEntry? && entries[j].kv.key.name != path[0].name {
        assert forall j :: 0 <= j < |entries[1..]| ==> entries[1..][j] == entries[j + 1];
      }
    }
  }
}
