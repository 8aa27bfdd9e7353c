// The recursive-descent parser (parser/parser.go). Each method works on the
// token cursor it was given and is proved to return what the matching
// production of `Grammar` returns, to leave the cursor where that production
// leaves it, and to leave the stack of save points as it found it.

module Parsing {
  import opened Wrappers
  import opened Positions
  import opened Tokens
  import opened RawAst
  import opened Checker
  import opened Grammar
  import opened TokenCursor

  /** The outcome of a loop that has collected `done` and whose remaining
      iterations produce `rest` is the outcome of the whole loop. */
  predicate Continues<T(==)>(whole: Outcome<seq<T>>, done: seq<T>, rest: Outcome<seq<T>>)
  {
    whole.pos == rest.pos &&
    (rest.result.Err? ==> whole.result == rest.result) &&
    (rest.result.Ok? ==> whole.result == Ok(done + rest.result.value))
  }

  lemma ContinuesFromStart<T>(whole: Outcome<seq<T>>)
    ensures Continues(whole, [], whole)
  {
    if whole.result.Ok? {
      assert [] + whole.result.value == whole.result.value;
    }
  }

  /** The outcome of a loop whose first iteration produced `x` and whose
      remaining iterations produce `rest`. */
  function Prepend<T>(x: T, rest: Outcome<seq<T>>): Outcome<seq<T>>
  {
    match rest.result
    case Ok(xs) => Outcome(Ok([x] + xs), rest.pos)
    case Err(err) => Outcome(Err(err), rest.pos)
  }

  lemma ContinuesPrepend<T>(whole: Outcome<seq<T>>, done: seq<T>, x: T, rest: Outcome<seq<T>>)
    requires Continues(whole, done, Prepend(x, rest))
    ensures Continues(whole, done + [x], rest)
  {
    if rest.result.Ok? {
      assert done + ([x] + rest.result.value) == (done + [x]) + rest.result.value;
    }
  }

  /** One more entry of parseObject's loop. */
  lemma EntriesStep(t: seq<Token>, p: nat, whole: Outcome<seq<Entry>>, done: seq<Entry>)
    requires p <= |t| && !Match(t, p, [RBrace]) && PEntry(t, p).result.Ok?
    requires Continues(whole, done, PEntries(t, p))
    ensures Continues(whole, done + [PEntry(t, p).result.value], PEntries(t, PEntry(t, p).pos))
  {
    var e := PEntry(t, p);
    assert PEntries(t, p) == Prepend(e.result.value, PEntries(t, e.pos));
    ContinuesPrepend(whole, done, e.result.value, PEntries(t, e.pos));
  }

  /** One more element of parseArray's loop. */
  lemma ElementsStep(t: seq<Token>, p: nat, whole: Outcome<seq<Expr>>, done: seq<Expr>)
    requires p <= |t| && !Match(t, p, [RBracket]) && PExpr(t, p).result.Ok?
    requires Continues(whole, done, PElements(t, p))
    ensures Continues(whole, done + [PExpr(t, p).result.value], PElements(t, PExpr(t, p).pos))
  {
    var e := PExpr(t, p);
    assert PElements(t, p) == Prepend(e.result.value, PElements(t, e.pos));
    ContinuesPrepend(whole, done, e.result.value, PElements(t, e.pos));
  }

  /** One more import of parseImports' loop. */
  lemma ImportsStep(t: seq<Token>, p: nat, whole: Outcome<seq<Import>>, done: seq<Import>)
    requires p <= |t| && PImport(t, p).result.Ok?
    requires Continues(whole, done, PImportList(t, p))
    ensures Continues(whole, done + [PImport(t, p).result.value], PImportList(t, PImport(t, p).pos))
  {
    var i := PImport(t, p);
    assert PImportList(t, p) == Prepend(i.result.value, PImportList(t, i.pos));
    ContinuesPrepend(whole, done, i.result.value, PImportList(t, i.pos));
  }

  /** A loop that stops with nothing left to add has produced `done`. */
  lemma ContinuesToEnd<T>(whole: Outcome<seq<T>>, done: seq<T>, pos: nat)
    requires Continues(whole, done, Outcome(Ok([]), pos))
    ensures whole == Outcome(Ok(done), pos)
  {
    assert done + [] == done;
  }

  /** What parseKV returns once the key and the colon have been read and
      the value expression has produced `ex`. */
  function KVAfterKey(t: seq<Token>, p: nat, ex: Outcome<Expr>): Outcome<KV>
    requires p < |t|
  {
    match ex.result
    case Ok(e) => Outcome(Ok(NewKV(IdentAt(t, p), e)), ex.pos)
    case Err(TokenMismatch) => Outcome(Err(ExpectedNode), ex.pos)
    case Err(err) => Outcome(Err(err), ex.pos)
  }

  /** What parseArray returns once the '[' at `p` has been read and the
      elements loop has produced `es`. */
  function ArrayAfterBracket(t: seq<Token>, p: nat, es: Outcome<seq<Expr>>): Outcome<Expr>
    requires p < |t| && (es.result.Ok? ==> es.pos < |t|)
  {
    match es.result
    case Err(e) => Outcome(Err(e), es.pos)
    case Ok(elements) =>
      Outcome(Ok(ArrayExpr(elements, Location(t[p].location.start, t[es.pos].location.end))), es.pos + 1)
  }

  lemma ArrayFromElements(t: seq<Token>, p: nat)
    requires p < |t| && t[p].typ == LBracket
    ensures PArray(t, p) == ArrayAfterBracket(t, p, PElements(t, p + 1))
  {
  }

  /** An element that fails to parse ends parseArray's loop with its error,
      a mismatch becoming ExpectedNode. */
  lemma ElementsFail(t: seq<Token>, p: nat, whole: Outcome<seq<Expr>>, done: seq<Expr>)
    requires p <= |t| && !Match(t, p, [RBracket]) && PExpr(t, p).result.Err?
    requires Continues(whole, done, PElements(t, p))
    ensures whole.pos == PExpr(t, p).pos
    ensures whole.result == Err(if PExpr(t, p).result.error == TokenMismatch then ExpectedNode
                                 else PExpr(t, p).result.error)
  {
  }

  /** parseKV without an identifier at `p` fails where it started. */
  lemma KVWithoutKey(t: seq<Token>, p: nat)
    requires p <= |t| && Check(t, p, [TokenType.Ident]).Some?
    ensures PKV(t, p) == Outcome(Err(Check(t, p, [TokenType.Ident]).value), p)
  {
  }

  /** parseKV with a key but no colon after it fails where it started. */
  lemma KVWithoutColon(t: seq<Token>, p: nat)
    requires p < |t| && Check(t, p, [TokenType.Ident]).None? && Check(t, p + 1, [Colon]).Some?
    ensures PKV(t, p) == Outcome(Err(Check(t, p + 1, [Colon]).value), p)
  {
  }

  /** parseKV with a key and a colon is decided by the value expression. */
  lemma KVWithValue(t: seq<Token>, p: nat)
    requires p < |t| && Check(t, p, [TokenType.Ident]).None? && Check(t, p + 1, [Colon]).None?
    ensures p + 2 <= |t|
    ensures PKV(t, p) == KVAfterKey(t, p, PExpr(t, p + 2))
  {
  }

  class Parser {
    var mover: TokenMover?

    /** New: a parser with no cursor yet. */
    constructor()
      ensures mover == null
    {
      mover := null;
    }

    /** Parse: parse a whole file from the cursor's position. */
    method Parse(m: TokenMover) returns (r: Result<File, ParseError>)
      requires 0 <= m.pos <= |m.tokens|
      modifies this, m
      ensures mover == m
      ensures r == PFile(m.tokens, old(m.pos)).result && m.pos == PFile(m.tokens, old(m.pos)).pos
      ensures m.savePoints == old(m.savePoints)
    {
      mover := m;
      r := ParseFile();
    }

    method ParseFile() returns (r: Result<File, ParseError>)
      requires mover != null && 0 <= mover.pos <= |mover.tokens|
      modifies mover
      ensures r == PFile(mover.tokens, old(mover.pos)).result
      ensures mover.pos == PFile(mover.tokens, old(mover.pos)).pos
      ensures mover.savePoints == old(mover.savePoints)
    {
      var imports := ParseImports();
      if imports.Err? {
        return Err(imports.error);
      }
      var obj := ParseObject();
      if obj.Err? {
        return Err(obj.error);
      }
      return Ok(File(imports.value, obj.value));
    }

    method ParseImports() returns (r: Result<seq<Import>, ParseError>)
      requires mover != null && 0 <= mover.pos <= |mover.tokens|
      modifies mover
      ensures r == PImports(mover.tokens, old(mover.pos)).result
      ensures mover.pos == PImports(mover.tokens, old(mover.pos)).pos
      ensures mover.savePoints == old(mover.savePoints)
    {
      var imports: seq<Import> := [];
      if mover.IsEmpty() {
        return Ok(imports);
      }
      ghost var t := mover.tokens;
      ghost var p0 := mover.pos;
      ContinuesFromStart(PImportList(t, p0));
      while true
        invariant p0 <= mover.pos <= |t| && mover.tokens == t
        invariant Continues(PImportList(t, p0), imports, PImportList(t, mover.pos))
        invariant mover.savePoints == old(mover.savePoints)
        decreases |t| - mover.pos
      {
        ghost var p := mover.pos;
        var imp := ParseImport();
        match imp {
          case Ok(i) =>
            ImportsStep(t, p, PImportList(t, p0), imports);
            imports := imports + [i];
          case Err(TokenMismatch) =>
            ContinuesToEnd(PImportList(t, p0), imports, p);
            return Ok(imports);
          case Err(e) =>
            return Err(e);
        }
      }
    }

    method ParseImport() returns (r: Result<Import, ParseError>)
      requires mover != null && 0 <= mover.pos <= |mover.tokens|
      modifies mover
      ensures r == PImport(mover.tokens, old(mover.pos)).result
      ensures mover.pos == PImport(mover.tokens, old(mover.pos)).pos
      ensures mover.savePoints == old(mover.savePoints)
    {
      var err := Check(mover.tokens, mover.pos, [TokenType.Ident]);
      if err.Some? {
        return Err(err.value);
      }
      var name := mover.Token();
      mover.Next();
      err := Require(mover.tokens, mover.pos, [Path]);
      if err.Some? {
        return Err(err.value);
      }
      var path := mover.Token();
      mover.Next();
      return Ok(Import(RawAst.Ident(name.value, name.location), ImportPath(path.value, path.location)));
    }

    method ParseObject() returns (r: Result<Object, ParseError>)
      requires mover != null && 0 <= mover.pos <= |mover.tokens|
      modifies mover
      decreases |mover.tokens| - mover.pos, 0
      ensures r == PObject(mover.tokens, old(mover.pos)).result
      ensures mover.pos == PObject(mover.tokens, old(mover.pos)).pos
      ensures mover.savePoints == old(mover.savePoints)
    {
      var err := Check(mover.tokens, mover.pos, [LBrace]);
      if err.Some? {
        return Err(err.value);
      }
      var start := mover.Token().location.start;
      ghost var t := mover.tokens;
      ghost var p0 := mover.pos;
      ghost var whole := PEntries(t, p0 + 1);
      mover.Next();
      assert mover.pos == p0 + 1;
      var entries: seq<Entry> := [];
      ContinuesFromStart(whole);
      while !Match(mover.tokens, mover.pos, [RBrace])
        invariant p0 < mover.pos <= |t| && mover.tokens == t
        invariant Continues(whole, entries, PEntries(t, mover.pos))
        invariant mover.savePoints == old(mover.savePoints)
        decreases |t| - mover.pos
      {
        ghost var p := mover.pos;
        var entry := ParseEntry();
        if entry.Err? {
          return Err(entry.error);
        }
        EntriesStep(t, p, whole, entries);
        entries := entries + [entry.value];
      }
      ContinuesToEnd(whole, entries, mover.pos);
      var end := mover.Token().location.end;
      var obj := Object(entries, Location(start, end));
      mover.Next();
      return Ok(obj);
    }

    method ParseSpread() returns (r: Result<Spread, ParseError>)
      requires mover != null && 0 <= mover.pos <= |mover.tokens|
      modifies mover
      decreases |mover.tokens| - mover.pos, 1
      ensures r == PSpread(mover.tokens, old(mover.pos)).result
      ensures mover.pos == PSpread(mover.tokens, old(mover.pos)).pos
      ensures mover.savePoints == old(mover.savePoints)
    {
      mover.SavePoint();
      var v := ParseVar();
      if v.Err? {
        mover.RemoveSavePoint();
        return Err(v.error);
      }
      var err := Check(mover.tokens, mover.pos, [TokenType.Spread]);
      if err.Some? {
        mover.ReturnToSavePoint();
        mover.RemoveSavePoint();
        return Err(err.value);
      }
      var s := RawAst.Spread(v.value, Location(v.value.location.start, mover.Token().location.end));
      mover.Next();
      mover.RemoveSavePoint();
      return Ok(s);
    }

    method ParseVar() returns (r: Result<Var, ParseError>)
      requires mover != null && 0 <= mover.pos <= |mover.tokens|
      modifies mover
      decreases |mover.tokens| - mover.pos, 0
      ensures r == PVar(mover.tokens, old(mover.pos)).result
      ensures mover.pos == PVar(mover.tokens, old(mover.pos)).pos
      ensures mover.savePoints == old(mover.savePoints)
    {
      var err := Check(mover.tokens, mover.pos, [TokenType.Ident]);
      if err.Some? {
        return Err(err.value);
      }
      var idents := [RawAst.Ident(mover.Token().value, Location(mover.Token().location.start, mover.Token().location.end))];
      mover.Next();
      if Match(mover.tokens, mover.pos, [Dot]) {
        mover.Next();
        var v := ParseVar();
        match v {
          case Ok(x) =>
            idents := idents + x.path;
          case Err(TokenMismatch) =>
          case Err(e) =>
            return Err(e);
        }
      }
      return Ok(NewVar(idents));
    }

    method ParseEntry() returns (r: Result<Entry, ParseError>)
      requires mover != null && 0 <= mover.pos <= |mover.tokens|
      modifies mover
      decreases |mover.tokens| - mover.pos, 3
      ensures r == PEntry(mover.tokens, old(mover.pos)).result
      ensures mover.pos == PEntry(mover.tokens, old(mover.pos)).pos
      ensures mover.savePoints == old(mover.savePoints)
    {
      var kv := ParseKV();
      match kv {
        case Ok(x) =>
          return Ok(KVEntry(x));
        case Err(TokenMismatch) =>
        case Err(e) =>
          return Err(e);
      }
      var spread := ParseSpread();
      if spread.Err? {
        return Err(spread.error);
      }
      return Ok(SpreadEntry(spread.value));
    }

    method ParseKV() returns (r: Result<KV, ParseError>)
      requires mover != null && 0 <= mover.pos <= |mover.tokens|
      modifies mover
      decreases |mover.tokens| - mover.pos, 2
      ensures r == PKV(mover.tokens, old(mover.pos)).result
      ensures mover.pos == PKV(mover.tokens, old(mover.pos)).pos
      ensures mover.savePoints == old(mover.savePoints)
    {
      ghost var t := mover.tokens;
      ghost var p0 := mover.pos;
      ghost var saved := mover.savePoints;
      mover.SavePoint();
      assert mover.savePoints[..|mover.savePoints| - 1] == saved;
      var err := Check(mover.tokens, mover.pos, [TokenType.Ident]);
      if err.Some? {
        mover.RemoveSavePoint();
        KVWithoutKey(t, p0);
        return Err(err.value);
      }
      var key := RawAst.Ident(mover.Token().value, Location(mover.Token().location.start, mover.Token().location.end));
      mover.Next();
      err := Check(mover.tokens, mover.pos, [Colon]);
      if err.Some? {
        mover.ReturnToSavePoint();
        mover.RemoveSavePoint();
        KVWithoutColon(t, p0);
        return Err(err.value);
      }
      mover.Next();
      KVWithValue(t, p0);
      var expr := ParseExpression();
      mover.RemoveSavePoint();
      match expr {
        case Ok(_) =>
        case Err(TokenMismatch) =>
          return Err(ExpectedNode);
        case Err(e) =>
          return Err(e);
      }
      return Ok(NewKV(key, expr.value));
    }

    method ParseExpression() returns (r: Result<Expr, ParseError>)
      requires mover != null && 0 <= mover.pos <= |mover.tokens|
      modifies mover
      decreases |mover.tokens| - mover.pos, 3
      ensures r == PExpr(mover.tokens, old(mover.pos)).result
      ensures mover.pos == PExpr(mover.tokens, old(mover.pos)).pos
      ensures mover.savePoints == old(mover.savePoints)
    {
      var err := Require(mover.tokens, mover.pos, ExprStart);
      if err.Some? {
        ExprRequire(mover.tokens, mover.pos);
        return Err(err.value);
      }
      r := ParseByKind();
    }

    /** The switch of parseExpression on the kind of the current token. A
        kind outside ExprStart cannot reach it after the `require`; the
        default case answers UnexpectedToken as that `require` would. */
    method ParseByKind() returns (r: Result<Expr, ParseError>)
      requires mover != null && 0 <= mover.pos < |mover.tokens|
      modifies mover
      decreases |mover.tokens| - mover.pos, 2
      ensures r == PExpr(mover.tokens, old(mover.pos)).result
      ensures mover.pos == PExpr(mover.tokens, old(mover.pos)).pos
      ensures mover.savePoints == old(mover.savePoints)
    {
      match mover.Token().typ {
        case Ident =>
          var spread := ParseSpread();
          match spread {
            case Ok(s) =>
              return Ok(SpreadExpr(s));
            case Err(TokenMismatch) =>
            case Err(e) =>
              return Err(e);
          }
          var v := ParseVar();
          if v.Err? {
            return Err(v.error);
          }
          return Ok(VarExpr(v.value));
        case Dollar =>
          r := ParseEnv();
        case LBrace =>
          var obj := ParseObject();
          if obj.Err? {
            return Err(obj.error);
          }
          return Ok(ObjectExpr(obj.value));
        case LBracket =>
          r := ParseArray();
        case String =>
          r := ParseString();
        case Float =>
          r := ParseFloat();
        case Int =>
          r := ParseInt();
        case Bool =>
          r := ParseBool();
        case _ =>
          return Err(UnexpectedToken);
      }
    }

    method ParseString() returns (r: Result<Expr, ParseError>)
      requires mover != null && 0 <= mover.pos <= |mover.tokens|
      modifies mover
      ensures r == PString(mover.tokens, old(mover.pos)).result
      ensures mover.pos == PString(mover.tokens, old(mover.pos)).pos
      ensures mover.savePoints == old(mover.savePoints)
    {
      var err := Require(mover.tokens, mover.pos, [TokenType.String]);
      if err.Some? {
        return Err(err.value);
      }
      var s := NewString(mover.Token().value, mover.Token().location);
      mover.Next();
      return Ok(s);
    }

    method ParseBool() returns (r: Result<Expr, ParseError>)
      requires mover != null && 0 <= mover.pos <= |mover.tokens|
      modifies mover
      ensures r == PBool(mover.tokens, old(mover.pos)).result
      ensures mover.pos == PBool(mover.tokens, old(mover.pos)).pos
      ensures mover.savePoints == old(mover.savePoints)
    {
      var err := Require(mover.tokens, mover.pos, [Bool]);
      if err.Some? {
        return Err(err.value);
      }
      var b := NewBool(mover.Token().value, mover.Token().location);
      if b.Err? {
        return Err(InvalidLiteral(b.error));
      }
      mover.Next();
      return Ok(b.value);
    }

    method ParseInt() returns (r: Result<Expr, ParseError>)
      requires mover != null && 0 <= mover.pos <= |mover.tokens|
      modifies mover
      ensures r == PInt(mover.tokens, old(mover.pos)).result
      ensures mover.pos == PInt(mover.tokens, old(mover.pos)).pos
      ensures mover.savePoints == old(mover.savePoints)
    {
      var err := Require(mover.tokens, mover.pos, [Int]);
      if err.Some? {
        return Err(err.value);
      }
      var i := NewInt(mover.Token().value, mover.Token().location);
      if i.Err? {
        return Err(InvalidLiteral(i.error));
      }
      mover.Next();
      return Ok(i.value);
    }

    method ParseFloat() returns (r: Result<Expr, ParseError>)
      requires mover != null && 0 <= mover.pos <= |mover.tokens|
      modifies mover
      ensures r == PFloat(mover.tokens, old(mover.pos)).result
      ensures mover.pos == PFloat(mover.tokens, old(mover.pos)).pos
      ensures mover.savePoints == old(mover.savePoints)
    {
      var err := Require(mover.tokens, mover.pos, [Float]);
      if err.Some? {
        return Err(err.value);
      }
      var f := FloatLit(mover.Token().value, mover.Token().location);
      mover.Next();
      return Ok(f);
    }

    method ParseEnv() returns (r: Result<Expr, ParseError>)
      requires mover != null && 0 <= mover.pos <= |mover.tokens|
      modifies mover
      ensures r == PEnv(mover.tokens, old(mover.pos)).result
      ensures mover.pos == PEnv(mover.tokens, old(mover.pos)).pos
      ensures mover.savePoints == old(mover.savePoints)
    {
      var err := Require(mover.tokens, mover.pos, [Dollar]);
      if err.Some? {
        return Err(err.value);
      }
      var dollar := mover.Token();
      mover.Next();
      err := Require(mover.tokens, mover.pos, [TokenType.Ident]);
      if err.Some? {
        return Err(err.value);
      }
      var env := EnvExpr(
        RawAst.Ident(mover.Token().value, mover.Token().location),
        Location(dollar.location.start, mover.Token().location.end));
      mover.Next();
      return Ok(env);
    }

    method ParseArray() returns (r: Result<Expr, ParseError>)
      requires mover != null && 0 <= mover.pos <= |mover.tokens|
      modifies mover
      decreases |mover.tokens| - mover.pos, 0
      ensures r == PArray(mover.tokens, old(mover.pos)).result
      ensures mover.pos == PArray(mover.tokens, old(mover.pos)).pos
      ensures mover.savePoints == old(mover.savePoints)
    {
      var err := Require(mover.tokens, mover.pos, [LBracket]);
      if err.Some? {
        return Err(err.value);
      }
      var start := mover.Token().location.start;
      ghost var t := mover.tokens;
      ghost var p0 := mover.pos;
      ghost var whole := PElements(t, p0 + 1);
      mover.Next();
      assert mover.pos == p0 + 1;
      var elements: seq<Expr> := [];
      ContinuesFromStart(whole);
      while !Match(mover.tokens, mover.pos, [RBracket])
        invariant p0 < mover.pos <= |t| && mover.tokens == t
        invariant Continues(whole, elements, PElements(t, mover.pos))
        invariant mover.savePoints == old(mover.savePoints)
        decreases |t| - mover.pos
      {
        ghost var p := mover.pos;
        var expr := ParseExpression();
        if expr.Err? {
          ElementsFail(t, p, whole, elements);
          ArrayFromElements(t, p0);
        }
        match expr {
          case Ok(_) =>
          case Err(TokenMismatch) =>
            return Err(ExpectedNode);
          case Err(e) =>
            return Err(e);
        }
        ElementsStep(t, p, whole, elements);
        elements := elements + [expr.value];
      }
      ContinuesToEnd(whole, elements, mover.pos);
      ArrayFromElements(t, p0);
      var arr := ArrayExpr(elements, Location(start, mover.Token().location.end));
      mover.Next();
      return Ok(arr);
    }
  }
}
