// The grammar of parser/parser.go as functions over a token sequence and a
// cursor position. Each production returns its result together with the
// cursor position it leaves behind, which is what the methods of
// `Parsing.Parser` leave in the token cursor.

module Grammar {
  import opened Wrappers
  import opened Positions
  import opened Tokens
  import opened RawAst
  import opened Checker

  /** A production's result and the cursor position after it. */
  datatype Outcome<T> = Outcome(result: Result<T, ParseError>, pos: nat)

  /** The identifier node made from the token at `p`. */
  function IdentAt(t: seq<Token>, p: nat): (id: Ident)
    requires p < |t|
    ensures id.name == t[p].value && id.location == t[p].location
  {
    RawAst.Ident(t[p].value, t[p].location)
  }

  /** parseVar: Ident ('.' Ident)*. A dot that is not followed by an
      identifier is consumed and the path stops before it; a dot at the end
      of the input is a TokenNotExist error. */
  function PVar(t: seq<Token>, p: nat): (r: Outcome<Var>)
    requires p <= |t|
    decreases |t| - p, 0
    ensures p <= r.pos <= |t|
    ensures r.result.Ok? ==> r.pos > p && |r.result.value.path| >= 1 && r.result.value.path[0] == IdentAt(t, p)
    ensures r.result.Err? && r.result.error == TokenMismatch ==> r.pos == p
  {
    match Check(t, p, [TokenType.Ident])
    case Some(e) => Outcome(Err(e), p)
    case None =>
      var id := IdentAt(t, p);
      if Match(t, p + 1, [Dot]) then
        var sub := PVar(t, p + 2);
        match sub.result
        case Ok(v) => Outcome(Ok(NewVar([id] + v.path)), sub.pos)
        case Err(TokenMismatch) => Outcome(Ok(NewVar([id])), sub.pos)
        case Err(e) => Outcome(Err(e), sub.pos)
      else Outcome(Ok(NewVar([id])), p + 1)
  }

  /** parseSpread: a var followed by '...'. When the '...' is missing the
      cursor returns to where the spread began. */
  function PSpread(t: seq<Token>, p: nat): (r: Outcome<Spread>)
    requires p <= |t|
    decreases |t| - p, 1
    ensures p <= r.pos <= |t|
    ensures r.result.Ok? ==> r.pos > p && t[r.pos - 1].typ == TokenType.Spread
    ensures r.result.Ok? ==> r.result.value.location == Location(t[p].location.start, t[r.pos - 1].location.end)
    ensures r.result.Err? && r.result.error == TokenMismatch ==> r.pos == p
  {
    var v := PVar(t, p);
    match v.result
    case Err(e) => Outcome(Err(e), v.pos)
    case Ok(x) =>
      match Check(t, v.pos, [TokenType.Spread])
      case Some(e) => Outcome(Err(e), p)
      case None =>
        Outcome(Ok(RawAst.Spread(x, Location(x.location.start, t[v.pos].location.end))), v.pos + 1)
  }

  /** parseKV: Ident ':' expression. A missing colon returns the cursor to
      the key; an expression that mismatches is a hard ExpectedNode. */
  function PKV(t: seq<Token>, p: nat): (r: Outcome<KV>)
    requires p <= |t|
    decreases |t| - p, 2
    ensures p <= r.pos <= |t|
    ensures r.result.Ok? ==> r.pos > p
    ensures r.result.Err? && r.result.error == TokenMismatch ==> r.pos == p
  {
    match Check(t, p, [TokenType.Ident])
    case Some(e) => Outcome(Err(e), p)
    case None =>
      var key := IdentAt(t, p);
      match Check(t, p + 1, [Colon])
      case Some(e) => Outcome(Err(e), p)
      case None =>
        var ex := PExpr(t, p + 2);
        match ex.result
        case Ok(e) => Outcome(Ok(NewKV(key, e)), ex.pos)
        case Err(TokenMismatch) => Outcome(Err(ExpectedNode), ex.pos)
        case Err(err) => Outcome(Err(err), ex.pos)
  }

  /** parseEntry: a KV, or on a soft mismatch a spread. */
  function PEntry(t: seq<Token>, p: nat): (r: Outcome<Entry>)
    requires p <= |t|
    decreases |t| - p, 3
    ensures p <= r.pos <= |t|
    ensures r.result.Ok? ==> r.pos > p
    ensures r.result.Err? && r.result.error == TokenMismatch ==> r.pos == p
  {
    var kv := PKV(t, p);
    match kv.result
    case Ok(x) => Outcome(Ok(KVEntry(x)), kv.pos)
    case Err(TokenMismatch) =>
      var sp := PSpread(t, kv.pos);
      (match sp.result
       case Ok(s) => Outcome(Ok(SpreadEntry(s)), sp.pos)
       case Err(e) => Outcome(Err(e), sp.pos))
    case Err(e) => Outcome(Err(e), kv.pos)
  }

  /** The loop of parseObject: entries until a '}'. On success the cursor
      rests on the '}'. */
  function PEntries(t: seq<Token>, p: nat): (r: Outcome<seq<Entry>>)
    requires p <= |t|
    decreases |t| - p, 4
    ensures p <= r.pos <= |t|
    ensures r.result.Ok? ==> r.pos < |t| && t[r.pos].typ == RBrace
  {
    if Match(t, p, [RBrace]) then Outcome(Ok([]), p)
    else
      var e := PEntry(t, p);
      match e.result
      case Err(err) => Outcome(Err(err), e.pos)
      case Ok(entry) =>
        var rest := PEntries(t, e.pos);
        match rest.result
        case Ok(es) => Outcome(Ok([entry] + es), rest.pos)
        case Err(err) => Outcome(Err(err), rest.pos)
  }

  /** parseObject: '{' entries '}', located from the '{' to the '}'. */
  function PObject(t: seq<Token>, p: nat): (r: Outcome<Object>)
    requires p <= |t|
    decreases |t| - p, 0
    ensures p <= r.pos <= |t|
    ensures r.result.Ok? ==> p < r.pos && t[p].typ == LBrace && t[r.pos - 1].typ == RBrace
    ensures r.result.Ok? ==> r.result.value.location == Location(t[p].location.start, t[r.pos - 1].location.end)
    ensures r.result.Err? && p < |t| && t[p].typ != LBrace ==> r.result.error == TokenMismatch && r.pos == p
  {
    match Check(t, p, [LBrace])
    case Some(e) => Outcome(Err(e), p)
    case None =>
      var es := PEntries(t, p + 1);
      match es.result
      case Err(e) => Outcome(Err(e), es.pos)
      case Ok(entries) =>
        Outcome(Ok(Object(entries, Location(t[p].location.start, t[es.pos].location.end))), es.pos + 1)
  }

  /** The loop of parseArray: expressions until a ']'. A mismatching element
      is a hard ExpectedNode. On success the cursor rests on the ']'. */
  function PElements(t: seq<Token>, p: nat): (r: Outcome<seq<Expr>>)
    requires p <= |t|
    decreases |t| - p, 4
    ensures p <= r.pos <= |t|
    ensures r.result.Ok? ==> r.pos < |t| && t[r.pos].typ == RBracket
  {
    if Match(t, p, [RBracket]) then Outcome(Ok([]), p)
    else
      var e := PExpr(t, p);
      match e.result
      case Err(TokenMismatch) => Outcome(Err(ExpectedNode), e.pos)
      case Err(err) => Outcome(Err(err), e.pos)
      case Ok(x) =>
        var rest := PElements(t, e.pos);
        match rest.result
        case Ok(xs) => Outcome(Ok([x] + xs), rest.pos)
        case Err(err) => Outcome(Err(err), rest.pos)
  }

  /** parseArray: '[' expressions ']', located from the '[' to the ']'. */
  function PArray(t: seq<Token>, p: nat): (r: Outcome<Expr>)
    requires p <= |t|
    decreases |t| - p, 0
    ensures p <= r.pos <= |t|
    ensures r.result.Ok? ==> p < r.pos && t[p].typ == LBracket && t[r.pos - 1].typ == RBracket
    ensures r.result.Ok? ==> r.result.value.ArrayExpr?
    ensures r.result.Ok? ==> r.result.value.location == Location(t[p].location.start, t[r.pos - 1].location.end)
  {
    match Require(t, p, [LBracket])
    case Some(e) => Outcome(Err(e), p)
    case None =>
      var es := PElements(t, p + 1);
      match es.result
      case Err(e) => Outcome(Err(e), es.pos)
      case Ok(elements) =>
        Outcome(Ok(ArrayExpr(elements, Location(t[p].location.start, t[es.pos].location.end))), es.pos + 1)
  }

  /** parseEnv: '$' Ident, located from the '$' to the identifier. */
  function PEnv(t: seq<Token>, p: nat): (r: Outcome<Expr>)
    requires p <= |t|
    ensures p <= r.pos <= |t|
    ensures r.result.Ok? <==> p + 1 < |t| && t[p].typ == Dollar && t[p + 1].typ == TokenType.Ident
    ensures r.result.Ok? ==> r.pos == p + 2
    ensures r.result.Ok? ==>
      r.result.value == EnvExpr(IdentAt(t, p + 1), Location(t[p].location.start, t[p + 1].location.end))
  {
    match Require(t, p, [Dollar])
    case Some(e) => Outcome(Err(e), p)
    case None =>
      match Require(t, p + 1, [TokenType.Ident])
      case Some(e) => Outcome(Err(e), p + 1)
      case None =>
        Outcome(Ok(EnvExpr(IdentAt(t, p + 1), Location(t[p].location.start, t[p + 1].location.end))), p + 2)
  }

  /** parseString: the lexeme of a String token, located at the token. */
  function PString(t: seq<Token>, p: nat): (r: Outcome<Expr>)
    requires p <= |t|
    ensures r.result.Ok? <==> p < |t| && t[p].typ == TokenType.String
    ensures r.result.Ok? ==> r.pos == p + 1 && r.result.value == StringLit(t[p].value, t[p].location)
    ensures r.result.Err? ==> r.pos == p
  {
    match Require(t, p, [TokenType.String])
    case Some(e) => Outcome(Err(e), p)
    case None => Outcome(Ok(NewString(t[p].value, t[p].location)), p + 1)
  }

  /** parseFloat: the lexeme of a Float token (the conversion to float64 is
      not modelled). */
  function PFloat(t: seq<Token>, p: nat): (r: Outcome<Expr>)
    requires p <= |t|
    ensures r.result.Ok? <==> p < |t| && t[p].typ == Float
    ensures r.result.Ok? ==> r.pos == p + 1 && r.result.value == FloatLit(t[p].value, t[p].location)
    ensures r.result.Err? ==> r.pos == p
  {
    match Require(t, p, [Float])
    case Some(e) => Outcome(Err(e), p)
    case None => Outcome(Ok(FloatLit(t[p].value, t[p].location)), p + 1)
  }

  /** parseInt: an Int token whose lexeme is a signed 64-bit integer; a
      lexeme out of range is an InvalidLiteral error and the cursor stays. */
  function PInt(t: seq<Token>, p: nat): (r: Outcome<Expr>)
    requires p <= |t|
    ensures r.result.Ok? <==> p < |t| && t[p].typ == Int && ParseInt64(t[p].value).Some?
    ensures r.result.Ok? ==>
      r.pos == p + 1 && r.result.value == IntLit(ParseInt64(t[p].value).value, t[p].location)
    ensures r.result.Err? ==> r.pos == p
    ensures p < |t| && t[p].typ == Int && ParseInt64(t[p].value).None? ==> r.result == Err(InvalidLiteral(InvalidInt))
  {
    match Require(t, p, [Int])
    case Some(e) => Outcome(Err(e), p)
    case None =>
      match NewInt(t[p].value, t[p].location)
      case Ok(x) => Outcome(Ok(x), p + 1)
      case Err(e) => Outcome(Err(InvalidLiteral(e)), p)
  }

  /** parseBool: a Bool token whose lexeme is "true" or "false". */
  function PBool(t: seq<Token>, p: nat): (r: Outcome<Expr>)
    requires p <= |t|
    ensures r.result.Ok? <==> p < |t| && t[p].typ == Bool && (t[p].value == "true" || t[p].value == "false")
    ensures r.result.Ok? ==>
      r.pos == p + 1 && r.result.value == BoolLit(t[p].value == "true", t[p].location)
    ensures r.result.Err? ==> r.pos == p
  {
    match Require(t, p, [Bool])
    case Some(e) => Outcome(Err(e), p)
    case None =>
      match NewBool(t[p].value, t[p].location)
      case Ok(x) => Outcome(Ok(x), p + 1)
      case Err(e) => Outcome(Err(InvalidLiteral(e)), p)
  }

  /** The kinds an expression may start with. */
  const ExprStart: seq<TokenType> := [TokenType.Ident, LBrace, LBracket, Dollar, TokenType.String, Int, Float, Bool]

  /** parseExpression: dispatch on the current token. An identifier is tried
      as a spread first and, on a soft mismatch, as a var. The opening
      `require` of ExprStart is folded into the dispatch: an exhausted cursor
      is TokenNotExist and any kind outside ExprStart falls to the last case
      (`ExprRequire` shows the two agree). */
  function PExpr(t: seq<Token>, p: nat): (r: Outcome<Expr>)
    requires p <= |t|
    decreases |t| - p, 2
    ensures p <= r.pos <= |t|
    ensures r.result.Ok? ==> r.pos > p
  {
    if p >= |t| then Outcome(Err(TokenNotExist), p)
    else
      match t[p].typ
      case Ident =>
        var sp := PSpread(t, p);
        (match sp.result
         case Ok(s) => Outcome(Ok(SpreadExpr(s)), sp.pos)
         case Err(TokenMismatch) =>
           var v := PVar(t, sp.pos);
           (match v.result
            case Ok(x) => Outcome(Ok(VarExpr(x)), v.pos)
            case Err(e) => Outcome(Err(e), v.pos))
         case Err(e) => Outcome(Err(e), sp.pos))
      case Dollar => PEnv(t, p)
      case LBrace =>
        var o := PObject(t, p);
        (match o.result
         case Ok(x) => Outcome(Ok(ObjectExpr(x)), o.pos)
         case Err(e) => Outcome(Err(e), o.pos))
      case LBracket => PArray(t, p)
      case String => PString(t, p)
      case Float => PFloat(t, p)
      case Int => PInt(t, p)
      case Bool => PBool(t, p)
      case _ => Outcome(Err(UnexpectedToken), p)
  }

  /** The `require` that opens parseExpression: when it fails, the
      expression fails with its error and the cursor stays. */
  lemma ExprRequire(t: seq<Token>, p: nat)
    requires p <= |t| && Require(t, p, ExprStart).Some?
    ensures PExpr(t, p) == Outcome(Err(Require(t, p, ExprStart).value), p)
  {
    if p < |t| {
      var k := t[p].typ;
      assert k !in ExprStart;
      assert k != TokenType.Ident && k != LBrace && k != LBracket && k != Dollar by {
        assert ExprStart[0] == TokenType.Ident && ExprStart[1] == LBrace && ExprStart[2] == LBracket && ExprStart[3] == Dollar;
      }
      assert k != TokenType.String && k != Int && k != Float && k != Bool by {
        assert ExprStart[4] == TokenType.String && ExprStart[5] == Int && ExprStart[6] == Float && ExprStart[7] == Bool;
      }
    }
  }

  /** parseImport: Ident Path. A missing path after the name is a hard error. */
  function PImport(t: seq<Token>, p: nat): (r: Outcome<Import>)
    requires p <= |t|
    ensures p <= r.pos <= |t|
    ensures r.result.Ok? <==> p + 1 < |t| && t[p].typ == TokenType.Ident && t[p + 1].typ == Path
    ensures r.result.Ok? ==> r.pos == p + 2
    ensures r.result.Err? && r.result.error == TokenMismatch ==> r.pos == p
  {
    match Check(t, p, [TokenType.Ident])
    case Some(e) => Outcome(Err(e), p)
    case None =>
      match Require(t, p + 1, [Path])
      case Some(e) => Outcome(Err(e), p + 1)
      case None =>
        Outcome(Ok(Import(IdentAt(t, p), ImportPath(t[p + 1].value, t[p + 1].location))), p + 2)
  }

  /** The loop of parseImports: imports until the first soft mismatch. */
  function PImportList(t: seq<Token>, p: nat): (r: Outcome<seq<Import>>)
    requires p <= |t|
    decreases |t| - p
    ensures p <= r.pos <= |t|
  {
    var i := PImport(t, p);
    match i.result
    case Ok(imp) =>
      var rest := PImportList(t, i.pos);
      (match rest.result
       case Ok(more) => Outcome(Ok([imp] + more), rest.pos)
       case Err(e) => Outcome(Err(e), rest.pos))
    case Err(TokenMismatch) => Outcome(Ok([]), i.pos)
    case Err(e) => Outcome(Err(e), i.pos)
  }

  /** parseImports: no imports on an exhausted cursor. */
  function PImports(t: seq<Token>, p: nat): (r: Outcome<seq<Import>>)
    requires p <= |t|
    ensures p <= r.pos <= |t|
    ensures p >= |t| ==> r == Outcome(Ok([]), p)
  {
    if p >= |t| then Outcome(Ok([]), p) else PImportList(t, p)
  }

  /** parseFile: the imports, then the root object. */
  function PFile(t: seq<Token>, p: nat): (r: Outcome<File>)
    requires p <= |t|
    ensures p <= r.pos <= |t|
  {
    var imps := PImports(t, p);
    match imps.result
    case Err(e) => Outcome(Err(e), imps.pos)
    case Ok(imports) =>
      var o := PObject(t, imps.pos);
      match o.result
      case Err(e) => Outcome(Err(e), o.pos)
      case Ok(obj) => Outcome(Ok(File(imports, obj)), o.pos)
  }

  // ---- properties of the grammar ----

  /** `path` is spelt by the tokens from `p` on: its i-th identifier is the
      token at p + 2i, and each but the first follows a dot. */
  predicate PathAt(t: seq<Token>, p: nat, path: seq<Ident>)
  {
    forall i :: 0 <= i < |path| ==>
      p + 2 * i < |t| && t[p + 2 * i].typ == TokenType.Ident && path[i] == IdentAt(t, p + 2 * i) &&
      (i > 0 ==> t[p + 2 * i - 1].typ == Dot)
  }

  lemma PathAtCons(t: seq<Token>, p: nat, rest: seq<Ident>)
    requires p + 1 < |t| && t[p].typ == TokenType.Ident && t[p + 1].typ == Dot
    requires PathAt(t, p + 2, rest)
    ensures PathAt(t, p, [IdentAt(t, p)] + rest)
  {
    var path := [IdentAt(t, p)] + rest;
    forall i | 0 < i < |path|
      ensures p + 2 * i < |t| && t[p + 2 * i].typ == TokenType.Ident && path[i] == IdentAt(t, p + 2 * i)
      ensures t[p + 2 * i - 1].typ == Dot
    {
      var k := i - 1;
      assert path[i] == rest[k];
      assert p + 2 * i == (p + 2) + 2 * k;
      if k > 0 {
        assert t[(p + 2) + 2 * k - 1].typ == Dot;
      }
    }
  }

  /** One step of parseVar: an identifier, then either the end of the path
      or a dot and the rest of the path, a mismatching rest being dropped. */
  lemma VarStep(t: seq<Token>, p: nat)
    requires p <= |t| && PVar(t, p).result.Ok?
    ensures p < |t| && t[p].typ == TokenType.Ident
    ensures !Match(t, p + 1, [Dot]) ==> PVar(t, p) == Outcome(Ok(NewVar([IdentAt(t, p)])), p + 1)
    ensures Match(t, p + 1, [Dot]) && PVar(t, p + 2).result.Ok? ==>
      PVar(t, p) == Outcome(Ok(NewVar([IdentAt(t, p)] + PVar(t, p + 2).result.value.path)), PVar(t, p + 2).pos)
    ensures Match(t, p + 1, [Dot]) && PVar(t, p + 2).result.Err? ==>
      PVar(t, p) == Outcome(Ok(NewVar([IdentAt(t, p)])), p + 2) && t[p + 1].typ == Dot
  {
  }

  /** A var is Ident ('.' Ident)*: its identifiers are spelt by the tokens
      from `p` on. */
  lemma {:induction false} VarShape(t: seq<Token>, p: nat)
    requires p <= |t| && PVar(t, p).result.Ok?
    ensures PathAt(t, p, PVar(t, p).result.value.path)
    decreases |t| - p
  {
    VarStep(t, p);
    var id := IdentAt(t, p);
    assert PathAt(t, p, [id]);
    if Match(t, p + 1, [Dot]) && PVar(t, p + 2).result.Ok? {
      VarShape(t, p + 2);
      PathAtCons(t, p, PVar(t, p + 2).result.value.path);
    }
  }

  /** The cursor ends after the last identifier of a var or, when a dot is
      followed by something other than an identifier, after that dot. */
  lemma {:induction false} VarEnd(t: seq<Token>, p: nat)
    requires p <= |t| && PVar(t, p).result.Ok?
    ensures var n := |PVar(t, p).result.value.path|;
      var q := PVar(t, p).pos;
      (q == p + 2 * n - 1 || (q == p + 2 * n && t[q - 1].typ == Dot))
    decreases |t| - p
  {
    VarStep(t, p);
    var r := PVar(t, p);
    if Match(t, p + 1, [Dot]) && PVar(t, p + 2).result.Ok? {
      var sub := PVar(t, p + 2);
      VarEnd(t, p + 2);
      assert r.pos == sub.pos && |r.result.value.path| == 1 + |sub.result.value.path|;
    } else {
      assert |r.result.value.path| == 1;
    }
  }

  /** The elements of an array never end in a soft mismatch: a mismatching
      element is turned into ExpectedNode. */
  lemma {:induction false} ElementsNeverMismatch(t: seq<Token>, p: nat)
    requires p <= |t|
    ensures PElements(t, p).result != Err(TokenMismatch)
    decreases |t| - p
  {
    if !Match(t, p, [RBracket]) {
      var e := PExpr(t, p);
      if e.result.Ok? {
        ElementsNeverMismatch(t, e.pos);
      }
    }
  }

  /** Tokens after the root object's '}' are never looked at: a file that
      starts with '{' '}' is the empty object, whatever follows. */
  lemma TrailingTokensIgnored(t: seq<Token>)
    requires 2 <= |t| && t[0].typ == LBrace && t[1].typ == RBrace
    ensures PFile(t, 0).result == Ok(File([], Object([], Location(t[0].location.start, t[1].location.end))))
    ensures PFile(t, 0).pos == 2
  {
    assert PImport(t, 0).result == Err(TokenMismatch);
    assert PEntries(t, 1) == Outcome(Ok([]), 1);
  }

  /** An empty token stream has no root object. */
  lemma EmptyInputHasNoObject(t: seq<Token>)
    requires t == []
    ensures PFile(t, 0).result == Err(TokenNotExist)
  {
    assert PImports(t, 0) == Outcome(Ok([]), 0);
  }

  /** An identifier in import position that is not followed by a path is a
      hard error, not the end of the imports. */
  lemma ImportNeedsPath(t: seq<Token>, p: nat)
    requires p + 1 < |t| && t[p].typ == TokenType.Ident && t[p + 1].typ != Path
    ensures PImport(t, p).result == Err(UnexpectedToken)
    ensures PImports(t, p).result == Err(UnexpectedToken)
  {
    assert PImportList(t, p).result == Err(UnexpectedToken);
  }

  /** Every entry from `p` on parses, one after another, up to the end of
      the input. */
  ghost predicate EntriesToEnd(t: seq<Token>, p: nat)
    requires p <= |t|
    decreases |t| - p
  {
    p == |t| || (PEntry(t, p).result.Ok? && EntriesToEnd(t, PEntry(t, p).pos))
  }

  /** The entry loop of parseObject runs off the end of the input when no
      '}' follows and every entry parses: the next entry then finds no
      token, which is TokenNotExist at the end. */
  lemma {:induction false} UnclosedEntriesFail(t: seq<Token>, p: nat)
    requires p <= |t| && EntriesToEnd(t, p)
    requires forall j :: p <= j < |t| ==> t[j].typ != RBrace
    ensures PEntries(t, p) == Outcome(Err(TokenNotExist), |t|)
    decreases |t| - p
  {
    if p == |t| {
      assert PKV(t, p).result == Err(TokenNotExist);
    } else {
      var e := PEntry(t, p);
      UnclosedEntriesFail(t, e.pos);
    }
  }

  /** An object left open at the end of the input, all of whose entries
      parse, is a TokenNotExist error at the end. */
  lemma UnclosedObjectFails(t: seq<Token>, p: nat)
    requires p < |t| && t[p].typ == LBrace && EntriesToEnd(t, p + 1)
    requires forall j :: p < j < |t| ==> t[j].typ != RBrace
    ensures PObject(t, p) == Outcome(Err(TokenNotExist), |t|)
  {
    UnclosedEntriesFail(t, p + 1);
  }
}
