// Cursor predicates of the parser (parser/checker.go) and the parser's
// error kinds (parser/errors.go).

module Checker {
  import opened Wrappers
  import opened Tokens
  import opened RawAst

  /** Error kinds. TokenMismatch is the soft one: the caller may try another
      alternative. A literal that cannot be converted keeps its cause. */
  datatype ParseError =
    | TokenMismatch
    | UnexpectedToken
    | ExpectedNode
    | TokenNotExist
    | InvalidLiteral(cause: LiteralError)

  /** The loop of `match` over the accepted kinds. */
  function AnyOf(typ: TokenType, kinds: seq<TokenType>): (b: bool)
    ensures b <==> typ in kinds
  {
    if kinds == [] then false else kinds[0] == typ || AnyOf(typ, kinds[1..])
  }

  /** match: false on an exhausted cursor, otherwise whether the current
      token has one of the kinds. */
  function Match(tokens: seq<Token>, pos: nat, kinds: seq<TokenType>): (b: bool)
    ensures b <==> pos < |tokens| && tokens[pos].typ in kinds
  {
    if pos >= |tokens| then false else AnyOf(tokens[pos].typ, kinds)
  }

  /** require: TokenNotExist on an exhausted cursor, nothing on a match,
      the hard UnexpectedToken otherwise. */
  function Require(tokens: seq<Token>, pos: nat, kinds: seq<TokenType>): (r: Option<ParseError>)
    ensures pos >= |tokens| ==> r == Some(TokenNotExist)
    ensures pos < |tokens| ==> (r.None? <==> tokens[pos].typ in kinds)
    ensures pos < |tokens| && r.Some? ==> r.value == UnexpectedToken
  {
    if pos >= |tokens| then Some(TokenNotExist)
    else if Match(tokens, pos, kinds) then None
    else Some(UnexpectedToken)
  }

  /** check: as `require`, but a non-matching token gives the soft TokenMismatch. */
  function Check(tokens: seq<Token>, pos: nat, kinds: seq<TokenType>): (r: Option<ParseError>)
    ensures pos >= |tokens| ==> r == Some(TokenNotExist)
    ensures pos < |tokens| ==> (r.None? <==> tokens[pos].typ in kinds)
    ensures pos < |tokens| && r.Some? ==> r.value == TokenMismatch
  {
    if pos >= |tokens| then Some(TokenNotExist)
    else if Match(tokens, pos, kinds) then None
    else Some(TokenMismatch)
  }
}
