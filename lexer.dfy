// The scanner (lexer/lexer.go).
//
// `Scan` is the specification: the token sequence, final location and
// unconsumed rest obtained by repeatedly taking the first-priority matching
// prefix. The `Lexer` class keeps the source's three fields and its nested
// loops, and `Tokenize` is proved to produce exactly what `Scan` describes.

module Lexing {
  import opened Wrappers
  import opened Positions
  import opened Tokens

  /** The lexer's only error: no kind matches at the given end position. */
  datatype LexError = UnexpectedToken(at: Position)

  /** The location after `find` consumed `n` bytes: it starts at the old end,
      and the end's offset and column both grow by `n`. */
  function Advance(loc: Location, n: nat): (r: Location)
    ensures r.start == loc.end
    ensures r.end.pos == loc.end.pos + n && r.end.column == loc.end.column + n
    ensures r.end.line == loc.end.line
  {
    SetEnd(SetStart(loc, loc.end), AddColumn(AddPos(loc.end, n), n))
  }

  /** The location after an end-of-line: the next line, column 0, and start equal to end. */
  function AfterEOL(loc: Location): (r: Location)
    ensures r.start == r.end
    ensures r.end.line == loc.end.line + 1 && r.end.column == 0 && r.end.pos == loc.end.pos
  {
    var l := SetEnd(loc, ResetColumn(IncrLine(loc.end)));
    SetStart(l, l.end)
  }

  /** What scanning leaves behind: the new tokens, the location and the unconsumed rest. */
  datatype Scanned = Scanned(tokens: seq<Token>, location: Location, rest: string)

  /** `a` is what is left of `b` after some prefix is consumed. */
  predicate IsSuffix(a: string, b: string)
  {
    |a| <= |b| && a == b[|b| - |a|..]
  }

  /** One pass of the outer loop: the first kind in priority order whose
      pattern matches consumes its match; ignored kinds emit nothing, an
      end-of-line moves to the next line, any other kind emits one token
      spanning the match. None when no kind matches. */
  function ScanOne(input: string, loc: Location, post: (TokenType, string) -> string): (r: Option<Scanned>)
    ensures r.Some? <==> FirstMatch(input, OrderedTokenTypes).Some?
    ensures r.Some? ==> |r.value.rest| < |input| && IsSuffix(r.value.rest, input)
    ensures r.Some? ==> |r.value.tokens| <= 1
    ensures r.Some? ==>
      var k := OrderedTokenTypes[FirstMatch(input, OrderedTokenTypes).value];
      var n := |input| - |r.value.rest|;
      && Find(k, input) == Some(n)
      && r.value.location == (if k == EOL then AfterEOL(Advance(loc, n)) else Advance(loc, n))
      && (IsIgnored(k) || k == EOL ==> r.value.tokens == [])
      && (!IsIgnored(k) && k != EOL ==> r.value.tokens == [Token(k, post(k, input[..n]), Advance(loc, n))])
  {
    match FirstMatch(input, OrderedTokenTypes)
    case None => None
    case Some(k) =>
      var t := OrderedTokenTypes[k];
      var n := Find(t, input).value;
      var loc1 := Advance(loc, n);
      var tokens := if IsIgnored(t) || t == EOL then [] else [Token(t, post(t, input[..n]), loc1)];
      Some(Scanned(tokens, if t == EOL then AfterEOL(loc1) else loc1, input[n..]))
  }

  /** The whole scan: repeat ScanOne until the input is used up or no kind
      matches. What is left is a suffix of the input. */
  function Scan(input: string, loc: Location, post: (TokenType, string) -> string): (r: Scanned)
    ensures IsSuffix(r.rest, input)
    decreases |input|
  {
    if input == [] then Scanned([], loc, [])
    else match ScanOne(input, loc, post)
      case None => Scanned([], loc, input)
      case Some(s) =>
        var r := Scan(s.rest, s.location, post);
        Scanned(s.tokens + r.tokens, r.location, r.rest)
  }

  /** The scan stops only where no kind matches. */
  lemma {:induction false} ScanStopsAtUnmatched(input: string, loc: Location, post: (TokenType, string) -> string)
    ensures var r := Scan(input, loc, post);
      r.rest != [] ==> FirstMatch(r.rest, OrderedTokenTypes).None?
    decreases |input|
  {
    if input != [] && ScanOne(input, loc, post).Some? {
      var s := ScanOne(input, loc, post).value;
      ScanStopsAtUnmatched(s.rest, s.location, post);
    }
  }

  /** The tokens gathered so far plus the scan of what is left give the scan `full` of the whole input. */
  predicate ScanSoFar(full: Scanned, tokens0: seq<Token>, input: string, loc: Location, tokens: seq<Token>,
                      post: (TokenType, string) -> string)
  {
    var sc := Scan(input, loc, post);
    tokens0 + full.tokens == tokens + sc.tokens && full.location == sc.location && full.rest == sc.rest
  }

  lemma ScanSoFarStep(full: Scanned, tokens0: seq<Token>, input: string, loc: Location, tokens: seq<Token>,
                      post: (TokenType, string) -> string)
    requires input != [] && ScanOne(input, loc, post).Some?
    requires ScanSoFar(full, tokens0, input, loc, tokens, post)
    ensures var s := ScanOne(input, loc, post).value;
      ScanSoFar(full, tokens0, s.rest, s.location, tokens + s.tokens, post)
  {
    var s := ScanOne(input, loc, post).value;
    var r := Scan(s.rest, s.location, post);
    assert tokens + (s.tokens + r.tokens) == (tokens + s.tokens) + r.tokens;
  }

  // ---- properties of the scan ----

  /** The end offset moves by exactly the number of bytes consumed, and the
      line never goes back. */
  lemma {:induction false} ScanAdvancesOffset(input: string, loc: Location, post: (TokenType, string) -> string)
    ensures var r := Scan(input, loc, post);
      && |r.rest| <= |input|
      && r.location.end.pos == loc.end.pos + |input| - |r.rest|
      && r.location.end.line >= loc.end.line
    decreases |input|
  {
    if input != [] && ScanOne(input, loc, post).Some? {
      var s := ScanOne(input, loc, post).value;
      ScanAdvancesOffset(s.rest, s.location, post);
    }
  }

  /** A token's span: it starts no earlier than where scanning began, it is
      non-empty, it lies on one line, and its offset and column grow together. */
  predicate SpanWithin(t: Token, from: nat, to: nat)
  {
    var l := t.location;
    && from <= l.start.pos < l.end.pos <= to
    && l.end.line == l.start.line
    && l.end.pos - l.start.pos == l.end.column - l.start.column
  }

  predicate AllWithin(ts: seq<Token>, from: nat, to: nat)
  {
    forall i :: 0 <= i < |ts| ==> SpanWithin(ts[i], from, to)
  }

  predicate InSourceOrder(ts: seq<Token>)
  {
    forall i, j :: 0 <= i < j < |ts| ==> ts[i].location.end.pos <= ts[j].location.start.pos
  }

  lemma ConcatInSourceOrder(a: seq<Token>, b: seq<Token>, from: nat, mid: nat, to: nat)
    requires AllWithin(a, from, mid) && AllWithin(b, mid, to) && InSourceOrder(a) && InSourceOrder(b)
    requires from <= mid <= to
    ensures AllWithin(a + b, from, to) && InSourceOrder(a + b)
  {
    forall i | 0 <= i < |a + b|
      ensures SpanWithin((a + b)[i], from, to)
    {
      if i < |a| { assert (a + b)[i] == a[i]; } else { assert (a + b)[i] == b[i - |a|]; }
    }
    forall i, j | 0 <= i < j < |a + b|
      ensures (a + b)[i].location.end.pos <= (a + b)[j].location.start.pos
    {
      if j < |a| {
        assert (a + b)[i] == a[i] && (a + b)[j] == a[j];
      } else if i >= |a| {
        assert (a + b)[i] == b[i - |a|] && (a + b)[j] == b[j - |a|];
      } else {
        assert (a + b)[i] == a[i] && (a + b)[j] == b[j - |a|];
      }
    }
  }

  /** Tokens come out in source order, each within the consumed span. */
  lemma {:induction false} ScanTokensInOrder(input: string, loc: Location, post: (TokenType, string) -> string)
    ensures var r := Scan(input, loc, post);
      AllWithin(r.tokens, loc.end.pos, r.location.end.pos) && InSourceOrder(r.tokens)
    decreases |input|
  {
    if input != [] && ScanOne(input, loc, post).Some? {
      var s := ScanOne(input, loc, post).value;
      var r := Scan(s.rest, s.location, post);
      ScanTokensInOrder(s.rest, s.location, post);
      ScanAdvancesOffset(s.rest, s.location, post);
      var k := FirstMatch(input, OrderedTokenTypes).value;
      var n := Find(OrderedTokenTypes[k], input).value;
      assert s.location.end.pos == loc.end.pos + n;
      assert AllWithin(s.tokens, loc.end.pos, s.location.end.pos);
      ConcatInSourceOrder(s.tokens, r.tokens, loc.end.pos, s.location.end.pos, r.location.end.pos);
    }
  }

  /** Kinds that do appear in the token stream. */
  predicate Emitted(ts: seq<Token>)
  {
    forall i :: 0 <= i < |ts| ==> !IsIgnored(ts[i].typ) && ts[i].typ != EOL
  }

  /** Whitespace, commas, comments and end-of-lines never appear among the tokens. */
  lemma {:induction false} ScanEmitsNoIgnoredKind(input: string, loc: Location, post: (TokenType, string) -> string)
    ensures Emitted(Scan(input, loc, post).tokens)
    decreases |input|
  {
    if input != [] && ScanOne(input, loc, post).Some? {
      var s := ScanOne(input, loc, post).value;
      var r := Scan(s.rest, s.location, post);
      ScanEmitsNoIgnoredKind(s.rest, s.location, post);
      ScanOneEmits(input, loc, post);
      assert Scan(input, loc, post).tokens == s.tokens + r.tokens;
      EmittedConcat(s.tokens, r.tokens);
    }
  }

  lemma ScanOneEmits(input: string, loc: Location, post: (TokenType, string) -> string)
    requires ScanOne(input, loc, post).Some?
    ensures Emitted(ScanOne(input, loc, post).value.tokens)
  {
  }

  lemma EmittedConcat(a: seq<Token>, b: seq<Token>)
    requires Emitted(a) && Emitted(b)
    ensures Emitted(a + b)
  {
    forall i | 0 <= i < |a + b|
      ensures !IsIgnored((a + b)[i].typ) && (a + b)[i].typ != EOL
    {
      if i < |a| {
        assert (a + b)[i] == a[i];
      } else {
        assert (a + b)[i] == b[i - |a|];
      }
    }
  }

  /** Only an end-of-line match moves to a new line: a newline inside a String
      lexeme does not. So input without an end-of-line match keeps the line;
      in particular input without a newline character does. */
  lemma {:induction false} LineChangesOnlyAtEOL(input: string, loc: Location, post: (TokenType, string) -> string)
    requires forall i :: 0 <= i < |input| ==> input[i] != '\n'
    ensures Scan(input, loc, post).location.end.line == loc.end.line
    decreases |input|
  {
    if input != [] && ScanOne(input, loc, post).Some? {
      var s := ScanOne(input, loc, post).value;
      var k := FirstMatch(input, OrderedTokenTypes).value;
      assert Find(EOL, input).None? by {
        assert input[0] != '\n';
      }
      assert s.rest == input[|input| - |s.rest|..];
      LineChangesOnlyAtEOL(s.rest, s.location, post);
    }
  }

  /** One step moves to the next line exactly when it starts at a newline
      character (an end-of-line match); any other step keeps the line, even
      when its lexeme, a String, holds a newline. */
  lemma ScanOneLine(input: string, loc: Location, post: (TokenType, string) -> string)
    requires input != [] && ScanOne(input, loc, post).Some?
    ensures ScanOne(input, loc, post).value.location.end.line
         == loc.end.line + (if input[0] == '\n' then 1 else 0)
  {
    FirstKindIsEOL(input);
  }

  /** The first matching kind is end-of-line exactly when the input starts
      with a newline character. */
  lemma FirstKindIsEOL(input: string)
    requires input != [] && FirstMatch(input, OrderedTokenTypes).Some?
    ensures OrderedTokenTypes[FirstMatch(input, OrderedTokenTypes).value] == EOL <==> input[0] == '\n'
  {
    if input[0] == '\n' {
      NewlineMatchesEOL(input);
    } else {
      assert Find(EOL, input).None?;
    }
  }

  lemma NewlineMatchesEOL(input: string)
    requires input != [] && input[0] == '\n'
    ensures FirstMatch(input, OrderedTokenTypes) == Some(1)
  {
    assert Find(OrderedTokenTypes[0], input).None?;
    assert Find(OrderedTokenTypes[1], input).Some?;
    FirstMatchIsFirst(input, OrderedTokenTypes, 0, 1);
  }


  /** A String lexeme may hold a raw newline: `"a`, newline, `b"` is one
      five-byte String match, so that newline does not count as a line. */
  lemma StringHoldsNewlineExample(input: string)
    requires input == "\"a\nb\""
    ensures input[2] == '\n'
    ensures FirstMatch(input, OrderedTokenTypes) == Some(3)
    ensures Find(String, input) == Some(5)
  {
    assert Find(WS, input).None? && Find(EOL, input).None? && Find(Comment, input).None?;
    assert StringEnd(input, 4) == Some(5);
    assert StringEnd(input, 3) == Some(5);
    assert StringEnd(input, 2) == Some(5);
    assert StringEnd(input, 1) == Some(5);
    FirstMatchIsFirst(input, OrderedTokenTypes, 0, 3);
  }

  class Lexer {
    var input: string
    var tokens: seq<Token>
    var location: Location
    /** `Type.Postprocess` of the token package, applied to every emitted lexeme. */
    const postprocess: (TokenType, string) -> string

    /** New: no tokens, at the initial location. */
    constructor(postprocess: (TokenType, string) -> string)
      ensures input == [] && tokens == [] && location == InitialLocation()
      ensures this.postprocess == postprocess
    {
      input := [];
      tokens := [];
      location := InitialLocation();
      this.postprocess := postprocess;
    }

    /** find: when the pattern of `t` matches, consume the match and move the location over it. */
    method FindToken(t: TokenType) returns (value: string, found: bool)
      modifies this
      ensures Find(t, old(input)).None? ==>
        !found && value == "" && input == old(input) && location == old(location)
      ensures Find(t, old(input)).Some? ==>
        var n := Find(t, old(input)).value;
        && found && value == old(input)[..n] && input == old(input)[n..]
        && location == Advance(old(location), n)
      ensures tokens == old(tokens)
    {
      var m := Find(t, input);
      if m.None? {
        return "", false;
      }
      var end := m.value;
      value := input[..end];
      input := input[end..];
      location := SetStart(location, location.end);
      location := SetEnd(location, AddColumn(AddPos(location.end, end), end));
      found := true;
    }

    /** addToken: append one token with the post-processed text and the current location. */
    method AddToken(t: TokenType, value: string)
      modifies this
      ensures tokens == old(tokens) + [Token(t, postprocess(t, value), location)]
      ensures input == old(input) && location == old(location)
    {
      var v := postprocess(t, value);
      tokens := tokens + [Token(t, v, location)];
    }

    /** The body of Tokenize's outer loop: try the kinds in priority order and
        apply the first one that matches; `matched` is false when none does. */
    method ScanToken() returns (matched: bool)
      requires input != []
      modifies this
      ensures var s := ScanOne(old(input), old(location), postprocess);
        && (!matched ==> s.None? && input == old(input) && location == old(location) && tokens == old(tokens))
        && (matched ==> s.Some? && input == s.value.rest && location == s.value.location
                        && tokens == old(tokens) + s.value.tokens)
    {
      var ordered := OrderedTokenTypes;
      matched := false;
      var i := 0;
      while i < |ordered|
        invariant 0 <= i <= |ordered| && !matched
        invariant input == old(input) && location == old(location) && tokens == old(tokens)
        invariant forall j :: 0 <= j < i ==> Find(ordered[j], old(input)).None?
        decreases |ordered| - i
      {
        var t := ordered[i];
        var value, found := FindToken(t);
        if !found {
          i := i + 1;
          continue;
        }
        matched := true;
        FirstMatchIsFirst(old(input), ordered, 0, i);
        if IsIgnored(t) {
        } else if t == EOL {
          location := SetEnd(location, ResetColumn(IncrLine(location.end)));
          location := SetStart(location, location.end);
        } else {
          AddToken(t, value);
        }
        break;
      }
    }

    /** Tokenize: scan the whole input. On success the accumulated tokens are
        returned and the buffer is emptied; on failure the error names the
        current end position and the tokens read so far stay in the buffer.
        The location is never reset. */
    method Tokenize(text: string) returns (r: Result<seq<Token>, LexError>)
      modifies this
      ensures var sc := Scan(text, old(location), postprocess);
        && location == sc.location
        && input == sc.rest
        && (sc.rest == [] ==> r == Ok(old(tokens) + sc.tokens) && tokens == [])
        && (sc.rest != [] ==> r == Err(UnexpectedToken(sc.location.end)) && tokens == old(tokens) + sc.tokens)
    {
      input := text;
      ghost var full := Scan(text, location, postprocess);
      ghost var tokens0 := tokens;
      while |input| > 0
        invariant ScanSoFar(full, tokens0, input, location, tokens, postprocess)
        decreases |input|
      {
        ghost var input1, location1, tokens1 := input, location, tokens;
        var matched := ScanToken();
        if !matched {
          assert Scan(input, location, postprocess) == Scanned([], location, input);
          return Err(UnexpectedToken(location.end));
        }
        ScanSoFarStep(full, tokens0, input1, location1, tokens1, postprocess);
      }
      assert Scan(input, location, postprocess) == Scanned([], location, []);
      assert tokens0 + full.tokens == tokens;
      r := Ok(tokens);
      tokens := [];
    }
  }
}
