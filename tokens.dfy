// Token kinds, tokens and the anchored token patterns
// (internal/types/token/type.go, types/token/token.go).
//
// Every pattern of the source is a regular expression anchored with `^`;
// here each one is a hand-written recognizer that returns the length of the
// prefix it matches, or None. The input is a string whose characters stand
// for the bytes of the source text, so a length is a byte count. For these
// patterns Go's leftmost-first matching has exactly one successful match, the
// greedy one written out below.

module Tokens {
  import opened Wrappers
  import opened Positions

  /** Token kinds. `Comment` belongs to the top-level token package, whose
      pattern is not part of this model: it is taken to be `//[^\n]*`. */
  datatype TokenType =
    | WS | EOL | Comment | Dollar | LBrace | RBrace | LBracket | RBracket
    | Spread | Comma | Colon | Int | Float | String | Bool | Ident | Path | Dot

  /** A token: its kind, its (post-processed) text and the span it was read from. */
  datatype Token = Token(typ: TokenType, value: string, location: Location)

  // ---- character classes ----

  predicate IsDigit(c: char) { '0' <= c <= '9' }

  predicate IsLetter(c: char) { 'a' <= c <= 'z' || 'A' <= c <= 'Z' }

  /** `[a-zA-Z0-9_]`: the word characters of `\b`. */
  predicate IsWordChar(c: char) { IsLetter(c) || IsDigit(c) || c == '_' }

  /** `[a-zA-Z0-9._/-]`: the characters of a path after its leading `/` or `./`. */
  predicate IsPathChar(c: char) { IsWordChar(c) || c == '.' || c == '/' || c == '-' }

  /** `[ \t\r]` */
  predicate IsBlank(c: char) { c == ' ' || c == '\t' || c == '\r' }

  predicate NotNewline(c: char) { c != '\n' }

  predicate HasPrefix(s: string, lit: string) {
    |lit| <= |s| && forall k :: 0 <= k < |lit| ==> s[k] == lit[k]
  }

  /** The longest run of characters satisfying `p` that starts at `i`. */
  function RunLength(s: string, i: nat, p: char -> bool): (n: nat)
    requires i <= |s|
    ensures i + n <= |s|
    ensures forall k :: i <= k < i + n ==> p(s[k])
    ensures i + n == |s| || !p(s[i + n])
    decreases |s| - i
  {
    if i < |s| && p(s[i]) then 1 + RunLength(s, i + 1, p) else 0
  }

  /** `[-+]?`: one when the input starts with a sign. */
  function SignLength(s: string): (n: nat)
    ensures n <= 1 && n <= |s|
    ensures n == 1 <==> (|s| > 0 && (s[0] == '-' || s[0] == '+'))
  {
    if |s| > 0 && (s[0] == '-' || s[0] == '+') then 1 else 0
  }

  // ---- the patterns ----

  /** A fixed text such as `{`, `...` or `:`. */
  function MatchText(s: string, lit: string): (r: Option<nat>)
    ensures r.Some? <==> HasPrefix(s, lit)
    ensures r.Some? ==> r.value == |lit|
  {
    if HasPrefix(s, lit) then Some(|lit|) else None
  }

  /** `^[-+]?[0-9]+` */
  function MatchInt(s: string): (r: Option<nat>)
    ensures r.Some? <==> SignLength(s) < |s| && IsDigit(s[SignLength(s)])
    ensures r.Some? ==> SignLength(s) < r.value <= |s|
    ensures r.Some? ==> forall k :: SignLength(s) <= k < r.value ==> IsDigit(s[k])
    ensures r.Some? ==> r.value == |s| || !IsDigit(s[r.value])
  {
    var sign := SignLength(s);
    var digits := RunLength(s, sign, IsDigit);
    if digits == 0 then None else Some(sign + digits)
  }

  /** `^[-+]?[0-9]+(\.[0-9]+)`: an Int match, a '.', and digits. The Int
      pattern matches a strict prefix of every Float match, which is why
      Float is tried before Int. */
  function MatchFloat(s: string): (r: Option<nat>)
    ensures r.Some? <==>
      MatchInt(s).Some? && MatchInt(s).value + 1 < |s|
      && s[MatchInt(s).value] == '.' && IsDigit(s[MatchInt(s).value + 1])
    ensures r.Some? ==> MatchInt(s).value + 1 < r.value <= |s|
    ensures r.Some? ==> forall k :: MatchInt(s).value < k < r.value ==> IsDigit(s[k])
    ensures r.Some? ==> r.value == |s| || !IsDigit(s[r.value])
  {
    var sign := SignLength(s);
    var digits := RunLength(s, sign, IsDigit);
    var dot := sign + digits;
    if digits == 0 || dot == |s| || s[dot] != '.' then None
    else
      var fraction := RunLength(s, dot + 1, IsDigit);
      if fraction == 0 then None else Some(dot + 1 + fraction)
  }

  /** `\b` after a word character at `i - 1`: the input ends or a non-word character follows. */
  predicate WordBoundaryAt(s: string, i: nat)
    requires i <= |s|
  {
    i == |s| || !IsWordChar(s[i])
  }

  /** `^(true|false)\b` */
  function MatchBool(s: string): (r: Option<nat>)
    ensures r.Some? ==> r.value <= |s| && (s[..r.value] == "true" || s[..r.value] == "false")
    ensures r.Some? ==> r.value == |s| || !IsWordChar(s[r.value])
    ensures r.Some? <==>
      (HasPrefix(s, "true") && WordBoundaryAt(s, 4)) || (HasPrefix(s, "false") && WordBoundaryAt(s, 5))
    ensures r.None? ==> !(HasPrefix(s, "true") && WordBoundaryAt(s, 4))
  {
    if HasPrefix(s, "true") && WordBoundaryAt(s, 4) then Some(4)
    else if HasPrefix(s, "false") && WordBoundaryAt(s, 5) then Some(5)
    else None
  }

  /** The body of a string literal from `i` on: ordinary characters, `\` followed
      by any character but a newline, up to and including the first quote that
      is not escaped. */
  function StringEnd(s: string, i: nat): (r: Option<nat>)
    requires i <= |s|
    ensures r.Some? ==> i < r.value <= |s| && s[r.value - 1] == '"'
    decreases |s| - i
  {
    if i == |s| then None
    else if s[i] == '"' then Some(i + 1)
    else if s[i] == '\\' then
      if i + 1 < |s| && s[i + 1] != '\n' then StringEnd(s, i + 2) else None
    else StringEnd(s, i + 1)
  }

  /** `^"(?:[^\\"]|\\.|\\\\)*"` */
  function MatchString(s: string): (r: Option<nat>)
    ensures r.Some? ==> 2 <= r.value <= |s| && s[0] == '"' && s[r.value - 1] == '"'
    ensures r.Some? ==> ScansAsStringBody(s, 1, r.value - 1)
    ensures |s| == 0 || s[0] != '"' ==> r.None?
  {
    if |s| > 0 && s[0] == '"' then
      var r := StringEnd(s, 1);
      if r.Some? then StringEndScansBody(s, 1); r else r
    else None
  }

  /** `^(?:/|\./)[a-zA-Z0-9._/-]+` */
  function MatchPath(s: string): (r: Option<nat>)
    ensures r.Some? <==>
      (|s| >= 2 && s[0] == '/' && IsPathChar(s[1]))
      || (|s| >= 3 && s[0] == '.' && s[1] == '/' && IsPathChar(s[2]))
    ensures r.Some? ==> 2 <= r.value <= |s| && forall k :: 1 <= k < r.value ==> IsPathChar(s[k])
    ensures r.Some? ==> r.value == |s| || !IsPathChar(s[r.value])
  {
    var lead := if HasPrefix(s, "/") then 1 else if HasPrefix(s, "./") then 2 else 0;
    if lead == 0 then None
    else
      var rest := RunLength(s, lead, IsPathChar);
      if rest == 0 then None else Some(lead + rest)
  }

  /** `^[a-zA-Z_][a-zA-Z0-9_]*` */
  function MatchIdent(s: string): (r: Option<nat>)
    ensures r.Some? <==> |s| > 0 && (IsLetter(s[0]) || s[0] == '_')
    ensures r.Some? ==> 1 <= r.value <= |s| && forall k :: 1 <= k < r.value ==> IsWordChar(s[k])
    ensures r.Some? ==> r.value == |s| || !IsWordChar(s[r.value])
  {
    if |s| > 0 && (IsLetter(s[0]) || s[0] == '_') then Some(1 + RunLength(s, 1, IsWordChar))
    else None
  }

  /** `^//[^\n]*` */
  function MatchComment(s: string): (r: Option<nat>)
    ensures r.Some? <==> |s| >= 2 && s[0] == '/' && s[1] == '/'
    ensures r.Some? ==> 2 <= r.value <= |s| && forall k :: 2 <= k < r.value ==> s[k] != '\n'
    ensures r.Some? ==> r.value == |s| || s[r.value] == '\n'
  {
    if HasPrefix(s, "//") then Some(2 + RunLength(s, 2, NotNewline)) else None
  }

  /** `t.Regexp().FindStringIndex(s)`: the length of the prefix of `s` that the
      anchored pattern of `t` matches. Every pattern needs at least one
      character, so a match always consumes a non-empty prefix. */
  function Find(t: TokenType, s: string): (r: Option<nat>)
    ensures r.Some? ==> 0 < r.value <= |s|
  {
    match t
    case WS => if |s| > 0 && IsBlank(s[0]) then Some(1) else None
    case EOL => MatchText(s, "\n")
    case Comment => MatchComment(s)
    case LBrace => MatchText(s, "{")
    case RBrace => MatchText(s, "}")
    case LBracket => MatchText(s, "[")
    case RBracket => MatchText(s, "]")
    case Spread => MatchText(s, "...")
    case Comma => MatchText(s, ",")
    case Dot => MatchText(s, ".")
    case Colon => MatchText(s, ":")
    case Dollar => MatchText(s, "$")
    case Int => MatchInt(s)
    case Float => MatchFloat(s)
    case Bool => MatchBool(s)
    case String => MatchString(s)
    case Ident => MatchIdent(s)
    case Path => MatchPath(s)
  }

  /** OrderedTokenTypes, with the comment kind right after end-of-line. */
  const OrderedTokenTypes: seq<TokenType> :=
    [WS, EOL, Comment, String, Path, Bool, Float, Int, LBrace, RBrace,
     LBracket, RBracket, Spread, Comma, Dot, Dollar, Colon, Ident]

  /** Kinds that are recognised but produce no token. */
  predicate IsIgnored(t: TokenType) { t == WS || t == Comma || t == Comment }

  /** The index of the first kind in `kinds`, from `from` on, whose pattern
      matches a prefix of `s`: every kind before it fails to match. */
  function FirstMatch(s: string, kinds: seq<TokenType>, from: nat := 0): (r: Option<nat>)
    requires from <= |kinds|
    ensures r.Some? ==> from <= r.value < |kinds| && Find(kinds[r.value], s).Some?
    ensures r.Some? ==> forall j :: from <= j < r.value ==> Find(kinds[j], s).None?
    ensures r.None? ==> forall j :: from <= j < |kinds| ==> Find(kinds[j], s).None?
    decreases |kinds| - from
  {
    if from == |kinds| then None
    else if Find(kinds[from], s).Some? then Some(from)
    else FirstMatch(s, kinds, from + 1)
  }

  /** The converse of FirstMatch's contract: the first kind that matches is the one chosen. */
  lemma {:induction false} FirstMatchIsFirst(s: string, kinds: seq<TokenType>, from: nat, i: nat)
    requires from <= i < |kinds|
    requires Find(kinds[i], s).Some?
    requires forall j :: from <= j < i ==> Find(kinds[j], s).None?
    ensures FirstMatch(s, kinds, from) == Some(i)
    decreases i - from
  {
    if from < i {
      FirstMatchIsFirst(s, kinds, from + 1, i);
    }
  }

  // ---- properties of the patterns ----

  /** A Bool is followed by the end of input or a non-word character, so
      `true123` is no Bool; whenever Bool matches, Ident matches the same
      prefix, which is why Bool is tried before Ident. */
  lemma BoolIsWholeWord(s: string)
    requires MatchBool(s).Some?
    ensures var n := MatchBool(s).value;
      && (s[..n] == "true" || s[..n] == "false")
      && WordBoundaryAt(s, n)
      && MatchIdent(s) == Some(n)
  {
    var n := MatchBool(s).value;
    assert s[..n] == (if n == 4 then "true" else "false");
    assert forall k :: 1 <= k < n ==> IsWordChar(s[k]) by {
      assert forall k :: 1 <= k < n ==> s[k] == s[..n][k];
    }
    RunLengthExact(s, 1, n, IsWordChar);
  }

  /** When the characters `[i, j)` satisfy `p` and `j` ends the run, the run is `j - i` long. */
  lemma {:induction false} RunLengthExact(s: string, i: nat, j: nat, p: char -> bool)
    requires i <= j <= |s|
    requires forall k :: i <= k < j ==> p(s[k])
    requires j == |s| || !p(s[j])
    ensures RunLength(s, i, p) == j - i
    decreases j - i
  {
    if i < j {
      RunLengthExact(s, i + 1, j, p);
    }
  }

  /** A String starts and ends with a quote, and no quote inside it is
      unescaped: every quote strictly inside is the second half of a `\x` pair. */
  predicate ScansAsStringBody(s: string, i: nat, end: nat)
    requires i <= end <= |s|
    decreases end - i
  {
    if i == end then true
    else if s[i] == '"' then false
    else if s[i] == '\\' then i + 1 < end && s[i + 1] != '\n' && ScansAsStringBody(s, i + 2, end)
    else ScansAsStringBody(s, i + 1, end)
  }

  /** The converse of StringEndScansBody: a body that scans up to a quote at
      `j` ends the literal right after that quote. */
  lemma {:induction false} StringEndFromBody(s: string, i: nat, j: nat)
    requires i <= j < |s| && s[j] == '"'
    requires ScansAsStringBody(s, i, j)
    ensures StringEnd(s, i) == Some(j + 1)
    decreases j - i
  {
    if i < j {
      if s[i] == '\\' {
        StringEndFromBody(s, i + 2, j);
      } else {
        StringEndFromBody(s, i + 1, j);
      }
    }
  }

  /** A leading quote, a well-formed body and a closing quote at `j` is a
      String of exactly `j + 1` characters. */
  lemma MatchStringComplete(s: string, j: nat)
    requires 1 <= j < |s| && s[0] == '"' && s[j] == '"'
    requires ScansAsStringBody(s, 1, j)
    ensures MatchString(s) == Some(j + 1)
  {
    StringEndFromBody(s, 1, j);
  }

  lemma {:induction false} StringEndScansBody(s: string, i: nat)
    requires i <= |s|
    requires StringEnd(s, i).Some?
    ensures ScansAsStringBody(s, i, StringEnd(s, i).value - 1)
    decreases |s| - i
  {
    var e := StringEnd(s, i).value;
    if s[i] == '"' {
    } else if s[i] == '\\' {
      StringEndScansBody(s, i + 2);
    } else {
      StringEndScansBody(s, i + 1);
    }
  }

  // ---- concrete inputs from the source's pattern tests ----

  lemma FloatExample(s: string)
    requires s == "123.123::"
    ensures Find(Float, s) == Some(7)
  {
    assert MatchFloat(s) == Some(7) by {
      assert SignLength(s) == 0 && RunLength(s, 0, IsDigit) == 3 && s[3] == '.' by {
        RunLengthExact(s, 0, 3, IsDigit);
      }
      assert RunLength(s, 4, IsDigit) == 3 by {
        RunLengthExact(s, 4, 7, IsDigit);
      }
    }
  }

  lemma NegativeFloatExample(s: string)
    requires s == "-123.123"
    ensures Find(Float, s) == Some(8)
  {
    assert SignLength(s) == 1;
    RunLengthExact(s, 1, 4, IsDigit);
    assert s[4] == '.';
    RunLengthExact(s, 5, 8, IsDigit);
    assert MatchFloat(s) == Some(8);
  }

  /** Without a fraction `123` is no Float but an Int of three bytes. */
  lemma IntNotFloatExample()
    ensures Find(Float, "123::") == None
    ensures Find(Int, "123::") == Some(3)
  {
    var s := "123::";
    assert SignLength(s) == 0 && RunLength(s, 0, IsDigit) == 3 && s[3] == ':' by {
      RunLengthExact(s, 0, 3, IsDigit);
    }
    assert MatchInt(s) == Some(3);
    assert MatchFloat(s) == None;
  }

  lemma NegativeIntExample()
    ensures Find(Int, "-123::") == Some(4)
  {
    var s := "-123::";
    assert SignLength(s) == 1;
    RunLengthExact(s, 1, 4, IsDigit);
  }

  /** `true123` is no Bool (no word boundary) but an Ident of seven bytes. */
  lemma BoolNeedsBoundaryExample()
    ensures Find(Bool, "true123") == None
    ensures Find(Ident, "true123") == Some(7)
  {
    var s := "true123";
    assert s[0] == 't' && s[1] == 'r' && s[4] == '1';
    TrueNeedsBoundary(s);
    assert RunLength(s, 1, IsWordChar) == 6 by {
      RunLengthExact(s, 1, 7, IsWordChar);
    }
  }

  /** `true` followed by a word character is no Bool. */
  lemma TrueNeedsBoundary(s: string)
    requires |s| > 4 && s[..4] == "true" && IsWordChar(s[4])
    ensures Find(Bool, s) == None
  {
    assert HasPrefix(s, "true") by {
      assert forall k :: 0 <= k < 4 ==> s[k] == s[..4][k];
    }
    assert s[0] == 't';
  }

  lemma IdentStopsAtDashExample()
    ensures Find(Ident, "key-key") == Some(3)
    ensures Find(Ident, "1key") == None
    ensures Find(Ident, "-key") == None
  {
    RunLengthExact("key-key", 1, 3, IsWordChar);
  }

  lemma EscapedStringExample()
    ensures Find(String, "\"test \\\"string\\\"\"::") == Some(17)
  {
    var s := "\"test \\\"string\\\"\"::";
    assert StringEnd(s, 16) == Some(17);
    assert StringEnd(s, 14) == Some(17);
    assert StringEnd(s, 8) == Some(17);
    assert StringEnd(s, 6) == Some(17);
    assert StringEnd(s, 4) == Some(17);
    assert StringEnd(s, 2) == Some(17);
    assert StringEnd(s, 1) == Some(17);
    assert MatchString(s) == Some(17);
  }

  lemma EmptyStringExample()
    ensures Find(String, "\"\"::") == Some(2)
  {
  }

  /** No literal pattern matches an input that starts with two dots. */
  lemma NoLiteralMatchesDots(s: string)
    requires |s| >= 2 && s[0] == '.' && s[1] == '.'
    ensures Find(String, s).None? && Find(Path, s).None? && Find(Bool, s).None?
    ensures Find(Float, s).None? && Find(Int, s).None?
  {
    assert !HasPrefix(s, "/") && !HasPrefix(s, "./");
    assert !HasPrefix(s, "true") && !HasPrefix(s, "false");
    assert SignLength(s) == 0 && RunLength(s, 0, IsDigit) == 0;
  }

  /** Every kind tried before Spread fails on an input that starts with two dots. */
  lemma NoKindBeforeSpreadMatchesDots(s: string)
    requires |s| >= 2 && s[0] == '.' && s[1] == '.'
    ensures forall j :: 0 <= j < 12 ==> Find(OrderedTokenTypes[j], s).None?
  {
    NoLiteralMatchesDots(s);
    assert !HasPrefix(s, "//") && !HasPrefix(s, "\n");
    assert !HasPrefix(s, "{") && !HasPrefix(s, "}") && !HasPrefix(s, "[") && !HasPrefix(s, "]");
  }

  /** `...` is a Spread and not a Dot because Spread is tried first. */
  lemma SpreadBeforeDot(s: string)
    requires HasPrefix(s, "...")
    ensures FirstMatch(s, OrderedTokenTypes) == Some(12)
    ensures Find(Dot, s) == Some(1)
  {
    assert Find(Dot, s) == Some(1) by {
      assert HasPrefix(s, ".");
    }
    assert FirstMatch(s, OrderedTokenTypes) == Some(12) by {
      assert Find(Spread, s).Some? && s[0] == '.' && s[1] == '.';
      NoKindBeforeSpreadMatchesDots(s);
      FirstMatchIsFirst(s, OrderedTokenTypes, 0, 12);
    }
  }

  /** A line comment is not read as a Path because Comment is tried first,
      although the Path pattern matches a prefix of it as well. */
  lemma CommentBeforePath(s: string)
    requires HasPrefix(s, "//")
    ensures FirstMatch(s, OrderedTokenTypes) == Some(2)
    ensures Find(Path, s).Some?
  {
    assert s[0] == '/' && s[1] == '/';
    assert FirstMatch(s, OrderedTokenTypes) == Some(2) by {
      assert Find(WS, s) == None && Find(EOL, s) == None;
      FirstMatchIsFirst(s, OrderedTokenTypes, 0, 2);
    }
    assert IsPathChar(s[1]);
  }

}
