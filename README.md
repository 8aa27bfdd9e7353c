# atmc configuration compiler, modelled in Dafny

atmc compiles a small configuration language. A configuration file starts with
imports (`name ./path`) and then one object of `key: value` entries. Values
are objects, arrays, strings, integers, floats, booleans, environment
references (`$NAME`), variable references into imported files
(`name.key.key`) and spreads (`name...`) of an imported object or array. The
pipeline this project models runs as follows:

1. **Tokens and positions** (`Tokens`, `Positions`). The anchored token
   patterns are hand-written prefix recognizers, tried in their fixed
   priority order. Lines, columns and byte offsets are tracked by value.
2. **Lexer** (`Lexing`). `Scan` specifies the token stream: the
   first-priority matching prefix at each step, with whitespace, commas,
   comments and end-of-lines dropped. The `Lexer` class keeps the source's
   fields and loops, and `Tokenize` is proved to produce what `Scan`
   describes.
3. **Token cursor and parser** (`TokenCursor`, `Checker`, `Grammar`,
   `Parsing`). `Grammar` gives every production as a function of the tokens
   and a cursor position. It separates the soft `TokenMismatch` from hard
   errors. Each method of the `Parser` class moves a real `TokenMover` and is
   proved to return what its production returns, leaving the cursor where
   the production leaves it.
4. **Syntax tree** (`RawAst`). It covers literal conversion, node locations,
   the pre-order `inspect` walk and lookup by key path.
5. **Analyzer** (`Analysis`). A scope maps each imported name to a reference
   count. The analyzer walks a file, declares the imports, checks that every
   variable starts with a declared name, and reports the names nothing
   uses. The scope API is the one of `internal/compiler/semantic/scope.go`.
6. **Processor** (`Processing`). A memoised depth-first walk over the import
   graph, with a stack cloned per import to detect cycles. A file is stored
   only after all of its imports. The main file is then linked against
   every stored file.
7. **Linker** (`OrderedSets`, `LinkedAst`, `Linking`). It resolves variables
   and environment references, splices array spreads, expands object
   spreads and merges objects on key collisions, all in an insertion-ordered
   map. Linked files are cached per absolute path. The import graph's
   acyclicity, which the processor establishes, appears as a ranking of the
   stored files and gives the linker's recursion its termination measure.
8. **Binders** (`MapCompiling`, `StructCompiling`). The linked tree becomes
   nested untyped maps and slices, or fills a typed record. Go reflection is
   modelled by an explicit type descriptor (`Type`), and a record by a
   value of that type (`Value`).

Each `*facts.dfy` file collects the properties that relate several
operations of one stage. Files read from disk, the environment and path
resolution are parameters of the model (the `OS` datatype).

## Model

| member | source | states |
|---|---|---|
| Positions.InitialPosition | internal/types/position.go:44-50 | the initial position is line 1, column 0, offset 0 |
| Positions.InitialLocation | internal/types/position.go:30-32 | the initial location starts and ends at the initial position |
| Positions.ZeroPosition | internal/types/position.go:34-38 | Go's zero Position has every coordinate 0 |
| Positions.AddPos | internal/types/position.go:61-64 | the offset grows by n; line and column are unchanged |
| Positions.IncrPos | internal/types/position.go:56-59 | IncrPos is AddPos by one |
| Positions.AddColumn | internal/types/position.go:84-87 | the column grows by n; line and offset are unchanged |
| Positions.IncrColumn | internal/types/position.go:79-82 | IncrColumn is AddColumn by one |
| Positions.IncrLine | internal/types/position.go:70-73 | the line grows by one; column and offset are unchanged |
| Positions.ResetColumn | internal/types/position.go:89-92 | the column becomes 0; line and offset are unchanged |
| Positions.SetStart | internal/types/position.go:8-11 | a copy with the start replaced and the end kept |
| Positions.SetEnd | internal/types/position.go:13-16 | a copy with the end replaced and the start kept |
| Tokens.MatchText | internal/types/token/type.go:72-81 | a fixed-text pattern matches exactly when the input starts with the text, and then matches its length |
| Tokens.MatchInt | internal/types/token/type.go:82 | matches exactly when a digit follows the optional sign; the match is the sign and the maximal run of digits after it |
| Tokens.MatchFloat | internal/types/token/type.go:83 | matches exactly when an Int match is followed by a '.' and a digit; the match runs past the Int match, through the dot, over the maximal run of digits after it |
| Tokens.MatchBool | internal/types/token/type.go:84 | matches exactly when the input starts with "true" or "false" followed by the end of input or a non-word character; a match is exactly that word |
| Tokens.MatchString | internal/types/token/type.go:85 | matches only from a leading quote; a match ends with a quote, and the body between the quotes holds only ordinary characters and backslash escapes, with no unescaped quote |
| Tokens.MatchIdent | internal/types/token/type.go:86 | matches exactly from a letter or '_'; the match is the maximal run of word characters from there |
| Tokens.MatchPath | internal/types/token/type.go:87 | matches exactly when "/" or "./" is followed by a path character; the match is the maximal run of path characters after the first byte |
| Tokens.MatchComment | internal/types/token/type.go:71-89 | the comment pattern, taken to be `//[^\n]*` (see Left out): matches exactly from "//" and runs up to the next newline or the end of input |
| Tokens.StringEnd | internal/types/token/type.go:85 | a string body ends at a closing quote inside the input |
| Tokens.StringEndScansBody | internal/types/token/type.go:85 | the scanned body holds only ordinary characters and backslash escapes, and no unescaped quote |
| Tokens.StringEndFromBody | internal/types/token/type.go:85 | conversely, a body of ordinary characters and escapes up to a quote ends the literal right after that quote |
| Tokens.MatchStringComplete | internal/types/token/type.go:85 | a leading quote, a well-formed body and a closing quote at j is matched, and the match is exactly j + 1 characters |
| Tokens.Find | internal/types/token/type.go:71-89 | every anchored pattern that matches consumes a non-empty prefix of the input |
| Tokens.FirstMatch | internal/types/token/type.go:100-120 | the chosen kind matches, and no kind earlier in the priority list does; none is chosen only when no kind matches |
| Tokens.FirstMatchIsFirst | internal/types/token/type.go:100-120 | conversely, the first matching kind in priority order is the one chosen |
| Tokens.BoolIsWholeWord | internal/types/token/type.go:84 | a Bool is "true" or "false" followed by a word boundary, and Ident matches the same prefix |
| Tokens.RunLengthExact | internal/types/token/type.go:82-87 | a maximal run of a character class has exactly its length |
| Tokens.FloatExample | internal/types/token/type_test.go:385 | "123.123::" starts with a Float of 7 bytes |
| Tokens.NegativeFloatExample | internal/types/token/type_test.go:395 | "-123.123" is a Float of 8 bytes |
| Tokens.IntNotFloatExample | internal/types/token/type_test.go:390 | "123::" is no Float but an Int of 3 bytes |
| Tokens.NegativeIntExample | internal/types/token/type_test.go:355 | "-123::" starts with an Int of 4 bytes |
| Tokens.BoolNeedsBoundaryExample | internal/types/token/type_test.go:430 | "true123" is no Bool but an Ident of 7 bytes |
| Tokens.IdentStopsAtDashExample | internal/types/token/type_test.go:535-545 | an Ident stops before '-' and cannot start with a digit or '-' |
| Tokens.EscapedStringExample | internal/types/token/type_test.go:485 | an escaped quote stays inside the String |
| Tokens.EmptyStringExample | internal/types/token/type_test.go:490 | "" is a String of 2 bytes |
| Tokens.NoLiteralMatchesDots | internal/types/token/type.go:82-87 | no literal pattern (String, Path, Bool, Float, Int) matches an input that starts with two dots |
| Tokens.NoKindBeforeSpreadMatchesDots | internal/types/token/type.go:100-113 | every kind tried before Spread fails on an input that starts with two dots |
| Tokens.SpreadBeforeDot | internal/types/token/type.go:113-115 | an input starting with "..." is read as a Spread, not as a Dot, because Spread comes first, although Dot matches one byte of it |
| Tokens.CommentBeforePath | internal/types/token/type.go:100-120 | an input starting with "//" is read as a Comment, not as a Path, although the Path pattern matches it too; this rests on the assumption, listed under Left out, that Comment is tried right after EOL |
| Tokens.TrueNeedsBoundary | internal/types/token/type.go:84 | "true" followed by a word character is no Bool |
| Lexing.Advance | lexer/lexer.go:95-102 | after a match of n bytes, the location starts at the old end, and the end's offset and column grow by n |
| Lexing.AfterEOL | lexer/lexer.go:44-52 | an end-of-line moves to the next line at column 0 and sets the start equal to the end |
| Lexing.ScanOne | lexer/lexer.go:30-62 | a step exists exactly when some kind matches; it consumes exactly the prefix the first matching kind finds, leaves the rest of the input, moves the location over the match (and to the next line after an end-of-line); an ignored kind or an end-of-line emits nothing, any other kind emits exactly one token of that kind with the post-processed text and the match's location |
| Lexing.Scan | lexer/lexer.go:25-70 | what scanning leaves unconsumed is a suffix of the input |
| Lexing.ScanStopsAtUnmatched | lexer/lexer.go:30-62 | scanning stops only at the end of the input or where no kind matches |
| Lexing.ScanAdvancesOffset | lexer/lexer.go:84-104 | the end offset advances by exactly the number of bytes consumed, and the line never goes back |
| Lexing.ScanTokensInOrder | lexer/lexer.go:72-82 | tokens come out in source order, each within the consumed span |
| Lexing.ScanEmitsNoIgnoredKind | lexer/lexer.go:41-55 | whitespace, commas, comments and end-of-lines never become tokens |
| Lexing.ScanOneEmits | lexer/lexer.go:41-55 | one step never emits an ignored kind or an end-of-line |
| Lexing.EmittedConcat | lexer/lexer.go:72-82 | two token lists free of ignored kinds and end-of-lines concatenate to one |
| Lexing.LineChangesOnlyAtEOL | lexer/lexer.go:41-54 | without a newline byte in the input, the line never changes |
| Lexing.ScanOneLine | lexer/lexer.go:44-52 | one step moves to the next line exactly when the input starts with a newline byte, an end-of-line match |
| Lexing.FirstKindIsEOL | internal/types/token/type.go:100-103 | the first matching kind is end-of-line exactly when the input starts with a newline byte |
| Lexing.NewlineMatchesEOL | internal/types/token/type.go:100-103 | an input starting with a newline byte is read as an end-of-line, the second kind in priority order |
| Lexing.StringHoldsNewlineExample | internal/types/token/type.go:85 | a String lexeme may hold a raw newline, which then does not count as an end-of-line |
| Lexing.Lexer.constructor | lexer/lexer.go:18-23 | a new lexer has no tokens and the initial location |
| Lexing.Lexer.FindToken | lexer/lexer.go:84-104 | on a match, the input loses the matched prefix, which is returned, and the location advances over it; otherwise nothing changes |
| Lexing.Lexer.AddToken | lexer/lexer.go:72-82 | appends one token with the post-processed text and the current location |
| Lexing.Lexer.ScanToken | lexer/lexer.go:31-62 | one pass of the outer loop equals one step of the scan specification |
| Lexing.Lexer.Tokenize | lexer/lexer.go:25-70 | returns the buffered and newly scanned tokens and empties the buffer, or, when no kind matches, an error at the current end position with the tokens left in the buffer; the location is never reset |
| TokenCursor.TokenMover.constructor | internal/lexer/tokenmover/tokenmover.go:35-37 | a new cursor is at position 0 with no save points |
| TokenCursor.TokenMover.SavePoint | internal/lexer/tokenmover/tokenmover.go:15-17 | pushes the current position |
| TokenCursor.TokenMover.RemoveSavePoint | internal/lexer/tokenmover/tokenmover.go:19-25 | pops the top save point, and does nothing on an empty stack |
| TokenCursor.TokenMover.ReturnToSavePoint | internal/lexer/tokenmover/tokenmover.go:27-33 | moves to the top save point without popping it, and does nothing on an empty stack |
| TokenCursor.TokenMover.IsEmpty | internal/lexer/tokenmover/tokenmover.go:39-41 | true only when the position is at or past the end; when false at a non-negative position, Token is defined |
| TokenCursor.TokenMover.Next | internal/lexer/tokenmover/tokenmover.go:43-45 | the position grows by one and the stack is unchanged |
| TokenCursor.TokenMover.Prev | internal/lexer/tokenmover/tokenmover.go:46-48 | the position shrinks by one and the stack is unchanged |
| TokenCursor.TokenMover.Token | internal/lexer/tokenmover/tokenmover.go:50-56 | needs a position inside the tokens (the source panics otherwise), and returns the token at the current position |
| Checker.AnyOf | parser/checker.go:13-19 | the loop finds the kind exactly when it is among the accepted kinds |
| Checker.Match | parser/checker.go:8-20 | true exactly when the cursor is not exhausted and the current kind is accepted |
| Checker.Require | parser/checker.go:22-32 | TokenNotExist on an exhausted cursor, nothing on a match, and the hard UnexpectedToken otherwise |
| Checker.Check | parser/checker.go:34-44 | TokenNotExist on an exhausted cursor, nothing on a match, and the soft TokenMismatch otherwise |
| RawAst.ParseInt64 | parser/ast/literal.go:12-22 | what strconv.ParseInt accepts: an optional sign and decimal digits, in the int64 range |
| RawAst.NewInt | parser/ast/literal.go:12-22 | an Int literal with its location exactly when the text is a 64-bit decimal, otherwise InvalidInt |
| RawAst.NewString | parser/ast/literal.go:40-45 | the lexeme is kept verbatim, quotes and escapes included, with its location |
| RawAst.NewBool | parser/ast/literal.go:49-63 | exactly "true" and "false" are accepted, with the matching value; any other text is InvalidBool |
| RawAst.ParseDecimal | parser/ast/literal.go:12-22 | an unsigned decimal rendering parses back to its value exactly when the value fits in int64, and is rejected otherwise |
| RawAst.ParseNegatedDecimal | parser/ast/literal.go:12-22 | a '-' followed by a decimal rendering parses back to the negated value exactly when it fits in int64, and is rejected otherwise |
| RawAst.ParseFormatRoundTrip | parser/ast/literal.go:12-22 | NewInt's parse of the decimal rendering of any int64 gives that value back |
| RawAst.ParseRejectsOutOfRange | parser/ast/literal.go:13-16 | a decimal outside the int64 range is rejected |
| RawAst.NewKV | parser/ast/entry.go:22-30 | a KV keeps its key and value, and spans from the key's start to the value's end |
| RawAst.NewVar | parser/ast/var.go:24-38 | a Var spans from its first ident's start to its last ident's end; an empty path gets the zero location |
| RawAst.StringPath | parser/ast/var.go:18-22 | the names of the idents, in order and of the same length |
| RawAst.VisitExpr | parser/ast/var.go:40-46 | the handler is called on every expression other than an Object before anything inside it (a Var as var.go:40-46, an Env as env.go:24-30, an Array as array.go:23-34), and a spread's variable is visited too |
| RawAst.VisitElements | parser/ast/array.go:23-34 | every array element other than an Object is visited |
| RawAst.VisitEntry | parser/ast/entry.go:32-41 | a KV entry visits the KV, a spread entry visits the spread's variable |
| RawAst.VisitEntries | parser/ast/object.go:26-34 | every KV of the object is visited |
| RawAst.VarNodesAppend | parser/ast/object.go:26-34 | the Var nodes of a concatenated walk are those of each part, in order |
| RawAst.VisitExprSeesAllVars | parser/ast/var.go:40-46 | the walk of an expression calls the handler on exactly its variable references, in source order |
| RawAst.VisitElementsSeesAllVars | parser/ast/array.go:23-34 | the walk of array elements sees exactly their variable references, in order |
| RawAst.VisitEntrySeesAllVars | parser/ast/entry.go:32-41 | the walk of an entry sees exactly its variable references |
| RawAst.VisitEntriesSeesAllVars | parser/ast/object.go:26-34 | the walk of an object's entries sees exactly their variable references, in order |
| RawAst.NoObjectNodeAppend | parser/ast/object.go:26-34 | concatenating two walks without Object nodes gives a walk without Object nodes |
| RawAst.VisitExprSkipsObjects | parser/ast/object.go:26-34 | Object.inspect never calls the handler on the Object node itself |
| RawAst.VisitElementsSkipObjects | parser/ast/array.go:28-32 | no Object node among the nodes visited under array elements |
| RawAst.VisitEntrySkipsObjects | parser/ast/entry.go:32-41 | no Object node among the nodes visited under an entry |
| RawAst.VisitEntriesSkipObjects | parser/ast/object.go:26-34 | no Object node among the nodes visited under an object's entries |
| RawAst.ParentVisitedFirst | parser/ast/entry.go:32-41 | the handler runs on a KV before its value, and on an Array before its elements |
| RawAst.FindInEntriesFirstHit | parser/ast/object.go:49-72 | lookup is decided by the first KV keyed by the head or the first spread: a spread gives "unexpected entry", a one-element path gives the KV's value, a longer path descends only into an Object, and no hit gives "node not found" |
| RawAst.FindInEntries | parser/ast/object.go:49-72 | a lookup succeeds only when some KV is keyed by the head of the path, and for a one-element path yields the value of such a KV; no entries is "node not found" |
| RawAst.FindNodeByPath | parser/ast/object.go:36-47 | the empty path gives the object itself; a successful lookup names a key of the object |
| Grammar.IdentAt | parser/parser.go:78-91 | an identifier node carries its token's text and location |
| Grammar.PVar | parser/parser.go:154-190 | a Var of at least one ident starting with the current one, the cursor moved past it; a soft mismatch leaves the cursor in place |
| Grammar.PSpread | parser/parser.go:127-152 | a spread ends with a '...' token and spans from the Var's start to the end of the '...'; a soft mismatch returns the cursor to where it began |
| Grammar.PKV | parser/parser.go:210-248 | a KV consumes tokens; a missing colon is a soft mismatch with the cursor back at the key |
| Grammar.PEntry | parser/parser.go:192-208 | an entry consumes tokens; a soft mismatch leaves the cursor in place |
| Grammar.PEntries | parser/parser.go:107-113 | the entry loop succeeds only with the cursor resting on a '}' |
| Grammar.PObject | parser/parser.go:96-125 | an object runs from a '{' to a '}' and is located from one to the other; a first token other than '{' is a soft mismatch with the cursor in place |
| Grammar.PElements | parser/parser.go:449-460 | the element loop succeeds only with the cursor resting on a ']' |
| Grammar.PArray | parser/parser.go:438-473 | an array runs from a '[' to a ']' and is located from one to the other |
| Grammar.PEnv | parser/parser.go:409-436 | succeeds exactly on '$' followed by an Ident, giving an Env spanning from the '$' to the end of the name |
| Grammar.PString | parser/parser.go:340-353 | succeeds exactly on a String token, whose lexeme and location it keeps; otherwise the cursor stays |
| Grammar.PFloat | parser/parser.go:391-407 | succeeds exactly on a Float token, whose lexeme and location it keeps; otherwise the cursor stays |
| Grammar.PInt | parser/parser.go:373-389 | succeeds exactly on an Int token holding a 64-bit decimal, giving its value; an out-of-range lexeme is InvalidLiteral and the cursor stays |
| Grammar.PBool | parser/parser.go:355-371 | succeeds exactly on a Bool token whose text is "true" or "false", giving the matching value |
| Grammar.PExpr | parser/parser.go:250-338 | a successful expression consumes at least one token and never runs past the input |
| Grammar.PImport | parser/parser.go:73-94 | succeeds exactly on an Ident followed by a Path, consuming both; a soft mismatch leaves the cursor in place |
| Grammar.PImportList | parser/parser.go:59-70 | the import loop never runs past the input |
| Grammar.PImports | parser/parser.go:53-71 | never runs past the input; an exhausted cursor gives no imports |
| Grammar.PFile | parser/parser.go:39-51 | never runs past the input |
| Grammar.PathAtCons | parser/parser.go:154-190 | an Ident and a '.' in front of a spelt path spell the longer path |
| Grammar.VarStep | parser/parser.go:154-190 | a Var starts with an Ident; without a following '.' it is that one ident, with a '.' it is that ident prefixed to the rest of the path, and a rest that fails leaves the one ident with the cursor after the '.' |
| Grammar.VarShape | parser/parser.go:154-190 | a Var's idents are spelt by Ident ('.' Ident)* from the start |
| Grammar.VarEnd | parser/parser.go:154-190 | the cursor ends after the last ident of a Var, or after a '.' not followed by an Ident |
| Grammar.ElementsNeverMismatch | parser/parser.go:449-456 | the element loop never ends in a soft mismatch: a mismatching element becomes ExpectedNode |
| Grammar.TrailingTokensIgnored | parser/parser.go:39-51 | a file starting with '{' '}' is the empty object, whatever tokens follow |
| Grammar.EmptyInputHasNoObject | parser/parser.go:39-48 | an empty token stream fails with TokenNotExist |
| Grammar.ImportNeedsPath | parser/parser.go:73-84 | an Ident in import position followed by a non-Path is a hard UnexpectedToken, for the import and for the import list |
| Grammar.UnclosedObjectFails | parser/parser.go:107-113 | an object whose entries all parse and run to the end of the input without a '}' is TokenNotExist, with the cursor at the end |
| Grammar.UnclosedEntriesFail | parser/parser.go:107-113 | an entry loop whose entries parse up to the end of the input, with no '}' among the remaining tokens, fails with TokenNotExist at the end |
| Parsing.Parser.constructor | parser/parser.go:24-26 | a new parser has no cursor |
| Parsing.Parser.Parse | parser/parser.go:28-37 | returns the file grammar's result and leaves the cursor where the grammar ends, with the save points as they were |
| Parsing.Parser.ParseFile | parser/parser.go:39-51 | equals the file grammar in result and cursor |
| Parsing.Parser.ParseImports | parser/parser.go:53-71 | equals the import-list grammar in result and cursor |
| Parsing.Parser.ParseImport | parser/parser.go:73-94 | equals the import grammar in result and cursor |
| Parsing.Parser.ParseObject | parser/parser.go:96-125 | equals the object grammar in result and cursor |
| Parsing.Parser.ParseSpread | parser/parser.go:127-152 | equals the spread grammar in result and cursor; its save point is removed on every path |
| Parsing.Parser.ParseVar | parser/parser.go:154-190 | equals the var grammar in result and cursor |
| Parsing.Parser.ParseEntry | parser/parser.go:192-208 | equals the entry grammar in result and cursor |
| Parsing.Parser.ParseKV | parser/parser.go:210-248 | equals the KV grammar in result and cursor; its save point is removed on every path |
| Parsing.Parser.ParseExpression | parser/parser.go:250-262 | equals the expression grammar in result and cursor; a failed `require` of the expression kinds is returned at once |
| Parsing.Parser.ParseByKind | parser/parser.go:264-338 | the switch on the current kind equals the expression grammar in result and cursor |
| Grammar.ExprRequire | parser/parser.go:250-262 | when the `require` of the expression kinds fails, the expression fails with that error and the cursor stays |
| Parsing.Parser.ParseString | parser/parser.go:340-353 | equals the string grammar in result and cursor |
| Parsing.Parser.ParseBool | parser/parser.go:355-371 | equals the bool grammar in result and cursor |
| Parsing.Parser.ParseInt | parser/parser.go:373-389 | equals the int grammar in result and cursor |
| Parsing.Parser.ParseFloat | parser/parser.go:391-407 | equals the float grammar in result and cursor |
| Parsing.Parser.ParseEnv | parser/parser.go:409-436 | equals the env grammar in result and cursor |
| Parsing.Parser.ParseArray | parser/parser.go:438-473 | equals the array grammar in result and cursor |
| Analysis.Unused | internal/compiler/semantic/scope.go:57-61 | a name is unused exactly when it is declared with a zero count |
| Analysis.RefsCheck | internal/compiler/semantic/scope.go:54-64 | no error exactly when every declared name has a nonzero count; otherwise the error reports exactly the unused names |
| Analysis.CheckVarSpec | analyzer/analyzer.go:56-69 | succeeds exactly when the path is non-empty and its head is declared, and then only the head's count grows by one; on error the scope is unchanged and an undeclared head is UndefinedVariable |
| Analysis.VisitSpec | analyzer/analyzer.go:30-54 | an import declares its name with a zero count and never fails; no other node declares or removes a name |
| Analysis.Walk | analyzer/analyzer.go:16-21 | the walk never removes a declared name, and fails only if some visited node is a variable reference |
| Analysis.Scope.constructor | internal/compiler/semantic/scope.go:13-15 | a new scope declares no names |
| Analysis.Scope.AddVariable | internal/compiler/semantic/scope.go:38-43 | the name is (re)declared with a zero count and nothing else changes |
| Analysis.Scope.HasVariable | internal/compiler/semantic/scope.go:45-48 | true exactly for declared names |
| Analysis.Scope.IncrRef | internal/compiler/semantic/scope.go:50-52 | requires a declared name; only its count grows by one |
| Analysis.Scope.CheckVariableRefs | internal/compiler/semantic/scope.go:54-64 | the loop over the scope returns the refs check of the whole scope |
| Analysis.Analyzer.constructor | analyzer/analyzer.go:12-14 | a new analyzer owns a fresh, empty scope |
| Analysis.Analyzer.CheckVar | analyzer/analyzer.go:56-69 | the new scope and error are those of the checkVar specification on the old scope |
| Analysis.Analyzer.Visit | analyzer/analyzer.go:30-54 | the new scope and error are those of the visit specification on the old scope |
| Analysis.Analyzer.Analyze | analyzer/analyzer.go:16-28 | the scope becomes the walk of the file's nodes from the old scope, and the result is the walk's error, else the refs check of the walked scope |
| Analysis.WalkAppend | analyzer/analyzer.go:16-21 | the walk over two node lists is the walk over the first, then, if it raised nothing, the walk over the second |
| Analysis.ImportNames | analyzer/analyzer.go:33-34 | exactly the names the imports carry |
| Analysis.ImportsDeclare | analyzer/analyzer.go:33-34 | visiting the imports never fails, declares every imported name with a zero count and leaves other names as they were |
| Analysis.CountHead | analyzer/analyzer.go:60-66 | the number of references whose head is the name, at most the number of references |
| Analysis.BodyWalk | analyzer/analyzer.go:39-43 | below the imports the walk succeeds exactly when every reference's head is declared, keeps the declared names, and adds to each name the number of references to it |
| Analysis.FreshAnalysis | analyzer/analyzer.go:16-28 | from an empty scope a file passes the walk exactly when every reference starts with an imported name, and the unused names are exactly the imports nothing refers to |
| OrderedSets.Empty | pkg/orderedset/orderedset.go:11-16 | the empty ordered set has no keys and satisfies the invariant |
| OrderedSets.Put | pkg/orderedset/orderedset.go:54-60 | the map gets the key's new value and the invariant (no duplicate keys, keys list equals map keys) is preserved |
| OrderedSets.IndexOf | pkg/orderedset/orderedset.go:109-117 | -1 exactly when the key is absent; otherwise the first index holding the key |
| OrderedSets.Remove | pkg/orderedset/orderedset.go:82-89 | the key leaves the map and nothing else does |
| OrderedSets.ValuesOf | pkg/orderedset/orderedset.go:19-26 | one value per key, each the map's value for the key at the same position |
| OrderedSets.RemoveKeepsOrder | pkg/orderedset/orderedset.go:82-107 | Delete keeps the invariant and leaves the other keys in their order |
| OrderedSets.PutValues | pkg/orderedset/orderedset.go:54-60 | Set on a present key replaces its value in place; on a new key appends the value at the end |
| OrderedSets.DistinctCard | pkg/orderedset/orderedset.go:37-40 | a duplicate-free key list is as long as the set of its keys |
| OrderedSets.LenIsSize | pkg/orderedset/orderedset.go:37-40 | under the invariant the key list's length is the number of entries |
| OrderedSets.Offered | pkg/orderedset/orderedset.go:43-52 | the iteration offers at most one pair per key |
| OrderedSets.OfferedMeaning | pkg/orderedset/orderedset.go:43-52 | the iteration offers the pairs in key order, every one but the last accepted, and stops early only at a refusal |
| OrderedSets.OrderedSet.constructor | pkg/orderedset/orderedset.go:11-16 | a new ordered set is empty and satisfies the invariant |
| OrderedSets.OrderedSet.Values | pkg/orderedset/orderedset.go:19-26 | the loop returns the values in key order |
| OrderedSets.OrderedSet.Keys | pkg/orderedset/orderedset.go:28-35 | the loop returns the keys in insertion order |
| OrderedSets.OrderedSet.Len | pkg/orderedset/orderedset.go:37-40 | the number of entries |
| OrderedSets.OrderedSet.Iterator | pkg/orderedset/orderedset.go:43-52 | the loop offers exactly the pairs of the iteration specification |
| OrderedSets.OrderedSet.Set | pkg/orderedset/orderedset.go:54-60 | the new state is Put of the old and the invariant holds |
| OrderedSets.OrderedSet.Get | pkg/orderedset/orderedset.go:62-65 | found exactly when the key is present, with its value; otherwise the zero value |
| OrderedSets.OrderedSet.GetValue | pkg/orderedset/orderedset.go:67-71 | the key's value, or the zero value when absent |
| OrderedSets.OrderedSet.MustGet | pkg/orderedset/orderedset.go:73-80 | requires a present key (the source panics otherwise) and returns its value |
| OrderedSets.OrderedSet.Delete | pkg/orderedset/orderedset.go:82-89 | the new state is Remove of the old and the invariant holds |
| OrderedSets.OrderedSet.DeleteFromOrderedKey | pkg/orderedset/orderedset.go:95-107 | drops the key's first index from the key list and leaves the map alone |
| OrderedSets.OrderedSet.FindKeyIndex | pkg/orderedset/orderedset.go:109-117 | the loop returns the first index of the key, or -1 |
| LinkedAst.KeysOf | linker/ast/kv.go:13-15 | the keys of the KVs, one per KV, in order |
| LinkedAst.ValuesShallower | linker/ast/object.go:45-61 | every value of an object is strictly shallower than the object, so the descent by path ends |
| LinkedAst.Lookup | linker/ast/object.go:46-49 | no value exactly when no KV has the key |
| LinkedAst.FindIn | linker/ast/object.go:45-69 | a head key no KV carries is NotFound; a one-key path yields the value of the first KV with that key, and NotFound when there is none |
| LinkedAst.FindExpByPath | linker/ast/object.go:32-43 | the empty path gives the whole object; otherwise as the path lookup, so a missing head is NotFound and a one-key path gives the first matching value |
| LinkedAst.FindInByLookup | linker/ast/object.go:45-69 | path lookup is decided by the first KV keyed with the head: not found, its value for a one-key path, a descent into it when it is an Object, and an unexpected-value error otherwise |
| LinkedAst.FoundThroughObjects | linker/ast/object.go:51-60 | a successful lookup went through Objects: every proper prefix of the path names an Object |
| LinkedAst.AllObjectsNoUnexpected | linker/ast/object.go:55-60 | in a tree of Objects only, lookup never reports an unexpected value |
| Linking.GetEnv | linker/linker.go:269-271 | the variable's value, or the empty string when it is unset |
| Linking.FindVariableExp | linker/linker.go:250-267 | a variable whose head is no import name is NotFoundVariable naming that head; an import name alone is the import's whole tree; every NotFoundVariable starts with the head; a success needs the head to be bound; an empty path is an error |
| Linking.LinkedValue | linker/linker.go:133-168 | an Env reference reads the environment, "" when unset; Bool, String, Int and Float literals are copied unchanged; a variable resolves as FindVariableExp says; a spread in value position is "unknown value type"; an Object links to an Object with each key once, an Array to an Array |
| Linking.LinkedArray | linker/linker.go:201-248 | no elements leave the done ones; a success keeps the done elements as its prefix |
| Linking.FindVariableByLookup | linker/linker.go:250-267 | a variable that is an import name alone is that import's whole tree; a longer one is decided by the first KV keyed by its second name: NotFoundVariable with the full path, its value, a failed lookup through a non-Object, or a descent |
| Linking.LinkObjectSpread | linker/linker.go:173-185 | succeeds exactly when the variable resolves to an Object, giving its KVs; a non-Object is UnexpectedNodeType("Object") |
| Linking.LinkArraySpread | linker/linker.go:187-199 | succeeds exactly when the variable resolves to an Array, giving its elements; a non-Array is UnexpectedNodeType("Array") |
| Linking.Upsert | linker/linker.go:110-114 | a new key is appended with its KV; a present key keeps its position and gets the merge, no deeper than either side; every other key is untouched; the ordered-set invariant and keying are preserved |
| Linking.MergeAll | linker/linker.go:281-294 | upserting a KV list keeps the ordered-set invariant, the keying and the depth bound |
| Linking.Merge | linker/linker.go:273-297 | the merge is no deeper than either entry and keeps a shared key |
| Linking.PutAll | linker/linker.go:121-123 | setting a spread's KVs keeps the ordered-set invariant and the keying |
| Linking.LinkedKV | linker/linker.go:132-171 | a linked KV keeps the raw key's name |
| Linking.LinkedEntry | linker/linker.go:104-126 | one entry keeps the accumulator's invariant and keying |
| Linking.LinkedEntries | linker/linker.go:100-130 | the entry loop keeps the accumulator's invariant and keying |
| Linking.LinkedImports | linker/linker.go:58-81 | the import loop only adds to the cache of linked files, never changing an entry |
| Linking.LinkedWith | linker/linker.go:57-89 | linking a file only adds to the cache of linked files |
| Linking.LinkedAsWritten | linker/linker.go:57-89 | link as written, with the early return on a cached import; only adds to the cache |
| Linking.LinkedFile | linker/linker.go:64-67 | link with a cached import bound like any other; only adds to the cache |
| Linking.Linker.constructor | linker/linker.go:20-26 | a new linker has no files, no cache and no environment |
| Linking.Linker.Link | linker/linker.go:50-55 | stores the files and the environment; the result and the new cache are those of link on the main file, with the cached-import early return corrected |
| Linking.Linker.LinkScope | linker/linker.go:57-89 | the import loop and the object linking give the result and cache of the corrected link specification |
| Linking.Linker.LinkObject | linker/linker.go:91-98 | equals the object-linking specification |
| Linking.Linker.LinkEntries | linker/linker.go:100-130 | the loop over the ordered set gives the values of the entry-loop specification, or its error |
| Linking.Linker.LinkEntry | linker/linker.go:104-126 | one loop step moves the ordered set as the entry specification says, or returns its error; the set stays valid |
| Linking.Linker.LinkKV | linker/linker.go:132-171 | equals the KV-linking specification |
| Linking.Linker.LinkValue | linker/linker.go:133-168 | equals the value switch of the specification |
| Linking.Linker.LinkArray | linker/linker.go:201-248 | the element loop equals the array-linking specification |
| Linking.Linker.SetOrMerge | linker/linker.go:110-114 | the ordered set moves as Upsert says and stays valid |
| Linking.Linker.MergeInto | linker/linker.go:281-294 | the ordered set moves as MergeAll says and stays valid |
| Linking.Linker.MergeEntries | linker/linker.go:273-297 | equals the merge specification |
| LinkerFacts.StoredKeys | linker/linker.go:129 | the values of a keyed accumulator carry its keys in order |
| Linking.LinkedObject | linker/linker.go:91-98 | linking an object with no entries gives no KVs; a linked object holds each key once (the entries go through an ordered set keyed by name) |
| LinkerFacts.UpsertBelow | linker/linker.go:110-114 | upserting keeps every stored value below a depth bound |
| LinkerFacts.MergeAllKeys | linker/linker.go:281-294 | merging a KV list appends its new keys in first-occurrence order |
| LinkerFacts.PutAllKeys | linker/linker.go:121-123 | a spread appends its new keys in first-occurrence order |
| LinkerFacts.MergeKeyOrder | linker/linker.go:273-297 | merging two Objects keeps the first entry's key and lists the first object's keys, then the second's new keys |
| LinkerFacts.PutAllLastWins | linker/linker.go:121-123 | a key's last KV in a spread is the one stored |
| LinkerFacts.PutAllKeeps | linker/linker.go:121-123 | a spread leaves a key alone that none of its KVs carries |
| LinkerFacts.MergeAllLastScalarWins | linker/linker.go:288-294 | a key whose last KV holds a non-Object stores that KV |
| LinkerFacts.MergeAllKeeps | linker/linker.go:281-294 | merging leaves a key alone that none of its KVs carries |
| LinkerFacts.MergeSecondScalarWins | linker/linker.go:273-297 | in a merge of two Objects, the second object's last non-Object KV for a key is in the result |
| LinkerFacts.LinkedArrayAfter | linker/linker.go:201-248 | linking elements after some done ones equals linking them from scratch with the done ones prefixed |
| LinkerFacts.LinkedArrayConcat | linker/linker.go:204-245 | linking a concatenation links the first part, then the second after it |
| LinkerFacts.ArraySpreadSplices | linker/linker.go:212-218 | an array spread splices the named array's elements in order at its place |
| LinkerFacts.BoundNamesStable | linker/linker.go:64-80 | names bound from cached files stay the same when the cache only grows |
| LinkerFacts.FixedImportsBindAll | linker/linker.go:58-81 | without the early return the import loop either fails or binds every import to its cached tree |
| LinkerFacts.LinkedFileIsOwnObject | linker/linker.go:83-88 | without the early return a successful link is the file's own object, linked under all its import names |
| LinkerFacts.MemoReturnsImportedTree | linker/linker.go:64-67 | a file importing the same file twice is, as written, linked to the imported tree instead of its own; corrected it gets its own |
| Processing.ProcessedShape | processor/processor.go:55-89 | process only adds to the store, succeeds exactly when the path ends up stored, and never stores a path that is on the stack and not yet stored |
| Processing.Processed | processor/processor.go:55-89 | a stored path succeeds at once; a path on the stack and not stored is ImportCycle; an unreadable path is MakeAstFailed, each leaving the store as it was; process never reports a link error |
| Processing.ImportsProcessed | processor/processor.go:71-88 | after the last import the file is stored with its AST, its own path and the resolved import paths, without error; the loop never reports a link error |
| Processing.ImportsShape | processor/processor.go:73-88 | the import loop only adds to the store, succeeds exactly when the file ends up stored, and never stores another path on the stack |
| Processing.ProcessedSound | processor/processor.go:55-89 | process keeps every stored file its own AST, path and resolved import paths, with every import of a stored file stored |
| Processing.ImportsSound | processor/processor.go:71-88 | the import loop keeps the store sound |
| Processing.StoreSound | processor/processor.go:86 | storing a file whose imports are resolved and stored keeps the store sound and loses nothing |
| Processing.ImportStepped | processor/processor.go:73-84 | one successful import records its resolved path, stores its target, and leaves the rest of the loop to do the same |
| Processing.StoreOrdered | processor/processor.go:86 | storing a file after all its imports keeps the store sound and ranked, with the file ranked last |
| Processing.StoreRanked | processor/processor.go:86 | a file stored after all its imports ranks above each of them, so the import graph of the store has no cycle |
| Processing.ImportStack.constructor | processor/import.go:5-7 | a new stack is empty |
| Processing.ImportStack.Clone | processor/import.go:9-16 | a fresh stack holding the same paths |
| Processing.Processor.constructor | processor/processor.go:22-31 | a new processor has an empty store |
| Processing.Processor.Process | processor/processor.go:33-53 | an unresolvable path fails with AbsPathFailed; otherwise the store becomes the walk's, its error is returned, and on success the main file is linked (with the corrected import loop) against the whole store and the environment |
| Processing.Processor.ProcessPath | processor/processor.go:55-89 | the error and new store are those of the process specification, and the store stays ordered |
| ProcessFacts.SelfImportIsCycle | processor/processor.go:60-62 | a file whose first import is itself is an import cycle and stores nothing |
| ProcessFacts.TwoFileCycle | processor/processor.go:60-62 | two files importing each other first are an import cycle and store nothing |
| ProcessFacts.DiamondIsNotCycle | processor/processor.go:81 | a diamond of imports succeeds and stores all four files, because each import gets a copy of the stack |
| MapCompiling.CompiledArr | compiler/map.go:40-51 | one compiled element per element, in order |
| MapCompiling.CompiledExpr | compiler/map.go:53-70 | an Object becomes a map holding each of its keys, an Array a slice of the same length, and only they do; scalars are copied unchanged |
| MapCompiling.CompiledObj | compiler/map.go:26-38 | every key of the object is in the map, and the last KV's key holds that KV's compiled value |
| MapCompiling.CompiledKV | compiler/map.go:29-34 | a KV's compiled value is a map exactly for an Object and a slice exactly for an Array |
| MapCompiling.CompiledObjKeys | compiler/map.go:26-38 | the map's keys are exactly the object's keys |
| MapCompiling.CompiledObjByLast | compiler/map.go:26-38 | an object's map holds exactly its keys, each bound to the compiled value of the last KV with that key |
| MapCompiling.Target.constructor | compiler/map.go:15 | the caller's map as given |
| MapCompiling.MapCompiler.Compile | compiler/map.go:15-24 | the caller's map becomes its old entries overwritten by the compiled root object's |
| MapCompiling.MapCompiler.CompileObj | compiler/map.go:26-38 | the loop builds the compiled object |
| MapCompiling.MapCompiler.CompileKV | compiler/map.go:29-34 | a KV's compiled value |
| MapCompiling.MapCompiler.CompileArr | compiler/map.go:40-51 | the loop builds the compiled array |
| MapCompiling.MapCompiler.CompileElement | compiler/map.go:43-47 | the i-th element's compiled value |
| MapCompiling.MapCompiler.CompileExpr | compiler/map.go:53-70 | the compiled expression of the specification |
| StructCompiling.Pow2Table | compiler/struct.go:134-195 | the powers of two behind the int8 to uint64 bounds |
| StructCompiling.Pow2Add | compiler/struct.go:134-195 | powers of two multiply by adding exponents |
| StructCompiling.Zero | compiler/struct.go:69 | the zero value of every type has that type |
| StructCompiling.ZeroFields | compiler/struct.go:69 | a zero struct has one zero value per field, each of its field's type |
| StructCompiling.ZeroField | compiler/struct.go:69 | a field's zero value has the field's type |
| StructCompiling.Wrap | compiler/struct.go:221-233 | the pointer chain built around a value of the innermost type has the outer type |
| StructCompiling.Start | compiler/struct.go:51-57 | the value filled in place of a field has the type under its pointers |
| StructCompiling.CheckInt | compiler/struct.go:134-166 | accepts exactly the values the signed kind can hold, and otherwise reports TypeOverflow |
| StructCompiling.CheckUInt | compiler/struct.go:168-195 | uintptr is InvalidType; for every other unsigned kind it accepts exactly the non-negative values below both 2^63 and the kind's bound, and otherwise reports TypeOverflow |
| StructCompiling.Literal | compiler/struct.go:97-132 | an Int into a signed kind succeeds exactly when it fits, storing it, and is TypeOverflow otherwise; into uintptr it is InvalidType; into another unsigned kind it succeeds exactly when non-negative and below both 2^63 and the kind's bound, storing it, and is TypeOverflow otherwise; an Int into any other kind is InvalidType; a Float is accepted exactly by a float kind, a String by a string and a Bool by a bool, each stored as given; any accepted value has the destination's type |
| StructCompiling.FieldIndex | compiler/struct.go:235-263 | the first field answering to the name (its tag, else its own name), and none exactly when no field does |
| StructCompiling.ObjectInto | compiler/struct.go:27-66 | filling an object keeps the destination's type whatever the error; a non-struct destination is NotStruct and is left as it was |
| StructCompiling.KVsInto | compiler/struct.go:36-63 | the KV loop keeps the struct's type |
| StructCompiling.KVInto | compiler/struct.go:37-62 | a key that answers to no field changes nothing and raises nothing; otherwise only the field it names changes, to what filling that field gives, with that error |
| StructCompiling.FieldInto | compiler/struct.go:45-62 | an Array fills exactly a slice field whose elements all fill, storing the slice of them, and leaves the field as it was otherwise; an Object fills the value behind the field's pointers as ObjectInto does; a literal is stored at the end of the field's pointer chain exactly when Literal accepts it, and otherwise the error is Literal's and the field holds what makeValueRecursive left there: its old value for a non-pointer field, a fresh zero chain behind a pointer; the field keeps its type |
| StructCompiling.ArrayInto | compiler/struct.go:68-95 | a filled array needs a pointer to a slice, and stores a slice of the slice type with one element per array element |
| StructCompiling.ElementsInto | compiler/struct.go:71-90 | the element loop yields one value per element, each of the element type |
| StructCompiling.ElementInto | compiler/struct.go:74-89 | an Array element fills exactly a slice element type whose elements all fill, giving their slice; an Object element is filled behind a fresh pointer chain as ObjectInto says; a literal element is Literal into a zero value; a filled element has the element type |
| StructCompiling.Target.constructor | compiler/struct.go:19-20 | the caller's typed value as given |
| StructCompiling.StructCompiler.constructor | compiler/struct.go:15-17 | keeps the tag name |
| StructCompiling.StructCompiler.Compile | compiler/struct.go:19-34 | a non-pointer is NotPointer, a nil pointer NotStruct; through a pointer the target becomes what the object specification fills, and the error is its error |
| StructCompiling.StructCompiler.ProcessObject | compiler/struct.go:27-66 | the loop equals the object specification |
| StructCompiling.StructCompiler.ProcessKV | compiler/struct.go:37-62 | one loop step equals the KV specification |
| StructCompiling.StructCompiler.ProcessField | compiler/struct.go:45-62 | equals the field specification |
| StructCompiling.StructCompiler.ProcessArray | compiler/struct.go:68-95 | the loop over the new slice equals the array specification |
| StructCompiling.StructCompiler.ProcessElement | compiler/struct.go:74-89 | equals the element specification (with the nested-array correction) |
| StructCompiling.StructCompiler.GetObjectField | compiler/struct.go:235-263 | the loop returns the first field answering to the name, or none |
| StructCompiling.KVsStopAtError | compiler/struct.go:36-63 | once a prefix of the KVs fails, the whole object gives that same result |
| StructCompiling.ElementsStopAtError | compiler/struct.go:71-90 | once a prefix of the elements fails, the whole array gives that same error |
| StructFacts.UnsignedCheckExact | compiler/struct.go:168-195 | for every int64, the unsigned check accepts exactly the values the kind can hold: the cap at the largest int64 loses nothing |
| StructFacts.Int8Overflow | compiler/struct.go:134-166 | 500 into an int8 is TypeOverflow |
| StructCompiling.WrapThenFollow | compiler/struct.go:221-233 | following the chain built for a value reaches that value |
| StructFacts.PointerFieldReallocated | compiler/struct.go:221-233 | a pointer field given an object or literal gets a fresh chain, whatever it pointed to |
| StructFacts.UnknownKeysSkipped | compiler/struct.go:41-43 | KVs naming no field are skipped: dropping them first changes neither the struct nor the error |
| StructFacts.FailsAtOneKV | compiler/struct.go:36-63 | a failing object fails at one KV, after every earlier KV was written |
| StructFacts.KVsLastWins | compiler/struct.go:36-63 | after an object is filled without error, a field no KV names keeps its contents; a field whose last KV holds a literal holds that literal's value at the end of its pointer chain; a field whose last KV holds an array holds the slice of its filled elements |
| StructFacts.LiteralIgnoresCur | compiler/struct.go:97-132 | a literal's outcome does not depend on what the location held before |
| StructFacts.ElementsPointwise | compiler/struct.go:71-90 | the array fills exactly when every element does, and slot i holds element i |
| StructFacts.ArrayFieldAtomic | compiler/struct.go:46-49 | a field receiving an array that fails keeps its old contents |
| StructFacts.NestedArrayAsWrittenFails | compiler/struct.go:81-84 | as written, an array inside an array never fills |
| StructFacts.NestedArrayFills | compiler/struct.go:81-84 | corrected, an array inside an array of slices fills exactly as its elements do |
| StructFacts.NestedIntsCounterexample | compiler/struct.go:81-84 | [[1]] into a [][]int: the corrected binder stores it, the binder as written panics |

## Left out

- adapter/os.go, atmc.go, scanner.go and cmd/main.go (reading files and the environment, wiring the stages together, JSON output) are not part of this model. The processor receives the environment, `AbsPath`, `filepath.Dir` and the outcome of reading, lexing, parsing and analysing each path as the fields of `Processing.OS`.
- makeAst (processor/processor.go:91-112) is abstracted into `OS.asts`, a map from path to syntax tree. A path that is missing from it fails with `MakeAstFailed`. So the processor does not show that the one analyzer instance carries names and counts from one file to the next. `Analysis.Analyzer` itself does keep its scope across `Analyze` calls.
- Floating point is not modelled. Floats travel as their lexeme, and `NewFloat` and `checkFloat` are not part of this model.
- Grammar.PFloat: accepts every Float token. It does not model `strconv.ParseFloat` rejecting a lexeme whose value is beyond float64.
- StructCompiling.Literal: stores any float into a float32 or float64 field. It does not model `checkFloat`'s overflow check.
- The Comment token kind and `Postprocess` belong to the top-level token package, which is not part of this model. Comment is taken to be `//` up to the end of the line, tried right after end-of-line. `Postprocess` is a function parameter of the lexer.
- Go's `regexp` engine is replaced by hand-written recognizers, one per pattern. The source text is a string whose characters stand for its bytes, so there is no UTF-8 decoding.
- Error messages and `errors.Wrap` chains are not modelled: errors are kinds, with the names they report.
- The unused-variable error joins its errors in map iteration order, which is unspecified. It is modelled as the set of unused names.
- Positions.AddPos: line, column and offset are `nat`, so the 64-bit wrap-around of `uint` is not modelled. The same goes for the scope's reference counts (`Analysis.Scope.IncrRef`).
- StructCompiling.CheckInt: `int` and `uint` are taken to be 64 bits wide, so `math.MaxInt` is the int64 maximum.
- Go reflection panics (a string or bool written into a field of another kind, an array bound to a field that is not a slice, a write through a nil pointer) are modelled as the error value `Panic`. Nothing is unwound.
- Unexported struct fields, settability and addressability checks of `reflect` are not modelled: every field can be written.
- Pointers in a record are values (`PtrV`), so aliasing between two fields that share a pointer is not modelled. A nil slice and an empty slice are the same value.
- Kinds the struct binder never writes (maps, arrays, interfaces, channels and so on) are collapsed into one type, `TOther`.
- The "unexpected expression type" error of the map binder (compiler/map.go:67-68) cannot occur, because the linked tree has no other expression kind. The same holds for the "unknown entry type" error of linkEntries (linker/linker.go:124-125).
- Grammar.UnclosedObjectFails: covers an object whose entries all parse up to the end of the input. An object cut off inside an entry fails with that entry's own error, which the entry members state.
- An empty variable path is an error of the analyzer (`EmptyVarPath`, analyzer/analyzer.go:57-59). The Go linker indexes the first path element without a check (linker/linker.go:251) and would panic; Linking.FindVariableExp returns `EmptyVarPath` there instead. The parser never builds an empty path, so no parsed tree reaches that case.
- RawAst.VisitExpr: the inspect methods of spreads and literals are not part of this model's source files; the walk assumes that a literal hands itself to the handler and that a spread hands itself and then its variable.
- The linker's and processor's ranks (`rank`, `bound`, `next`) are ghost state. They carry the absence of import cycles from the processor to the linker, where it proves termination. The source has no such field.
- The older internal/ implementation is not modelled. The four files this model uses from it (token patterns, positions, token cursor, analyzer scope) stand in for top-level files with the same API.
- Test helpers and generators are not modelled. The tests were used only for expected values, such as the concrete example lemmas of `Tokens`.

## Findings

| source | as written | input that shows it | evidently intended | confidence | as-written member | corrected member |
|---|---|---|---|---|---|---|
| linker/linker.go:64-67 | when an import's file is already in the link cache, `link` binds the name and then returns the imported file's tree as the current file's result | a main file that imports `./x` twice, as `a` and `b`, with its own object `{k: 2}` while x is `{v: 1}`: main is linked to `{v: 1}` (`LinkerFacts.MemoReturnsImportedTree`) | bind the cached tree and go on to the next import, then link the file's own object (`LinkerFacts.LinkedFileIsOwnObject`) | not executed | Linking.LinkedAsWritten | Linking.LinkedFile |
| compiler/struct.go:81-84 | a nested array element calls `processArray(astV, elem)` with the slice element itself, not its address, so `MakeSlice` is given a non-slice element type, or `Elem().Set` writes through a nil pointer | `[[1]]` bound to a `[][]int` field panics (`StructFacts.NestedIntsCounterexample`); no nested array ever fills (`StructFacts.NestedArrayAsWrittenFails`) | `processArray(astV, elem.Addr())`, so the inner slice is made and stored in the slot (`StructFacts.NestedArrayFills`) | not executed | StructCompiling.ElementIntoAsWritten | StructCompiling.ElementInto |

The rest of the model uses the corrected members: `Linking.Linker.Link`, `Linking.Linker.LinkScope` and `Processing.Processor.Process` link as `Linking.LinkedFile` says, and `StructCompiling.StructCompiler.ProcessElement` fills elements as `StructCompiling.ElementInto` says.
