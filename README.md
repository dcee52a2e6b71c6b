# The finlang scanner, modelled and verified in Dafny

This project models `FLScanner`, the lexical scanner of the finlang
interpreter. It makes one pass over a source text and turns it into tokens.
The model covers:

- operators, chosen with one character of lookahead;
- `//` and `/* ... */` comments and blanks;
- identifiers, and keywords found by exact lookup in the reserved-word table;
- decimal, hexadecimal and binary number literals;
- string literals.

Lexical errors are reported to an external sink and scanning goes on.

The project has two layers.

- **Specification** (module `Lexer`): the scanner state (`start`, `current`,
  `line`, the token list and the reports sent to the diagnostic sink) is a
  value. Each sub-scanner of the Java class is a function from the state
  before it runs to the state after it. `Step` is one call of `scanToken`,
  `Run` is the loop of `scanTokens`, and `Scan` is a whole pass on a fresh
  scanner.
- **Implementation** (module `Scanning`): class `Scanner` has the Java
  fields, and its methods have the Java method structure and `while` loops.
  Each method is proved to leave the object exactly in the state the
  matching `Lexer` function gives. When a numeric literal throws, the
  method returns the exception and the reports made so far; the other
  fields are then left unspecified, as the Java object is abandoned.

Everything proved about the `Lexer` functions therefore holds of the class.

Other modules:

- `Tokens`: token kinds, literal values, the keyword table.
- `Chars`: character classes, and the value of a digit string as
  `Integer.parseInt` / `Long.parseLong` compute it.
- `Literals`: which hexadecimal and binary literals fit, and which throw.
- `Properties`: invariants of a whole scan, and how its tokens tile the
  text: `Spans` follows the scanning loop and records where each token's
  text lies, `Tiles` says the lexemes are those texts in order without
  overlap, and `Gaps` says that only blanks, newlines and comments lie
  between them.
- `Scenarios`: whole scans of small concrete texts.

Behaviour as written, which the model follows:

- `isAlpha` rejects `#`, so the five `#...` directive entries of the keyword
  table can never be produced. `#if` gives an "Unexpected character."
  report and then the keyword `if`.
- The block-comment loop never increments `line`.
- That loop only sees `*/` when the `*` follows a character the loop has
  just stepped over, so `/**/x` and `/* a **/x` do not close, and `x` is
  swallowed, while `/* a */x` and `/***/x` close before `x`.
- A token carries the line at which it is added, so a multi-line string
  carries the line of its closing quote.
- `0x` with no digit throws StringIndexOutOfBounds (`charAt(0)`).
- `0b` with no digit throws NumberFormatException (`parseInt("")`).
- A hexadecimal run of nine or more digits led by `1` to `7` takes the
  32-bit path and throws NumberFormatException.
- Any of these exceptions ends `scanTokens` without a token list; the model
  returns `Crashed(fault, diagnostics)` for it.

## Model

| member | source | states |
|---|---|---|
| Tokens.KeywordOrIdentifier | finlang/src/FLScanner.java:199-202 | the kind is the table entry for exactly the lexeme when there is one, IDENTIFIER exactly when there is none; never EOF, STRING or NUMBER; a directive kind only for a lexeme starting with `#` |
| Chars.DigitValue | finlang/src/FLScanner.java:315-326 | a hexadecimal digit is worth less than 16; less than 10 exactly for `isDigit`, less than 2 exactly for `isBin`, 8 or more exactly when the character is above `'7'` |
| Chars.Value | finlang/src/FLScanner.java:246-250 | the base-radix value of a digit string of length n is below radix^n |
| Chars.IsAlpha | finlang/src/FLScanner.java:209-219 | `isAlpha` and `isAlphaNumeric` as ASCII ranges; `_` is a letter and `#` is not |
| Chars.IsDigit | finlang/src/FLScanner.java:310-326 | `isDigit`, `isHex` and `isBin` as ASCII ranges; their agreement with the digit values is stated by `Chars.DigitValue` |
| Lexer.RunEnd | finlang/src/FLScanner.java:197 | the `while (isX(peek())) advance();` loops: the end of the maximal run of a character class from the cursor |
| Lexer.Newlines | finlang/src/FLScanner.java:268 | the number of newline characters in a range of the text, at most its length |
| Lexer.SkipLineComment | finlang/src/FLScanner.java:115-120 | a `//` comment stops at the first newline or at the end, steps over no newline, and changes only the cursor |
| Lexer.BlockCommentEnd | finlang/src/FLScanner.java:124-134 | the block-comment loop always moves when text is left, and ends at the end of the text or just after a star and slash that start at least three characters past its start |
| Lexer.BlockCommentCloses | finlang/src/FLScanner.java:124-134 | a star followed by a slash closes the comment: the loop stops no later than just after it, unless the round that reached the star had just stepped over another star |
| Lexer.SkipBlockComment | finlang/src/FLScanner.java:121-135 | a block comment changes only the cursor, not the line; it consumes a character when one is left, ends at the end of the text or just after a closing star and slash, and never runs past an ordinary one |
| Lexer.ScanIdentifier | finlang/src/FLScanner.java:195-207 | the identifier is the maximal run of letters, digits and `_`; one token of the keyword-or-IDENTIFIER kind for exactly that lexeme, at the current line |
| Lexer.ParseDecimal | finlang/src/FLScanner.java:235 | a decimal lexeme splits into the non-empty digit string before its dot and the digits after it, which rebuild the lexeme |
| Lexer.NumberLexeme | finlang/src/FLScanner.java:221-236 | the decimal lexeme is digits, optionally a dot and digits; no digit follows it, and without a dot no `.` followed by a digit follows it |
| Lexer.NumberEnd | finlang/src/FLScanner.java:223-232 | the end of the decimal lexeme, at or after the cursor; `Lexer.NumberLexeme` states that it is digits, optionally a dot and digits, and maximal |
| Lexer.NumberLiteral | finlang/src/FLScanner.java:235 | the number token's decimal literal rebuilds its lexeme from non-empty whole digits and the fraction digits after the dot |
| Lexer.ScanNumber | finlang/src/FLScanner.java:221-236 | the decimal sub-scanner stops where `NumberEnd` says and adds exactly one NUMBER token, for the text from the first digit to there, at the current line, whose literal is `ParseDecimal` of that text |
| Lexer.ParseUnsigned | finlang/src/FLScanner.java:246-250 | parsing succeeds exactly for a non-empty digit string whose value is at most the maximum, and returns that value |
| Lexer.HexRun | finlang/src/FLScanner.java:240-242 | the hexadecimal run is the text from the cursor to the end of the maximal run of hexadecimal digits |
| Lexer.BinRun | finlang/src/FLScanner.java:257-261 | the binary run is the text from the cursor to the end of the maximal run of `0`/`1` |
| Lexer.ScanHex | finlang/src/FLScanner.java:238-252 | `hex`; what it decodes and when it throws is stated by `Lexer.HexOutcome` and `Literals.HexLiteralWidth` |
| Lexer.ScanBin | finlang/src/FLScanner.java:255-262 | `bin`; what it decodes and when it throws is stated by `Lexer.BinOutcome` and `Literals.BinLiteralWidth` |
| Lexer.HexOutcome | finlang/src/FLScanner.java:238-252 | no digit throws StringIndexOutOfBounds; otherwise the run is read as a Long when wide, as an Integer if not; it throws NumberFormatException exactly when the value exceeds that width, and otherwise adds one NUMBER token spanning `0x` and the run |
| Lexer.BinOutcome | finlang/src/FLScanner.java:255-262 | the binary sub-scanner throws NumberFormatException exactly when the run is empty or over the 32-bit maximum, and otherwise adds one NUMBER token with the run's value |
| Lexer.StringBody | finlang/src/FLScanner.java:267-271 | the string loop changes only the cursor and the line, and moves neither back |
| Lexer.StringBodyFacts | finlang/src/FLScanner.java:267-271 | the string loop stops at the first quote from the cursor, or at the end when there is none, and adds the number of newlines it passed to the line |
| Lexer.ScanString | finlang/src/FLScanner.java:265-287 | `string`; both of its outcomes are stated by `Lexer.StringLiteralFacts` |
| Lexer.StringLine | finlang/src/FLScanner.java:265-287 | the string sub-scanner moves the line by exactly the newlines it consumed |
| Lexer.StringIsOneLexeme | finlang/src/FLScanner.java:265-287 | the string sub-scanner reads one lexeme: at most one token or one report, and the cursor moves forward |
| Lexer.StringClosed | finlang/src/FLScanner.java:279-284 | with a closing quote: no report, and one STRING token whose lexeme runs to the quote and whose value is the text strictly between the quotes, with no quote inside |
| Lexer.StringOpen | finlang/src/FLScanner.java:273-277 | without a closing quote: the text holds no further quote, the cursor is at the end, no token is added, and one "Unterminated string." report is made at the line reached |
| Lexer.StringLiteralFacts | finlang/src/FLScanner.java:265-287 | the string sub-scanner adds no token exactly when no quote follows; the no-token case is the one report at the end, and the token case carries the text between the quotes; the line grows by the newlines consumed |
| Lexer.ScanSlash | finlang/src/FLScanner.java:113-140 | after a `/`: a second `/` gives the line comment, else a `*` gives the block comment, and otherwise exactly one SLASH token with lexeme `/` at the current line is added and the cursor stays; all on the same line, as one lexeme |
| Lexer.ScanNumeral | finlang/src/FLScanner.java:157-180 | the digit case of `scanToken`; which sub-scanner it picks is stated by `Lexer.NumeralDispatch`, and what it adds by `Lexer.NumeralIsOneLexeme` |
| Lexer.NumeralDispatch | finlang/src/FLScanner.java:157-180 | `0x`/`0X` goes to the hexadecimal sub-scanner, then `0b`/`0B` to the binary one, and anything else to the decimal one |
| Lexer.NumeralIsOneLexeme | finlang/src/FLScanner.java:157-180 | a numeral is one lexeme on one line that adds a token; only the `0x` and `0b` forms throw, and a throw reports nothing |
| Lexer.HexIsOneLexeme | finlang/src/FLScanner.java:238-252 | a throw of the hexadecimal sub-scanner reports nothing; otherwise it adds one token for one lexeme from the `0`, on the same line |
| Lexer.BinIsOneLexeme | finlang/src/FLScanner.java:255-262 | a throw of the binary sub-scanner reports nothing; otherwise it adds one token for one lexeme from the `0`, on the same line |
| Lexer.ScanSingle | finlang/src/FLScanner.java:86-96 | a one-character token adds exactly one token, of the kind `SingleCharKind` gives for the character, whose lexeme is that character, at the current line; the cursor and the line stay |
| Lexer.ScanOperator | finlang/src/FLScanner.java:97-112 | `!`, `=`, `<`, `>` followed by `=` give the two-character kind with a two-character lexeme, and otherwise the one-character kind with a one-character lexeme |
| Lexer.Step | finlang/src/FLScanner.java:81-193 | one `scanToken` call moves the cursor forward and reads one lexeme; it throws only on `0` followed by `x`, `X`, `b` or `B`, and then reports nothing |
| Lexer.StepLine | finlang/src/FLScanner.java:142-152 | the line moves only on a newline character and by the newlines inside a string literal |
| Lexer.Run | finlang/src/FLScanner.java:63-70 | the loop ends at the end of the text; tokens and reports are only appended, and the line never goes down |
| Lexer.Scan | finlang/src/FLScanner.java:58-74 | `scanTokens` on a new scanner; the shape of its result is stated by `Properties.ScanTokensShape` and `Properties.ScanLayout`, when it throws by `Properties.ScanFaultFree` |
| Literals.HexNarrowFits | finlang/src/FLScanner.java:244-250 | a hexadecimal run the scanner reads as an Integer fits one when it has at most eight digits |
| Literals.HexNarrowOverflows | finlang/src/FLScanner.java:244-250 | nine or more hexadecimal digits led by `1` to `7` are more than an Integer holds |
| Literals.HexWideFits | finlang/src/FLScanner.java:244-246 | a run read as a Long fits exactly when it has at most 15 digits |
| Literals.BinFits | finlang/src/FLScanner.java:261 | a binary run of at most 31 digits fits an Integer, and 32 or more led by `1` overflow it |
| Literals.HexLiteralWidth | finlang/src/FLScanner.java:238-252 | the hexadecimal outcome by digit count: none throws StringIndexOutOfBounds; at most eight, not wide, give a 32-bit literal; a wide run gives a 64-bit literal exactly when it has at most 15 digits; nine or more led by `1` to `7` throw NumberFormatException |
| Literals.BinLiteralWidth | finlang/src/FLScanner.java:255-262 | the binary outcome by digit count: none throws, 1 to 31 give a 32-bit literal, 32 or more led by `1` throw |
| Properties.OneLexemeKeepsWellFormed | finlang/src/FLScanner.java:329-347 | scanning one lexeme keeps every token a real, non-empty piece of the text read so far, with lines in order |
| Properties.RunKeepsWellFormed | finlang/src/FLScanner.java:63-70 | the scanning loop keeps the scanner well formed |
| Properties.FinishShape | finlang/src/FLScanner.java:72-73 | adding the EOF token to a well-formed state gives a list ending in exactly one EOF token at the last line |
| Properties.ScanTokensShape | finlang/src/FLScanner.java:63-74 | the token list ends with exactly one EOF token (empty lexeme, no literal, the final line); every other token is a non-EOF, non-directive token whose lexeme is a non-empty piece of the text; lines start at 1 and never go down along the list |
| Properties.RunFaultFree | finlang/src/FLScanner.java:159-171 | from any state, the loop runs to the end without throwing unless a `0` followed by `x`, `X`, `b` or `B` is still ahead |
| Properties.ScanFaultFree | finlang/src/FLScanner.java:63-74 | `scanTokens` only throws on a text holding `0x`, `0X`, `0b` or `0B` |
| Properties.StepSilent | finlang/src/FLScanner.java:113-150 | blanks, newlines and both kinds of comment produce no token and no report; only the newline moves the line, by one |
| Properties.SilentStep | finlang/src/FLScanner.java:113-150 | a `scanToken` call that adds neither a token nor a report stepped over exactly one blank, newline, line comment or block comment |
| Properties.RunLayout | finlang/src/FLScanner.java:63-70 | from any state, the tokens the loop adds are the texts of non-empty, non-overlapping spans in order after the cursor, and when it reports nothing only blanks, newlines and comments lie between them |
| Properties.ScanLayout | finlang/src/FLScanner.java:63-74 | the tokens before EOF are read off the text in order: each is the text of its own non-empty span and each span starts no earlier than the one before ends; without reports, the text outside the spans is only blanks, newlines and comments |
| Properties.TilesInOrder | finlang/src/FLScanner.java:341-347 | the same tiling by index: token `i` is the text of span `i`, and span `i` ends no later than any later span starts |
| Lexer.StepUnexpected | finlang/src/FLScanner.java:187-190 | a character outside the scanner's alphabet adds one "Unexpected character." report at the current line, no token, and scanning goes on after it |
| Scanning.Scanner.constructor | finlang/src/FLScanner.java:12-16 | a new scanner is the initial state: cursor 0, line 1, no token, no report |
| Scanning.Scanner.IsAtEnd | finlang/src/FLScanner.java:76-79 | `isAtEnd`: the cursor is at or past the end of the text; the loops guarded by it are proved equal to the `Lexer` functions |
| Scanning.Scanner.Peek | finlang/src/FLScanner.java:298-308 | `peek` and `peekNext` read the character at the cursor or after it, or `'\0'` past the end, through `Lexer.PeekAt` and `Lexer.PeekNextAt` |
| Scanning.Scanner.Advance | finlang/src/FLScanner.java:329-332 | returns the current character and moves the cursor by one |
| Scanning.Scanner.Match | finlang/src/FLScanner.java:289-296 | moves by one exactly when not at the end and on the expected character, and otherwise changes nothing |
| Scanning.Scanner.AddToken | finlang/src/FLScanner.java:341-347 | appends the token for `source[start..current]` at the current line |
| Scanning.Scanner.Error | finlang/src/FLScanner.java:189 | appends one report at the current line |
| Scanning.Scanner.LineComment | finlang/src/FLScanner.java:119 | the loop leaves the state `SkipLineComment` gives |
| Scanning.Scanner.BlockComment | finlang/src/FLScanner.java:124-134 | the loop leaves the state `SkipBlockComment` gives |
| Scanning.Scanner.Identifier | finlang/src/FLScanner.java:195-207 | leaves the state `ScanIdentifier` gives |
| Scanning.Scanner.AdvanceWhile | finlang/src/FLScanner.java:197 | the `while (isX(peek())) advance();` loops stop at the end of the maximal run of the class |
| Scanning.Scanner.Number | finlang/src/FLScanner.java:221-236 | leaves the state `ScanNumber` gives |
| Scanning.Scanner.Hex | finlang/src/FLScanner.java:238-252 | returns the fault `ScanHex` raises, or leaves the state it gives (after a throw, only the reports are specified) |
| Scanning.Scanner.Bin | finlang/src/FLScanner.java:255-262 | returns the fault `ScanBin` raises, or leaves the state it gives (after a throw, only the reports are specified) |
| Scanning.Scanner.StringContents | finlang/src/FLScanner.java:267-271 | the string loop leaves the state `StringBody` gives |
| Scanning.Scanner.CloseString | finlang/src/FLScanner.java:279-284 | consumes the closing quote and adds the STRING token valued by the text between the quotes |
| Scanning.Scanner.StringLiteral | finlang/src/FLScanner.java:265-287 | leaves the state `ScanString` gives |
| Scanning.Scanner.Operator | finlang/src/FLScanner.java:97-112 | leaves the state `ScanOperator` gives |
| Scanning.Scanner.Slash | finlang/src/FLScanner.java:113-140 | leaves the state `ScanSlash` gives |
| Scanning.Scanner.Numeral | finlang/src/FLScanner.java:157-180 | returns the fault `ScanNumeral` raises, or leaves the state it gives (after a throw, only the reports are specified) |
| Scanning.Scanner.ScanToken | finlang/src/FLScanner.java:81-193 | returns the fault `Step` raises, or leaves the state it gives (after a throw, only the reports are specified) |
| Scanning.Scanner.ScanTokens | finlang/src/FLScanner.java:63-74 | returns what `Run` and the EOF token give, and on success the fields hold that token list |
| Scanning.Tokenize | finlang/src/FLScanner.java:58-74 | scanning a new scanner gives `Scan` of its text |
| Scenarios.HexLiteral | finlang/src/FLScanner.java:238-252 | `0x1F` is the 32-bit literal 31 |
| Scenarios.WideHexLiteral | finlang/src/FLScanner.java:244-246 | `0x80000000` (eight digits led by `8`) is the 64-bit literal 2^31 |
| Scenarios.BinLiteral | finlang/src/FLScanner.java:255-262 | `0b101` is the 32-bit literal 5 |
| Scenarios.HexWithoutDigits | finlang/src/FLScanner.java:244 | `0x` throws StringIndexOutOfBounds |
| Scenarios.BinWithoutDigits | finlang/src/FLScanner.java:261 | `0b` throws NumberFormatException |
| Scenarios.NarrowHexOverflow | finlang/src/FLScanner.java:248-251 | `0x100000000` takes the 32-bit path and throws NumberFormatException |
| Scenarios.DotAfterNumber | finlang/src/FLScanner.java:226-232 | `1.` is the number 1 followed by a DOT token |
| Scenarios.UnterminatedString | finlang/src/FLScanner.java:273-277 | `"abc` reports "Unterminated string." and gives only EOF |
| Scenarios.MultilineString | finlang/src/FLScanner.java:267-284 | a string across a newline keeps it and carries line 2 |
| Scenarios.EmptyBlockCommentSwallows | finlang/src/FLScanner.java:124-134 | `/**/x` does not close and gives only EOF |
| Scenarios.BlockCommentCloses | finlang/src/FLScanner.java:124-134 | `/* a */x` closes at the star and slash and gives IDENTIFIER `x`, then EOF |
| Scenarios.ThreeStarsClose | finlang/src/FLScanner.java:124-134 | `/***/x` closes: the loop steps over the second star and takes the third |
| Scenarios.DoubleStarSwallows | finlang/src/FLScanner.java:124-134 | `/* a **/x` does not close and gives only EOF |
| Scenarios.BlockCommentKeepsLine | finlang/src/FLScanner.java:124-134 | a newline inside a block comment leaves EOF on line 1 |
| Scenarios.HashIsUnexpected | finlang/src/FLScanner.java:182-190 | `#if` gives one "Unexpected character." report and the keyword IF, never the directive |
| Scenarios.KeywordsAreCaseSensitive | finlang/src/FLScanner.java:18-56 | `var` is the keyword VAR, `Var` an IDENTIFIER |

## Left out

- `Double.parseDouble` (line 235) is floating point. A decimal literal is kept as its digit strings before and after the dot, `Decimal(whole, fraction)`.
- The JVM exceptions (`charAt(0)` on an empty hexadecimal run, `NumberFormatException` from `Integer.parseInt` and `Long.parseLong`) are an explicit outcome. A sub-scanner returns `Abort(fault, ...)`, a scanner method returns the fault, and the scan returns `Crashed`. Exception propagation itself is not modelled.
- `Finlang.error` belongs to a class that is not part of this model. It is modelled as appending `(line, message)` to the `diagnostics` field.
- `FLToken` and `FLTokenType` are not part of this model; they are replaced by the `Token` datatype and the `TokenKind` enumeration.
- The keyword `HashMap` is a Dafny `map`.
- The source text is a sequence of `char`: no UTF-16 surrogates and no Unicode classes. The character tests are the ASCII ranges of the source.
- The int and long values are unbounded integers; the width checks are written out, and literals are the `int32` and `int64` newtypes.
- Scanning.Scanner.ScanToken and the methods it calls: the separate `Slash`, `Operator`, `Numeral`, `LineComment`, `BlockComment`, `StringContents`, `CloseString` and `AdvanceWhile` methods are pieces of the Java methods `scanToken`, `string`, `identifier`, `number`, `hex` and `bin`, cut out so that each proof stays small. Their statements and their order are the Java code's.
- Scanning.Scanner.Hex: after a throw, only the returned fault and the reports are specified, not the cursor or the token list the abandoned Java object is left with.
- Scanning.Scanner.Bin: after a throw, only the returned fault and the reports are specified.
- Scanning.Scanner.Numeral: after a throw, only the returned fault and the reports are specified.
- Scanning.Scanner.ScanToken: after a throw, only the returned fault and the reports are specified; `ScanTokens` returns `Crashed` at once.
- No driver, file input or REPL is part of this model.
