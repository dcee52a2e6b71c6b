/** The scanner as a pure state transformer. Every sub-scanner of the
    finlang scanner is one function from the scanner state before it runs
    to the state after it; `Step` is one call of `scanToken`, `Run` the
    loop of `scanTokens` and `Scan` the whole pass. The class in module
    Scanning is proved to compute exactly these functions. */
module Lexer {
  import opened Tokens
  import opened Chars

  datatype Option<T> = None | Some(value: T)

  /** One report to the diagnostic sink: line and message. */
  datatype Diagnostic = Diagnostic(line: int, message: string)

  const UnexpectedCharacter: string := "Unexpected character."
  const UnterminatedString: string := "Unterminated string."

  /** The Java exceptions a numeric literal raises: `charAt(0)` on an
      empty hexadecimal digit run, and `Integer.parseInt` /
      `Long.parseLong` on an empty or too large digit string. */
  datatype Fault = StringIndexOutOfBounds | NumberFormat

  /** The scanner's fields: lexeme start, cursor, line, emitted tokens and
      the reports sent to the diagnostic sink so far. */
  datatype ScanState = ScanState(
    start: nat, current: nat, line: int,
    tokens: seq<Token>, diagnostics: seq<Diagnostic>)

  /** A sub-scanner either continues with a new state or raises a fault
      (after the given diagnostics were reported). */
  datatype Outcome =
    | Continue(state: ScanState)
    | Abort(fault: Fault, diagnostics: seq<Diagnostic>)

  /** What `scanTokens` ends with: the token list, or the exception that
      escaped from it. */
  datatype ScanResult =
    | Scanned(tokens: seq<Token>, diagnostics: seq<Diagnostic>)
    | Crashed(fault: Fault, diagnostics: seq<Diagnostic>)

  /** A freshly constructed scanner. */
  const Initial: ScanState := ScanState(0, 0, 1, [], [])

  /** `peek`: the character at `i`, or the sentinel '\0' past the end. */
  function PeekAt(src: string, i: nat): char {
    if i >= |src| then '\0' else src[i]
  }

  /** `peekNext`: the character at `i + 1`, or '\0' past the end. */
  function PeekNextAt(src: string, i: nat): char {
    if i + 1 >= |src| then '\0' else src[i + 1]
  }

  /** `match(expected)`: the next character exists and is `expected`. */
  predicate Matches(src: string, i: nat, expected: char) {
    i < |src| && src[i] == expected
  }

  /** The end of the maximal run of characters of class `cls` from `i`. */
  function RunEnd(src: string, i: nat, cls: CharClass): (e: nat)
    requires i <= |src|
    ensures i <= e <= |src|
    ensures forall k | i <= k < e :: InClass(cls, src[k])
    ensures e == |src| || !InClass(cls, src[e])
    decreases |src| - i
  {
    if i < |src| && InClass(cls, src[i]) then RunEnd(src, i + 1, cls) else i
  }

  /** The number of newline characters in `src[i..e]`. */
  function Newlines(src: string, i: nat, e: nat): (n: nat)
    requires i <= e <= |src|
    ensures n <= e - i
    decreases e - i
  {
    if i == e then 0 else (if src[i] == '\n' then 1 else 0) + Newlines(src, i + 1, e)
  }

  /** Counting over two adjacent ranges adds up. */
  lemma {:induction false} NewlinesSplit(src: string, i: nat, j: nat, e: nat)
    requires i <= j <= e <= |src|
    ensures Newlines(src, i, e) == Newlines(src, i, j) + Newlines(src, j, e)
    decreases j - i
  {
    if i < j {
      NewlinesSplit(src, i + 1, j, e);
    }
  }

  /** `addToken`: append a token whose lexeme is `source[start..current]`
      and whose line is the current line. */
  function AddToken(src: string, st: ScanState, kind: TokenKind, literal: Literal): ScanState
    requires st.start <= st.current <= |src|
  {
    st.(tokens := st.tokens + [Token(kind, src[st.start..st.current], literal, st.line)])
  }

  /** What scanning one lexeme from `st` does to the state: the lexeme
      start stays, the cursor and the line never move back, and either no
      token is emitted and at most one diagnostic is reported, or nothing
      is reported and exactly one token is emitted, whose lexeme is the
      text from the lexeme start to the cursor reached, whose line is the
      line reached and whose kind is neither EOF nor a directive. */
  predicate OneLexeme(src: string, st: ScanState, r: ScanState) {
    && r.start == st.start
    && st.start <= st.current <= r.current <= |src|
    && st.line <= r.line
    && if r.tokens == st.tokens then
         st.diagnostics <= r.diagnostics && |r.diagnostics| <= |st.diagnostics| + 1
       else
         && r.diagnostics == st.diagnostics
         && |r.tokens| == |st.tokens| + 1 && st.tokens <= r.tokens
         && var t := r.tokens[|st.tokens|];
            t.lexeme == src[st.start..r.current] && t.line == r.line &&
            t.kind != Eof && !t.kind.IsDirective()
  }

  /** The `//` comment: skip up to, not including, the next newline. */
  function SkipLineComment(src: string, st: ScanState): (r: ScanState)
    requires st.current <= |src|
    ensures r == st.(current := r.current)
    ensures st.current <= r.current <= |src|
    ensures forall k | st.current <= k < r.current :: src[k] != '\n'
    ensures r.current == |src| || src[r.current] == '\n'
  {
    st.(current := RunEnd(src, st.current, LineText))
  }

  /** Where the block-comment loop leaves the cursor. Each round advances
      over one character, then takes a `*` if one follows and stops after
      a `/` right behind that `*`. A `*` the round itself advanced over
      never closes the comment. */
  function BlockCommentEnd(src: string, i: nat): (e: nat)
    requires i <= |src|
    ensures i <= e <= |src|
    ensures i < |src| ==> i < e
    ensures e == |src| || (i + 3 <= e && src[e - 2] == '*' && src[e - 1] == '/')
    decreases |src| - i
  {
    if i >= |src| then i
    else
      var k := i + 1;
      if Matches(src, k, '*') then
        if PeekAt(src, k + 1) == '/' then k + 2 else BlockCommentEnd(src, k + 1)
      else BlockCommentEnd(src, k)
  }

  /** Any other star followed by a slash closes the comment: the loop
      never runs past a `*` at `q` with a `/` after it, unless the round
      that reached `q` had advanced over a star just before it. */
  lemma {:induction false} BlockCommentCloses(src: string, i: nat, q: nat)
    requires i < q && q + 1 < |src| && src[q] == '*' && src[q + 1] == '/'
    requires q == i + 1 || src[q - 1] != '*'
    ensures BlockCommentEnd(src, i) <= q + 2
    decreases |src| - i
  {
    var k := i + 1;
    if Matches(src, k, '*') {
      if PeekAt(src, k + 1) != '/' {
        BlockCommentCloses(src, k + 1, q);
      }
    } else {
      BlockCommentCloses(src, k, q);
    }
  }

  /** The `/* ... */` comment: no token, no diagnostic and, as written,
      no line counting. It ends at the end of the text or after a closing
      star and slash, and does not run past an ordinary pair. */
  function SkipBlockComment(src: string, st: ScanState): (r: ScanState)
    requires st.current <= |src|
    ensures r == st.(current := r.current)
    ensures st.current <= r.current <= |src|
    ensures st.current < |src| ==> st.current < r.current
    ensures r.current == |src| || (st.current + 3 <= r.current && src[r.current - 2] == '*' && src[r.current - 1] == '/')
    ensures forall q | st.current < q && q + 1 < |src| && src[q] == '*' && src[q + 1] == '/' &&
                       (q == st.current + 1 || src[q - 1] != '*') :: r.current <= q + 2
  {
    assert forall q | st.current < q && q + 1 < |src| && src[q] == '*' && src[q + 1] == '/' &&
                      (q == st.current + 1 || src[q - 1] != '*') :: BlockCommentEnd(src, st.current) <= q + 2 by {
      forall q | st.current < q && q + 1 < |src| && src[q] == '*' && src[q + 1] == '/' &&
                 (q == st.current + 1 || src[q - 1] != '*')
        ensures BlockCommentEnd(src, st.current) <= q + 2
      {
        BlockCommentCloses(src, st.current, q);
      }
    }
    st.(current := BlockCommentEnd(src, st.current))
  }

  /** `identifier` (called after one letter or `_`): the maximal run of
      letters, digits and `_`, classified by exact keyword lookup. */
  function ScanIdentifier(src: string, st: ScanState): (r: ScanState)
    requires st.start + 1 == st.current <= |src| && IsAlpha(src[st.start])
    ensures st.current <= r.current <= |src|
    ensures forall k | st.current <= k < r.current :: IsAlphaNumeric(src[k])
    ensures r.current == |src| || !IsAlphaNumeric(src[r.current])
    ensures var text := src[st.start..r.current];
      r == st.(current := r.current,
               tokens := st.tokens + [Token(KeywordOrIdentifier(text), text, Absent, st.line)])
    ensures OneLexeme(src, st, r)
  {
    var e := RunEnd(src, st.current, AlphaNumerics);
    var text := src[st.start..e];
    AddToken(src, st.(current := e), KeywordOrIdentifier(text), Absent)
  }

  predicate AllDecimalDigits(s: string) {
    forall k | 0 <= k < |s| :: IsDigit(s[k])
  }

  /** A decimal lexeme: digits, optionally followed by `.` and digits. */
  predicate IsDecimalLexeme(s: string) {
    exists k | 0 < k <= |s| ::
      AllDecimalDigits(s[..k]) && (k == |s| || (k + 1 < |s| && s[k] == '.' && AllDecimalDigits(s[k + 1..])))
  }

  /** The text a decimal literal was read from. */
  function DecimalText(lit: Literal): string
    requires lit.Decimal?
  {
    if lit.fraction == [] then lit.whole else lit.whole + "." + lit.fraction
  }

  /** Index of the first `.` in `s`, or `|s|`. */
  function DotIndex(s: string): (k: nat)
    ensures k <= |s|
    ensures forall j | 0 <= j < k :: s[j] != '.'
    ensures k < |s| ==> s[k] == '.'
  {
    if s == [] || s[0] == '.' then 0 else 1 + DotIndex(s[1..])
  }

  /** A prefix free of dots that ends at a dot or at the end is the one
      `DotIndex` finds. */
  lemma {:induction false} DotIndexAt(s: string, j: nat)
    requires j <= |s| && (forall i | 0 <= i < j :: s[i] != '.') && (j == |s| || s[j] == '.')
    ensures DotIndex(s) == j
  {
  }

  /** A decimal lexeme splits at its first dot into the digits before it
      and the (non-empty) digits after it. */
  lemma {:induction false} DecimalAtDot(text: string)
    requires IsDecimalLexeme(text)
    ensures var k := DotIndex(text);
      && 0 < k && AllDecimalDigits(text[..k])
      && (k < |text| ==> k + 1 < |text| && AllDecimalDigits(text[k + 1..]))
  {
    var j :| 0 < j <= |text| && AllDecimalDigits(text[..j]) &&
      (j == |text| || (j + 1 < |text| && text[j] == '.' && AllDecimalDigits(text[j + 1..])));
    assert forall i | 0 <= i < j :: text[i] == text[..j][i];
    DotIndexAt(text, j);
  }

  /** Stands for `Double.parseDouble` on a decimal lexeme: splits it at its
      dot into the digits before and after it. */
  function ParseDecimal(text: string): (lit: Literal)
    ensures lit.Decimal?
    ensures IsDecimalLexeme(text) ==>
      DecimalText(lit) == text && lit.whole != [] &&
      AllDecimalDigits(lit.whole) && AllDecimalDigits(lit.fraction)
  {
    var k := DotIndex(text);
    var lit := if k == |text| then Decimal(text, "") else Decimal(text[..k], text[k + 1..]);
    assert IsDecimalLexeme(text) ==>
      DecimalText(lit) == text && lit.whole != [] &&
      AllDecimalDigits(lit.whole) && AllDecimalDigits(lit.fraction) by {
      if IsDecimalLexeme(text) {
        DecimalAtDot(text);
        if k < |text| {
          assert text == text[..k] + "." + text[k + 1..];
        } else {
          assert text[..k] == text;
        }
      }
    }
    lit
  }

  /** Where the decimal sub-scanner stops, from the cursor `i` after the
      first digit: the digits, then a `.` and digits only when a digit
      follows the `.`. */
  function NumberEnd(src: string, i: nat): (e: nat)
    requires i <= |src|
    ensures i <= e <= |src|
  {
    var d := RunEnd(src, i, Digits);
    if PeekAt(src, d) == '.' && IsDigit(PeekNextAt(src, d)) then RunEnd(src, d + 1, Digits) else d
  }

  /** `number` (called after one digit): the decimal lexeme, decoded. */
  function ScanNumber(src: string, st: ScanState): (r: ScanState)
    requires st.start + 1 == st.current <= |src| && IsDigit(src[st.start])
    ensures r.current == NumberEnd(src, st.current)
    ensures var text := src[st.start..r.current];
      r == st.(current := r.current, tokens := st.tokens + [Token(Number, text, ParseDecimal(text), st.line)])
    ensures OneLexeme(src, st, r) && r.tokens != st.tokens
  {
    var e := NumberEnd(src, st.current);
    AddToken(src, st.(current := e), Number, ParseDecimal(src[st.start..e]))
  }

  /** The decimal sub-scanner's lexeme is digits, optionally `.` and
      digits; it is maximal: no digit follows it, and when it has no dot,
      no `.` followed by a digit does either. */
  lemma {:induction false} NumberLexeme(src: string, st: ScanState)
    requires st.start + 1 == st.current <= |src| && IsDigit(src[st.start])
    ensures var e := NumberEnd(src, st.current);
      var text := src[st.start..e];
      && IsDecimalLexeme(text)
      && (e == |src| || !IsDigit(src[e]))
      && ('.' !in text ==> !(e + 1 < |src| && src[e] == '.' && IsDigit(src[e + 1])))
  {
    var d := RunEnd(src, st.current, Digits);
    var e := NumberEnd(src, st.current);
    var text := src[st.start..e];
    var k := d - st.start;
    assert AllDecimalDigits(text[..k]) by {
      var whole := text[..k];
      assert whole == src[st.start..d];
      forall j | 0 <= j < |whole| ensures IsDigit(whole[j]) {
        assert whole[j] == src[st.start + j];
      }
    }
    assert e > d ==> k + 1 < |text| && text[k] == '.' && AllDecimalDigits(text[k + 1..]) by {
      if e > d {
        var fraction := text[k + 1..];
        assert fraction == src[d + 1..e];
        forall j | 0 <= j < |fraction| ensures IsDigit(fraction[j]) {
          assert fraction[j] == src[d + 1 + j];
        }
      }
    }
    assert IsDecimalLexeme(text) by {
      assert 0 < k <= |text|;
    }
    assert '.' !in text ==> e == d by {
      if e > d { assert text[k] == '.'; }
    }
  }

  /** The decimal literal of the number token rebuilds its lexeme from its
      non-empty whole digits and, after a dot, its fraction digits. */
  lemma NumberLiteral(src: string, st: ScanState)
    requires st.start + 1 == st.current <= |src| && IsDigit(src[st.start])
    ensures var t := ScanNumber(src, st).tokens[|st.tokens|];
      && t.kind == Number && t.literal.Decimal?
      && DecimalText(t.literal) == t.lexeme && t.literal.whole != []
      && AllDecimalDigits(t.literal.whole) && AllDecimalDigits(t.literal.fraction)
  {
    NumberLexeme(src, st);
  }

  /** Stands for `Integer.parseInt` / `Long.parseLong` on a digit string of
      the radix: the value when it is non-empty and at most `max`. */
  function ParseUnsigned(ds: string, radix: nat, max: nat): (r: Option<nat>)
    requires AllDigitsBelow(ds, radix)
    ensures r.Some? <==> ds != [] && Value(ds, radix) <= max
    ensures r.Some? ==> r.value == Value(ds, radix) <= max
  {
    if ds == [] || Value(ds, radix) > max then None else Some(Value(ds, radix))
  }

  /** The hexadecimal digit run from `i`. */
  function HexRun(src: string, i: nat): (num: string)
    requires i <= |src|
    ensures num == src[i..RunEnd(src, i, HexDigits)]
    ensures AllDigitsBelow(num, 16)
  {
    var e := RunEnd(src, i, HexDigits);
    assert forall k | 0 <= k < e - i :: src[i..e][k] == src[i + k];
    src[i..e]
  }

  /** The binary digit run from `i`. */
  function BinRun(src: string, i: nat): (num: string)
    requires i <= |src|
    ensures num == src[i..RunEnd(src, i, BinDigits)]
    ensures AllDigitsBelow(num, 2)
  {
    var e := RunEnd(src, i, BinDigits);
    assert forall k | 0 <= k < e - i :: src[i..e][k] == src[i + k];
    src[i..e]
  }

  /** The width the hexadecimal sub-scanner picks for a digit string:
      64-bit iff the leading digit is above '7' and there are 8 or more. */
  predicate HexIsWide(num: string)
    requires num != []
  {
    num[0] > '7' && |num| >= 8
  }

  /** `hex` (called after `0x` / `0X`): the hexadecimal digit run, decoded
      as a `Long` when wide and as an `Integer` otherwise. */
  function ScanHex(src: string, st: ScanState): Outcome
    requires st.start + 2 == st.current <= |src|
  {
    var e := RunEnd(src, st.current, HexDigits);
    var num := src[st.start + 2..e];
    if |num| == 0 then Abort(StringIndexOutOfBounds, st.diagnostics)
    else if HexIsWide(num) then
      match ParseUnsigned(num, 16, Int64Max)
      case None => Abort(NumberFormat, st.diagnostics)
      case Some(v) => Continue(AddToken(src, st.(current := e), Number, Int64(v as int64)))
    else
      match ParseUnsigned(num, 16, Int32Max)
      case None => Abort(NumberFormat, st.diagnostics)
      case Some(v) => Continue(AddToken(src, st.(current := e), Number, Int32(v as int32)))
  }

  /** What the hexadecimal sub-scanner decodes: no digit at all raises
      StringIndexOutOfBounds (`charAt(0)` on the empty run); otherwise the
      run is read as a `Long` when wide and as an `Integer` when not, a
      value over that width raises NumberFormatException, and a value in
      it gives one NUMBER token spanning `0x` and the run. */
  lemma HexOutcome(src: string, st: ScanState)
    requires st.start + 2 == st.current <= |src|
    ensures var o := ScanHex(src, st);
      var num := HexRun(src, st.current);
      var e := st.current + |num|;
      && (num == [] ==> o == Abort(StringIndexOutOfBounds, st.diagnostics))
      && (num != [] ==>
            var max := if HexIsWide(num) then Int64Max else Int32Max;
            && (o.Abort? <==> Value(num, 16) > max)
            && (o.Abort? ==> o.fault == NumberFormat)
            && (o.Continue? ==>
                 var lit := if HexIsWide(num) then Int64(Value(num, 16) as int64)
                            else Int32(Value(num, 16) as int32);
                 o.state == st.(current := e,
                   tokens := st.tokens + [Token(Number, src[st.start..e], lit, st.line)])))
  {
    assert src[st.start + 2..RunEnd(src, st.current, HexDigits)] == HexRun(src, st.current);
  }

  /** `bin` (called after `0b` / `0B`): the binary digit run, decoded as an
      `Integer`. */
  function ScanBin(src: string, st: ScanState): Outcome
    requires st.start + 2 == st.current <= |src|
  {
    var e := RunEnd(src, st.current, BinDigits);
    var num := src[st.start + 2..e];
    match ParseUnsigned(num, 2, Int32Max)
    case None => Abort(NumberFormat, st.diagnostics)
    case Some(v) => Continue(AddToken(src, st.(current := e), Number, Int32(v as int32)))
  }

  /** What the binary sub-scanner decodes: an empty run or a value over 31
      bits raises NumberFormatException; otherwise one NUMBER token
      spanning `0b` and the run, valued as an `Integer`. */
  lemma BinOutcome(src: string, st: ScanState)
    requires st.start + 2 == st.current <= |src|
    ensures var o := ScanBin(src, st);
      var num := BinRun(src, st.current);
      var e := st.current + |num|;
      && (o.Abort? <==> num == [] || Value(num, 2) > Int32Max)
      && (o.Abort? ==> o == Abort(NumberFormat, st.diagnostics))
      && (o.Continue? ==>
            o.state == st.(current := e,
              tokens := st.tokens + [Token(Number, src[st.start..e], Int32(Value(num, 2) as int32), st.line)]))
  {
    assert src[st.start + 2..RunEnd(src, st.current, BinDigits)] == BinRun(src, st.current);
  }

  /** The loop of `string`: advance up to the closing quote or the end of
      the source, bumping the line at each newline passed over. */
  function StringBody(src: string, st: ScanState): (r: ScanState)
    requires st.current <= |src|
    ensures r == st.(current := r.current, line := r.line)
    ensures st.current <= r.current <= |src| && st.line <= r.line
    decreases |src| - st.current
  {
    if PeekAt(src, st.current) != '"' && st.current < |src| then
      var line := if PeekAt(src, st.current) == '\n' then st.line + 1 else st.line;
      StringBody(src, st.(current := st.current + 1, line := line))
    else st
  }

  /** The string loop stops at the first quote from the cursor, or at the
      end when there is none, having added the newlines it passed. */
  lemma {:induction false} StringBodyFacts(src: string, st: ScanState)
    requires st.current <= |src|
    ensures var r := StringBody(src, st);
      && (forall k | st.current <= k < r.current :: src[k] != '"')
      && (r.current == |src| || src[r.current] == '"')
      && r.line == st.line + Newlines(src, st.current, r.current)
    decreases |src| - st.current
  {
    if st.current < |src| && src[st.current] != '"' {
      var line := if src[st.current] == '\n' then st.line + 1 else st.line;
      var next := st.(current := st.current + 1, line := line);
      StringBodyFacts(src, next);
    }
  }

  /** `string` (called after the opening quote): everything up to the next
      quote, with no escapes. Without a closing quote: one diagnostic at
      the line reached, and no token. */
  function ScanString(src: string, st: ScanState): ScanState
    requires st.start + 1 == st.current <= |src|
  {
    var body := StringBody(src, st);
    if body.current >= |src| then
      body.(diagnostics := body.diagnostics + [Diagnostic(body.line, UnterminatedString)])
    else
      AddToken(src, body.(current := body.current + 1), String, Str(src[st.start + 1..body.current]))
  }

  /** The string sub-scanner adds to the line the newlines it consumed. */
  lemma {:induction false} StringLine(src: string, st: ScanState)
    requires st.start + 1 == st.current <= |src|
    ensures var r := ScanString(src, st);
      st.current <= r.current && r.line == st.line + Newlines(src, st.current, r.current)
  {
    StringBodyFacts(src, st);
    var body := StringBody(src, st);
    var r := ScanString(src, st);
    if body.current < |src| {
      assert r.current == body.current + 1 && r.line == body.line;
      NewlinesSplit(src, st.current, body.current, r.current);
      assert Newlines(src, body.current, r.current) == 0;
    } else {
      assert r.current == body.current && r.line == body.line;
    }
  }

  /** The string sub-scanner reads one lexeme. */
  lemma StringIsOneLexeme(src: string, st: ScanState)
    requires st.start + 1 == st.current <= |src|
    ensures st.current <= ScanString(src, st).current
    ensures OneLexeme(src, st, ScanString(src, st))
  {
    var body := StringBody(src, st);
  }

  /** A string with its closing quote: one token, whose value is the text
      between the quotes, at the line the closing quote is on. */
  lemma {:induction false} StringClosed(src: string, st: ScanState)
    requires st.start + 1 == st.current <= |src| && StringBody(src, st).current < |src|
    ensures var r := ScanString(src, st);
      && st.current < r.current <= |src|
      && src[r.current - 1] == '"'
      && (forall k | st.current <= k < r.current - 1 :: src[k] != '"')
      && r.diagnostics == st.diagnostics
      && r.tokens == st.tokens + [Token(String, src[st.start..r.current],
                                        Str(src[st.current..r.current - 1]), r.line)]
  {
    var body := StringBody(src, st);
    StringClosedState(src, st);
    StringBodyFacts(src, st);
    var r := ScanString(src, st);
    assert r.current - 1 == body.current && r.line == body.line;
  }

  /** The state after a closing quote, in terms of where the loop stopped. */
  lemma StringClosedState(src: string, st: ScanState)
    requires st.start + 1 == st.current <= |src| && StringBody(src, st).current < |src|
    ensures var body := StringBody(src, st);
      ScanString(src, st) == body.(current := body.current + 1, tokens := st.tokens +
        [Token(String, src[st.start..body.current + 1], Str(src[st.current..body.current]), body.line)])
  {
  }

  /** A string without its closing quote: no token, one diagnostic. */
  lemma {:induction false} StringOpen(src: string, st: ScanState)
    requires st.start + 1 == st.current <= |src| && StringBody(src, st).current >= |src|
    ensures var r := ScanString(src, st);
      && r.current == |src|
      && (forall k | st.current <= k < |src| :: src[k] != '"')
      && r.tokens == st.tokens
      && r.diagnostics == st.diagnostics + [Diagnostic(r.line, UnterminatedString)]
  {
    StringBodyFacts(src, st);
    var body := StringBody(src, st);
    assert ScanString(src, st) == body.(diagnostics := body.diagnostics + [Diagnostic(body.line, UnterminatedString)]);
  }

  /** What the string sub-scanner does: the literal's value is exactly the
      text strictly between the quotes; the line grows by the newlines it
      consumed; a missing closing quote gives one "Unterminated string."
      report at the line reached, and no token. */
  lemma {:induction false} StringLiteralFacts(src: string, st: ScanState)
    requires st.start + 1 == st.current <= |src|
    ensures var r := ScanString(src, st);
      && st.current <= r.current <= |src|
      && r.start == st.start
      && r.line == st.line + Newlines(src, st.current, r.current)
      && ((forall k | st.current <= k < |src| :: src[k] != '"') <==> r.tokens == st.tokens)
      && (r.tokens == st.tokens ==>
            r.current == |src| &&
            r.diagnostics == st.diagnostics + [Diagnostic(r.line, UnterminatedString)])
      && (r.tokens != st.tokens ==>
            && st.current < r.current
            && src[r.current - 1] == '"'
            && (forall k | st.current <= k < r.current - 1 :: src[k] != '"')
            && r.diagnostics == st.diagnostics
            && r.tokens == st.tokens + [Token(String, src[st.start..r.current],
                                              Str(src[st.current..r.current - 1]), r.line)])
  {
    StringLine(src, st);
    var r := ScanString(src, st);
    var body := StringBody(src, st);
    if body.current < |src| {
      StringClosed(src, st);
      assert |r.tokens| == |st.tokens| + 1;
      assert st.current <= r.current - 1 < |src| && src[r.current - 1] == '"';
    } else {
      StringOpen(src, st);
    }
  }

  /** The eleven characters that are a token on their own. */
  function SingleCharKind(c: char): Option<TokenKind> {
    match c
    case '(' => Some(ParenLeft)  case ')' => Some(ParenRight)
    case '{' => Some(BraceLeft)  case '}' => Some(BraceRight)
    case ',' => Some(Comma)      case '.' => Some(Dot)
    case ':' => Some(Colon)      case '-' => Some(Minus)
    case '+' => Some(Plus)       case ';' => Some(Semicolon)
    case '*' => Some(Star)
    case _ => None
  }

  /** The four operators that take an optional `=`: the kind with the `=`
      and the kind without it. */
  function OperatorKind(c: char): Option<(TokenKind, TokenKind)> {
    match c
    case '!' => Some((NotEqual, Not))
    case '=' => Some((EqualEqual, Equal))
    case '<' => Some((LessEqual, Less))
    case '>' => Some((GreaterEqual, Greater))
    case _ => None
  }

  /** The `/` case of `scanToken` (called after the `/`): a line comment,
      a block comment, or the SLASH token. */
  function ScanSlash(src: string, st: ScanState): (r: ScanState)
    requires st.start + 1 == st.current <= |src| && src[st.start] == '/'
    ensures Matches(src, st.current, '/') ==> r == SkipLineComment(src, st.(current := st.current + 1))
    ensures !Matches(src, st.current, '/') && Matches(src, st.current, '*') ==>
      r == SkipBlockComment(src, st.(current := st.current + 1))
    ensures !Matches(src, st.current, '/') && !Matches(src, st.current, '*') ==>
      r == st.(tokens := st.tokens + [Token(Slash, "/", Absent, st.line)])
    ensures st.current <= r.current && r.line == st.line && OneLexeme(src, st, r)
  {
    if Matches(src, st.current, '/') then SkipLineComment(src, st.(current := st.current + 1))
    else if Matches(src, st.current, '*') then SkipBlockComment(src, st.(current := st.current + 1))
    else
      assert src[st.start..st.current] == "/";
      AddToken(src, st, Slash, Absent)
  }

  /** The digit case of `scanToken` (called after the digit): `0x` / `0X`
      starts a hexadecimal literal, `0b` / `0B` a binary one, anything else
      a decimal one. */
  function ScanNumeral(src: string, st: ScanState): Outcome
    requires st.start + 1 == st.current <= |src| && IsDigit(src[st.start])
  {
    var c := src[st.start];
    if c == '0' && (Matches(src, st.current, 'x') || Matches(src, st.current, 'X')) then
      ScanHex(src, st.(current := st.current + 1))
    else if c == '0' && (Matches(src, st.current, 'b') || Matches(src, st.current, 'B')) then
      ScanBin(src, st.(current := st.current + 1))
    else Continue(ScanNumber(src, st))
  }

  /** Which sub-scanner `number`'s dispatch on the first digit and the
      character after it picks. */
  lemma NumeralDispatch(src: string, st: ScanState)
    requires st.start + 1 == st.current <= |src| && IsDigit(src[st.start])
    ensures var c := src[st.start];
      var next := st.(current := st.current + 1);
      && (c == '0' && (Matches(src, st.current, 'x') || Matches(src, st.current, 'X')) ==>
            ScanNumeral(src, st) == ScanHex(src, next))
      && (c == '0' && !Matches(src, st.current, 'x') && !Matches(src, st.current, 'X') &&
          (Matches(src, st.current, 'b') || Matches(src, st.current, 'B')) ==>
            ScanNumeral(src, st) == ScanBin(src, next))
      && (c != '0' || !(Matches(src, st.current, 'x') || Matches(src, st.current, 'X') ||
                        Matches(src, st.current, 'b') || Matches(src, st.current, 'B')) ==>
            ScanNumeral(src, st) == Continue(ScanNumber(src, st)))
  {
  }

  /** A numeral is one lexeme on its line; only the `0x` and `0b` forms
      throw, and a throw reports nothing. */
  lemma NumeralIsOneLexeme(src: string, st: ScanState)
    requires st.start + 1 == st.current <= |src| && IsDigit(src[st.start])
    ensures var o := ScanNumeral(src, st);
      && (o.Continue? ==>
            && st.current <= o.state.current && o.state.line == st.line
            && OneLexeme(src, st, o.state) && o.state.tokens != st.tokens)
      && (o.Abort? ==>
            o.diagnostics == st.diagnostics && src[st.start] == '0' &&
            st.current < |src| && src[st.current] in "xXbB")
  {
    var c := src[st.start];
    var next := st.(current := st.current + 1);
    assert next.(current := next.current - 1) == st;
    if c == '0' && (Matches(src, st.current, 'x') || Matches(src, st.current, 'X')) {
      HexIsOneLexeme(src, next);
      assert ScanNumeral(src, st) == ScanHex(src, next);
    } else if c == '0' && (Matches(src, st.current, 'b') || Matches(src, st.current, 'B')) {
      BinIsOneLexeme(src, next);
      assert ScanNumeral(src, st) == ScanBin(src, next);
    } else {
      assert ScanNumeral(src, st) == Continue(ScanNumber(src, st));
    }
  }

  /** The hexadecimal sub-scanner reads one lexeme from the `0`
      before the `x`. */
  lemma HexIsOneLexeme(src: string, st: ScanState)
    requires st.start + 2 == st.current <= |src|
    ensures var o := ScanHex(src, st);
      && (o.Abort? ==> o.diagnostics == st.diagnostics)
      && (o.Continue? ==>
            && o.state.line == st.line && OneLexeme(src, st.(current := st.current - 1), o.state)
            && o.state.tokens != st.tokens)
  {
    var e := RunEnd(src, st.current, HexDigits);
  }

  /** The binary sub-scanner reads one lexeme from the `0` before the
      `b`. */
  lemma BinIsOneLexeme(src: string, st: ScanState)
    requires st.start + 2 == st.current <= |src|
    ensures var o := ScanBin(src, st);
      && (o.Abort? ==> o.diagnostics == st.diagnostics)
      && (o.Continue? ==>
            && o.state.line == st.line && OneLexeme(src, st.(current := st.current - 1), o.state)
            && o.state.tokens != st.tokens)
  {
    var e := RunEnd(src, st.current, BinDigits);
  }

  /** A character that is a token on its own (called after it). */
  function ScanSingle(src: string, st: ScanState, c: char): (r: ScanState)
    requires st.start < st.current <= |src| && SingleCharKind(c).Some?
    ensures r == st.(tokens := st.tokens + [Token(SingleCharKind(c).value, src[st.start..st.current], Absent, st.line)])
    ensures OneLexeme(src, st, r)
  {
    AddToken(src, st, SingleCharKind(c).value, Absent)
  }

  /** `scanToken`, entered with `start == current` on a character: advance
      over it and dispatch on it. Every call reads one lexeme and moves the
      cursor; only a `0` followed by `x`, `X`, `b` or `B` can throw. */
  function Step(src: string, st: ScanState): (o: Outcome)
    requires st.start == st.current < |src|
    ensures o.Continue? ==> st.current < o.state.current && OneLexeme(src, st, o.state)
    ensures o.Abort? ==>
      o.diagnostics == st.diagnostics && src[st.current] == '0' &&
      st.current + 1 < |src| && src[st.current + 1] in "xXbB"
  {
    var c := src[st.current];
    var next := st.(current := st.current + 1);
    if SingleCharKind(c).Some? then Continue(ScanSingle(src, next, c))
    else if OperatorKind(c).Some? then Continue(ScanOperator(src, next, c))
    else if c == '/' then Continue(ScanSlash(src, next))
    else if c == ' ' || c == '\r' || c == '\t' then Continue(next)
    else if c == '\n' then Continue(next.(line := next.line + 1))
    else if c == '"' then StringIsOneLexeme(src, next); Continue(ScanString(src, next))
    else if IsDigit(c) then NumeralIsOneLexeme(src, next); ScanNumeral(src, next)
    else if IsAlpha(c) then Continue(ScanIdentifier(src, next))
    else Continue(next.(diagnostics := next.diagnostics + [Diagnostic(next.line, UnexpectedCharacter)]))
  }

  /** Which sub-scanner `scanToken` hands its character to, case by case
      in the order of its `switch`. */
  lemma StepSingle(src: string, st: ScanState)
    requires st.start == st.current < |src| && SingleCharKind(src[st.current]).Some?
    ensures Step(src, st) == Continue(ScanSingle(src, st.(current := st.current + 1), src[st.current]))
  {
  }

  lemma StepOperator(src: string, st: ScanState)
    requires st.start == st.current < |src| && OperatorKind(src[st.current]).Some?
    ensures Step(src, st) == Continue(ScanOperator(src, st.(current := st.current + 1), src[st.current]))
  {
    assert SingleCharKind(src[st.current]).None?;
  }

  lemma StepSlash(src: string, st: ScanState)
    requires st.start == st.current < |src| && src[st.current] == '/'
    ensures Step(src, st) == Continue(ScanSlash(src, st.(current := st.current + 1)))
  {
  }

  lemma StepBlank(src: string, st: ScanState)
    requires st.start == st.current < |src| && (src[st.current] == ' ' || src[st.current] == '\r' || src[st.current] == '\t')
    ensures Step(src, st) == Continue(st.(current := st.current + 1))
  {
  }

  lemma StepNewline(src: string, st: ScanState)
    requires st.start == st.current < |src| && src[st.current] == '\n'
    ensures Step(src, st) == Continue(st.(current := st.current + 1, line := st.line + 1))
  {
  }

  lemma StepQuote(src: string, st: ScanState)
    requires st.start == st.current < |src| && src[st.current] == '"'
    ensures Step(src, st) == Continue(ScanString(src, st.(current := st.current + 1)))
  {
  }

  lemma StepDigit(src: string, st: ScanState)
    requires st.start == st.current < |src| && IsDigit(src[st.current])
    ensures Step(src, st) == ScanNumeral(src, st.(current := st.current + 1))
  {
    var c := src[st.current];
    assert SingleCharKind(c).None? && OperatorKind(c).None?;
    assert c != '/' && c != ' ' && c != '\r' && c != '\t' && c != '\n' && c != '"';
  }

  lemma StepAlpha(src: string, st: ScanState)
    requires st.start == st.current < |src| && IsAlpha(src[st.current])
    ensures Step(src, st) == Continue(ScanIdentifier(src, st.(current := st.current + 1)))
  {
    var c := src[st.current];
    assert SingleCharKind(c).None? && OperatorKind(c).None? && !IsDigit(c);
    assert c != '/' && c != ' ' && c != '\r' && c != '\t' && c != '\n' && c != '"';
  }

  /** A character outside the scanner's alphabet reports one "Unexpected
      character." at the current line, emits nothing, and scanning goes on
      with the next character. */
  lemma StepUnexpected(src: string, st: ScanState)
    requires st.start == st.current < |src|
    requires !IsAlphaNumeric(src[st.current]) && src[st.current] !in "(){},.:-+;*!=<>/ \r\t\n\""
    ensures Step(src, st) == Continue(st.(
      current := st.current + 1,
      diagnostics := st.diagnostics + [Diagnostic(st.line, UnexpectedCharacter)]))
  {
  }

  /** The line moves only for a newline character and for the newlines
      inside a string literal; block comments do not count theirs. */
  lemma {:induction false} StepLine(src: string, st: ScanState)
    requires st.start == st.current < |src|
    ensures var o := Step(src, st);
      o.Continue? ==>
      o.state.line == st.line +
        (if src[st.current] == '\n' || src[st.current] == '"'
         then Newlines(src, st.current, o.state.current) else 0)
  {
    if src[st.current] == '"' {
      StringLine(src, st.(current := st.current + 1));
    }
  }


  /** `!`, `=`, `<`, `>` (called after the operator character `c`): the
      two-character form when `=` follows, the one-character form
      otherwise. */
  function ScanOperator(src: string, st: ScanState, c: char): (r: ScanState)
    requires st.start < st.current <= |src| && OperatorKind(c).Some?
    ensures Matches(src, st.current, '=') ==>
      r == st.(current := st.current + 1,
               tokens := st.tokens + [Token(OperatorKind(c).value.0, src[st.start..st.current + 1], Absent, st.line)])
    ensures !Matches(src, st.current, '=') ==>
      r == st.(tokens := st.tokens + [Token(OperatorKind(c).value.1, src[st.start..st.current], Absent, st.line)])
    ensures OneLexeme(src, st, r)
  {
    var (double, single) := OperatorKind(c).value;
    if Matches(src, st.current, '=') then AddToken(src, st.(current := st.current + 1), double, Absent)
    else AddToken(src, st, single, Absent)
  }

  /** The loop of `scanTokens`: while not at the end, start a lexeme and
      scan it; a fault leaves the loop at once. */
  function Run(src: string, st: ScanState): (o: Outcome)
    requires st.current <= |src|
    ensures o.Continue? ==>
      o.state.current == |src| && st.tokens <= o.state.tokens &&
      st.diagnostics <= o.state.diagnostics && st.line <= o.state.line
    ensures o.Abort? ==> st.diagnostics <= o.diagnostics
    decreases |src| - st.current
  {
    if st.current >= |src| then Continue(st)
    else
      match Step(src, st.(start := st.current))
      case Abort(f, d) => Abort(f, d)
      case Continue(next) => Run(src, next)
  }

  /** What `scanTokens` returns once its loop has ended: the tokens with
      the EOF token at the line the cursor reached, or the fault. */
  function Finish(o: Outcome): ScanResult {
    match o
    case Continue(st) => Scanned(st.tokens + [EofToken(st.line)], st.diagnostics)
    case Abort(f, d) => Crashed(f, d)
  }

  /** `scanTokens` on a freshly constructed scanner. */
  function Scan(src: string): ScanResult {
    Finish(Run(src, Initial))
  }
}
