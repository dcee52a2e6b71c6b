/** Whole scans of small concrete texts, worked out against the model: the
    literal kinds, the crash cases, the string and comment edge cases.
    Each scan is stated for a text `src` equal to the example, and taken
    apart into the dispatch of `scanToken` on its first character and the
    sub-scanner's result on the example. */
module Scenarios {
  import opened Tokens
  import opened Chars
  import opened Lexer
  import opened Literals

  /** A text scanned in one lexeme gives that lexeme's tokens and
      diagnostics, closed by EOF. */
  lemma ScanOneLexeme(src: string, r: ScanState)
    requires 0 < |src| && Step(src, Initial) == Continue(r) && r.current == |src|
    ensures Scan(src) == Scanned(r.tokens + [EofToken(r.line)], r.diagnostics)
  {
    assert Initial.(start := Initial.current) == Initial;
    assert Run(src, r) == Continue(r);
  }

  /** A text scanned in two lexemes. */
  lemma ScanTwoLexemes(src: string, r1: ScanState, r2: ScanState)
    requires 0 < |src| && Step(src, Initial) == Continue(r1) && r1.current < |src|
    requires Step(src, r1.(start := r1.current)) == Continue(r2) && r2.current == |src|
    ensures Scan(src) == Scanned(r2.tokens + [EofToken(r2.line)], r2.diagnostics)
  {
    assert Initial.(start := Initial.current) == Initial;
    assert Run(src, r2) == Continue(r2);
    assert Run(src, r1) == Run(src, r2);
  }

  /** A text whose first lexeme throws makes the scan throw. */
  lemma ScanOneFault(src: string, f: Fault)
    requires 0 < |src| && Step(src, Initial) == Abort(f, [])
    ensures Scan(src) == Crashed(f, [])
  {
    assert Initial.(start := Initial.current) == Initial;
  }

  /** A text whose first lexeme the slash sub-scanner reads, followed by
      one more lexeme. */
  lemma SlashThenOne(src: string, r1: ScanState, r2: ScanState)
    requires 1 <= |src| && src[0] == '/'
    requires ScanSlash(src, ScanState(0, 1, 1, [], [])) == r1 && r1.current < |src|
    requires Step(src, r1.(start := r1.current)) == Continue(r2) && r2.current == |src|
    ensures Scan(src) == Scanned(r2.tokens + [EofToken(r2.line)], r2.diagnostics)
  {
    StepSlash(src, Initial);
    assert Initial.(current := Initial.current + 1) == ScanState(0, 1, 1, [], []);
    ScanTwoLexemes(src, r1, r2);
  }

  /** `scanToken` on `0x` hands over to the hexadecimal sub-scanner, on
      `0b` to the binary one, on another digit to the decimal one. */
  lemma StepHex(src: string, st: ScanState)
    requires st.start == st.current && st.current + 1 < |src|
    requires src[st.current] == '0' && src[st.current + 1] == 'x'
    ensures Step(src, st) == ScanHex(src, st.(current := st.current + 2))
  {
    var next := st.(current := st.current + 1);
    StepDigit(src, st);
    NumeralDispatch(src, next);
    assert Matches(src, next.current, 'x');
    assert next.(current := next.current + 1) == st.(current := st.current + 2);
  }

  lemma StepBin(src: string, st: ScanState)
    requires st.start == st.current && st.current + 1 < |src|
    requires src[st.current] == '0' && src[st.current + 1] == 'b'
    ensures Step(src, st) == ScanBin(src, st.(current := st.current + 2))
  {
    var next := st.(current := st.current + 1);
    StepDigit(src, st);
    NumeralDispatch(src, next);
    assert Matches(src, next.current, 'b') && !Matches(src, next.current, 'x') && !Matches(src, next.current, 'X');
    assert next.(current := next.current + 1) == st.(current := st.current + 2);
  }

  lemma StepDecimal(src: string, st: ScanState)
    requires st.start == st.current < |src| && '1' <= src[st.current] <= '9'
    ensures Step(src, st) == Continue(ScanNumber(src, st.(current := st.current + 1)))
  {
    var next := st.(current := st.current + 1);
    StepDigit(src, st);
    NumeralDispatch(src, next);
  }

  /** A text `0x...` that the hexadecimal sub-scanner reads whole, or
      that makes it throw; the same for `0b...`. */
  lemma HexScansWhole(src: string, r: ScanState)
    requires 2 <= |src| && src[0] == '0' && src[1] == 'x'
    requires ScanHex(src, ScanState(0, 2, 1, [], [])) == Continue(r) && r.current == |src|
    ensures Scan(src) == Scanned(r.tokens + [EofToken(r.line)], r.diagnostics)
  {
    StepHex(src, Initial);
    assert Initial.(current := Initial.current + 2) == ScanState(0, 2, 1, [], []);
    ScanOneLexeme(src, r);
  }

  lemma HexThrows(src: string, f: Fault)
    requires 2 <= |src| && src[0] == '0' && src[1] == 'x'
    requires ScanHex(src, ScanState(0, 2, 1, [], [])) == Abort(f, [])
    ensures Scan(src) == Crashed(f, [])
  {
    StepHex(src, Initial);
    assert Initial.(current := Initial.current + 2) == ScanState(0, 2, 1, [], []);
    ScanOneFault(src, f);
  }

  lemma BinScansWhole(src: string, r: ScanState)
    requires 2 <= |src| && src[0] == '0' && src[1] == 'b'
    requires ScanBin(src, ScanState(0, 2, 1, [], [])) == Continue(r) && r.current == |src|
    ensures Scan(src) == Scanned(r.tokens + [EofToken(r.line)], r.diagnostics)
  {
    StepBin(src, Initial);
    assert Initial.(current := Initial.current + 2) == ScanState(0, 2, 1, [], []);
    ScanOneLexeme(src, r);
  }

  lemma BinThrows(src: string, f: Fault)
    requires 2 <= |src| && src[0] == '0' && src[1] == 'b'
    requires ScanBin(src, ScanState(0, 2, 1, [], [])) == Abort(f, [])
    ensures Scan(src) == Crashed(f, [])
  {
    StepBin(src, Initial);
    assert Initial.(current := Initial.current + 2) == ScanState(0, 2, 1, [], []);
    ScanOneFault(src, f);
  }

  /** A text opening with a quote that the string sub-scanner reads
      whole; the same for a slash and its sub-scanner. */
  lemma StringScansWhole(src: string, r: ScanState)
    requires 1 <= |src| && src[0] == '"'
    requires ScanString(src, ScanState(0, 1, 1, [], [])) == r && r.current == |src|
    ensures Scan(src) == Scanned(r.tokens + [EofToken(r.line)], r.diagnostics)
  {
    StepQuote(src, Initial);
    assert Initial.(current := Initial.current + 1) == ScanState(0, 1, 1, [], []);
    ScanOneLexeme(src, r);
  }

  lemma SlashScansWhole(src: string, r: ScanState)
    requires 1 <= |src| && src[0] == '/'
    requires ScanSlash(src, ScanState(0, 1, 1, [], [])) == r && r.current == |src|
    ensures Scan(src) == Scanned(r.tokens + [EofToken(r.line)], r.diagnostics)
  {
    StepSlash(src, Initial);
    assert Initial.(current := Initial.current + 1) == ScanState(0, 1, 1, [], []);
    ScanOneLexeme(src, r);
  }

  lemma Value1F()
    ensures Value("1F", 16) == 31
  {
    assert "1F"[..1] == "1" && "1"[..0] == "";
  }

  lemma Value80000000()
    ensures Value("80000000", 16) == 0x8000_0000
  {
    assert "80000000"[..7] == "8000000" && "8000000"[..6] == "800000" && "800000"[..5] == "80000";
    assert "80000"[..4] == "8000" && "8000"[..3] == "800" && "800"[..2] == "80" && "80"[..1] == "8";
    assert "8"[..0] == "";
  }

  lemma Value101()
    ensures Value("101", 2) == 5
  {
    assert "101"[..2] == "10" && "10"[..1] == "1" && "1"[..0] == "";
  }

  lemma HexDigits1F(src: string)
    requires src == "0x1F"
    ensures ScanHex(src, ScanState(0, 2, 1, [], [])) ==
      Continue(ScanState(0, 4, 1, [Token(Number, src, Int32(31), 1)], []))
  {
    assert HexRun(src, 2) == "1F";
    Value1F();
    assert src[0..4] == src;
  }

  /** `0x1F` is the 32-bit literal 31. */
  lemma HexLiteral(src: string)
    requires src == "0x1F"
    ensures Scan(src) == Scanned([Token(Number, src, Int32(31), 1), EofToken(1)], [])
  {
    HexDigits1F(src);
    HexScansWhole(src, ScanState(0, 4, 1, [Token(Number, src, Int32(31), 1)], []));
  }

  lemma HexDigits80000000(src: string)
    requires src == "0x80000000"
    ensures ScanHex(src, ScanState(0, 2, 1, [], [])) ==
      Continue(ScanState(0, 10, 1, [Token(Number, src, Int64(0x8000_0000), 1)], []))
  {
    assert HexRun(src, 2) == "80000000";
    Value80000000();
    assert src[0..10] == src;
  }

  /** `0x80000000`, eight digits led by `8`, is the 64-bit literal 2^31. */
  lemma WideHexLiteral(src: string)
    requires src == "0x80000000"
    ensures Scan(src) == Scanned([Token(Number, src, Int64(0x8000_0000), 1), EofToken(1)], [])
  {
    HexDigits80000000(src);
    HexScansWhole(src, ScanState(0, 10, 1, [Token(Number, src, Int64(0x8000_0000), 1)], []));
  }

  lemma BinDigits101(src: string)
    requires src == "0b101"
    ensures ScanBin(src, ScanState(0, 2, 1, [], [])) ==
      Continue(ScanState(0, 5, 1, [Token(Number, src, Int32(5), 1)], []))
  {
    assert BinRun(src, 2) == "101";
    Value101();
    assert src[0..5] == src;
  }

  /** `0b101` is the 32-bit literal 5. */
  lemma BinLiteral(src: string)
    requires src == "0b101"
    ensures Scan(src) == Scanned([Token(Number, src, Int32(5), 1), EofToken(1)], [])
  {
    BinDigits101(src);
    BinScansWhole(src, ScanState(0, 5, 1, [Token(Number, src, Int32(5), 1)], []));
  }

  lemma HexDigitsNone(src: string)
    requires src == "0x"
    ensures ScanHex(src, ScanState(0, 2, 1, [], [])) == Abort(StringIndexOutOfBounds, [])
  {
    assert HexRun(src, 2) == "";
  }

  /** `0x` with no digit after it throws StringIndexOutOfBounds. */
  lemma HexWithoutDigits(src: string)
    requires src == "0x"
    ensures Scan(src) == Crashed(StringIndexOutOfBounds, [])
  {
    HexDigitsNone(src);
    HexThrows(src, StringIndexOutOfBounds);
  }

  lemma BinDigitsNone(src: string)
    requires src == "0b"
    ensures ScanBin(src, ScanState(0, 2, 1, [], [])) == Abort(NumberFormat, [])
  {
    assert BinRun(src, 2) == "";
  }

  /** `0b` with no digit after it throws NumberFormatException. */
  lemma BinWithoutDigits(src: string)
    requires src == "0b"
    ensures Scan(src) == Crashed(NumberFormat, [])
  {
    BinDigitsNone(src);
    BinThrows(src, NumberFormat);
  }

  lemma HexDigits100000000(src: string)
    requires src == "0x100000000"
    ensures ScanHex(src, ScanState(0, 2, 1, [], [])) == Abort(NumberFormat, [])
  {
    assert HexRun(src, 2) == "100000000";
    HexLiteralWidth(src, ScanState(0, 2, 1, [], []));
  }

  /** `0x100000000`, nine digits led by `1`, takes the 32-bit path and
      throws NumberFormatException. */
  lemma NarrowHexOverflow(src: string)
    requires src == "0x100000000"
    ensures Scan(src) == Crashed(NumberFormat, [])
  {
    HexDigits100000000(src);
    HexThrows(src, NumberFormat);
  }

  lemma NumberOne()
    ensures ScanNumber("1.", ScanState(0, 1, 1, [], [])) ==
      ScanState(0, 1, 1, [Token(Number, "1", Decimal("1", ""), 1)], [])
  {
    assert RunEnd("1.", 1, Digits) == 1;
    assert NumberEnd("1.", 1) == 1;
    assert "1."[0..1] == "1";
    assert ParseDecimal("1") == Decimal("1", "");
  }

  lemma DotAfterOne()
    ensures ScanSingle("1.", ScanState(1, 2, 1, [Token(Number, "1", Decimal("1", ""), 1)], []), '.') ==
      ScanState(1, 2, 1, [Token(Number, "1", Decimal("1", ""), 1), Token(Dot, ".", Absent, 1)], [])
  {
    assert "1."[1..2] == ".";
  }

  /** `1.` is the number 1 followed by a dot: a fraction needs a digit
      after the dot. */
  lemma DotAfterNumber(src: string)
    requires src == "1."
    ensures Scan(src) == Scanned([Token(Number, "1", Decimal("1", ""), 1), Token(Dot, ".", Absent, 1), EofToken(1)], [])
  {
    var t1 := Token(Number, "1", Decimal("1", ""), 1);
    var s1 := ScanState(0, 1, 1, [t1], []);
    NumberOne();
    StepDecimal(src, Initial);
    DotAfterOne();
    StepSingle(src, s1.(start := 1));
    ScanTwoLexemes(src, s1, ScanState(1, 2, 1, [t1, Token(Dot, ".", Absent, 1)], []));
  }

  lemma StringLeftOpen(src: string)
    requires src == "\"abc"
    ensures ScanString(src, ScanState(0, 1, 1, [], [])) ==
      ScanState(0, 4, 1, [], [Diagnostic(1, Lexer.UnterminatedString)])
  {
    assert src[1] == 'a' && src[2] == 'b' && src[3] == 'c';
    assert StringBody(src, ScanState(0, 4, 1, [], [])) == ScanState(0, 4, 1, [], []);
    assert StringBody(src, ScanState(0, 2, 1, [], [])) == ScanState(0, 4, 1, [], []);
    assert StringBody(src, ScanState(0, 1, 1, [], [])) == ScanState(0, 4, 1, [], []);
  }

  /** A string left open reports "Unterminated string." and gives no
      token. */
  lemma UnterminatedString(src: string)
    requires src == "\"abc"
    ensures Scan(src) == Scanned([EofToken(1)], [Diagnostic(1, Lexer.UnterminatedString)])
  {
    StringLeftOpen(src);
    StringScansWhole(src, ScanState(0, 4, 1, [], [Diagnostic(1, Lexer.UnterminatedString)]));
  }

  lemma StringAcrossNewline(src: string)
    requires src == "\"a\nb\""
    ensures ScanString(src, ScanState(0, 1, 1, [], [])) ==
      ScanState(0, 5, 2, [Token(String, src, Str("a\nb"), 2)], [])
  {
    assert src[1] == 'a' && src[2] == '\n' && src[3] == 'b' && src[4] == '"';
    assert StringBody(src, ScanState(0, 3, 2, [], [])) == ScanState(0, 4, 2, [], []);
    assert StringBody(src, ScanState(0, 1, 1, [], [])) == ScanState(0, 4, 2, [], []);
    assert src[1..4] == "a\nb";
    assert src[0..5] == src;
  }

  /** A string spanning two lines keeps its newline and carries the line
      it ends on. */
  lemma MultilineString(src: string)
    requires src == "\"a\nb\""
    ensures Scan(src) == Scanned([Token(String, src, Str("a\nb"), 2), EofToken(2)], [])
  {
    StringAcrossNewline(src);
    StringScansWhole(src, ScanState(0, 5, 2, [Token(String, src, Str("a\nb"), 2)], []));
  }

  lemma CommentRunsOn(src: string)
    requires src == "/**/x"
    ensures ScanSlash(src, ScanState(0, 1, 1, [], [])) == ScanState(0, 5, 1, [], [])
  {
    assert BlockCommentEnd(src, 2) == 5;
  }

  // An empty block comment does not close: the scanner steps over the
  // second star before testing for the closing pair, so the comment runs
  // on and swallows `x`.
  lemma EmptyBlockCommentSwallows(src: string)
    requires src == "/**/x"
    ensures Scan(src) == Scanned([EofToken(1)], [])
  {
    CommentRunsOn(src);
    SlashScansWhole(src, ScanState(0, 5, 1, [], []));
  }

  lemma CommentCloses(src: string)
    requires src == "/* a */x"
    ensures ScanSlash(src, ScanState(0, 1, 1, [], [])) == ScanState(0, 7, 1, [], [])
  {
    assert src[3] == 'a' && src[4] == ' ' && src[5] == '*' && src[6] == '/';
    assert BlockCommentEnd(src, 4) == 7;
    assert BlockCommentEnd(src, 2) == 7;
  }

  lemma IdentifierAtEnd(src: string, st: ScanState)
    requires |src| == 8 && src[7] == 'x' && st == ScanState(7, 7, 1, [], [])
    ensures Step(src, st) == Continue(ScanState(7, 8, 1, [Token(Identifier, "x", Absent, 1)], []))
  {
    StepAlpha(src, st);
    assert RunEnd(src, 8, AlphaNumerics) == 8;
    assert src[7..8] == "x";
    assert "x" !in Keywords;
  }

  /** A block comment closed by an ordinary star and slash ends there, and
      scanning goes on after it. */
  lemma BlockCommentCloses(src: string)
    requires src == "/* a */x"
    ensures Scan(src) == Scanned([Token(Identifier, "x", Absent, 1), EofToken(1)], [])
  {
    CommentCloses(src);
    IdentifierAtEnd(src, ScanState(7, 7, 1, [], []));
    SlashThenOne(src, ScanState(0, 7, 1, [], []), ScanState(7, 8, 1, [Token(Identifier, "x", Absent, 1)], []));
  }

  lemma StarsClose(src: string)
    requires src == "/***/x"
    ensures ScanSlash(src, ScanState(0, 1, 1, [], [])) == ScanState(0, 5, 1, [], [])
  {
    assert src[3] == '*' && src[4] == '/';
    assert BlockCommentEnd(src, 2) == 5;
  }

  lemma IdentifierAfterStars(src: string, st: ScanState)
    requires |src| == 6 && src[5] == 'x' && st == ScanState(5, 5, 1, [], [])
    ensures Step(src, st) == Continue(ScanState(5, 6, 1, [Token(Identifier, "x", Absent, 1)], []))
  {
    StepAlpha(src, st);
    assert RunEnd(src, 6, AlphaNumerics) == 6;
    assert src[5..6] == "x";
    assert "x" !in Keywords;
  }

  /** Three stars and a slash after the opening slash: the loop steps
      over the second star and takes the third, which the slash follows,
      so the comment closes. */
  lemma ThreeStarsClose(src: string)
    requires src == "/***/x"
    ensures Scan(src) == Scanned([Token(Identifier, "x", Absent, 1), EofToken(1)], [])
  {
    StarsClose(src);
    IdentifierAfterStars(src, ScanState(5, 5, 1, [], []));
    SlashThenOne(src, ScanState(0, 5, 1, [], []), ScanState(5, 6, 1, [Token(Identifier, "x", Absent, 1)], []));
  }

  lemma DoubleStarRunsOn(src: string)
    requires src == "/* a **/x"
    ensures ScanSlash(src, ScanState(0, 1, 1, [], [])) == ScanState(0, 9, 1, [], [])
  {
    assert src[3] == 'a' && src[4] == ' ' && src[5] == '*' && src[6] == '*' && src[7] == '/' && src[8] == 'x';
    assert BlockCommentEnd(src, 6) == 9;
    assert BlockCommentEnd(src, 4) == 9;
    assert BlockCommentEnd(src, 2) == 9;
  }

  // Two stars and a slash after other text: the loop takes the first
  // star, finds another star instead of the slash, then steps over the
  // second star, so the slash never closes and `x` is swallowed.
  lemma DoubleStarSwallows(src: string)
    requires src == "/* a **/x"
    ensures Scan(src) == Scanned([EofToken(1)], [])
  {
    DoubleStarRunsOn(src);
    SlashScansWhole(src, ScanState(0, 9, 1, [], []));
  }

  lemma CommentOverNewline(src: string)
    requires src == "/*\n*/"
    ensures ScanSlash(src, ScanState(0, 1, 1, [], [])) == ScanState(0, 5, 1, [], [])
  {
    assert BlockCommentEnd(src, 2) == 5;
  }

  /** A newline inside a block comment does not move the line. */
  lemma BlockCommentKeepsLine(src: string)
    requires src == "/*\n*/"
    ensures Scan(src) == Scanned([EofToken(1)], [])
  {
    CommentOverNewline(src);
    SlashScansWhole(src, ScanState(0, 5, 1, [], []));
  }

  lemma IfAfterHash()
    ensures ScanIdentifier("#if", ScanState(1, 2, 1, [], [Diagnostic(1, UnexpectedCharacter)])) ==
      ScanState(1, 3, 1, [Token(If, "if", Absent, 1)], [Diagnostic(1, UnexpectedCharacter)])
  {
    assert RunEnd("#if", 2, AlphaNumerics) == 3;
    assert "#if"[1..3] == "if";
    assert "if" in Keywords;
  }

  /** `#` is not a character the scanner knows: `#if` reports it and then
      reads the keyword `if`, never the directive. */
  lemma HashIsUnexpected(src: string)
    requires src == "#if"
    ensures Scan(src) == Scanned([Token(If, "if", Absent, 1), EofToken(1)], [Diagnostic(1, UnexpectedCharacter)])
  {
    var d := [Diagnostic(1, UnexpectedCharacter)];
    var s1 := ScanState(0, 1, 1, [], d);
    StepUnexpected(src, Initial);
    IfAfterHash();
    StepAlpha(src, s1.(start := 1));
    ScanTwoLexemes(src, s1, ScanState(1, 3, 1, [Token(If, "if", Absent, 1)], d));
  }

  /** Keyword lookup is exact: `var` is the keyword, `Var` an identifier. */
  lemma KeywordsAreCaseSensitive()
    ensures KeywordOrIdentifier("var") == Var
    ensures KeywordOrIdentifier("Var") == Identifier
  {
    assert "var" in Keywords;
    assert "Var" !in Keywords;
  }
}
