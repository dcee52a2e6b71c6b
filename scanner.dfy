/** The scanner object: the fields of the Java class and its methods, each
    proved to leave the object in the state the matching function of
    module Lexer describes. */
module Scanning {
  import opened Tokens
  import opened Chars
  import L = Lexer

  class Scanner {
    const source: string
    var tokens: seq<Token>
    var start: nat
    var current: nat
    var line: int
    /** The reports sent to the diagnostic sink, in order. */
    var diagnostics: seq<L.Diagnostic>

    /** The fields as a value of the specification's state type. */
    ghost function State(): L.ScanState
      reads this
    {
      L.ScanState(start, current, line, tokens, diagnostics)
    }

    constructor (source: string)
      ensures this.source == source && State() == L.Initial
    {
      this.source := source;
      tokens := [];
      start, current, line := 0, 0, 1;
      diagnostics := [];
    }

    predicate IsAtEnd()
      reads this
    {
      current >= |source|
    }

    function Peek(): char
      reads this
    {
      L.PeekAt(source, current)
    }

    function PeekNext(): char
      reads this
    {
      L.PeekNextAt(source, current)
    }

    method Advance() returns (c: char)
      requires current < |source|
      modifies this`current
      ensures c == source[old(current)] && current == old(current) + 1
    {
      c := source[current];
      current := current + 1;
    }

    method Match(expected: char) returns (matched: bool)
      modifies this`current
      ensures matched == L.Matches(source, old(current), expected)
      ensures current == if matched then old(current) + 1 else old(current)
    {
      if IsAtEnd() {
        return false;
      }
      if source[current] != expected {
        return false;
      }
      current := current + 1;
      return true;
    }

    method AddToken(kind: TokenKind, literal: Literal)
      requires start <= current <= |source|
      modifies this`tokens
      ensures State() == L.AddToken(source, old(State()), kind, literal)
    {
      tokens := tokens + [Token(kind, source[start..current], literal, line)];
    }

    /** The report to the external diagnostic sink, at the current line. */
    method Error(message: string)
      modifies this`diagnostics
      ensures diagnostics == old(diagnostics) + [L.Diagnostic(line, message)]
    {
      diagnostics := diagnostics + [L.Diagnostic(line, message)];
    }

    method LineComment()
      requires current <= |source|
      modifies this`current
      ensures State() == L.SkipLineComment(source, old(State()))
    {
      ghost var end := L.RunEnd(source, current, LineText);
      while Peek() != '\n' && !IsAtEnd()
        invariant old(current) <= current <= |source|
        invariant L.RunEnd(source, current, LineText) == end
        decreases |source| - current
      {
        var _ := Advance();
      }
    }

    method BlockComment()
      requires current <= |source|
      modifies this`current
      ensures State() == L.SkipBlockComment(source, old(State()))
    {
      ghost var end := L.BlockCommentEnd(source, current);
      while !IsAtEnd()
        invariant current <= |source|
        invariant L.BlockCommentEnd(source, current) == end
        decreases |source| - current
      {
        var _ := Advance();
        var star := Match('*');
        if star && Peek() == '/' {
          var _ := Advance();
          break;
        }
      }
    }

    method Identifier()
      requires start + 1 == current <= |source| && IsAlpha(source[start])
      modifies this`current, this`tokens
      ensures State() == L.ScanIdentifier(source, old(State()))
    {
      AdvanceWhile(AlphaNumerics);
      var text := source[start..current];
      var kind := TokenKind.Identifier;
      if text in Keywords {
        kind := Keywords[text];
      }
      AddToken(kind, Absent);
    }

    /** `while (isX(peek())) advance();` for one of the character tests
        `isAlphaNumeric`, `isDigit`, `isHex` and `isBin`: the loops of
        `identifier`, `number`, `hex` and `bin`. None of these holds of
        the '\0' `peek` gives at the end. */
    method AdvanceWhile(cls: CharClass)
      requires current <= |source| && cls != LineText
      modifies this`current
      ensures current == L.RunEnd(source, old(current), cls)
    {
      ghost var end := L.RunEnd(source, current, cls);
      while InClass(cls, Peek())
        invariant current <= |source|
        invariant L.RunEnd(source, current, cls) == end
        decreases |source| - current
      {
        var _ := Advance();
      }
    }

    method Number()
      requires start + 1 == current <= |source| && IsDigit(source[start])
      modifies this`current, this`tokens
      ensures State() == L.ScanNumber(source, old(State()))
    {
      ghost var before := State();
      AdvanceWhile(Digits);
      if Peek() == '.' && IsDigit(PeekNext()) {
        var _ := Advance();
        AdvanceWhile(Digits);
      }
      assert current == L.NumberEnd(source, before.current);
      assert State() == before.(current := current);
      AddToken(TokenKind.Number, L.ParseDecimal(source[start..current]));
    }

    method Hex() returns (fault: L.Option<L.Fault>)
      requires start + 2 == current <= |source|
      modifies this`current, this`tokens
      ensures match L.ScanHex(source, old(State()))
        case Continue(s) => fault == L.None && State() == s
        case Abort(f, d) => fault == L.Some(f) && diagnostics == d
    {
      ghost var before := State();
      ghost var end := L.RunEnd(source, current, HexDigits);
      AdvanceWhile(HexDigits);
      assert current == end && State() == before.(current := end);
      var num := source[start + 2..current];
      assert num == L.HexRun(source, before.current);
      if |num| == 0 {
        // `num.charAt(0)` throws
        return L.Some(L.StringIndexOutOfBounds);
      }
      if L.HexIsWide(num) {
        var parsed := L.ParseUnsigned(num, 16, Int64Max);
        if parsed.None? {
          return L.Some(L.NumberFormat);
        }
        AddToken(TokenKind.Number, Int64(parsed.value as int64));
      } else {
        var parsed := L.ParseUnsigned(num, 16, Int32Max);
        if parsed.None? {
          return L.Some(L.NumberFormat);
        }
        AddToken(TokenKind.Number, Int32(parsed.value as int32));
      }
      return L.None;
    }

    method Bin() returns (fault: L.Option<L.Fault>)
      requires start + 2 == current <= |source|
      modifies this`current, this`tokens
      ensures match L.ScanBin(source, old(State()))
        case Continue(s) => fault == L.None && State() == s
        case Abort(f, d) => fault == L.Some(f) && diagnostics == d
    {
      ghost var before := State();
      ghost var end := L.RunEnd(source, current, BinDigits);
      AdvanceWhile(BinDigits);
      assert current == end && State() == before.(current := end);
      var num := source[start + 2..current];
      assert num == L.BinRun(source, before.current);
      var parsed := L.ParseUnsigned(num, 2, Int32Max);
      if parsed.None? {
        return L.Some(L.NumberFormat);
      }
      AddToken(TokenKind.Number, Int32(parsed.value as int32));
      return L.None;
    }

    /** The loop of `string`: up to the closing quote or the end of the
        text, counting the newlines passed. */
    method StringContents()
      requires current <= |source|
      modifies this`current, this`line
      ensures State() == L.StringBody(source, old(State()))
    {
      ghost var before := State();
      while Peek() != '"' && !IsAtEnd()
        invariant current <= |source|
        invariant L.StringBody(source, State()) == L.StringBody(source, before)
        decreases |source| - current
      {
        ghost var st := State();
        if Peek() == '\n' {
          line := line + 1;
        }
        var _ := Advance();
        assert State() == st.(current := st.current + 1, line := line);
      }
    }

    /** The end of `string` once the loop has stopped at a quote: consume
        it and add the STRING token valued by the text between the quotes. */
    method CloseString()
      requires start < current < |source|
      modifies this`current, this`tokens
      ensures State() == L.AddToken(source, old(State()).(current := old(current) + 1),
                                    TokenKind.String, Str(source[start + 1..old(current)]))
    {
      var _ := Advance();
      var value := source[start + 1..current - 1];
      AddToken(TokenKind.String, Str(value));
    }

    method StringLiteral()
      requires start + 1 == current <= |source|
      modifies this`current, this`line, this`tokens, this`diagnostics
      ensures State() == L.ScanString(source, old(State()))
    {
      StringContents();
      if IsAtEnd() {
        Error(L.UnterminatedString);
        return;
      }
      CloseString();
    }

    /** The `!`, `=`, `<` and `>` cases of `scanToken`. */
    method Operator(c: char)
      requires start < current <= |source| && L.OperatorKind(c).Some?
      modifies this`current, this`tokens
      ensures State() == L.ScanOperator(source, old(State()), c)
    {
      var equal := Match('=');
      AddToken(if equal then L.OperatorKind(c).value.0 else L.OperatorKind(c).value.1, Absent);
    }

    /** The `/` case of `scanToken`. */
    method Slash()
      requires start + 1 == current <= |source| && source[start] == '/'
      modifies this`current, this`tokens
      ensures State() == L.ScanSlash(source, old(State()))
    {
      ghost var before := State();
      var slash := Match('/');
      if slash {
        assert State() == before.(current := before.current + 1);
        LineComment();
      } else {
        var star := Match('*');
        if star {
          assert State() == before.(current := before.current + 1);
          BlockComment();
        } else {
          AddToken(TokenKind.Slash, Absent);
          assert source[before.start..before.current] == "/";
        }
      }
    }

    /** The digit case of `scanToken`. */
    method Numeral() returns (fault: L.Option<L.Fault>)
      requires start + 1 == current <= |source| && IsDigit(source[start])
      modifies this`current, this`tokens
      ensures match L.ScanNumeral(source, old(State()))
        case Continue(s) => fault == L.None && State() == s
        case Abort(f, d) => fault == L.Some(f) && diagnostics == d
    {
      ghost var before := State();
      L.NumeralDispatch(source, before);
      fault := L.None;
      if source[start] == '0' {
        var x := Match('x');
        if !x {
          x := Match('X');
        }
        if x {
          assert State() == before.(current := before.current + 1);
          fault := Hex();
          return;
        }
        var b := Match('b');
        if !b {
          b := Match('B');
        }
        if b {
          assert State() == before.(current := before.current + 1);
          fault := Bin();
          return;
        }
      }
      Number();
    }

    method ScanToken() returns (fault: L.Option<L.Fault>)
      requires start == current < |source|
      modifies this
      ensures match L.Step(source, old(State()))
        case Continue(s) => fault == L.None && State() == s
        case Abort(f, d) => fault == L.Some(f) && diagnostics == d
    {
      ghost var before := State();
      fault := L.None;
      var c := Advance();
      ghost var next := before.(current := before.current + 1);
      assert State() == next;
      if L.SingleCharKind(c).Some? {
        L.StepSingle(source, before);
        AddToken(L.SingleCharKind(c).value, Absent);
      } else if L.OperatorKind(c).Some? {
        L.StepOperator(source, before);
        Operator(c);
      } else if c == '/' {
        L.StepSlash(source, before);
        Slash();
      } else if c == ' ' || c == '\r' || c == '\t' {
        // whitespace
        L.StepBlank(source, before);
      } else if c == '\n' {
        L.StepNewline(source, before);
        line := line + 1;
      } else if c == '"' {
        L.StepQuote(source, before);
        StringLiteral();
      } else if IsDigit(c) {
        L.StepDigit(source, before);
        fault := Numeral();
      } else if IsAlpha(c) {
        L.StepAlpha(source, before);
        Identifier();
      } else {
        L.StepUnexpected(source, before);
        Error(L.UnexpectedCharacter);
      }
    }

    method ScanTokens() returns (result: L.ScanResult)
      requires start <= current <= |source|
      modifies this
      ensures result == L.Finish(L.Run(source, old(State())))
      ensures result.Scanned? ==> tokens == result.tokens && diagnostics == result.diagnostics
    {
      while !IsAtEnd()
        invariant start <= current <= |source|
        invariant L.Run(source, State()) == L.Run(source, old(State()))
        decreases |source| - current
      {
        start := current;
        var fault := ScanToken();
        if fault.Some? {
          return L.Crashed(fault.value, diagnostics);
        }
      }
      tokens := tokens + [EofToken(line)];
      return L.Scanned(tokens, diagnostics);
    }
  }

  /** What a client of the scanner does: construct it on a source text and
      scan. The result is the specification's `Scan` of that text. */
  method Tokenize(source: string) returns (result: L.ScanResult)
    ensures result == L.Scan(source)
  {
    var scanner := new Scanner(source);
    result := scanner.ScanTokens();
  }
}
