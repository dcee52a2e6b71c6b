/** Properties of a whole scan: the shape of the token list `scanTokens`
    returns, the only inputs that make it fail, and what the characters
    that produce no token do. */
module Properties {
  import opened Tokens
  import opened Chars
  import opened Lexer

  /** `lexeme` is a stretch of `src` that ends at or before `bound`. */
  predicate OccursIn(lexeme: string, src: string, bound: nat) {
    exists a, b | 0 <= a <= b <= bound && b <= |src| :: lexeme == src[a..b]
  }

  /** What holds of the scanner between lexemes: the cursor is in the
      text, lines count from 1, and every token so far is a real token
      (neither EOF nor a directive) whose lexeme is a non-empty piece of
      the text already read, at a line from 1 to the current one, in order
      of lines. */
  predicate WellFormed(src: string, st: ScanState) {
    && st.current <= |src|
    && 1 <= st.line
    && (forall i | 0 <= i < |st.tokens| ::
          && st.tokens[i].kind != Eof
          && !st.tokens[i].kind.IsDirective()
          && st.tokens[i].lexeme != []
          && OccursIn(st.tokens[i].lexeme, src, st.current)
          && 1 <= st.tokens[i].line <= st.line)
    && (forall i, j | 0 <= i < j < |st.tokens| :: st.tokens[i].line <= st.tokens[j].line)
  }

  lemma OccursInGrow(lexeme: string, src: string, bound: nat, bound': nat)
    requires OccursIn(lexeme, src, bound) && bound <= bound'
    ensures OccursIn(lexeme, src, bound')
  {
    var a, b :| 0 <= a <= b <= bound && b <= |src| && lexeme == src[a..b];
    assert 0 <= a <= b <= bound' && b <= |src| && lexeme == src[a..b];
  }

  /** Scanning one lexeme that moves the cursor keeps the scanner well
      formed. */
  lemma OneLexemeKeepsWellFormed(src: string, st: ScanState, r: ScanState)
    requires WellFormed(src, st) && OneLexeme(src, st, r) && st.start == st.current < r.current
    ensures WellFormed(src, r)
  {
    var n := |st.tokens|;
    forall i | 0 <= i < n ensures OccursIn(r.tokens[i].lexeme, src, r.current) {
      assert r.tokens[i] == st.tokens[i];
      OccursInGrow(st.tokens[i].lexeme, src, st.current, r.current);
    }
    if r.tokens != st.tokens {
      var t := r.tokens[n];
      assert OccursIn(t.lexeme, src, r.current) by {
        assert 0 <= st.start <= r.current <= r.current && r.current <= |src|;
        assert t.lexeme == src[st.start..r.current];
      }
      assert t.lexeme != [] by {
        assert |t.lexeme| == r.current - st.start;
      }
      assert forall i | 0 <= i < n :: r.tokens[i] == st.tokens[i];
    }
  }

  /** Scanning to the end of the text keeps the scanner well formed. */
  lemma {:induction false} RunKeepsWellFormed(src: string, st: ScanState)
    requires WellFormed(src, st)
    ensures Run(src, st).Continue? ==> WellFormed(src, Run(src, st).state)
    decreases |src| - st.current
  {
    if st.current < |src| {
      var s := st.(start := st.current);
      match Step(src, s)
      case Abort(_, _) =>
      case Continue(next) =>
        OneLexemeKeepsWellFormed(src, s, next);
        RunKeepsWellFormed(src, next);
    }
  }

  /** The token list `scanTokens` returns ends with exactly one EOF token,
      at the line the scan finished on; every other token is a real token
      whose lexeme is a non-empty piece of the text, and lines never go
      down along the list. */
  predicate TokenListShape(src: string, tokens: seq<Token>, lastLine: int) {
    && |tokens| >= 1
    && tokens[|tokens| - 1] == EofToken(lastLine)
    && (forall i | 0 <= i < |tokens| - 1 ::
          && tokens[i].kind != Eof
          && !tokens[i].kind.IsDirective()
          && tokens[i].lexeme != []
          && OccursIn(tokens[i].lexeme, src, |src|))
    && (forall i | 0 <= i < |tokens| :: 1 <= tokens[i].line)
    && (forall i, j | 0 <= i < j < |tokens| :: tokens[i].line <= tokens[j].line)
  }

  /** Closing a well-formed scan with the EOF token gives that shape. */
  lemma FinishShape(src: string, st: ScanState)
    requires WellFormed(src, st) && st.current == |src|
    ensures Finish(Continue(st)).Scanned?
    ensures TokenListShape(src, Finish(Continue(st)).tokens, st.line)
  {
    var ts := st.tokens + [EofToken(st.line)];
    assert Finish(Continue(st)).tokens == ts;
    assert forall i | 0 <= i < |st.tokens| :: ts[i] == st.tokens[i];
    forall i, j | 0 <= i < j < |ts| ensures ts[i].line <= ts[j].line {
      if j == |st.tokens| {
        assert ts[j].line == st.line;
      }
    }
  }

  lemma ScanTokensShape(src: string)
    ensures Scan(src).Scanned? ==>
      TokenListShape(src, Scan(src).tokens, Run(src, Initial).state.line)
  {
    RunKeepsWellFormed(src, Initial);
    if Run(src, Initial).Continue? {
      FinishShape(src, Run(src, Initial).state);
    }
  }

  /** No exception escapes a scan from `st` unless the rest of the text
      holds a `0` followed by `x`, `X`, `b` or `B`. */
  lemma {:induction false} RunFaultFree(src: string, st: ScanState)
    requires st.current <= |src|
    requires forall k | st.current <= k < |src| - 1 :: !(src[k] == '0' && src[k + 1] in "xXbB")
    ensures Run(src, st).Continue?
    decreases |src| - st.current
  {
    if st.current < |src| {
      var s := st.(start := st.current);
      match Step(src, s)
      case Abort(_, _) =>
        assert false;
      case Continue(next) =>
        RunFaultFree(src, next);
    }
  }

  /** `scanTokens` only throws on a text holding `0x`, `0X`, `0b` or `0B`. */
  lemma ScanFaultFree(src: string)
    requires forall k | 0 <= k < |src| - 1 :: !(src[k] == '0' && src[k + 1] in "xXbB")
    ensures Scan(src).Scanned?
  {
    RunFaultFree(src, Initial);
  }

  /** Blanks, newlines and comments produce neither a token nor a
      diagnostic; a newline moves to the next line, and the other blanks
      and both kinds of comment stay on the same line. */
  lemma StepSilent(src: string, st: ScanState)
    requires st.start == st.current < |src|
    ensures var c := src[st.current];
      var o := Step(src, st);
      (c in " \r\t\n" || (c == '/' && st.current + 1 < |src| && src[st.current + 1] in "/*")) ==>
        && o.Continue?
        && o.state.tokens == st.tokens
        && o.state.diagnostics == st.diagnostics
        && o.state.line == st.line + (if c == '\n' then 1 else 0)
  {
    StepLine(src, st);
    if src[st.current] == '\n' {
      assert Newlines(src, st.current, st.current + 1) == 1;
    }
  }

  /** Where a blank or a comment starting at `a` ends, or `a` itself when
      none starts there: a blank or a newline is one character, a line
      comment runs up to the next newline, and a block comment as far as
      the block-comment loop takes it. */
  function BlankEnd(src: string, a: nat): (e: nat)
    requires a < |src|
    ensures a <= e <= |src|
  {
    if src[a] == ' ' || src[a] == '\r' || src[a] == '\t' || src[a] == '\n' then a + 1
    else if a + 1 < |src| && src[a] == '/' && src[a + 1] == '/' then RunEnd(src, a + 2, LineText)
    else if a + 1 < |src| && src[a] == '/' && src[a + 1] == '*' then BlockCommentEnd(src, a + 2)
    else a
  }

  /** `src[a..b]` holds nothing but blanks, newlines and comments. */
  predicate Blank(src: string, a: nat, b: nat)
    requires a <= b <= |src|
    decreases b - a
  {
    a == b || (a < b && a < BlankEnd(src, a) <= b && Blank(src, BlankEnd(src, a), b))
  }

  /** The spans `(start, end)` of the text of the tokens the scanning loop
      adds from `st` on, in the order they are added. */
  function Spans(src: string, st: ScanState): seq<(nat, nat)>
    requires st.current <= |src|
    decreases |src| - st.current
  {
    if st.current >= |src| then []
    else
      match Step(src, st.(start := st.current))
      case Abort(_, _) => []
      case Continue(next) =>
        (if next.tokens == st.tokens then [] else [(st.current, next.current)]) + Spans(src, next)
  }

  /** `tokens` are read off `src` from `from` on along the spans `sp`: each
      lexeme is the text of its span, and each span is non-empty and
      starts no earlier than the one before it ends. */
  predicate Tiles(src: string, tokens: seq<Token>, sp: seq<(nat, nat)>, from: nat)
    decreases |sp|
  {
    && |tokens| == |sp|
    && (sp != [] ==>
          && from <= sp[0].0 < sp[0].1 <= |src|
          && tokens[0].lexeme == src[sp[0].0..sp[0].1]
          && Tiles(src, tokens[1..], sp[1..], sp[0].1))
  }

  /** Between `from`, the spans `sp` and the end of the text there is
      nothing but blanks, newlines and comments. */
  predicate Gaps(src: string, sp: seq<(nat, nat)>, from: nat)
    decreases |sp|
  {
    if sp == [] then from <= |src| && Blank(src, from, |src|)
    else from <= sp[0].0 <= |src| && Blank(src, from, sp[0].0) && Gaps(src, sp[1..], sp[0].1)
  }

  lemma TilesFrom(src: string, tokens: seq<Token>, sp: seq<(nat, nat)>, a: nat, b: nat)
    requires Tiles(src, tokens, sp, b) && a <= b
    ensures Tiles(src, tokens, sp, a)
  {
  }

  lemma GapsBlank(src: string, sp: seq<(nat, nat)>, a: nat)
    requires a < |src| && a < BlankEnd(src, a) && Gaps(src, sp, BlankEnd(src, a))
    ensures Gaps(src, sp, a)
  {
  }

  /** A step that adds neither a token nor a report passes over exactly
      one blank, newline or comment. */
  predicate SilentStepEnds(src: string, st: ScanState)
    requires st.start == st.current < |src|
  {
    var o := Step(src, st);
    o.Continue? && o.state.tokens == st.tokens && o.state.diagnostics == st.diagnostics ==>
      BlankEnd(src, st.current) == o.state.current
  }

  lemma SilentStep(src: string, st: ScanState)
    requires st.start == st.current < |src|
    ensures SilentStepEnds(src, st)
  {
    var c := src[st.current];
    if SingleCharKind(c).Some? {
      StepSingle(src, st);
    } else if OperatorKind(c).Some? {
      StepOperator(src, st);
    } else if c == '/' {
      SilentSlash(src, st);
    } else if c == ' ' || c == '\r' || c == '\t' {
      StepBlank(src, st);
    } else if c == '\n' {
      StepNewline(src, st);
    } else if c == '"' {
      SilentQuote(src, st);
    } else if IsDigit(c) {
      SilentDigit(src, st);
    } else if IsAlpha(c) {
      StepAlpha(src, st);
    } else {
      SilentOther(src, st);
    }
  }

  lemma SilentSlash(src: string, st: ScanState)
    requires st.start == st.current < |src| && src[st.current] == '/'
    ensures SilentStepEnds(src, st)
  {
    StepSlash(src, st);
    var next := st.(current := st.current + 1);
    if Matches(src, next.current, '/') {
      assert ScanSlash(src, next).current == RunEnd(src, st.current + 2, LineText);
    } else if Matches(src, next.current, '*') {
      assert ScanSlash(src, next).current == BlockCommentEnd(src, st.current + 2);
    } else {
      assert ScanSlash(src, next).tokens != st.tokens;
    }
  }

  lemma SilentQuote(src: string, st: ScanState)
    requires st.start == st.current < |src| && src[st.current] == '"'
    ensures SilentStepEnds(src, st)
  {
    StepQuote(src, st);
    StringLiteralFacts(src, st.(current := st.current + 1));
  }

  lemma SilentDigit(src: string, st: ScanState)
    requires st.start == st.current < |src| && IsDigit(src[st.current])
    ensures SilentStepEnds(src, st)
  {
    StepDigit(src, st);
    NumeralIsOneLexeme(src, st.(current := st.current + 1));
  }

  lemma SilentOther(src: string, st: ScanState)
    requires st.start == st.current < |src|
    requires SingleCharKind(src[st.current]).None? && OperatorKind(src[st.current]).None?
    requires !IsAlphaNumeric(src[st.current])
    requires var c := src[st.current]; c != '/' && c != ' ' && c != '\r' && c != '\t' && c != '\n' && c != '"'
    ensures SilentStepEnds(src, st)
  {
    assert src[st.current] !in "(){},.:-+;*!=<>/ \r\t\n\"";
    StepUnexpected(src, st);
  }

  /** A step that adds a token puts its span in front of the later ones. */
  lemma LayoutToken(src: string, st: ScanState, next: ScanState, last: ScanState, sp: seq<(nat, nat)>)
    requires OneLexeme(src, st.(start := st.current), next) && st.current < next.current
    requires next.tokens != st.tokens && next.tokens <= last.tokens
    requires Tiles(src, last.tokens[|next.tokens|..], sp, next.current)
    requires last.diagnostics == next.diagnostics ==> Gaps(src, sp, next.current)
    requires next.diagnostics <= last.diagnostics
    ensures Tiles(src, last.tokens[|st.tokens|..], [(st.current, next.current)] + sp, st.current)
    ensures last.diagnostics == st.diagnostics ==> Gaps(src, [(st.current, next.current)] + sp, st.current)
  {
    var ts := last.tokens;
    var n := |st.tokens|;
    assert ts[n..][1..] == ts[n + 1..];
    assert ts[n] == next.tokens[n];
  }

  /** A step that adds no token leaves the later spans as they are; when it
      reports nothing either, it passed over one blank, newline or
      comment. */
  lemma LayoutSilent(src: string, st: ScanState, next: ScanState, last: ScanState, sp: seq<(nat, nat)>)
    requires OneLexeme(src, st.(start := st.current), next) && st.current < next.current
    requires next.tokens == st.tokens && next.tokens <= last.tokens
    requires next.diagnostics == st.diagnostics ==> BlankEnd(src, st.current) == next.current
    requires Tiles(src, last.tokens[|next.tokens|..], sp, next.current)
    requires last.diagnostics == next.diagnostics ==> Gaps(src, sp, next.current)
    requires next.diagnostics <= last.diagnostics
    ensures Tiles(src, last.tokens[|st.tokens|..], sp, st.current)
    ensures last.diagnostics == st.diagnostics ==> Gaps(src, sp, st.current)
  {
    TilesFrom(src, last.tokens[|next.tokens|..], sp, st.current, next.current);
    if last.diagnostics == st.diagnostics {
      assert next.diagnostics == st.diagnostics;
      GapsBlank(src, sp, st.current);
    }
  }

  /** From any state, the loop reads the tokens it adds off the text in
      order, and when it reports nothing the rest of the text is only
      blanks, newlines and comments. */
  lemma {:induction false} RunLayout(src: string, st: ScanState)
    requires st.current <= |src|
    ensures var o := Run(src, st);
      o.Continue? ==>
        && Tiles(src, o.state.tokens[|st.tokens|..], Spans(src, st), st.current)
        && (o.state.diagnostics == st.diagnostics ==> Gaps(src, Spans(src, st), st.current))
    decreases |src| - st.current
  {
    if st.current < |src| {
      var s := st.(start := st.current);
      SilentStep(src, s);
      assert SilentStepEnds(src, s);
      match Step(src, s)
      case Abort(_, _) =>
      case Continue(next) =>
        RunLayout(src, next);
        var o := Run(src, next);
        assert Run(src, st) == o;
        var sp := Spans(src, next);
        if o.Continue? {
          if next.tokens == st.tokens {
            assert Spans(src, st) == sp;
            LayoutSilent(src, st, next, o.state, sp);
          } else {
            assert Spans(src, st) == [(st.current, next.current)] + sp;
            LayoutToken(src, st, next, o.state, sp);
          }
        }
    }
  }

  /** What `scanTokens` returns when it does not throw is read off the text
      in order: the tokens before EOF are the texts of non-empty spans that
      follow one another without overlapping, and when nothing is reported
      the text between them is only blanks, newlines and comments. */
  lemma ScanLayout(src: string)
    ensures Scan(src).Scanned? ==>
      var ts := Scan(src).tokens;
      && |ts| >= 1
      && Tiles(src, ts[..|ts| - 1], Spans(src, Initial), 0)
      && (Scan(src).diagnostics == [] ==> Gaps(src, Spans(src, Initial), 0))
  {
    RunLayout(src, Initial);
    if Run(src, Initial).Continue? {
      var r := Run(src, Initial).state;
      assert (r.tokens + [EofToken(r.line)])[..|r.tokens|] == r.tokens[0..];
    }
  }

  /** The spans of a tiling, by index: token `i` is the text of span `i`,
      and span `i` ends no later than any later one starts. */
  lemma {:induction false} TilesInOrder(src: string, tokens: seq<Token>, sp: seq<(nat, nat)>, from: nat)
    requires Tiles(src, tokens, sp, from)
    ensures |tokens| == |sp|
    ensures forall i | 0 <= i < |sp| ::
      from <= sp[i].0 < sp[i].1 <= |src| && tokens[i].lexeme == src[sp[i].0..sp[i].1]
    ensures forall i, j | 0 <= i < j < |sp| :: sp[i].1 <= sp[j].0
    decreases |sp|
  {
    if sp != [] {
      TilesInOrder(src, tokens[1..], sp[1..], sp[0].1);
      assert forall i | 1 <= i < |sp| :: sp[i] == sp[1..][i - 1] && tokens[i] == tokens[1..][i - 1];
    }
  }
}
