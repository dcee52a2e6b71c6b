/** The numeric literals the scanner decodes: which digit strings fit the
    width the hexadecimal and binary sub-scanners choose, and which make
    `Integer.parseInt` / `Long.parseLong` fail. */
module Literals {
  import opened Tokens
  import opened Chars
  import opened Lexer

  lemma Powers()
    ensures Pow(16, 7) == 0x1000_0000 && Pow(16, 8) == 0x1_0000_0000
    ensures Pow(16, 15) == 0x1000_0000_0000_0000 && Pow(2, 31) == 0x8000_0000
  {
    assert Pow(2, 4) == 16;
    assert Pow(16, 3) == 0x1000;
    assert Pow(16, 7) == 0x1000_0000;
    assert Pow(16, 8) == 0x1_0000_0000;
    assert Pow(16, 11) == 0x1000_0000_0000;
    assert Pow(16, 15) == 0x1000_0000_0000_0000;
    assert Pow(2, 8) == 0x100;
    assert Pow(2, 16) == 0x1_0000;
    assert Pow(2, 24) == 0x100_0000;
  }

  /** A hexadecimal run the scanner reads as an `Integer` fits one when it
      has at most eight digits. */
  lemma {:induction false} HexNarrowFits(num: string)
    requires num != [] && AllDigitsBelow(num, 16) && !HexIsWide(num) && |num| <= 8
    ensures Value(num, 16) <= Int32Max
  {
    Powers();
    if |num| <= 7 {
      ValueBelowPow(num, 16, 7);
    } else {
      assert DigitValue(num[0]) <= 7;
      ValueLeadingBelow(num, 16);
      MulMonotone(DigitValue(num[0]) + 1, 8, Pow(16, 7));
    }
  }

  /** Nine or more hexadecimal digits led by `1` to `7` are worth more than
      an `Integer` holds. */
  lemma {:induction false} HexNarrowOverflows(num: string)
    requires AllDigitsBelow(num, 16) && |num| >= 9 && '1' <= num[0] <= '7'
    ensures Value(num, 16) > Int32Max
  {
    Powers();
    ValueLeading(num, 16);
    PowMonotone(16, 8, |num| - 1);
    MulMonotone(1, DigitValue(num[0]), Pow(16, |num| - 1));
  }

  /** A hexadecimal run the scanner reads as a `Long` fits one exactly when
      it has at most 15 digits. */
  lemma {:induction false} HexWideFits(num: string)
    requires num != [] && AllDigitsBelow(num, 16) && HexIsWide(num)
    ensures Value(num, 16) <= Int64Max <==> |num| <= 15
  {
    Powers();
    if |num| <= 15 {
      ValueBelowPow(num, 16, 15);
    } else {
      ValueLeading(num, 16);
      PowMonotone(16, 15, |num| - 1);
      MulMonotone(8, DigitValue(num[0]), Pow(16, |num| - 1));
      MulMonotone(Pow(16, 15), Pow(16, |num| - 1), 8);
    }
  }

  /** A binary run fits an `Integer` when it has at most 31 digits, and
      overflows it when it has 32 or more led by `1`. */
  lemma {:induction false} BinFits(num: string)
    requires AllDigitsBelow(num, 2)
    ensures |num| <= 31 ==> Value(num, 2) <= Int32Max
    ensures |num| >= 32 && num[0] == '1' ==> Value(num, 2) > Int32Max
  {
    Powers();
    if |num| <= 31 {
      ValueBelowPow(num, 2, 31);
    } else if num[0] == '1' {
      ValueLeading(num, 2);
      PowMonotone(2, 31, |num| - 1);
    }
  }

  /** The hexadecimal sub-scanner by the number of digits it reads: none
     raises StringIndexOutOfBounds (`charAt(0)`); at most eight, not led
     by a digit above 7, always decode to a 32-bit literal; a run led by
     a digit above 7 with at least eight digits decodes to a 64-bit literal
     exactly when it has at most 15; nine or more led by `1` to `7` take
     the 32-bit path and overflow it. */
  lemma {:induction false} HexLiteralWidth(src: string, st: ScanState)
    requires st.start + 2 == st.current <= |src|
    ensures var num := HexRun(src, st.current);
      var o := ScanHex(src, st);
      var n := |st.tokens|;
      && (num == [] ==> o == Abort(StringIndexOutOfBounds, st.diagnostics))
      && (num != [] && !HexIsWide(num) && |num| <= 8 ==>
            o.Continue? && o.state.tokens[n].literal == Int32(Value(num, 16) as int32))
      && (num != [] && HexIsWide(num) ==>
            && (o.Continue? <==> |num| <= 15)
            && (o.Continue? ==> o.state.tokens[n].literal == Int64(Value(num, 16) as int64)))
      && (|num| >= 9 && '1' <= num[0] <= '7' ==> o == Abort(NumberFormat, st.diagnostics))
  {
    HexOutcome(src, st);
    var num := HexRun(src, st.current);
    if num != [] {
      if HexIsWide(num) {
        HexWideFits(num);
      } else if |num| <= 8 {
        HexNarrowFits(num);
      } else if '1' <= num[0] <= '7' {
        HexNarrowOverflows(num);
      }
    }
  }

  /** The binary sub-scanner by the number of digits it reads: none raises
      NumberFormatException (`parseInt("")`); one to 31 always decode to a
      32-bit literal; 32 or more led by `1` overflow it. */
  lemma {:induction false} BinLiteralWidth(src: string, st: ScanState)
    requires st.start + 2 == st.current <= |src|
    ensures var num := BinRun(src, st.current);
      var o := ScanBin(src, st);
      && (num == [] ==> o == Abort(NumberFormat, st.diagnostics))
      && (1 <= |num| <= 31 ==>
            o.Continue? && o.state.tokens[|st.tokens|].literal == Int32(Value(num, 2) as int32))
      && (|num| >= 32 && num[0] == '1' ==> o == Abort(NumberFormat, st.diagnostics))
  {
    BinOutcome(src, st);
    BinFits(BinRun(src, st.current));
  }
}
