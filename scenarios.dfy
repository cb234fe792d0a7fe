/** Client code that drives the tokenizer on small example inputs. Each
    method builds its buffers itself and asserts what the contracts of the
    tokenizer then guarantee. */
module Scenarios {
  import opened CRuntime
  import opened StringTokenizer

  /** A NUL-terminated C string holding `text`. */
  method CString(text: seq<Byte>) returns (a: array<Byte>)
    requires NUL !in text
    ensures fresh(a) && a[..] == text + [NUL]
    ensures StrLen(a[..]) == |text|
  {
    a := new Byte[|text| + 1];
    forall i | 0 <= i < |text| {
      a[i] := text[i];
    }
    a[|text|] := NUL;
    assert a[..] == text + [NUL];
    assert a[..][..|text|] == text;
  }

  /** Reading a bracketed value: the bytes between the delimiters come out,
      and the cursor stops on the closing bracket. */
  method SubStringBetweenBrackets()
  {
    var s := CString("(42)");
    var t := Tokenizer.Create(s, true);
    var r := t.SubString('(', ')');
    ghost var b := t.buf[..];
    assert b == "(42)" + [NUL];
    assert DelimEnd(b, 4, 3, ')') == 3;
    assert DelimEnd(b, 4, 1, ')') == 3;
    assert r == Some("42");
    assert t.position == 3;
    var c := t.CurrentToken();
    assert c == ')';
  }

  /** A sub-string only starts on its opening delimiter. */
  method SubStringWithoutDelimiter()
  {
    var s := CString("42)");
    var t := Tokenizer.Create(s, true);
    var r := t.SubString('(', ')');
    assert r == None && t.position == 0;
  }

  /** `st_starts_with("true")` on "truefalse" matches and moves the cursor
      one byte past the needle; on "falsetrue" it fails and rolls back. */
  method StartsWithTrue()
  {
    var s := CString("truefalse");
    var t := Tokenizer.Create(s, true);
    var r := t.StartsWith("true");
    assert t.buf[..][0..4] == "true";
    assert r == 1 && t.position == 5;

    var s2 := CString("falsetrue");
    var t2 := Tokenizer.Create(s2, true);
    var r2 := t2.StartsWith("true");
    assert t2.buf[..][0] == 'f';
    assert r2 == 0 && t2.position == 0;
  }

  /** A boolean literal yields the caller's sentinel value. */
  method BooleanLiteral()
  {
    var s := CString("false,");
    var t := Tokenizer.Create(s, true);
    var yes := t.ExtractBoolean("true", 1);
    assert t.buf[..][0] == 'f';
    assert yes == None && t.position == 0;
    var no := t.ExtractBoolean("false", 0);
    assert t.buf[..][0..5] == "false";
    assert no == Some(0) && t.position == 6;
  }

  /** The numeric run at the start of "-12.5e3abc" is seven bytes long. */
  lemma SampleRun(b: seq<Byte>)
    requires b == "-12.5e3abc" + [NUL]
    ensures NumericRun(b, 10, 0) == 7
  {
    assert !InNumericRun(b[7]) && NumericRun(b, 10, 7) == 0;
    assert NumericRun(b, 10, 5) == 2 && NumericRun(b, 10, 3) == 4;
  }

  /** The numeric run of "-12.5e3abc" is "-12.5e3"; the copy also takes the
      byte after it, and the cursor stops on the last byte of the run. */
  method NumbersThenLetters()
  {
    var s := CString("-12.5e3abc");
    var t := Tokenizer.Create(s, true);
    ghost var b := t.buf[..];
    SampleRun(b);
    var r := t.ExtractNumbers();
    assert r == Some(b[0..8]) && t.position == 6;
    assert b[0..8] == "-12.5e3a";
  }

  /** With no numeric byte at index 0 the cursor wraps to SIZE_MAX. */
  method NoNumbersAtStart()
  {
    var s := CString("x1");
    var t := Tokenizer.Create(s, true);
    var r := t.ExtractNumbers();
    assert NumericRun(t.buf[..], 2, 0) == 0;
    assert r == None && t.position == SIZE_MAX;
  }

  /** `st_next_token` skips the blanks after the current byte. */
  method SkipSpaces()
  {
    var s := CString("a  \tb");
    var t := Tokenizer.Create(s, true);
    t.NextToken();
    assert SkipBlanks(t.buf[..], 5, 4) == 4;
    assert t.position == 4;
    var c := t.CurrentToken();
    assert c == 'b';
  }

  /** A byte from 0x80 on is a negative `char`, and so is skipped as blank. */
  method SkipHighByte()
  {
    var s := CString(['a', 0xE9 as char, 'b']);
    var t := Tokenizer.Create(s, true);
    t.NextToken();
    assert SkipBlanks(t.buf[..], 3, 2) == 2;
    assert t.position == 2;
  }

  /** At the end of the text the cursor stops one past the terminator. */
  method SkipToEnd()
  {
    var s := CString("a ");
    var t := Tokenizer.Create(s, true);
    t.NextToken();
    assert SkipBlanks(t.buf[..], 2, 3) == 3;
    assert t.position == 3;
  }

  /** Writing `"hi"` into a tokenizer made for four bytes: the opening quote
      and `hi` fit (the cursor ends at 1, then 3, below 4); only the closing
      quote reaches `length`, so that append grows the buffer by the step 4
      into a new array of 8 bytes. */
  method QuotedIntoEmpty()
  {
    var t := Tokenizer.CreateEmpty(4, true, true);
    var b0 := t.buf;
    var r := t.AppendQuotedString("hi", true, true, true);
    assert r == 1;
    assert t.buf[..][0..4] == Quoted("hi");
    assert t.position == 4 && t.length == 8 && t.inc == 4;
    assert t.buf != b0 && t.buf.Length == 8;
  }

  /** An append that fits writes into the same array, and the terminator
      that `st_create_empty` put at `length` is still there. */
  method AppendInPlace()
  {
    var t := Tokenizer.CreateEmpty(4, true, true);
    var b0 := t.buf;
    var r := t.AppendString("ab", true);
    assert r == 1 && t.position == 2 && t.length == 4;
    assert t.buf == b0;
    assert t.buf[..][0..2] == "ab";
    assert t.Terminated();
  }

  /** The growth step is sticky: after a growth by 10 a later request for
      one byte grows the buffer by 10 again. */
  method StickyGrowth()
  {
    var t := Tokenizer.CreateEmpty(4, true, true);
    var r := t.ExpandString(10, true);
    assert r == 1 && t.length == 14 && t.inc == 10;
    t.position := t.length;
    r := t.ExpandString(1, true);
    assert r == 1 && t.length == 24 && t.inc == 10;
  }

  /** A failed `realloc` changes nothing. */
  method FailedGrowth()
  {
    var t := Tokenizer.CreateEmpty(4, true, true);
    var r := t.ExpandString(10, false);
    assert r == 0 && t.length == 4 && t.inc == 4 && t.position == 0;
  }

  /** An empty append with the cursor at `length` of a read-mode buffer:
      the strict room test fails, and with a zero step `realloc` asks for
      `length` bytes, so the caller's buffer shrinks and loses its NUL. */
  method ShrinkingAppend()
  {
    var s := CString("ab");
    var t := Tokenizer.Create(s, true);
    t.position := 2;
    var r := t.AppendString([], true);
    assert r == 1 && t.length == 2 && t.buf.Length == 2;
    assert !t.Terminated();
  }

  /** `st_create` of an empty string is NULL; otherwise the first byte is
      under the cursor. */
  method CreateAndPeek()
  {
    var e := CString("");
    var none := Tokenizer.Create(e, true);
    assert none == null;
    var s := CString("{}");
    var t := Tokenizer.Create(s, true);
    var c := t.CurrentToken();
    assert c == '{';
  }
}
