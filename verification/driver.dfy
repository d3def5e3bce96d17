/**
 The store handler of the keyboard driver's write-only `rgb_color` attribute
 (rgb_driver.c, `rgb_color_store`). A write of text `buf` is scanned with
 `sscanf(buf, "%d,%d,%d", ...)`; three integers turn into one HID output report, which is
 sent to the device. The handler returns a negative error number or the number of bytes
 written, which tells the writer that all of its input was consumed.

 The kernel services the handler calls are parameters: whether the attribute's device
 resolves to a HID device, whether `kzalloc` succeeds, and what `hid_hw_raw_request`
 returns when given the report.
 */
module RgbDriver {
  import opened Optional
  import opened Digits
  import opened Scanf
  import opened RgbReport

  /** Linux error numbers (include/uapi/asm-generic/errno-base.h). */
  const EINVAL: int := 22
  const ENOMEM: int := 12

  /** The format `"%d,%d,%d"`. */
  const RgbFormat: seq<Directive> :=
    [IntConversion, Ordinary(','), IntConversion, Ordinary(','), IntConversion]

  /** The outcome of one write to the attribute: the value the handler returns, and the
      report it handed to `hid_hw_raw_request`, if it got that far. */
  datatype StoreResult = StoreResult(ret: int, sent: Option<seq<Byte>>)

  /** The handler. `buf` is the text written, one character per byte, so `count` is
      `|buf|`. */
  function ColorStore(hasDevice: bool, buf: string, allocSucceeds: bool, sendResult: int)
    : (out: StoreResult)
    // Input the scanner does not read as three integers is refused before anything is built.
    ensures !hasDevice || |Scan(RgbFormat, buf)| != 3 ==> out == StoreResult(-EINVAL, None)
    // A report is sent exactly when the device, the scan and the allocation all succeed ...
    ensures out.sent.Some? <==> hasDevice && |Scan(RgbFormat, buf)| == 3 && allocSucceeds
    // ... and it is the fixed layout carrying the scanned channels modulo 256.
    ensures out.sent.Some? ==>
              var v := Scan(RgbFormat, buf);
              && IsRgbReport(out.sent.value)
              && ChannelsOf(out.sent.value)
                 == Channels(ToUnsignedChar(v[0]), ToUnsignedChar(v[1]), ToUnsignedChar(v[2]))
    ensures hasDevice && |Scan(RgbFormat, buf)| == 3 && !allocSucceeds ==> out.ret == -ENOMEM
    // A failed send is passed back unchanged; otherwise the whole input counts as consumed.
    ensures out.sent.Some? && sendResult < 0 ==> out.ret == sendResult
    ensures out.ret >= 0 <==> out.sent.Some? && sendResult >= 0
    ensures out.ret < 0 || out.ret == |buf|
  {
    if !hasDevice then StoreResult(-EINVAL, None)
    else
      var v := Scan(RgbFormat, buf);
      if |v| != 3 then StoreResult(-EINVAL, None)
      else if !allocSucceeds then StoreResult(-ENOMEM, None)
      else
        var report := BuildReport(v[0], v[1], v[2]);
        if sendResult < 0 then StoreResult(sendResult, Some(report))
        else StoreResult(|buf|, Some(report))
  }

  /** The scan succeeds when each `%d` reads an integer and the first two are followed by a
      comma; it assigns the three integers read. */
  lemma {:induction false} ScanRgbSteps(s: string, a: int, tail1: string, b: int, tail2: string, c: int,
                     rest: string)
    requires ScanDecimal(s) == Some((a, [','] + tail1))
    requires ScanDecimal(tail1) == Some((b, [','] + tail2))
    requires ScanDecimal(tail2) == Some((c, rest))
    ensures Scan(RgbFormat, s) == [a, b, c]
  {
    ScanRgbTail(tail1, b, tail2, c, rest);
    ScanConversionStep(RgbFormat, s, a, [','] + tail1);
  }

  /** What follows the first integer: `,%d,%d`. */
  lemma {:induction false} ScanRgbTail(tail1: string, b: int, tail2: string, c: int,
                                       rest: string)
    requires ScanDecimal(tail1) == Some((b, [','] + tail2))
    requires ScanDecimal(tail2) == Some((c, rest))
    ensures Scan(RgbFormat[1..], [','] + tail1) == [b, c]
  {
    var f1, f2, f3, f4 := RgbFormat[1..], RgbFormat[2..], RgbFormat[3..], RgbFormat[4..];
    assert Scan(f4, tail2) == [c] by {
      ScanConversionStep(f4, tail2, c, rest);
    }
    assert Scan(f3, [','] + tail2) == [c] by {
      assert f3[1..] == f4;
      ScanOrdinaryStep(f3, ',', tail2);
    }
    assert Scan(f2, tail1) == [b, c] by {
      assert f2[1..] == f3;
      ScanConversionStep(f2, tail1, b, [','] + tail2);
    }
    assert f1[1..] == f2;
    ScanOrdinaryStep(f1, ',', tail1);
  }

  /** `%d`, then a comma, then `%d`, then a comma, then `%d` all succeed on `s`. */
  predicate ReadsThreeIntegers(s: string) {
    var r1 := ScanDecimal(s);
    && r1.Some? && |r1.value.1| > 0 && r1.value.1[0] == ','
    && var r2 := ScanDecimal(r1.value.1[1..]);
    && r2.Some? && |r2.value.1| > 0 && r2.value.1[0] == ','
    && ScanDecimal(r2.value.1[1..]).Some?
  }

  /** The converse of `ScanRgbSteps`: when the scan assigns three values, the text is an
      integer, a comma, an integer, a comma and an integer, and the values are those three
      integers in order. */
  lemma {:induction false} ScanRgbInversion(s: string)
    requires |Scan(RgbFormat, s)| == 3
    ensures ReadsThreeIntegers(s)
    ensures var r1 := ScanDecimal(s);
            var r2 := ScanDecimal(r1.value.1[1..]);
            var r3 := ScanDecimal(r2.value.1[1..]);
            Scan(RgbFormat, s) == [r1.value.0, r2.value.0, r3.value.0]
  {
    var f1, f2, f3, f4 := RgbFormat[1..], RgbFormat[2..], RgbFormat[3..], RgbFormat[4..];
    assert f1[1..] == f2 && f2[1..] == f3 && f3[1..] == f4 && f4[1..] == [];
    ConversionStepInversion(RgbFormat, s);
    var r1 := ScanDecimal(s);
    OrdinaryStepInversion(f1, ',', r1.value.1);
    var t1 := r1.value.1[1..];
    ConversionStepInversion(f2, t1);
    var r2 := ScanDecimal(t1);
    OrdinaryStepInversion(f3, ',', r2.value.1);
    var t2 := r2.value.1[1..];
    ConversionStepInversion(f4, t2);
  }

  /** The scan succeeds exactly on the texts `ReadsThreeIntegers` describes. */
  lemma ScanRgbAcceptsExactly(s: string)
    ensures |Scan(RgbFormat, s)| == 3 <==> ReadsThreeIntegers(s)
  {
    if |Scan(RgbFormat, s)| == 3 {
      ScanRgbInversion(s);
    } else if ReadsThreeIntegers(s) {
      var r1 := ScanDecimal(s);
      var t1 := r1.value.1[1..];
      var r2 := ScanDecimal(t1);
      var t2 := r2.value.1[1..];
      var r3 := ScanDecimal(t2);
      assert r1.value.1 == [','] + t1 && r2.value.1 == [','] + t2;
      ScanRgbSteps(s, r1.value.0, t1, r2.value.0, t2, r3.value.0, r3.value.1);
      assert false;
    }
  }

  /** With the device present, a write is refused with `-EINVAL` (and nothing sent)
      exactly when its text is not an integer, a comma, an integer, a comma and an
      integer. */
  lemma InvalidExactlyWhenMalformed(buf: string, allocSucceeds: bool, sendResult: int)
    ensures ColorStore(true, buf, allocSucceeds, sendResult) == StoreResult(-EINVAL, None)
            <==> !ReadsThreeIntegers(buf)
  {
    ScanRgbAcceptsExactly(buf);
  }

  /** Any three `%d` items separated by commas, each with an optional sign and any number
      of leading zeros, scan as their values. */
  lemma {:induction false} ScanRgbOfItems(text: string, s1: string, d1: string, s2: string,
                                          d2: string, s3: string, d3: string, rest: string)
    requires IsSignText(s1) && IsSignText(s2) && IsSignText(s3)
    requires |d1| > 0 && AllDigits(d1) && |d2| > 0 && AllDigits(d2) && |d3| > 0 && AllDigits(d3)
    requires rest == [] || !IsDigit(rest[0])
    requires text == s1 + (d1 + ([','] + (s2 + (d2 + ([','] + (s3 + (d3 + rest)))))))
    ensures Scan(RgbFormat, text)
            == [SignedValue(s1, d1), SignedValue(s2, d2), SignedValue(s3, d3)]
  {
    var tail2 := s3 + (d3 + rest);
    var tail1 := s2 + (d2 + ([','] + tail2));
    assert ScanDecimal(tail2) == Some((SignedValue(s3, d3), rest)) by {
      assert [] + tail2 == tail2;
      ScanDecimalOfItem([], s3, d3, rest);
    }
    assert ScanDecimal(tail1) == Some((SignedValue(s2, d2), [','] + tail2)) by {
      assert [] + tail1 == tail1;
      ScanDecimalOfItem([], s2, d2, [','] + tail2);
    }
    assert ScanDecimal(text) == Some((SignedValue(s1, d1), [','] + tail1)) by {
      assert [] + text == text;
      ScanDecimalOfItem([], s1, d1, [','] + tail1);
    }
    ScanRgbSteps(text, SignedValue(s1, d1), tail1, SignedValue(s2, d2), tail2,
                 SignedValue(s3, d3), rest);
  }

  /** `%d` reads leading zeros and a `-` sign: `"007,-5,1"` sets the colour (7, -5, 1),
      whose green channel becomes the byte 251. */
  lemma PaddedAndNegativeAccepted()
    ensures ColorStore(true, "007,-5,1", true, 0) == StoreResult(8, Some(BuildReport(7, -5, 1)))
  {
    assert Scan(RgbFormat, "007,-5,1") == [7, -5, 1] by {
      assert SignedValue("", "007") == 7 by {
        assert "007"[..2] == "00" && "00"[..1] == "0" && "0"[..0] == "";
      }
      assert SignedValue("-", "5") == -5 && SignedValue("", "1") == 1;
      ScanRgbOfItems("007,-5,1", "", "007", "-", "5", "", "1", "");
    }
  }

  /** Three integers in decimal, separated by commas, each optionally preceded by white
      space, scan as those integers whatever follows the last digit. */
  lemma {:induction false} ScanRgbOfText(
    text: string, ws0: string, a: int, ws1: string, b: int, ws2: string, c: int, rest: string)
    requires AllSpaces(ws0) && AllSpaces(ws1) && AllSpaces(ws2)
    requires rest == [] || !IsDigit(rest[0])
    requires text == ws0 + (IntToDecimal(a) + ([','] + (ws1 + (IntToDecimal(b)
                            + ([','] + (ws2 + (IntToDecimal(c) + rest)))))))
    ensures Scan(RgbFormat, text) == [a, b, c]
  {
    var tail2 := ws2 + (IntToDecimal(c) + rest);
    var tail1 := ws1 + (IntToDecimal(b) + ([','] + tail2));
    assert ScanDecimal(tail2) == Some((c, rest)) by {
      ScanDecimalOfText(ws2, c, rest);
    }
    assert ScanDecimal(tail1) == Some((b, [','] + tail2)) by {
      ScanDecimalOfText(ws1, b, [','] + tail2);
    }
    assert ScanDecimal(text) == Some((a, [','] + tail1)) by {
      ScanDecimalOfText(ws0, a, [','] + tail1);
    }
    ScanRgbSteps(text, a, tail1, b, tail2, c, rest);
  }

  /** The white-space-free case: the text `"a,b,c"` followed by anything that does not
      start with a digit. */
  lemma {:induction false} ScanRgbOfDecimals(text: string, a: int, b: int, c: int, rest: string)
    requires text == IntToDecimal(a) + ([','] + (IntToDecimal(b)
                     + ([','] + (IntToDecimal(c) + rest))))
    requires rest == [] || !IsDigit(rest[0])
    ensures Scan(RgbFormat, text) == [a, b, c]
  {
    var tail2 := IntToDecimal(c) + rest;
    var tail1 := IntToDecimal(b) + ([','] + tail2);
    assert [] + tail2 == tail2 && [] + tail1 == tail1 && [] + text == text;
    ScanRgbOfText(text, [], a, [], b, [], c, rest);
  }

  /** Text the driver accepts contains a comma: the first integer must be followed by one. */
  lemma ScanRgbNeedsComma(buf: string)
    requires |Scan(RgbFormat, buf)| == 3
    ensures ',' in buf
  {
    var r := ScanDecimal(buf);
    assert r.Some?;
    var rest := r.value.1;
    ScanDecimalLeavesSuffix(buf);
    assert |rest| > 0 && rest[0] == ',';
    assert rest[0] == buf[|buf| - |rest|];
  }

  /** A write that carries no comma is refused with `-EINVAL` and nothing is sent. */
  lemma CommaFreeWriteRefused(buf: string, allocSucceeds: bool, sendResult: int)
    requires ',' !in buf
    ensures ColorStore(true, buf, allocSucceeds, sendResult) == StoreResult(-EINVAL, None)
  {
    if |Scan(RgbFormat, buf)| == 3 {
      ScanRgbNeedsComma(buf);
    }
  }
}
