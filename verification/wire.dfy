/**
 The two halves of the wire format together: the text the application writes
 (py_test/rgb_app.py, `update_device_color`) is what the driver's store handler
 (rgb_driver.c, `rgb_color_store`) expects, and its channels land in the report byte-exactly.
 */
module WireFormat {
  import opened Optional
  import opened Digits
  import opened Scanf
  import opened RgbReport
  import opened RgbDriver
  import opened RgbApp

  /** The driver's scan reads back exactly the application's truncated channels, also when
      the writer appends text that does not start with a digit, such as a newline. */
  lemma {:induction false} DriverReadsDeviceString(c: Colour, rest: string)
    requires rest == [] || !IsDigit(rest[0])
    ensures var t := ToRgb(c);
            Scan(RgbFormat, DeviceString(c) + rest) == [t.r, t.g, t.b]
  {
    var t := ToRgb(c);
    var x, y, z := IntToDecimal(t.r), IntToDecimal(t.g), IntToDecimal(t.b);
    var written := DeviceString(c) + rest;
    assert written == x + ([','] + (y + ([','] + (z + rest)))) by {
      assert DeviceString(c) == x + "," + y + "," + z;
    }
    ScanRgbOfDecimals(written, t.r, t.g, t.b, rest);
  }

  /** Every colour the application writes is accepted: the driver sends the report built
      from the truncated channels and reports the whole text as consumed, unless the
      transfer itself fails. For channels in 0..255 the report carries them unchanged. */
  lemma DeviceWriteLandsInReport(c: Colour, sendResult: int)
    ensures var text, t := DeviceString(c), ToRgb(c);
            var out := ColorStore(true, text, true, sendResult);
            && out.sent == Some(BuildReport(t.r, t.g, t.b))
            && out.ret == (if sendResult < 0 then sendResult else |text|)
            && (InByteRange(t) ==>
                  ChannelsOf(out.sent.value) == Channels(t.r as Byte, t.g as Byte, t.b as Byte))
  {
    var text := DeviceString(c);
    assert text + [] == text;
    DriverReadsDeviceString(c, []);
  }

  /** Two colours lead to the same report exactly when their truncated channels agree
      modulo 256. */
  lemma SameReportIffSameResidues(c: Colour, d: Colour, sendResult: int)
    ensures var s, t := ToRgb(c), ToRgb(d);
            ColorStore(true, DeviceString(c), true, sendResult).sent
              == ColorStore(true, DeviceString(d), true, sendResult).sent
            <==> s.r % 256 == t.r % 256 && s.g % 256 == t.g % 256 && s.b % 256 == t.b % 256
  {
    var s, t := ToRgb(c), ToRgb(d);
    DeviceWriteLandsInReport(c, sendResult);
    DeviceWriteLandsInReport(d, sendResult);
    ReportDependsOnlyOnResidues(s.r, s.g, s.b, t.r, t.g, t.b);
  }

  /** `echo 255,0,128 > rgb_color` (the text with a trailing newline) sets that colour. */
  lemma EchoedTextAccepted()
    ensures ColorStore(true, "255,0,128\n", true, 64)
            == StoreResult(10, Some(BuildReport(255, 0, 128)))
  {
    var x, y, z := IntToDecimal(255), IntToDecimal(0), IntToDecimal(128);
    assert x == "255" && y == "0" && z == "128";
    ScanRgbOfDecimals("255,0,128\n", 255, 0, 128, "\n");
  }
}
