/**
 The logic of the desktop application (py_test/rgb_app.py, class `RGBControlApp`) that
 drives the keyboard: it renders a chosen colour as the text the driver's attribute
 expects, renders it as a `#rrggbb` string for the colour dialog, picks the preview's text
 colour, and remembers the last colour it managed to write.

 The colour dialog hands over three numbers that may be fractional; they are `real` here,
 and `Int` is Python's `int()` on them. The `sudo tee` child process is reduced to its
 outcome, a `TeeOutcome`.
 */
module RgbApp {
  import opened Optional
  import opened Digits

  /** A colour as the colour dialog returns it. */
  datatype Colour = Colour(r: real, g: real, b: real)

  /** A colour with integer channels, as the application remembers it. */
  datatype Rgb = Rgb(r: int, g: int, b: int)

  /** Python's `int()` of a number: truncation toward zero. */
  function Int(x: real): (n: int)
    ensures 0.0 <= x ==> n as real <= x < n as real + 1.0
    ensures x < 0.0 ==> n as real - 1.0 < x <= n as real
  {
    if x >= 0.0 then x.Floor else -((-x).Floor)
  }

  function ToRgb(c: Colour): Rgb {
    Rgb(Int(c.r), Int(c.g), Int(c.b))
  }

  function ToColour(rgb: Rgb): Colour {
    Colour(rgb.r as real, rgb.g as real, rgb.b as real)
  }

  predicate InByteRange(rgb: Rgb) {
    0 <= rgb.r < 256 && 0 <= rgb.g < 256 && 0 <= rgb.b < 256
  }

  /** Whole numbers pass through `int()` unchanged, so remembered colours convert back
      to themselves. */
  lemma ToRgbOfIntegers(rgb: Rgb)
    ensures ToRgb(ToColour(rgb)) == rgb
  {
    assert Int(rgb.r as real) == rgb.r;
    assert Int(rgb.g as real) == rgb.g;
    assert Int(rgb.b as real) == rgb.b;
  }

  /** A character of the text the application writes to the attribute. */
  predicate IsDeviceTextChar(ch: char) {
    IsDigit(ch) || ch == '-' || ch == ','
  }

  /** The text written to the attribute, `f"{r},{g},{b}"` of the truncated channels:
      no white space, no trailing newline. */
  function DeviceString(c: Colour): (s: string)
    ensures |s| >= 5
    ensures forall i | 0 <= i < |s| :: IsDeviceTextChar(s[i])
    ensures IsDigit(s[|s| - 1])
  {
    var t := ToRgb(c);
    var r, g, b := IntToDecimal(t.r), IntToDecimal(t.g), IntToDecimal(t.b);
    r + "," + g + "," + b
  }

  /** The text holds exactly two commas, so it has exactly three fields. */
  lemma {:induction false} DeviceStringHasTwoCommas(c: Colour)
    ensures multiset(DeviceString(c))[','] == 2
  {
    var t := ToRgb(c);
    var r, g, b := IntToDecimal(t.r), IntToDecimal(t.g), IntToDecimal(t.b);
    assert DeviceString(c) == r + "," + g + "," + b;
    CommaFreeRendering(t.r);
    CommaFreeRendering(t.g);
    CommaFreeRendering(t.b);
  }

  /** The rendering of an integer holds no comma. */
  lemma CommaFreeRendering(n: int)
    ensures multiset(IntToDecimal(n))[','] == 0
  {
    var s := IntToDecimal(n);
    assert forall i | 0 <= i < |s| :: s[i] != ',' by {
      forall i | 0 <= i < |s|
        ensures s[i] != ','
      {
        if n < 0 && i > 0 {
          assert s[i] == s[1..][i - 1];
        }
      }
    }
    assert ',' !in s;
  }

  /** Python's `format(n, '02x')`: lower-case hexadecimal at least two characters wide,
      zero-padded after any sign. */
  function FormatHex2(n: int): (s: string)
    ensures 0 <= n < 256 ==> |s| == 2 && IsLowerHexDigit(s[0]) && IsLowerHexDigit(s[1])
                             && 16 * HexValue(s[0]) + HexValue(s[1]) == n
    ensures n >= 256 ==> |s| > 2
    ensures n < 0 ==> |s| >= 2 && s[0] == '-'
  {
    if n < 0 then "-" + NatToHex(-n)
    else
      var h := NatToHex(n);
      assert 16 <= n < 256 ==> NatToHex(n / 16) == [HexChar(n / 16)];
      if |h| < 2 then "0" + h else h
  }

  /** `rgb_to_hex`: `#` and two hexadecimal digits per truncated channel. */
  function RgbToHex(c: Colour): string {
    var t := ToRgb(c);
    "#" + FormatHex2(t.r) + FormatHex2(t.g) + FormatHex2(t.b)
  }

  /** Reads a `#rrggbb` colour string, the form the colour dialog works with. */
  function ParseHexColour(s: string): (r: Option<Rgb>)
    ensures r.Some? ==> InByteRange(r.value)
  {
    if |s| == 7 && s[0] == '#' && forall i | 1 <= i < 7 :: IsHexDigit(s[i]) then
      Some(Rgb(16 * HexValue(s[1]) + HexValue(s[2]),
               16 * HexValue(s[3]) + HexValue(s[4]),
               16 * HexValue(s[5]) + HexValue(s[6])))
    else None
  }

  /** For channels in 0..255 the hex string is `#` and six lower-case hexadecimal digits,
      and reading it back gives the truncated channels. */
  lemma HexRoundTrip(c: Colour)
    requires InByteRange(ToRgb(c))
    ensures var s := RgbToHex(c);
            && |s| == 7 && s[0] == '#'
            && (forall i | 1 <= i < 7 :: IsLowerHexDigit(s[i]))
            && ParseHexColour(s) == Some(ToRgb(c))
  {
    var t := ToRgb(c);
    var s := RgbToHex(c);
    var x, y, z := FormatHex2(t.r), FormatHex2(t.g), FormatHex2(t.b);
    assert s == ['#', x[0], x[1], y[0], y[1], z[0], z[1]];
  }

  /** Conversely, a lower-case `#rrggbb` string is the hex string of the colour it denotes. */
  lemma HexStringDeterminedByColour(s: string)
    requires ParseHexColour(s).Some?
    requires forall i | 1 <= i < 7 :: IsLowerHexDigit(s[i])
    ensures RgbToHex(ToColour(ParseHexColour(s).value)) == s
  {
    var rgb := ParseHexColour(s).value;
    ToRgbOfIntegers(rgb);
    forall i | 1 <= i < 7
      ensures HexChar(HexValue(s[i])) == s[i]
    {
      LowerHexDigitRoundTrip(s[i]);
    }
    var x, y, z := FormatHex2(rgb.r), FormatHex2(rgb.g), FormatHex2(rgb.b);
    assert x == [s[1], s[2]] by { TwoHexDigits(rgb.r, s[1], s[2]); }
    assert y == [s[3], s[4]] by { TwoHexDigits(rgb.g, s[3], s[4]); }
    assert z == [s[5], s[6]] by { TwoHexDigits(rgb.b, s[5], s[6]); }
    assert RgbToHex(ToColour(rgb)) == "#" + x + y + z;
  }

  lemma LowerHexDigitRoundTrip(ch: char)
    requires IsLowerHexDigit(ch)
    ensures HexChar(HexValue(ch)) == ch
  {
  }

  lemma TwoHexDigits(n: int, hi: char, lo: char)
    requires IsLowerHexDigit(hi) && IsLowerHexDigit(lo)
    requires n == 16 * HexValue(hi) + HexValue(lo)
    ensures FormatHex2(n) == [hi, lo]
  {
    var s := FormatHex2(n);
    LowerHexDigitRoundTrip(hi);
    LowerHexDigitRoundTrip(lo);
    assert HexValue(s[0]) == HexValue(hi) && HexValue(s[1]) == HexValue(lo);
    LowerHexDigitRoundTrip(s[0]);
    LowerHexDigitRoundTrip(s[1]);
  }

  /** The text colour of the preview label. */
  datatype TextColour = White | Black

  /** The weighted brightness `update_gui_preview` computes, on a 0..255 scale. */
  function Brightness(c: Colour): real {
    (c.r * 299.0 + c.g * 587.0 + c.b * 114.0) / 1000.0
  }

  function PreviewTextColour(c: Colour): (t: TextColour)
    ensures t == White <==> 299.0 * c.r + 587.0 * c.g + 114.0 * c.b < 128000.0
  {
    if Brightness(c) < 128.0 then White else Black
  }

  /** Raising channels never turns black text back to white. */
  lemma BrighterStaysBlack(c: Colour, d: Colour)
    requires c.r <= d.r && c.g <= d.g && c.b <= d.b
    requires PreviewTextColour(c) == Black
    ensures PreviewTextColour(d) == Black
  {
  }

  /** How the `sudo tee` child process ended: normally, with the program missing
      (`FileNotFoundError`), or with a non-zero exit status (`CalledProcessError`). */
  datatype TeeOutcome = Completed | CommandNotFound | CalledProcessError(stderr: string)

  /** The application's state: the colour it last wrote. */
  datatype App = App(lastColour: Rgb)

  const InitialApp := App(Rgb(0, 0, 0))

  /** What `update_device_color` does: the text it feeds to `tee`, and the new state. */
  datatype DeviceUpdate = DeviceUpdate(stdin: string, app: App)

  function UpdateDeviceColour(app: App, c: Colour, outcome: TeeOutcome): (u: DeviceUpdate)
    ensures u.stdin == DeviceString(c)
    ensures outcome.Completed? ==> u.app.lastColour == ToRgb(c)
    ensures !outcome.Completed? ==> u.app == app
  {
    var rgb := ToRgb(c);
    var text := DeviceString(c);
    match outcome
    case Completed => DeviceUpdate(text, App(rgb))
    case CommandNotFound => DeviceUpdate(text, app)
    case CalledProcessError(_) => DeviceUpdate(text, app)
  }

  /** The preview label: background and text colour. */
  datatype Preview = Preview(background: string, foreground: TextColour)

  /** What the colour dialog returns when a colour is picked: the numbers and the `#rrggbb`
      string it shows for them. */
  datatype Choice = Choice(colour: Colour, hex: string)

  /** One run of `select_color`: the colour the dialog opens with, what is written to the
      device, the new state and the new preview (`None` where nothing happens). */
  datatype Selection =
    Selection(initial: string, stdin: Option<string>, app: App, preview: Option<Preview>)

  function SelectColour(app: App, picked: Option<Choice>, outcome: TeeOutcome)
    : (sel: Selection)
    ensures sel.initial == RgbToHex(ToColour(app.lastColour))
    // A cancelled dialog writes nothing and changes nothing.
    ensures picked.None? ==> sel == Selection(sel.initial, None, app, None)
    // A picked colour is written, and the preview follows it whether or not the write
    // succeeded; only a completed write changes the remembered colour.
    ensures picked.Some? ==>
              && sel.stdin == Some(DeviceString(picked.value.colour))
              && sel.preview == Some(Preview(picked.value.hex,
                                             PreviewTextColour(picked.value.colour)))
    ensures sel.app.lastColour != app.lastColour ==> picked.Some? && outcome.Completed?
    ensures picked.Some? && outcome.Completed? ==> sel.app.lastColour == ToRgb(picked.value.colour)
  {
    var initial := RgbToHex(ToColour(app.lastColour));
    match picked
    case None => Selection(initial, None, app, None)
    case Some(choice) =>
      var u := UpdateDeviceColour(app, choice.colour, outcome);
      var preview := Preview(choice.hex, PreviewTextColour(choice.colour));
      Selection(initial, Some(u.stdin), u.app, Some(preview))
  }

  /** One use of the "Choose Color" button. */
  datatype Step = Step(picked: Option<Choice>, outcome: TeeOutcome)

  predicate Applied(s: Step) {
    s.picked.Some? && s.outcome.Completed?
  }

  /** The state after a sequence of button presses, from a fresh application. */
  function RunSession(steps: seq<Step>): App
    decreases |steps|
  {
    if steps == [] then InitialApp
    else
      var last := steps[|steps| - 1];
      SelectColour(RunSession(steps[..|steps| - 1]), last.picked, last.outcome).app
  }

  /** One press of the button changes the state exactly as a completed write dictates. */
  lemma SessionStep(steps: seq<Step>)
    requires steps != []
    ensures var last := steps[|steps| - 1];
            RunSession(steps)
            == if Applied(last) then App(ToRgb(last.picked.value.colour))
               else RunSession(steps[..|steps| - 1])
  {
  }

  /** The remembered colour stays black while no write completes. */
  lemma {:induction false} NothingAppliedKeepsBlack(steps: seq<Step>)
    requires forall i | 0 <= i < |steps| :: !Applied(steps[i])
    ensures RunSession(steps) == InitialApp
    decreases |steps|
  {
    if steps != [] {
      var prefix := steps[..|steps| - 1];
      assert forall i | 0 <= i < |prefix| :: prefix[i] == steps[i];
      SessionStep(steps);
      NothingAppliedKeepsBlack(prefix);
    }
  }

  /** After a completed write, the remembered colour is that write's colour until the next
      completed write. */
  lemma {:induction false} LastAppliedRemembered(steps: seq<Step>, k: nat)
    requires k < |steps| && Applied(steps[k])
    requires forall j | k < j < |steps| :: !Applied(steps[j])
    ensures RunSession(steps).lastColour == ToRgb(steps[k].picked.value.colour)
    decreases |steps|
  {
    SessionStep(steps);
    if k < |steps| - 1 {
      var prefix := steps[..|steps| - 1];
      assert forall i | 0 <= i < |prefix| :: prefix[i] == steps[i];
      LastAppliedRemembered(prefix, k);
    }
  }
}
