# Keyboard RGB wire format, in Dafny

This project models the small wire format that a Linux keyboard-backlight driver and a desktop application share.

- **Application side** (`py_test/rgb_app.py`). The application renders a chosen colour in two ways. One is the text `"r,g,b"`, which it writes to the driver's `rgb_color` attribute through `sudo tee`. The other is a `#rrggbb` string for the colour dialog. It also picks black or white text for the preview label, using a weighted brightness. It remembers the last colour it wrote successfully.
- **Driver side** (`rgb_driver.c`, `rgb_color_store`). The driver scans the attribute text with `sscanf("%d,%d,%d")` and builds a 64-byte HID output report. The report has report id 4, fixed command bytes, and the three channels converted to `unsigned char` at offsets 14 to 16. The driver sends the report. It returns `-EINVAL`, `-ENOMEM`, the transfer's error, or the byte count.

Modules:

| module | file | models |
|---|---|---|
| `Optional` | optional.dfy | the `Option` result type |
| `Digits` | digits.dfy | decimal and hexadecimal text of integers (Python's `str` and `format(n, 'x')`), and reading digits back |
| `Scanf` | scanf.dfy | C `sscanf` with `%d` and ordinary characters, following section 7.21.6.2 of the C11 standard |
| `RgbReport` | report.dfy | the 64-byte report layout and the `int` to `unsigned char` conversion |
| `RgbDriver` | driver.dfy | `rgb_color_store`: scan, allocation, report, send, return code |
| `RgbApp` | app.dfy | `int()` truncation, device text, `rgb_to_hex`, preview text colour, the remembered colour |
| `WireFormat` | wire.dfy | the cross-file round trip from the application's text to the report bytes |

The kernel services the driver calls become parameters of `RgbDriver.ColorStore`:

- whether the attribute's device resolves to a HID device;
- whether `kzalloc` succeeds;
- the value `hid_hw_raw_request` returns.

The `sudo tee` child process becomes a parameter of the application's functions. It is reduced to its outcome, `TeeOutcome`: completed, command not found, or a non-zero exit carrying standard error.

The driver ignores any text after the third integer. `WireFormat.DriverReadsDeviceString` proves this for any trailing text that does not start with a digit, and `WireFormat.EchoedTextAccepted` proves it for `"255,0,128\n"`. The driver does not check that channels are in 0..255. It keeps any integer and converts it modulo 256 (`RgbReport.ReportDependsOnlyOnResidues`).

## Model

| member | source | states |
|---|---|---|
| Digits.IntToDecimal | py_test/rgb_app.py:68 | Python's rendering of an int is non-empty and starts with `-` exactly for negatives. The digits are canonical: no leading zero. |
| Digits.DecimalRoundTrip | py_test/rgb_app.py:68 | Reading the rendered decimal digits of a natural number gives back the number. |
| Digits.CanonicalDecimalRoundTrip | py_test/rgb_app.py:68 | Every canonical digit string is the rendering of its own value, so renderings and numbers correspond one to one. |
| Scanf.ScanDecimal | rgb_driver.c:21 | One `%d` conversion succeeds exactly when the input, past its white space, starts with a digit or with a sign followed by a digit. It consumes at least one character and stops only where the digits stop. |
| Scanf.ScanDecimalLeavesSuffix | rgb_driver.c:21 | What a successful `%d` conversion leaves over is a tail of its input, so the conversion consumed a prefix. |
| Scanf.Scan | rgb_driver.c:21 | The number of values `sscanf` assigns never exceeds the number of `%d` conversions in the format. For `"%d,%d,%d"`, which values are assigned is stated in both directions by `RgbDriver.ScanRgbSteps` and `RgbDriver.ScanRgbInversion`. |
| Scanf.ScanDecimalOfText | rgb_driver.c:21 | White space, then a rendered integer, then anything not starting with a digit: this scans as exactly that integer, and the rest is left over. |
| Scanf.ScanDecimalOfItem | rgb_driver.c:21 | Under C11's `%d`: white space, an optional `+` or `-`, any non-empty digit run (leading zeros included), then anything not starting with a digit: the conversion reads the digits' value, negated after `-`, and leaves exactly the rest. |
| Scanf.ScanRejectsNonInteger | rgb_driver.c:21 | If the input does not start with an integer, a format that begins with `%d` assigns nothing. |
| RgbReport.ToUnsignedChar | rgb_driver.c:41-43 | The byte stored for a channel is congruent to it modulo 256. It equals the channel when the channel is in 0..255. |
| RgbReport.BuildReport | rgb_driver.c:28-45 | The report is 64 bytes with report id 4 at byte 0. Bytes 1-4, 9-11, 17 and 28 hold their fixed values. Bytes 14-16 hold the channels converted to `unsigned char`. Every other byte is zero. |
| RgbReport.ReportDeterminedByChannels | rgb_driver.c:33-45 | Any 64-byte buffer with the fixed bytes set and zeros elsewhere is exactly the report built from its own bytes 14-16. |
| RgbReport.ReportDependsOnlyOnResidues | rgb_driver.c:41-43 | Two channel triples give identical reports if and only if they agree modulo 256. |
| RgbDriver.ColorStore | rgb_driver.c:6-57 | A missing device or a failed three-integer scan returns `-EINVAL` and sends nothing. A failed allocation returns `-ENOMEM` and sends nothing. Otherwise the report carrying the scanned channels is sent. A negative send result is returned unchanged, and any other result makes the handler return the length of the written text. |
| RgbDriver.ScanRgbSteps | rgb_driver.c:21 | `"%d,%d,%d"` assigns three values when each integer is read and the first two are followed by a comma. The values are the three integers, in order. |
| RgbDriver.ScanRgbInversion | rgb_driver.c:21 | Conversely, when `"%d,%d,%d"` assigns three values, the text is an integer, a comma, an integer, a comma and an integer, and the values are those integers in order. |
| RgbDriver.ScanRgbAcceptsExactly | rgb_driver.c:21 | The scan assigns three values exactly when the text has that integer-comma-integer-comma-integer form. |
| RgbDriver.InvalidExactlyWhenMalformed | rgb_driver.c:21-24 | With the device present, a write returns `-EINVAL` and sends nothing exactly when its text lacks that form. |
| RgbDriver.ScanRgbOfItems | rgb_driver.c:21 | Under C11's `%d`: three `%d` items separated by commas, each with an optional `+` or `-` and any leading zeros, followed by a non-digit tail, scan as their signed values in order. |
| RgbDriver.PaddedAndNegativeAccepted | rgb_driver.c:21-56 | `"007,-5,1"` is accepted: leading zeros and a `-` sign are read, the report for (7, -5, 1) is sent, and the handler returns 8. |
| RgbDriver.ScanRgbOfText | rgb_driver.c:21 | Three rendered integers separated by commas scan as those integers. This holds with white space before each integer and with any trailing text that does not start with a digit. |
| RgbDriver.ScanRgbOfDecimals | rgb_driver.c:21 | The white-space-free text `a,b,c` followed by a non-digit tail scans as `[a, b, c]`. |
| RgbDriver.ScanRgbNeedsComma | rgb_driver.c:21-24 | Any text that scans as three integers contains a comma. |
| RgbDriver.CommaFreeWriteRefused | rgb_driver.c:21-24 | A write with no comma is refused with `-EINVAL`, and nothing is built or sent. |
| RgbApp.Int | py_test/rgb_app.py:66 | `int()` truncates toward zero. The result is within one of the argument, below it for positive arguments and above it for negative ones. |
| RgbApp.ToRgbOfIntegers | py_test/rgb_app.py:66 | Whole-number channels pass through `int()` unchanged. |
| RgbApp.DeviceString | py_test/rgb_app.py:66-68 | The attribute text contains only digits, `-` and `,`. It is at least five characters long and ends in a digit, so it has no trailing newline. |
| RgbApp.DeviceStringHasTwoCommas | py_test/rgb_app.py:68 | The attribute text holds exactly two commas, so it has exactly three fields. |
| RgbApp.FormatHex2 | py_test/rgb_app.py:108 | For 0..255, `format(n, '02x')` gives two lower-case hexadecimal digits whose value is `n`. Larger values give more digits, and negatives start with `-`. |
| RgbApp.HexRoundTrip | py_test/rgb_app.py:106-108 | For channels in 0..255, `rgb_to_hex` gives `#` followed by six lower-case hexadecimal digits. Decoding them gives back the truncated channels in r, g, b order. |
| RgbApp.HexStringDeterminedByColour | py_test/rgb_app.py:106-108 | Every lower-case `#rrggbb` string is the `rgb_to_hex` output of the colour it denotes. |
| RgbApp.PreviewTextColour | py_test/rgb_app.py:57-58 | The preview text is white exactly when 299r + 587g + 114b < 128000, and black otherwise. |
| RgbApp.BrighterStaysBlack | py_test/rgb_app.py:57-58 | Raising any channel never turns black text back to white. |
| RgbApp.UpdateDeviceColour | py_test/rgb_app.py:66-104 | The text fed to `tee` is the device text. Only a completed write changes the remembered colour, to the truncated channels. A missing command or a non-zero exit leaves the state unchanged. |
| RgbApp.SelectColour | py_test/rgb_app.py:39-59 | The dialog opens on the hex string of the remembered colour. Cancelling writes and changes nothing. A picked colour is written and shown in the preview whatever the write's outcome. Only a completed write changes the remembered colour. |
| RgbApp.SessionStep | py_test/rgb_app.py:83 | One button press sets the remembered colour to the picked colour when the write completes, and leaves it unchanged otherwise. |
| RgbApp.NothingAppliedKeepsBlack | py_test/rgb_app.py:37 | The remembered colour stays (0, 0, 0) as long as no write has completed. |
| RgbApp.LastAppliedRemembered | py_test/rgb_app.py:85-104 | The remembered colour is that of the most recent completed write. Failed writes after it do not change it. |
| WireFormat.DriverReadsDeviceString | py_test/rgb_app.py:68 | The driver's `"%d,%d,%d"` scan of the application's text, optionally followed by a non-digit tail such as a newline, gives exactly the truncated channels. |
| WireFormat.DeviceWriteLandsInReport | rgb_driver.c:21-56 | The application's text for any colour is accepted. The report sent is the one built from the truncated channels, and the return value is the text's length unless the transfer fails. Channels in 0..255 land byte-exactly at offsets 14-16. |
| WireFormat.SameReportIffSameResidues | rgb_driver.c:41-43 | Two colours written by the application produce the same report if and only if their truncated channels agree modulo 256. |
| WireFormat.EchoedTextAccepted | rgb_driver.c:21-56 | Writing `"255,0,128\n"` sends the report for (255, 0, 128) and returns 10. |

## Left out

- The Tk window, the colour dialog, message boxes and `print` (py_test/rgb_app.py:10-35, 70, 82, 86-104, 111-114). These are user interface. Only the dialog's answer, the preview's colours and the remembered colour are modelled.
- The `sudo tee` child process and the fixed sysfs path (py_test/rgb_app.py:6, 72-81). These are process and file I/O. Only their outcome is modelled, as `TeeOutcome`.
- HID driver registration, probe and remove, module init and exit, and the device table (rgb_driver.c:59-127). This is kernel plumbing that only sequences foreign calls.
- `hid_hw_raw_request`, `kzalloc`, `kfree`, `pr_info` and `hid_err`. These are foreign kernel calls, so their results are parameters. Freeing the buffer and logging have no effect on the result.
- `%d` overflow. C leaves the result undefined when the decimal text does not fit in `int`. The model keeps the mathematical value, and the report uses it modulo 256.
- The return value of `sscanf` is modelled as the number of assigned conversions. C returns `EOF` instead when the input ends before the first conversion. That value also differs from 3, so the handler's decision is unchanged.
- The scanner follows section 7.21.6.2 of the C11 standard. The Linux kernel's own `vsscanf` (lib/vsprintf.c) is not part of this model. Its `%d` accepts a leading `-` but not a leading `+`, so a field such as `+5`, which C11's `%d` reads as 5, is refused by the kernel. `Scanf.ScanDecimalOfItem` and `RgbDriver.ScanRgbOfItems` state the C11 behaviour for `+`.
- White space is `isspace` in the "C" locale, over characters rather than bytes.
- Floating point. Channels and brightness are exact reals. Python's float rounding of the weighted brightness sum and `int()` of NaN or infinity are not modelled.
- RgbApp.DeviceString: its own contract lists the characters used and says the text ends in a digit. It does not say that each field is a canonical rendering without leading zeros. `RgbApp.DeviceStringHasTwoCommas` fixes the number of fields, and `WireFormat.DriverReadsDeviceString` fixes the three values the driver reads from them.
- RgbDriver.ColorStore: returns `|buf|`, a count of characters. The kernel's `count` is a byte count, so the two agree only when every character is one byte. The application's text is ASCII (digits, `-` and `,`, per `RgbApp.DeviceString`), where they do agree. Multi-byte text is not modelled.
