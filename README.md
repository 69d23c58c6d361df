# Power-rail reader, modelled in Dafny

`power_reader.rb` runs the vendor's debug console on a board-side sampling
script, keeps the console lines printed after the script's start marker,
detects which Cyclone IV GX kit is attached from the FPGA device string, and
prints one row per power rail: for each rail of that kit's table it finds the
first line holding "Rail N", decodes the little-endian 16-bit ADC sample from
the hex dump after the line's last ": ", converts it to volts
(`sample * 5.35 / 2^23`) and to amperes (volts over the sense resistor), and,
in the default highlighted mode, appends " (exp e)" when the reading is at
least 0.005 A away from the kit's expected current `e`.

The model follows the program's structure:

- `wrappers.dfy` — `Option` (Ruby's value-or-nil) and `Result`.
- `ruby_strings.dfy` — the Ruby string operations the script leans on:
  `include?`, `lines`, `split(": ")` (trailing empty fields dropped, so
  `.last` is nil only for a line with no non-empty field), `split(" ")`
  (awk-style whitespace split), `hex` and `Integer#to_s`. Their semantics are
  Ruby's for valid text; `hex` is exact for tokens of plain hexadecimal digits
  (see "Left out" for its sign, `0x` and `_` handling).
- `transcript.dfy` — the start-marker extraction as a specification function
  and `get_line_matching` as a first-match function.
- `sampling.dfy` — `hex_value_from_line`, `sample_value_from_line`,
  `voltage_from_adc_sample` and `current_from_line`, over `real`.
- `boards.dfy` — board detection and the two kits' rail and expected-current
  tables.
- `report.dfy` — the tolerance decision, the row for one rail and the report
  loop.
- `script.dfy` — the globals `$script_output` and `$BOARD` as the fields of a
  `Session` class whose methods are the extraction loop and the detection
  `if`/`elsif`, and `Run`, the whole script after the console has been run.

Where the code and its description differ, the model follows the code:

- There is no per-rail error isolation. A rail whose line is missing makes
  `get_line_matching` return nil, and `current_from_line(nil, ...)` raises,
  so the run stops at that rail. The rows already printed stay printed. A
  payload with fewer than two tokens ends the run the same way. The model
  returns the rows so far plus the error (`Report.Reported`,
  `Report.MissingLineEndsReport`).
- With no board detected, `rails` is nil and the report loop raises before
  printing any row (`RunError.BoardUndetected`).
- `String#hex` does not reject malformed text. It reads the leading
  hexadecimal digits and gives 0 when there are none, so a non-hex token
  decodes to 0 instead of failing.
- The payload is the last non-empty field of `line.split(": ")`. For a line
  that ends in ": ", that is the field before the separator, not an empty
  string.
- "EP4CGX15@" is not a substring of "EP4CGX150@", because the longer string
  has '0' where the shorter has '@' (`Boards.DeviceStringsAreIndependent`).
  So the order of the two detection tests only matters for a transcript that
  holds both device strings. In that case the development kit wins, as the
  code checks it first.
- A zero sense resistor is not guarded against. The tables never contain
  one (`Boards.Rails`), and `CurrentFromLine` takes a non-zero resistor as
  its precondition.

## Model

| member | source | states |
|---|---|---|
| `RubyStrings.Contains` | power_reader.rb:49 | `include?` of the empty string always holds, and a contained string is no longer than the line |
| `RubyStrings.ContainsIffOccurs` | power_reader.rb:49 | `include?` holds exactly when the substring occurs at some position of the line |
| `RubyStrings.Lines` | power_reader.rb:101 | `lines` yields only non-empty lines; every line but the last ends in a newline, and no line has a newline before its last character |
| `RubyStrings.LinesRoundTrip` | power_reader.rb:101 | concatenating the lines gives back the console output |
| `RubyStrings.FirstIndexOf` | power_reader.rb:57 | a split point leaves room for the whole separator in the line |
| `RubyStrings.FirstIndexOfIsFirst` | power_reader.rb:57 | the split point starts an occurrence of the separator and no earlier position does; no split point exactly when the separator occurs nowhere |
| `RubyStrings.SplitAllRoundTrip` | power_reader.rb:57 | joining the split pieces with ": " gives back the line |
| `RubyStrings.SplitAllEndsWithTail` | power_reader.rb:57 | after `prefix + ": " + tail`, with no colon in the tail, the last piece is the tail, whatever the prefix holds |
| `RubyStrings.SplitAllPiecesHoldNoSeparator` | power_reader.rb:57 | no piece of the split holds the separator |
| `RubyStrings.Split` | power_reader.rb:57 | `split(": ")` keeps a prefix of the pieces, ends in a non-empty field when it keeps any, drops only empty pieces, and no field holds ": " |
| `RubyStrings.DropTrailingEmpty` | power_reader.rb:57 | the kept fields are a prefix of the pieces, the last kept one is non-empty, and only empty pieces are dropped |
| `RubyStrings.Words` | power_reader.rb:64 | `split(" ")` yields non-empty tokens without whitespace, and no token exactly when the text is all whitespace |
| `RubyStrings.WordsOfWordThen` | power_reader.rb:64 | a token followed by whitespace or by the end is the first token |
| `RubyStrings.WordsOfSpacesThen` | power_reader.rb:64 | leading whitespace, however long, yields no token; with `WordsOfWordThen` this fixes the tokens of every text |
| `RubyStrings.Hex` | power_reader.rb:65 | `hex` of text that does not start with a hexadecimal digit is 0; of a token made only of hexadecimal digits (either case) it is their positional value; it is below 16 to the power of the length, so a token of at most two characters is a byte |
| `RubyStrings.HexDigitsValue` | power_reader.rb:65 | a run of n hexadecimal digits denotes a number below 16^n |
| `RubyStrings.HexOfHexByte` | power_reader.rb:65 | a byte printed as two hex digits reads back as that byte |
| `RubyStrings.Decimal` | power_reader.rb:198 | the rail number is interpolated as decimal digits, with no leading zero, that denote the number (read most significant first) |
| `Transcript.ScriptOutput` | power_reader.rb:99-107 | the script output is always a suffix of the console lines |
| `Transcript.IsStartMarker` | power_reader.rb:104 | a line is a marker line exactly when the marker text occurs in it at some position |
| `Transcript.ScriptOutputFollowsFirstMarker` | power_reader.rb:99-107 | the output is exactly the lines after the first marker line; the marker and all lines before it are dropped, later marker lines are kept |
| `Transcript.ScriptOutputWithoutMarker` | power_reader.rb:99-107 | with no marker line the output is empty |
| `Transcript.ScriptOutputOfTranscript` | power_reader.rb:99-107 | N noise lines, a marker line, then M lines give exactly those M lines |
| `Transcript.GetLineMatching` | power_reader.rb:47-52 | returns the first line in order that contains the text, and nil exactly when no line does |
| `Sampling.HexValueFromLine` | power_reader.rb:56-58 | nil exactly when every ": " piece of the line is empty; otherwise the last non-empty piece, after which only empty pieces follow, and it holds no ": " |
| `Sampling.SampleValueFromLine` | power_reader.rb:62-66 | decoding fails with no payload exactly when `hex_value_from_line` is nil; a decoded line's payload has at least two tokens |
| `Sampling.SampleDependsOnFirstTwoTokens` | power_reader.rb:62-66 | two payloads that agree on their first two tokens decode to the same sample; later tokens do not matter |
| `Sampling.SampleIsLittleEndianWord` | power_reader.rb:65 | with tokens of at most two digits, the sample is at most 65535, its low byte is token 0 and its high byte is token 1 |
| `Sampling.HexValueOfLabelledLine` | power_reader.rb:56-58 | `hex_value_from_line` returns the dump after the label's ": ", and `sample_value_from_line` tokenises this same text |
| `Sampling.WordsOfHexDump` | power_reader.rb:64 | the first two tokens of a printed dump are its first two bytes |
| `Sampling.SampleOfPrintedLine` | power_reader.rb:62-66 | decoding a printed "label: lo hi ..." line gives lo + 256 * hi, for any label and any trailing bytes |
| `Sampling.VoltageFromAdcSample` | power_reader.rb:69-75 | a sample between 0 and full scale reads between 0 V and VREF |
| `Sampling.VoltageScale` | power_reader.rb:69-75 | the step count is 2^23; sample 0 reads 0 V, full scale reads VREF = 5.35 V, and voltage is additive and monotone in the sample |
| `Sampling.CurrentFromLine` | power_reader.rb:78-82 | the current exists exactly when the line decodes, carries the decoding error otherwise, obeys Ohm's law (current times resistance is the voltage of the decoded sample), and is non-negative for a positive resistor |
| `Sampling.CurrentHalvesWhenResistanceDoubles` | power_reader.rb:78-82 | doubling the resistor halves the current read from the same line |
| `Boards.DetectedBoard` | power_reader.rb:116-122 | development kit exactly when some line holds "EP4CGX150@", even if "EP4CGX15@" also appears; transceiver kit exactly when "EP4CGX15@" appears and "EP4CGX150@" does not; otherwise no board |
| `Boards.DeviceStringsAreIndependent` | power_reader.rb:116-122 | neither device string contains the other |
| `Boards.ExpectedReadings` | power_reader.rb:178-182 | each kit has eight expected currents, all in [0, 1) A |
| `Boards.Rails` | power_reader.rb:125-147 | each kit has 8 rails; ADC indices run 0..7 in list order and index the expected table; rail numbers are a permutation of 1..8; every resistor is positive |
| `Boards.EveryRailNumberIsListed` | power_reader.rb:125-147 | every script rail number 1..8 belongs to some rail of either kit |
| `Report.ExpectedAnnotation` | power_reader.rb:186-190 | an annotation always carries the expected value it compares against |
| `Report.ToleranceBoundary` | power_reader.rb:186-190 | exactly 0.005 A away on either side is flagged, 0.0049 A away is not, and the decision depends only on the size of the deviation |
| `Report.RailLabel` | power_reader.rb:198 | the looked-up text is "Rail " followed by decimal digits, with no leading zero, that denote the rail number |
| `Report.RailLabelsAreDistinct` | power_reader.rb:198 | no rail's "Rail N" label contains another rail's |
| `Report.PrintedRailLineHoldsOnlyItsLabel` | power_reader.rb:198 | a printed line "Rail m: lo hi ..." holds rail m's label and no other rail's, so the lookup of rail n never stops at rail m's line |
| `Report.ReadRail` | power_reader.rb:196-200 | fails with a missing line exactly when no line holds "Rail N"; otherwise it is the row read from the first line that holds it, which carries the rail's name and number, is never annotated in plain mode, and is annotated in highlighted mode exactly when the current is 0.005 A or more off the kit's expected value for that ADC channel |
| `Report.RowFromLine` | power_reader.rb:186-200 | fails exactly when the line's current cannot be read, with that decoding error and the rail's number; a row carries the line's current and hex dump and keeps the rail's name and number, is never annotated in plain mode, and in highlighted mode is annotated exactly when the current is 0.005 A or more off the expected value, the annotation carrying that value |
| `Report.Reported` | power_reader.rb:193-202 | a report either covers all eight rails of the board or ends with an error |
| `Report.ReportedIsUnique` | power_reader.rb:193-202 | the script output, board and mode decide the rows and the error, so the report is fully determined |
| `Report.ReportReadings` | power_reader.rb:193-202 | rows for the kit's rails in table order, each the rail's row, up to the first rail that fails; that rail's error ends the run; no board gives no rows and an error |
| `Report.ReportBoardReadings` | power_reader.rb:193-202 | the loop over a detected kit's rails produces exactly the report `Reported` describes |
| `Report.MissingLineEndsReport` | power_reader.rb:196-201 | a rail whose line is missing ends the run, and neither it nor any later rail is reported |
| `Report.TransceiverKitRail8Example` | power_reader.rb:196-200 | "Rail 8: 00 01 00 00" on the transceiver kit's first rail reads 256 * 5.35 / 2^23 / 0.003 A and is flagged against 0.040 A |
| `Script.Session.constructor` | power_reader.rb:99 | the script output starts empty and no board is set |
| `Script.Session.CaptureScriptOutput` | power_reader.rb:99-107 | the loop leaves exactly the lines after the first marker line in the script output |
| `Script.Session.DetectBoard` | power_reader.rb:116-122 | the board becomes the detected board, and stays as it was when no device string appears |
| `Script.Run` | power_reader.rb:99-202 | a run's rows and error are exactly those reported for the script output of the console text and the board detected in it |

## Left out

- Running the debug console (power_reader.rb:89-96) is not modelled. This
  covers building the command line, choosing the install directory and
  redirecting stderr. The console's captured output is a parameter of
  `Script.Run`.
- Console printing is left out: the banners, the optional echo of the script
  output, and the report lines themselves. The model returns the report rows
  as values.
- Rounding and padding of the printed current (`round(3).to_s.ljust(5)`,
  `ljust(20)`) depend on floating-point formatting. A row carries the exact
  current instead.
- Arithmetic is over `real`, an idealised stand-in for IEEE doubles. Float
  rounding is not modelled, and neither are the Infinity and NaN that
  division by a zero resistor would give.
- `Sampling.CurrentFromLine`: requires a non-zero resistor, because an
  infinite current has no `real` counterpart. Every table resistor is
  positive.
- Strings are sequences of characters, and every line is taken to be valid
  text. Ruby's `=~` (power_reader.rb:104) and `split(" ")`
  (power_reader.rb:64) raise ArgumentError on a line holding an invalid byte
  sequence for its encoding; the model has no encodings and never raises
  there.
- The start marker is a regular expression whose '.' matches any character.
  The model uses a literal substring test for it instead.
- `RubyStrings.Hex`: reads only plain hexadecimal digits. Ruby's `hex` also
  accepts a sign, a `0x` prefix and underscores between digits, and the model
  treats those as the end of the digits.
- `RubyStrings.Words`: treats space, tab, newline, carriage return, vertical
  tab and form feed as whitespace; other characters Ruby may count as
  whitespace are not modelled.
- The commented-out CSV output (power_reader.rb:166-169) is not implemented
  in the source, so it is not modelled either.
- `power_monitor_list_index` is kept in the rail tables but never read, as in
  the source. The unused local `rail_num` is left out.
- The `print_script_output` switch only echoes text, so it is not modelled.
  `highlight_unexpected_values` is the `highlight` parameter.
