/** Decoding an ADC sample from a script-output line and converting it to volts
    and amperes. Arithmetic is over `real`, an idealised stand-in for Ruby's floats (rounding is not modelled). */
module Sampling {
  import opened Wrappers
  import opened RubyStrings

  /** Why a line cannot be decoded; in the script each of these is a
      NoMethodError on nil that ends the run. */
  datatype DecodeError =
    | NoPayload               // `line.split(": ").last` is nil
    | TooFewTokens(found: nat) // `hex_bytes[0]` or `hex_bytes[1]` is nil

  const Separator: string := ": "

  /** `hex_value_from_line(line)`: the last non-empty field of the line split at
      ": ", i.e. the raw hex dump printed after the rail label. */
  function HexValueFromLine(line: string): (r: Option<string>)
    ensures r.None? <==> AllEmpty(SplitAll(line, Separator))
    ensures r.Some? ==> exists k :: IsLastNonEmpty(SplitAll(line, Separator), k) && SplitAll(line, Separator)[k] == r.value
    ensures r.Some? ==> FirstIndexOf(r.value, Separator).None?
  {
    var fields := Split(line, Separator);
    var pieces := SplitAll(line, Separator);
    match Last(fields)
    case None => None
    case Some(field) =>
      var k := |fields| - 1;
      assert pieces[k] == fields[k];
      assert IsLastNonEmpty(pieces, k);
      Some(field)
  }

  /** No piece holds any text. */
  predicate AllEmpty(pieces: seq<string>) {
    forall i :: 0 <= i < |pieces| ==> pieces[i] == []
  }

  /** Piece k holds text, and every piece after it is empty. */
  predicate IsLastNonEmpty(pieces: seq<string>, k: int) {
    && 0 <= k < |pieces|
    && pieces[k] != []
    && forall j :: k < j < |pieces| ==> pieces[j] == []
  }

  /** `sample_value_from_line(line)`: the first two whitespace-separated tokens
      of the payload, read as a little-endian 16-bit word. */
  function SampleValueFromLine(line: string): (r: Result<nat, DecodeError>)
    ensures r == Failure(NoPayload) <==> HexValueFromLine(line).None?
    ensures r.Success? ==> HexValueFromLine(line).Some? && |Words(HexValueFromLine(line).value)| >= 2
  {
    match HexValueFromLine(line)
    case None => Failure(NoPayload)
    case Some(hexStr) =>
      var hexBytes := Words(hexStr);
      if |hexBytes| < 2 then Failure(TooFewTokens(|hexBytes|))
      else Success(Hex(hexBytes[0]) + 256 * Hex(hexBytes[1]))
  }

  /** Sample decoding fails exactly when the payload is missing or has fewer
      than two tokens, and otherwise depends on the first two tokens only. */
  lemma SampleDependsOnFirstTwoTokens(line1: string, line2: string)
    requires HexValueFromLine(line1).Some? && HexValueFromLine(line2).Some?
    requires |Words(HexValueFromLine(line1).value)| >= 2 && |Words(HexValueFromLine(line2).value)| >= 2
    requires Words(HexValueFromLine(line1).value)[..2] == Words(HexValueFromLine(line2).value)[..2]
    ensures SampleValueFromLine(line1).Success?
    ensures SampleValueFromLine(line1) == SampleValueFromLine(line2)
  {
    var w1 := Words(HexValueFromLine(line1).value);
    var w2 := Words(HexValueFromLine(line2).value);
    SampleOfTokens(line1, w1);
    SampleOfTokens(line2, w2);
    assert w1[0] == w1[..2][0] == w2[..2][0] == w2[0];
    assert w1[1] == w1[..2][1] == w2[..2][1] == w2[1];
  }

  /** The sample of a line whose payload has at least two tokens. */
  lemma SampleOfTokens(line: string, ws: seq<string>)
    requires HexValueFromLine(line).Some? && ws == Words(HexValueFromLine(line).value) && |ws| >= 2
    ensures SampleValueFromLine(line) == Success(Hex(ws[0]) + 256 * Hex(ws[1]))
  {
  }

  /** When both tokens are at most two characters long, the sample is a 16-bit
      word whose low byte is the first token and whose high byte the second. */
  lemma SampleIsLittleEndianWord(line: string)
    requires SampleValueFromLine(line).Success?
    requires var ws := Words(HexValueFromLine(line).value); |ws[0]| <= 2 && |ws[1]| <= 2
    ensures var ws := Words(HexValueFromLine(line).value);
            var sample := SampleValueFromLine(line).value;
            && sample <= 65535
            && sample % 256 == Hex(ws[0])
            && sample / 256 == Hex(ws[1])
  {
  }

  /** " b2 b3 ..." for the bytes after the first two. */
  function HexTail(more: seq<nat>): (t: string)
    requires forall i :: 0 <= i < |more| ==> more[i] < 256
    ensures forall i :: 0 <= i < |t| ==> t[i] != ':'
    ensures forall i :: 0 <= i < |t| ==> IsHexDigit(t[i]) || IsSpace(t[i])
    ensures t == [] || IsSpace(t[0])
  {
    if more == [] then [] else " " + HexByte(more[0]) + HexTail(more[1..])
  }

  /** The hex dump of a printed line: "lo hi b2 b3 ...\n". */
  function HexDump(low: nat, high: nat, more: seq<nat>): (d: string)
    requires low < 256 && high < 256
    requires forall i :: 0 <= i < |more| ==> more[i] < 256
    ensures d != []
    ensures forall i :: 0 <= i < |d| ==> d[i] != ':'
    ensures forall i :: 0 <= i < |d| ==> IsHexDigit(d[i]) || IsSpace(d[i])
  {
    var d := HexByte(low) + " " + HexByte(high) + HexTail(more) + "\n";
    assert forall i :: 0 <= i < |d| ==> d[i] != ':' && (IsHexDigit(d[i]) || IsSpace(d[i])) by {
      forall i | 0 <= i < |d| ensures d[i] != ':' && (IsHexDigit(d[i]) || IsSpace(d[i])) {
        if i >= |d| - 1 {
        } else if i >= 5 {
          assert d[i] == HexTail(more)[i - 5];
        } else if i >= 3 {
          assert d[i] == HexByte(high)[i - 3];
        } else if i < 2 {
          assert d[i] == HexByte(low)[i];
        }
      }
    }
    d
  }

  /** The text after the last ": " of a line is its hex dump, whatever the label
      (even one holding ": " itself). */
  lemma HexValueOfLabelledLine(railText: string, dump: string)
    requires dump != []
    requires forall i :: 0 <= i < |dump| ==> dump[i] != ':'
    ensures HexValueFromLine(railText + Separator + dump) == Some(dump)
  {
    SplitAllEndsWithTail(railText, dump);
    var pieces := SplitAll(railText + Separator + dump, Separator);
    assert DropTrailingEmpty(pieces) == pieces;
  }

  /** The first two words of a hex dump are the two printed bytes. */
  lemma WordsOfHexDump(low: nat, high: nat, more: seq<nat>)
    requires low < 256 && high < 256
    requires forall i :: 0 <= i < |more| ==> more[i] < 256
    ensures var ws := Words(HexDump(low, high, more));
            |ws| >= 2 && ws[0] == HexByte(low) && ws[1] == HexByte(high)
  {
    var tail := HexTail(more) + "\n";
    var rest := " " + (HexByte(high) + tail);
    assert HexDump(low, high, more) == HexByte(low) + rest;
    WordsOfWordThen(HexByte(low), rest);
    assert rest[1..] == HexByte(high) + tail;
    assert Words(rest) == Words(HexByte(high) + tail);
    assert tail[|tail| - 1] == '\n';
    assert tail == [] || IsSpace(tail[0]);
    WordsOfWordThen(HexByte(high), tail);
  }

  /** Decoding a printed line gives back low + 256 * high, whatever the label
      and whatever bytes follow the first two. */
  lemma SampleOfPrintedLine(railText: string, low: nat, high: nat, more: seq<nat>)
    requires low < 256 && high < 256
    requires forall i :: 0 <= i < |more| ==> more[i] < 256
    ensures SampleValueFromLine(railText + Separator + HexDump(low, high, more)) == Success(low + 256 * high)
  {
    HexValueOfLabelledLine(railText, HexDump(low, high, more));
    WordsOfHexDump(low, high, more);
    HexOfHexByte(low);
    HexOfHexByte(high);
  }

  // ---------------------------------------------------------------------------
  // Conversion
  // ---------------------------------------------------------------------------

  /** Calibrated ADC reference voltage of both supported kits (the schematics say 5.0). */
  const VRef: real := 5.35

  /** Full-scale step count of the ADC: 2^23. */
  const NumSteps: nat := 8388608

  function Pow2(n: nat): (p: nat)
    ensures p >= 1
  {
    if n == 0 then 1 else 2 * Pow2(n - 1)
  }

  /** `voltage_from_adc_sample(sample)` = sample * VREF / 2^23. */
  function VoltageFromAdcSample(sample: int): (volts: real)
    ensures 0 <= sample ==> 0.0 <= volts
    ensures sample <= NumSteps ==> volts <= VRef
  {
    sample as real * VRef / NumSteps as real
  }

  /** The ADC step count is 2^23, and voltage is linear in the sample: zero
      reads as 0 V, full scale as VREF, and sums map to sums. */
  lemma VoltageScale(a: int, b: int)
    ensures NumSteps == Pow2(23)
    ensures VoltageFromAdcSample(0) == 0.0
    ensures VoltageFromAdcSample(Pow2(23)) == VRef
    ensures VoltageFromAdcSample(a + b) == VoltageFromAdcSample(a) + VoltageFromAdcSample(b)
    ensures a <= b ==> VoltageFromAdcSample(a) <= VoltageFromAdcSample(b)
  {
    assert Pow2(8) == 256;
    assert Pow2(16) == 65536;
    assert Pow2(23) == 8388608;
  }

  /** `current_from_line(line, resistor_ohms)`: Ohm's law on the decoded
      voltage; a line that cannot be decoded is an error. */
  function CurrentFromLine(line: string, resistorOhms: real): (r: Result<real, DecodeError>)
    requires resistorOhms != 0.0
    ensures r.Success? <==> SampleValueFromLine(line).Success?
    ensures r.Failure? ==> r.error == SampleValueFromLine(line).error
    ensures r.Success? && resistorOhms > 0.0 ==> r.value >= 0.0
    ensures r.Success? ==> ObeysOhmsLaw(r.value, resistorOhms, VoltageFromAdcSample(SampleValueFromLine(line).value))
  {
    var adcSample := SampleValueFromLine(line);
    if adcSample.Failure? then Failure(adcSample.error)
    else
      var volts := VoltageFromAdcSample(adcSample.value);
      OhmsLaw(volts, resistorOhms);
      Success(volts / resistorOhms)
  }

  /** Current times resistance is the voltage across the resistor. */
  predicate ObeysOhmsLaw(current: real, resistorOhms: real, volts: real) {
    current * resistorOhms == volts
  }

  /** Dividing the voltage by the resistance gives the current that obeys Ohm's law. */
  lemma OhmsLaw(volts: real, resistorOhms: real)
    requires resistorOhms != 0.0
    ensures ObeysOhmsLaw(volts / resistorOhms, resistorOhms, volts)
  {
  }

  lemma DivisionByDouble(x: real, y: real)
    requires y != 0.0
    ensures x / (2.0 * y) == (x / y) / 2.0
  {
  }

  /** Doubling the sense resistor halves the current read from the same line. */
  lemma CurrentHalvesWhenResistanceDoubles(line: string, resistorOhms: real)
    requires resistorOhms != 0.0
    ensures CurrentFromLine(line, 2.0 * resistorOhms).Success? == CurrentFromLine(line, resistorOhms).Success?
    ensures CurrentFromLine(line, 2.0 * resistorOhms).Success? ==>
              CurrentFromLine(line, 2.0 * resistorOhms).value == CurrentFromLine(line, resistorOhms).value / 2.0
  {
    var sample := SampleValueFromLine(line);
    if sample.Success? {
      DivisionByDouble(VoltageFromAdcSample(sample.value), resistorOhms);
    }
  }
}
