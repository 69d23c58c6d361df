/** The report: one row per rail of the detected board, in table order, each
    optionally compared with the board's expected current. */
module Report {
  import opened Wrappers
  import opened RubyStrings
  import opened Transcript
  import opened Sampling
  import opened Boards

  /** Largest deviation (A) from the expected current that is not flagged. */
  const Tolerance: real := 0.005

  function Abs(x: real): real {
    if x < 0.0 then -x else x
  }

  /** The decision of `format_current_reading`: Some(expected) when the reading
      is suffixed with " (exp expected)", None when it is shown as is. */
  function ExpectedAnnotation(reading: real, expected: real): (note: Option<real>)
    ensures note.Some? ==> note.value == expected
  {
    if Abs(reading - expected) < Tolerance then None else Some(expected)
  }

  /** A reading exactly one tolerance away from the expected value, on either
      side, is flagged; one 0.0049 away is not; and the decision depends only
      on the size of the deviation. */
  lemma ToleranceBoundary(expected: real, deviation: real)
    ensures ExpectedAnnotation(expected + Tolerance, expected) == Some(expected)
    ensures ExpectedAnnotation(expected - Tolerance, expected) == Some(expected)
    ensures ExpectedAnnotation(expected + 0.0049, expected) == None
    ensures ExpectedAnnotation(expected - 0.0049, expected) == None
    ensures ExpectedAnnotation(expected + deviation, expected) == ExpectedAnnotation(expected - deviation, expected)
    ensures ExpectedAnnotation(expected + deviation, expected).None? <==> -Tolerance < deviation < Tolerance
  {
  }

  /** The text the rail's line is looked up by: "Rail #{rail_num_from_script}". */
  function RailLabel(railNum: nat): (text: string)
    ensures |text| > 5 && text[..5] == "Rail "
    ensures AllDecimalDigits(text[5..]) && DecimalValue(text[5..]) == railNum
    ensures |text| > 6 ==> text[5] != '0'
  {
    var text := "Rail " + Decimal(railNum);
    assert text[5..] == Decimal(railNum);
    text
  }

  /** The labels of two different rails of a board never contain one another,
      so a rail's lookup cannot stop at another rail's line. */
  lemma RailLabelsAreDistinct(m: nat, n: nat)
    requires 1 <= m <= 8 && 1 <= n <= 8 && m != n
    ensures !Contains(RailLabel(m), RailLabel(n))
  {
    var lm, ln := RailLabel(m), RailLabel(n);
    assert |lm| == 6 && |ln| == 6;
    assert lm[5] == DigitChar(m) != DigitChar(n) == ln[5];
    assert lm[0..6] == lm;
    ContainsIffOccurs(lm, ln);
  }

  /** A line printed for rail m, "Rail m: lo hi ...", holds its own label and
      no other rail's: past position 0 it has no 'R', and at position 0 the
      digit differs. So the lookup of rail n never stops at rail m's line. */
  lemma PrintedRailLineHoldsOnlyItsLabel(m: nat, n: nat, low: nat, high: nat, more: seq<nat>)
    requires 1 <= m <= 8 && 1 <= n <= 8 && m != n
    requires low < 256 && high < 256
    requires forall i :: 0 <= i < |more| ==> more[i] < 256
    ensures Contains(RailLabel(m) + Separator + HexDump(low, high, more), RailLabel(m))
    ensures !Contains(RailLabel(m) + Separator + HexDump(low, high, more), RailLabel(n))
  {
    var line := RailLabel(m) + Separator + HexDump(low, high, more);
    var ln := RailLabel(n);
    RailLineLetters(m, HexDump(low, high, more));
    assert ln == ['R', 'a', 'i', 'l', ' ', DigitChar(n)];
    ContainsIffOccurs(line, ln);
    forall i
      ensures !OccursAt(line, ln, i)
    {
      if i < 0 || i + 6 > |line| {
      } else if i == 0 {
        assert line[i..i + 6][5] == DigitChar(m);
      } else {
        assert line[i..i + 6][0] == line[i];
      }
    }
  }

  /** The letters of a printed rail line: its label first, then no 'R' after
      position 0, as the hex dump holds only hex digits and whitespace. */
  lemma RailLineLetters(m: nat, dump: string)
    requires 1 <= m <= 8
    requires forall i :: 0 <= i < |dump| ==> IsHexDigit(dump[i]) || IsSpace(dump[i])
    ensures var line := RailLabel(m) + Separator + dump;
            && line[..6] == RailLabel(m)
            && line[5] == DigitChar(m)
            && forall i :: 1 <= i < |line| ==> line[i] != 'R'
  {
    var lm := RailLabel(m);
    var line := lm + Separator + dump;
    assert lm == ['R', 'a', 'i', 'l', ' ', DigitChar(m)];
    assert line[..6] == lm;
    forall i | 1 <= i < |line|
      ensures line[i] != 'R'
    {
      if i >= 8 {
        assert line[i] == dump[i - 8];
      }
    }
  }

  /** Ways the run stops; each is an uncaught Ruby exception in the script. */
  datatype RunError =
    | BoardUndetected                                  // `rails` is nil
    | LineNotFound(railNum: nat)                       // no line holds "Rail N"
    | Undecodable(railNum: nat, reason: DecodeError)   // the line has no usable hex dump

  /** One printed row: rail name, current (A), rail number, the raw hex dump,
      and the expected current when the row carries " (exp ...)". */
  datatype Row = Row(
    name: string,
    current: real,
    railNum: nat,
    hexValue: string,
    flaggedExpected: Option<real>)

  /** The row printed for one rail, or the error that ends the run there. */
  function ReadRail(lines: seq<string>, board: Board, rail: RailConfig, highlight: bool): (r: Result<Row, RunError>)
    requires rail.adcChannelIndex < |ExpectedReadings(board)| && rail.resistorOhms > 0.0
    ensures r == Failure(LineNotFound(rail.railNumFromScript))
            <==> !AnyLineContains(lines, RailLabel(rail.railNumFromScript))
    ensures r.Success? ==>
              && r.value.name == rail.name
              && r.value.railNum == rail.railNumFromScript
              && (!highlight ==> r.value.flaggedExpected.None?)
              && (r.value.flaggedExpected.Some? ==>
                    && r.value.flaggedExpected.value == ExpectedReadings(board)[rail.adcChannelIndex]
                    && Abs(r.value.current - r.value.flaggedExpected.value) >= Tolerance)
    ensures r.Success? && highlight && r.value.flaggedExpected.None? ==>
              Abs(r.value.current - ExpectedReadings(board)[rail.adcChannelIndex]) < Tolerance
    ensures AnyLineContains(lines, RailLabel(rail.railNumFromScript)) ==>
              exists i :: && IsFirstMatch(lines, RailLabel(rail.railNumFromScript), i)
                          && r == RowFromLine(lines[i], rail, ExpectedReadings(board)[rail.adcChannelIndex], highlight)
  {
    var railNum := rail.railNumFromScript;
    match GetLineMatching(lines, RailLabel(railNum))
    case None => Failure(LineNotFound(railNum))
    case Some(line) => RowFromLine(line, rail, ExpectedReadings(board)[rail.adcChannelIndex], highlight)
  }

  /** The row for a rail once its line is found: the current read from the
      line and, in highlighted mode, the annotation against `expected`. */
  function RowFromLine(line: string, rail: RailConfig, expected: real, highlight: bool): (r: Result<Row, RunError>)
    requires rail.resistorOhms > 0.0
    ensures r.Failure? <==> CurrentFromLine(line, rail.resistorOhms).Failure?
    ensures r.Failure? ==> r.error == Undecodable(rail.railNumFromScript, CurrentFromLine(line, rail.resistorOhms).error)
    ensures r.Success? ==>
              && r.value.current == CurrentFromLine(line, rail.resistorOhms).value
              && HexValueFromLine(line) == Some(r.value.hexValue)
              && r.value.name == rail.name
              && r.value.railNum == rail.railNumFromScript
              && (!highlight ==> r.value.flaggedExpected.None?)
              && (r.value.flaggedExpected.Some? ==>
                    r.value.flaggedExpected.value == expected && Abs(r.value.current - expected) >= Tolerance)
              && (highlight && r.value.flaggedExpected.None? ==> Abs(r.value.current - expected) < Tolerance)
  {
    var railNum := rail.railNumFromScript;
    match CurrentFromLine(line, rail.resistorOhms)
    case Failure(e) => Failure(Undecodable(railNum, e))
    case Success(current) =>
      var flagged := if highlight then ExpectedAnnotation(current, expected) else None;
      Success(Row(rail.name, current, railNum, HexValueFromLine(line).value, flagged))
  }

  /** Each row is the row read for the rail at its position. */
  predicate RowsRead(lines: seq<string>, board: Board, rails: seq<RailConfig>, highlight: bool, rows: seq<Row>)
    requires |rows| <= |rails|
    requires forall i :: 0 <= i < |rails| ==>
               rails[i].adcChannelIndex < |ExpectedReadings(board)| && rails[i].resistorOhms > 0.0
  {
    forall i :: 0 <= i < |rows| ==> ReadRail(lines, board, rails[i], highlight) == Success(rows[i])
  }

  /** Reading one more rail extends the rows read so far. */
  lemma RowsReadExtend(lines: seq<string>, board: Board, rails: seq<RailConfig>, highlight: bool,
                       rows: seq<Row>, row: Row)
    requires |rows| < |rails|
    requires forall i :: 0 <= i < |rails| ==>
               rails[i].adcChannelIndex < |ExpectedReadings(board)| && rails[i].resistorOhms > 0.0
    requires RowsRead(lines, board, rails, highlight, rows)
    requires ReadRail(lines, board, rails[|rows|], highlight) == Success(row)
    ensures RowsRead(lines, board, rails, highlight, rows + [row])
  {
    var extended := rows + [row];
    forall i | 0 <= i < |extended|
      ensures ReadRail(lines, board, rails[i], highlight) == Success(extended[i])
    {
      if i < |rows| {
        assert extended[i] == rows[i];
      }
    }
  }

  /** What the report loop of the script leaves behind: with no board, nothing
      is printed and the run fails; otherwise the rows of the board's rails in
      table order, up to the first rail that fails, which ends the run. */
  predicate Reported(lines: seq<string>, board: Option<Board>, highlight: bool,
                     rows: seq<Row>, failure: Option<RunError>)
    ensures Reported(lines, board, highlight, rows, failure) ==>
              failure.Some? || (board.Some? && |rows| == 8)
  {
    match board
    case None => rows == [] && failure == Some(BoardUndetected)
    case Some(b) =>
      var rails := Rails(b);
      && |rows| <= |rails|
      && RowsRead(lines, b, rails, highlight, rows)
      && (failure.None? <==> |rows| == |rails|)
      && (failure.Some? ==> ReadRail(lines, b, rails[|rows|], highlight) == Failure(failure.value))
  }

  /** The two report loops (plain when `highlight` is false, highlighted when it
      is true): rails in order, stopping at the first failing rail. */
  method ReportReadings(lines: seq<string>, board: Option<Board>, highlight: bool)
    returns (rows: seq<Row>, failure: Option<RunError>)
    ensures Reported(lines, board, highlight, rows, failure)
  {
    if board.None? {
      rows, failure := [], Some(BoardUndetected);
    } else {
      rows, failure := ReportBoardReadings(lines, board.value, highlight);
    }
  }

  /** The loop over the rails of a detected board. */
  method ReportBoardReadings(lines: seq<string>, board: Board, highlight: bool)
    returns (rows: seq<Row>, failure: Option<RunError>)
    ensures Reported(lines, Some(board), highlight, rows, failure)
  {
    rows, failure := [], None;
    var rails := Rails(board);
    var i := 0;
    while i < |rails|
      invariant i <= |rails| && |rows| == i
      invariant RowsRead(lines, board, rails, highlight, rows)
    {
      var row := ReadRail(lines, board, rails[i], highlight);
      if row.Failure? {
        failure := Some(row.error);
        return;
      }
      RowsReadExtend(lines, board, rails, highlight, rows, row.value);
      rows := rows + [row.value];
      i := i + 1;
    }
  }

  /** The script output, the board and the mode decide the report: two
      reports of the same run have the same rows and the same error. */
  lemma ReportedIsUnique(lines: seq<string>, board: Option<Board>, highlight: bool,
                         rows1: seq<Row>, failure1: Option<RunError>,
                         rows2: seq<Row>, failure2: Option<RunError>)
    requires Reported(lines, board, highlight, rows1, failure1)
    requires Reported(lines, board, highlight, rows2, failure2)
    ensures rows1 == rows2 && failure1 == failure2
  {
    if board.Some? {
      var rails := Rails(board.value);
      assert forall k :: 0 <= k < |rows1| ==> ReadRail(lines, board.value, rails[k], highlight) == Success(rows1[k]);
      assert forall k :: 0 <= k < |rows2| ==> ReadRail(lines, board.value, rails[k], highlight) == Success(rows2[k]);
      assert |rows1| == |rows2|;
      assert forall k :: 0 <= k < |rows1| ==> rows1[k] == rows2[k];
    }
  }

  /** No error isolation: once a rail's line is missing, that rail and every
      rail after it go unreported and the run fails. */
  lemma MissingLineEndsReport(lines: seq<string>, board: Board, highlight: bool,
                              rows: seq<Row>, failure: Option<RunError>, k: nat)
    requires Reported(lines, Some(board), highlight, rows, failure)
    requires k < |Rails(board)|
    requires !AnyLineContains(lines, RailLabel(Rails(board)[k].railNumFromScript))
    ensures failure.Some? && |rows| <= k
  {
    var rails := Rails(board);
    assert ReadRail(lines, board, rails[k], highlight).Failure?;
  }

  /** The worked example of the transceiver kit's first rail: "Rail 8: 00 01 00 00"
      decodes to 256, i.e. 256 * 5.35 / 2^23 V over 0.003 Ohm, about 0.0544 A,
      which is flagged against the expected 0.040 A. */
  lemma TransceiverKitRail8Example()
    ensures var dump := HexDump(0, 1, [0, 0]);
            ReadRail(["Rail 8" + Separator + dump], TransceiverKit, TransceiverKitRails[0], true)
            == Success(Row("2.5_VCC", 256.0 * VRef / 8388608.0 / 0.003, 8, dump, Some(0.040)))
  {
    var dump := HexDump(0, 1, [0, 0]);
    var line := "Rail 8" + Separator + dump;
    assert RailLabel(8) == "Rail 8";
    assert StartsWith(line, "Rail 8");
    assert GetLineMatching([line], RailLabel(8)) == Some(line);
    SampleOfPrintedLine("Rail 8", 0, 1, [0, 0]);
    HexValueOfLabelledLine("Rail 8", dump);
    assert CurrentFromLine(line, 0.003) == Success(256.0 * VRef / 8388608.0 / 0.003);
  }
}
