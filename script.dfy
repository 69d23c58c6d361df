/** The script's top level: capture the console output, keep the sampling
    script's own lines, detect the board, and print the report. The two globals
    of the script, `$script_output` and `$BOARD`, are the fields of a session. */
module Script {
  import opened Wrappers
  import opened RubyStrings
  import opened Transcript
  import opened Boards
  import opened Report

  class Session {
    /** `$script_output`: the lines printed after the start marker. */
    var scriptOutput: seq<string>
    /** `$BOARD`: nil until a board is detected. */
    var board: Option<Board>

    constructor ()
      ensures scriptOutput == [] && board == None
    {
      scriptOutput := [];
      board := None;
    }

    /** The loop over the console output's lines: a flag turns on at the first
        start-marker line, and every line after it is appended. */
    method CaptureScriptOutput(consoleOutput: string)
      modifies this`scriptOutput
      ensures scriptOutput == ScriptOutput(Lines(consoleOutput))
    {
      var consoleLines := Lines(consoleOutput);
      scriptOutput := [];
      var started := false;
      for i := 0 to |consoleLines|
        invariant !started ==> scriptOutput == [] && ScriptOutput(consoleLines[i..]) == ScriptOutput(consoleLines)
        invariant started ==> scriptOutput + consoleLines[i..] == ScriptOutput(consoleLines)
      {
        var line := consoleLines[i];
        ScriptOutputFrom(consoleLines, i);
        if started {
          AppendStep(scriptOutput, consoleLines, i);
          scriptOutput := scriptOutput + [line];
        } else if IsStartMarker(line) {
          started := true;
        }
      }
    }

    /** Sets `$BOARD` from the device strings in the script output, looking
        for the development kit first; leaves it as it was when neither
        device string appears. */
    method DetectBoard()
      modifies this`board
      ensures board == if DetectedBoard(scriptOutput).Some? then DetectedBoard(scriptOutput) else old(board)
    {
      if GetLineMatching(scriptOutput, DevelopmentKitDevice).Some? {
        board := Some(DevelopmentKit);
      } else if GetLineMatching(scriptOutput, TransceiverKitDevice).Some? {
        board := Some(TransceiverKit);
      }
    }
  }

  /** Moving the next line from the rest onto the collected lines keeps
      their concatenation. */
  lemma AppendStep(collected: seq<string>, lines: seq<string>, i: nat)
    requires i < |lines|
    ensures collected + lines[i..] == (collected + [lines[i]]) + lines[i + 1..]
  {
    assert lines[i..] == [lines[i]] + lines[i + 1..];
  }

  /** One run of the script on the captured console output, with the
      `highlight_unexpected_values` switch as a parameter. */
  method Run(consoleOutput: string, highlight: bool) returns (rows: seq<Row>, failure: Option<RunError>)
    ensures var lines := ScriptOutput(Lines(consoleOutput));
            Reported(lines, DetectedBoard(lines), highlight, rows, failure)
  {
    var session := new Session();
    session.CaptureScriptOutput(consoleOutput);
    session.DetectBoard();
    rows, failure := ReportReadings(session.scriptOutput, session.board, highlight);
  }
}
