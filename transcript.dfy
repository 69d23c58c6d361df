/** The console transcript: which captured lines belong to the sampling script's
    own output, and the first-match line lookup used on them. */
module Transcript {
  import opened Wrappers
  import opened RubyStrings

  /** Printed by the sampling script when it starts; everything before it, and
      the line itself, is console noise. */
  const StartMarker: string := "Script read_power_rails.tcl started."

  predicate IsStartMarker(line: string)
    ensures IsStartMarker(line) <==> exists i :: OccursAt(line, StartMarker, i)
    ensures IsStartMarker(line) ==> |StartMarker| <= |line|
  {
    ContainsIffOccurs(line, StartMarker);
    Contains(line, StartMarker)
  }

  /** The script output (`$script_output`): the console lines after the first
      start-marker line; none when no line is a start marker. */
  function ScriptOutput(consoleLines: seq<string>): (out: seq<string>)
    ensures |out| <= |consoleLines|
    ensures out == consoleLines[|consoleLines| - |out|..]
  {
    if consoleLines == [] then []
    else if IsStartMarker(consoleLines[0]) then consoleLines[1..]
    else ScriptOutput(consoleLines[1..])
  }

  /** One step of the scan: the output of the lines from position i on. */
  lemma ScriptOutputFrom(consoleLines: seq<string>, i: nat)
    requires i < |consoleLines|
    ensures ScriptOutput(consoleLines[i..]) ==
              if IsStartMarker(consoleLines[i]) then consoleLines[i + 1..] else ScriptOutput(consoleLines[i + 1..])
  {
    assert consoleLines[i..][0] == consoleLines[i];
    assert consoleLines[i..][1..] == consoleLines[i + 1..];
  }

  /** The output is exactly what follows the FIRST marker line: the marker and
      everything before it are dropped, later marker lines are kept. */
  lemma {:induction false} ScriptOutputFollowsFirstMarker(consoleLines: seq<string>, k: nat)
    requires k < |consoleLines| && IsStartMarker(consoleLines[k])
    requires forall j :: 0 <= j < k ==> !IsStartMarker(consoleLines[j])
    ensures ScriptOutput(consoleLines) == consoleLines[k + 1..]
  {
    if k > 0 {
      ScriptOutputFollowsFirstMarker(consoleLines[1..], k - 1);
      assert consoleLines[1..][k..] == consoleLines[k + 1..];
    }
  }

  /** Without a marker line there is no script output. */
  lemma {:induction false} ScriptOutputWithoutMarker(consoleLines: seq<string>)
    requires forall j :: 0 <= j < |consoleLines| ==> !IsStartMarker(consoleLines[j])
    ensures ScriptOutput(consoleLines) == []
  {
    if consoleLines != [] {
      ScriptOutputWithoutMarker(consoleLines[1..]);
    }
  }

  /** N noise lines, a marker, then M lines: the script output is those M lines,
      whatever they contain. */
  lemma ScriptOutputOfTranscript(noise: seq<string>, marker: string, lines: seq<string>)
    requires forall j :: 0 <= j < |noise| ==> !IsStartMarker(noise[j])
    requires IsStartMarker(marker)
    ensures ScriptOutput(noise + [marker] + lines) == lines
  {
    var all := noise + [marker] + lines;
    ScriptOutputFollowsFirstMarker(all, |noise|);
    assert all[|noise| + 1..] == lines;
  }

  // ---------------------------------------------------------------------------
  // get_line_matching
  // ---------------------------------------------------------------------------

  /** Some line contains `str` literally. */
  predicate AnyLineContains(lines: seq<string>, str: string) {
    exists i :: 0 <= i < |lines| && Contains(lines[i], str)
  }

  /** Line `i` contains `str` and no earlier line does. */
  predicate IsFirstMatch(lines: seq<string>, str: string, i: int) {
    && 0 <= i < |lines|
    && Contains(lines[i], str)
    && forall j :: 0 <= j < i ==> !Contains(lines[j], str)
  }

  /** `get_line_matching(str)`: the first line, in transcript order, that
      contains `str`; nil (None) exactly when no line does. */
  function GetLineMatching(lines: seq<string>, str: string): (r: Option<string>)
    ensures r.None? <==> !AnyLineContains(lines, str)
    ensures r.Some? ==> exists i :: IsFirstMatch(lines, str, i) && lines[i] == r.value
  {
    if lines == [] then None
    else if Contains(lines[0], str) then
      assert IsFirstMatch(lines, str, 0);
      Some(lines[0])
    else
      var r := GetLineMatching(lines[1..], str);
      assert r.Some? ==> exists i :: IsFirstMatch(lines, str, i) && lines[i] == r.value by {
        if r.Some? {
          var i :| IsFirstMatch(lines[1..], str, i) && lines[1..][i] == r.value;
          assert IsFirstMatch(lines, str, i + 1);
        }
      }
      assert AnyLineContains(lines, str) ==> AnyLineContains(lines[1..], str) by {
        if AnyLineContains(lines, str) {
          var i :| 0 <= i < |lines| && Contains(lines[i], str);
          assert lines[1..][i - 1] == lines[i];
        }
      }
      r
  }
}
