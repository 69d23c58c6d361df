/** The handful of Ruby core-library string operations the power reader relies on,
    written out on `seq<char>`: `String#include?`, `String#lines`, `String#split`
    with a literal separator, `String#split(" ")` (awk-style whitespace split),
    `String#hex` and `Integer#to_s`. */
module RubyStrings {
  import opened Wrappers

  predicate StartsWith(s: string, prefix: string) {
    |prefix| <= |s| && s[..|prefix|] == prefix
  }

  // ---------------------------------------------------------------------------
  // String#include?
  // ---------------------------------------------------------------------------

  /** `s.include?(sub)`: a literal (not a pattern) substring test. */
  predicate Contains(s: string, sub: string)
    ensures sub == [] ==> Contains(s, sub)
    ensures Contains(s, sub) ==> |sub| <= |s|
    decreases |s|
  {
    StartsWith(s, sub) || (s != [] && Contains(s[1..], sub))
  }

  /** `sub` occurs in `s` starting at position `i`. */
  predicate OccursAt(s: string, sub: string, i: int) {
    0 <= i && i + |sub| <= |s| && s[i..i + |sub|] == sub
  }

  /** `Contains` agrees with the positional definition of a substring. */
  lemma {:induction false} ContainsIffOccurs(s: string, sub: string)
    ensures Contains(s, sub) <==> exists i :: OccursAt(s, sub, i)
    decreases |s|
  {
    if StartsWith(s, sub) {
      assert OccursAt(s, sub, 0);
    } else if s == [] {
      assert forall i :: !OccursAt(s, sub, i);
    } else {
      ContainsIffOccurs(s[1..], sub);
      forall i | OccursAt(s[1..], sub, i)
        ensures OccursAt(s, sub, i + 1)
      {
        assert s[1..][i..i + |sub|] == s[i + 1..i + 1 + |sub|];
      }
      forall i | OccursAt(s, sub, i)
        ensures OccursAt(s[1..], sub, i - 1)
      {
        assert s[1..][i - 1..i - 1 + |sub|] == s[i..i + |sub|];
      }
    }
  }

  // ---------------------------------------------------------------------------
  // String#lines (default separator "\n", kept at the end of each line)
  // ---------------------------------------------------------------------------

  /** Length of the first line of `s`, its terminating newline included. */
  function FirstLineLength(s: string): (n: nat)
    ensures s == [] ==> n == 0
    ensures s != [] ==> 1 <= n <= |s|
    ensures forall i :: 0 <= i < n - 1 ==> s[i] != '\n'
    ensures n < |s| ==> s[n - 1] == '\n'
    decreases |s|
  {
    if s == [] then 0
    else if s[0] == '\n' then 1
    else 1 + FirstLineLength(s[1..])
  }

  /** `text.lines`: the text cut after every newline; no empty lines. */
  function Lines(text: string): (ls: seq<string>)
    ensures forall i :: 0 <= i < |ls| ==> ls[i] != []
    ensures forall i :: 0 <= i < |ls| - 1 ==> ls[i][|ls[i]| - 1] == '\n'
    ensures forall i, j :: 0 <= i < |ls| && 0 <= j < |ls[i]| - 1 ==> ls[i][j] != '\n'
    decreases |text|
  {
    if text == [] then []
    else
      var n := FirstLineLength(text);
      [text[..n]] + Lines(text[n..])
  }

  function Concat(ls: seq<string>): string {
    if ls == [] then [] else ls[0] + Concat(ls[1..])
  }

  /** Cutting a text into lines loses and adds nothing. */
  lemma {:induction false} LinesRoundTrip(text: string)
    ensures Concat(Lines(text)) == text
    decreases |text|
  {
    if text != [] {
      var n := FirstLineLength(text);
      LinesRoundTrip(text[n..]);
      assert Lines(text)[1..] == Lines(text[n..]);
      assert text == text[..n] + text[n..];
    }
  }

  // ---------------------------------------------------------------------------
  // String#split with a literal separator other than " "
  // ---------------------------------------------------------------------------

  /** Position of the first occurrence of `sep` in `s`, if any. */
  function FirstIndexOf(s: string, sep: string): (r: Option<nat>)
    requires sep != []
    ensures r.Some? ==> r.value + |sep| <= |s|
    decreases |s|
  {
    if StartsWith(s, sep) then Some(0)
    else if s == [] then None
    else
      match FirstIndexOf(s[1..], sep)
      case None => None
      case Some(k) => Some(k + 1)
  }

  /** `FirstIndexOf` finds the first occurrence: one starts at the index it
      returns and none starts earlier; with None, none starts anywhere. */
  lemma {:induction false} FirstIndexOfIsFirst(s: string, sep: string)
    requires sep != []
    ensures var r := FirstIndexOf(s, sep);
            && (r.Some? ==> StartsWith(s[r.value..], sep))
            && (r.Some? ==> forall j :: 0 <= j < r.value ==> !StartsWith(s[j..], sep))
            && (r.None? ==> forall j :: 0 <= j <= |s| ==> !StartsWith(s[j..], sep))
    decreases |s|
  {
    if !StartsWith(s, sep) && s != [] {
      FirstIndexOfIsFirst(s[1..], sep);
      assert forall j :: 1 <= j <= |s| ==> s[j..] == s[1..][j - 1..];
    }
  }

  /** The pieces between successive, non-overlapping occurrences of `sep`,
      scanned left to right; empty pieces included. */
  function SplitAll(s: string, sep: string): (pieces: seq<string>)
    requires sep != []
    ensures |pieces| >= 1
    decreases |s|
  {
    match FirstIndexOf(s, sep)
    case None => [s]
    case Some(k) => [s[..k]] + SplitAll(s[k + |sep|..], sep)
  }

  function Join(pieces: seq<string>, sep: string): string
    requires |pieces| >= 1
  {
    if |pieces| == 1 then pieces[0] else pieces[0] + sep + Join(pieces[1..], sep)
  }

  /** Splitting at a separator and joining with it again gives back the text. */
  lemma {:induction false} SplitAllRoundTrip(s: string, sep: string)
    requires sep != []
    ensures Join(SplitAll(s, sep), sep) == s
    decreases |s|
  {
    var r := FirstIndexOf(s, sep);
    if r.Some? {
      var k := r.value;
      var rest := s[k + |sep|..];
      SplitAllStep(s, sep, k);
      SplitAllRoundTrip(rest, sep);
      SeparatorSplitsText(s, sep, k);
      JoinCons(s[..k], SplitAll(rest, sep), sep);
    }
  }

  /** Joining a first piece onto further pieces puts one separator between. */
  lemma JoinCons(piece: string, pieces: seq<string>, sep: string)
    requires |pieces| >= 1
    ensures Join([piece] + pieces, sep) == piece + sep + Join(pieces, sep)
  {
    assert ([piece] + pieces)[1..] == pieces;
  }

  /** The text around the first occurrence of the separator. */
  lemma SeparatorSplitsText(s: string, sep: string, k: nat)
    requires sep != [] && FirstIndexOf(s, sep) == Some(k)
    ensures s == s[..k] + sep + s[k + |sep|..]
  {
    FirstIndexOfIsFirst(s, sep);
    assert s[k..k + |sep|] == s[k..][..|sep|] == sep;
    assert s == s[..k] + s[k..k + |sep|] + s[k + |sep|..];
  }


  function DropTrailingEmpty(pieces: seq<string>): (r: seq<string>)
    ensures r <= pieces
    ensures r != [] ==> r[|r| - 1] != []
    ensures forall i :: |r| <= i < |pieces| ==> pieces[i] == []
  {
    if pieces == [] then []
    else if pieces[|pieces| - 1] == [] then DropTrailingEmpty(pieces[..|pieces| - 1])
    else pieces
  }

  /** `s.split(sep)` for a literal separator other than a single space: the pieces,
      with the trailing empty ones removed (so "".split(sep) is []). */
  function Split(s: string, sep: string): (fields: seq<string>)
    requires sep != [] && sep != " "
    ensures fields <= SplitAll(s, sep)
    ensures fields != [] ==> fields[|fields| - 1] != []
    ensures forall i :: |fields| <= i < |SplitAll(s, sep)| ==> SplitAll(s, sep)[i] == []
    ensures forall i :: 0 <= i < |fields| ==> FirstIndexOf(fields[i], sep).None?
  {
    SplitAllPiecesHoldNoSeparator(s, sep);
    DropTrailingEmpty(SplitAll(s, sep))
  }

  /** Every piece is free of the separator. */
  lemma {:induction false} SplitAllPiecesHoldNoSeparator(s: string, sep: string)
    requires sep != []
    ensures forall i :: 0 <= i < |SplitAll(s, sep)| ==> FirstIndexOf(SplitAll(s, sep)[i], sep).None?
    decreases |s|
  {
    var r := FirstIndexOf(s, sep);
    if r.Some? {
      var k := r.value;
      var rest := s[k + |sep|..];
      TextBeforeFirstHoldsNone(s, sep, k);
      SplitAllPiecesHoldNoSeparator(rest, sep);
      var pieces, tail := SplitAll(s, sep), SplitAll(rest, sep);
      assert pieces == [s[..k]] + tail;
      assert forall i :: 1 <= i < |pieces| ==> pieces[i] == tail[i - 1];
    }
  }

  /** The text before the first occurrence of the separator holds none. */
  lemma TextBeforeFirstHoldsNone(s: string, sep: string, k: nat)
    requires sep != [] && FirstIndexOf(s, sep) == Some(k)
    ensures FirstIndexOf(s[..k], sep).None?
  {
    var head := s[..k];
    FirstIndexOfIsFirst(s, sep);
    FirstIndexOfIsFirst(head, sep);
    forall j | 0 <= j <= |head|
      ensures !StartsWith(head[j..], sep)
    {
      assert head[j..] <= s[j..];
      PrefixStartsWith(head[j..], s[j..], sep);
    }
  }

  /** A text that starts with `p` still does once more text is appended. */
  lemma PrefixStartsWith(x: string, y: string, p: string)
    requires x <= y
    ensures StartsWith(x, p) ==> StartsWith(y, p)
  {
    if StartsWith(x, p) {
      assert y[..|p|] == x[..|p|];
    }
  }

  /** Text without a colon holds no ": " separator. */
  lemma NoColonNoSeparator(b: string)
    requires forall i :: 0 <= i < |b| ==> b[i] != ':'
    ensures FirstIndexOf(b, ": ") == None
  {
    FirstIndexOfIsFirst(b, ": ");
    forall j | 0 <= j <= |b|
      ensures !StartsWith(b[j..], ": ")
    {
      if j + 2 <= |b| {
        assert b[j..][..2][0] == b[j];
      }
    }
  }

  /** When the text ends with `a + ": " + b` and `b` holds no colon, the last
      piece of the split at ": " is exactly `b`. */
  lemma SplitAllEndsWithTail(a: string, b: string)
    requires forall i :: 0 <= i < |b| ==> b[i] != ':'
    ensures var pieces := SplitAll(a + ": " + b, ": ");
            |pieces| >= 2 && pieces[|pieces| - 1] == b
  {
    var s := a + ": " + b;
    assert s[|a|] == ':' && s[|a| + 1] == ' ';
    assert s[|a| + 2..] == b;
    assert forall i :: |a| + 2 <= i < |s| ==> s[i] == b[i - |a| - 2];
    SplitAllLastPiece(s, |a|);
  }

  /** The same for a text with ": " at position m and no colon after it. */
  lemma {:induction false} SplitAllLastPiece(s: string, m: nat)
    requires m + 2 <= |s| && s[m] == ':' && s[m + 1] == ' '
    requires forall i :: m + 2 <= i < |s| ==> s[i] != ':'
    ensures EndsWithPiece(SplitAll(s, ": "), s[m + 2..])
    decreases |s|, 1
  {
    FirstSeparatorUpTo(s, m);
    var k := FirstIndexOf(s, ": ").value;
    if k == m {
      SplitAllLastPieceHere(s, m);
    } else {
      SplitAllLastPieceLater(s, m, k);
    }
  }

  /** The first separator is the one at m: the tail is the second piece. */
  lemma SplitAllLastPieceHere(s: string, m: nat)
    requires m + 2 <= |s| && FirstIndexOf(s, ": ") == Some(m)
    requires forall i :: m + 2 <= i < |s| ==> s[i] != ':'
    ensures EndsWithPiece(SplitAll(s, ": "), s[m + 2..])
  {
    var rest := s[m + 2..];
    NoColonNoSeparator(rest);
    SplitAllStep(s, ": ", m);
    assert SplitAll(rest, ": ") == [rest];
  }

  /** The first separator ends before m: the split goes on after it. */
  lemma {:induction false} SplitAllLastPieceLater(s: string, m: nat, k: nat)
    requires m + 2 <= |s| && s[m] == ':' && s[m + 1] == ' '
    requires forall i :: m + 2 <= i < |s| ==> s[i] != ':'
    requires FirstIndexOf(s, ": ") == Some(k) && k + 2 <= m
    ensures EndsWithPiece(SplitAll(s, ": "), s[m + 2..])
    decreases |s|, 0
  {
    var rest := s[k + 2..];
    var m' := m - k - 2;
    SeparatorAfterDrop(s, m, k + 2);
    SplitAllLastPiece(rest, m');
    SplitAllStep(s, ": ", k);
    EndsWithPieceCons(s[..k], SplitAll(rest, ": "), s[m + 2..]);
  }

  /** One step of the split: the text before the first separator, then the
      pieces of the text after it. */
  lemma SplitAllStep(s: string, sep: string, k: nat)
    requires sep != [] && FirstIndexOf(s, sep) == Some(k)
    ensures SplitAll(s, sep) == [s[..k]] + SplitAll(s[k + |sep|..], sep)
  {
  }

  /** Dropping n characters before the separator at m moves it to m - n. */
  lemma SeparatorAfterDrop(s: string, m: nat, n: nat)
    requires n <= m && m + 2 <= |s| && s[m] == ':' && s[m + 1] == ' '
    requires forall i :: m + 2 <= i < |s| ==> s[i] != ':'
    ensures var rest := s[n..];
            && rest[m - n] == ':' && rest[m - n + 1] == ' '
            && (forall i :: m - n + 2 <= i < |rest| ==> rest[i] != ':')
            && rest[m - n + 2..] == s[m + 2..]
  {
    var rest := s[n..];
    assert forall i :: m - n + 2 <= i < |rest| ==> rest[i] == s[i + n];
  }

  /** At least two pieces, the last of them `tail`. */
  predicate EndsWithPiece(pieces: seq<string>, tail: string) {
    |pieces| >= 2 && pieces[|pieces| - 1] == tail
  }

  lemma EndsWithPieceCons(piece: string, pieces: seq<string>, tail: string)
    requires EndsWithPiece(pieces, tail)
    ensures EndsWithPiece([piece] + pieces, tail)
  {
    assert ([piece] + pieces)[|pieces|] == pieces[|pieces| - 1];
  }

  /** When ": " occurs at position m, the first separator is that one or ends
      at or before m. */
  lemma FirstSeparatorUpTo(s: string, m: nat)
    requires m + 2 <= |s| && s[m] == ':' && s[m + 1] == ' '
    ensures var r := FirstIndexOf(s, ": ");
            r.Some? && (r.value == m || r.value + 2 <= m)
  {
    FirstIndexOfIsFirst(s, ": ");
    assert s[m..][..2] == [s[m], s[m + 1]];
    var k := FirstIndexOf(s, ": ").value;
    assert s[k + 1] == s[k..][..2][1];
  }

  lemma DropOfAppend(x: string, y: string, n: nat)
    requires n <= |x|
    ensures (x + y)[n..] == x[n..] + y
  {
    assert forall i :: 0 <= i < |x| - n + |y| ==> (x + y)[n..][i] == (x[n..] + y)[i];
  }

  // ---------------------------------------------------------------------------
  // String#split(" "): awk-style, on runs of ASCII whitespace
  // ---------------------------------------------------------------------------

  predicate IsSpace(c: char) {
    c == ' ' || c == '\t' || c == '\n' || c == '\r' || c == '\U{000B}' || c == '\U{000C}'
  }

  predicate NoSpace(w: string) {
    forall i :: 0 <= i < |w| ==> !IsSpace(w[i])
  }

  /** Length of the run of non-whitespace characters that `s` starts with. */
  function WordLength(s: string): (n: nat)
    ensures n <= |s|
    ensures NoSpace(s[..n])
    ensures n < |s| ==> IsSpace(s[n])
    decreases |s|
  {
    if s == [] || IsSpace(s[0]) then 0 else 1 + WordLength(s[1..])
  }

  /** `s.split(" ")`: the maximal runs of non-whitespace characters, in order. */
  function Words(s: string): (ws: seq<string>)
    ensures forall i :: 0 <= i < |ws| ==> ws[i] != [] && NoSpace(ws[i])
    ensures ws == [] <==> forall i :: 0 <= i < |s| ==> IsSpace(s[i])
    decreases |s|
  {
    if s == [] then []
    else if IsSpace(s[0]) then
      assert forall i :: 1 <= i < |s| ==> s[i] == s[1..][i - 1];
      Words(s[1..])
    else
      var n := WordLength(s);
      [s[..n]] + Words(s[n..])
  }

  /** A word followed by whitespace (or by nothing) is the first word. */
  lemma {:induction false} WordsOfWordThen(w: string, rest: string)
    requires w != [] && NoSpace(w)
    requires rest == [] || IsSpace(rest[0])
    ensures Words(w + rest) == [w] + Words(rest)
  {
    WordLengthOfWordThen(w, rest);
    assert (w + rest)[..|w|] == w;
    assert (w + rest)[|w|..] == rest;
  }

  /** Leading whitespace, however long the run, yields no token. */
  lemma {:induction false} WordsOfSpacesThen(spaces: string, rest: string)
    requires forall i :: 0 <= i < |spaces| ==> IsSpace(spaces[i])
    ensures Words(spaces + rest) == Words(rest)
    decreases |spaces|
  {
    if spaces != [] {
      assert (spaces + rest)[1..] == spaces[1..] + rest;
      WordsOfSpacesThen(spaces[1..], rest);
    } else {
      assert spaces + rest == rest;
    }
  }

  lemma {:induction false} WordLengthOfWordThen(w: string, rest: string)
    requires NoSpace(w)
    requires rest == [] || IsSpace(rest[0])
    ensures WordLength(w + rest) == |w|
    decreases |w|
  {
    if w == [] {
      assert w + rest == rest;
    } else {
      assert (w + rest)[1..] == w[1..] + rest;
      WordLengthOfWordThen(w[1..], rest);
    }
  }

  // ---------------------------------------------------------------------------
  // String#hex
  // ---------------------------------------------------------------------------

  predicate IsHexDigit(c: char) {
    '0' <= c <= '9' || 'a' <= c <= 'f' || 'A' <= c <= 'F'
  }

  function HexDigitValue(c: char): (d: nat)
    requires IsHexDigit(c)
    ensures d < 16
  {
    if '0' <= c <= '9' then c as int - '0' as int
    else if 'a' <= c <= 'f' then c as int - 'a' as int + 10
    else c as int - 'A' as int + 10
  }

  function Pow16(n: nat): (p: nat)
    ensures p >= 1
  {
    if n == 0 then 1 else 16 * Pow16(n - 1)
  }

  lemma {:induction false} Pow16Monotone(m: nat, n: nat)
    requires m <= n
    ensures Pow16(m) <= Pow16(n)
    decreases n
  {
    if m < n {
      Pow16Monotone(m, n - 1);
    }
  }

  /** Length of the run of hexadecimal digits that `t` starts with. */
  function HexDigitsLength(t: string): (n: nat)
    ensures n <= |t|
    ensures forall i :: 0 <= i < n ==> IsHexDigit(t[i])
    ensures n < |t| ==> !IsHexDigit(t[n])
    decreases |t|
  {
    if t == [] || !IsHexDigit(t[0]) then 0 else 1 + HexDigitsLength(t[1..])
  }

  /** The number a string of hexadecimal digits denotes, most significant first. */
  function HexDigitsValue(ds: string): (v: nat)
    requires forall i :: 0 <= i < |ds| ==> IsHexDigit(ds[i])
    ensures v < Pow16(|ds|)
    decreases |ds|
  {
    if ds == [] then 0
    else
      var high := HexDigitsValue(ds[..|ds| - 1]);
      var low := HexDigitValue(ds[|ds| - 1]);
      assert 16 * high + low < 16 * Pow16(|ds| - 1) by {
        assert high + 1 <= Pow16(|ds| - 1);
        assert 16 * (high + 1) <= 16 * Pow16(|ds| - 1);
      }
      16 * high + low
  }

  /** `t.hex`: the value of the hexadecimal digits `t` starts with; 0 when it
      starts with none (Ruby does not raise). A token of at most two
      characters reads as a byte. */
  function Hex(t: string): (v: nat)
    ensures v < Pow16(|t|)
    ensures |t| <= 2 ==> v < 256
    ensures (|t| == 0 || !IsHexDigit(t[0])) ==> v == 0
    ensures (forall i :: 0 <= i < |t| ==> IsHexDigit(t[i])) ==> v == HexDigitsValue(t)
  {
    var n := HexDigitsLength(t);
    Pow16Monotone(n, |t|);
    var v := HexDigitsValue(t[..n]);
    assert (forall i :: 0 <= i < |t| ==> IsHexDigit(t[i])) ==> t[..n] == t;
    assert |t| <= 2 ==> v < 256 by {
      if |t| <= 2 {
        Pow16Monotone(|t|, 2);
        assert Pow16(2) == 256;
      }
    }
    v
  }

  function HexDigitChar(d: nat): (c: char)
    requires d < 16
    ensures IsHexDigit(c) && HexDigitValue(c) == d
  {
    if d < 10 then ('0' as int + d) as char else ('A' as int + d - 10) as char
  }

  /** A byte as two upper-case hexadecimal digits, as the sampling script prints it. */
  function HexByte(v: nat): (t: string)
    requires v < 256
    ensures |t| == 2 && NoSpace(t)
    ensures forall i :: 0 <= i < |t| ==> IsHexDigit(t[i])
    ensures forall i :: 0 <= i < |t| ==> t[i] != ':'
  {
    [HexDigitChar(v / 16), HexDigitChar(v % 16)]
  }

  /** Reading back a printed byte gives the byte. */
  lemma HexOfHexByte(v: nat)
    requires v < 256
    ensures Hex(HexByte(v)) == v
  {
    var t := HexByte(v);
    assert t[1..][1..] == [];
    assert HexDigitsLength(t[1..]) == 1;
    assert HexDigitsLength(t) == 2;
    assert t[..2] == t;
    assert t[..1][..0] == [];
    assert HexDigitsValue(t[..1]) == v / 16;
    assert HexDigitsValue(t) == 16 * (v / 16) + v % 16;
  }

  // ---------------------------------------------------------------------------
  // Integer#to_s
  // ---------------------------------------------------------------------------

  function DigitChar(d: nat): (c: char)
    requires d < 10
    ensures '0' <= c <= '9'
    ensures c as int - '0' as int == d
  {
    ('0' as int + d) as char
  }

  predicate AllDecimalDigits(s: string) {
    forall i :: 0 <= i < |s| ==> '0' <= s[i] <= '9'
  }

  /** The number a string of decimal digits denotes, most significant first. */
  function DecimalValue(s: string): nat
    requires AllDecimalDigits(s)
  {
    if s == [] then 0 else 10 * DecimalValue(s[..|s| - 1]) + (s[|s| - 1] as int - '0' as int)
  }

  /** `n.to_s`: decimal digits, most significant first, no leading zero. */
  function Decimal(n: nat): (s: string)
    ensures |s| >= 1
    ensures AllDecimalDigits(s)
    ensures |s| > 1 ==> s[0] != '0'
    ensures DecimalValue(s) == n
    decreases n
  {
    if n < 10 then [DigitChar(n)]
    else
      var s := Decimal(n / 10) + [DigitChar(n % 10)];
      assert s[..|s| - 1] == Decimal(n / 10);
      s
  }
}
