/** What every front end shares about talking to the SR400 photon counter:
    the ASCII commands it writes, the loop that reads one comma-separated
    line of counts per period, and the choice of the serial resource.
    Writes are collected in a trace (a `seq<string>`, oldest first); the
    instrument's replies are an input sequence, and running out of replies
    stands for a read that times out and raises. */
module Instrument {
  import opened Base
  import opened PyText

  /** `CR`: reset the counters. */
  const ResetCommand: string := "CR\n"

  /** `CS`: start counting. */
  const StartCommand: string := "CS\n"

  /** `EA`: dump the stored counts of channel A, one period per line. */
  const DumpCommand: string := "EA\n"

  /** `NP n`: the number of periods per scan. */
  function PeriodsCommand(n: int): (c: string)
    ensures |c| > 3 && c[..3] == "NP " && c[|c| - 1] == '\n'
  {
    "NP " + IntToString(n) + "\n"
  }

  /** `CP2,<preset>`: the preset of counter T (the dwell time in 10 MHz ticks). */
  function PresetCommand(preset: string): (c: string)
    ensures |c| > 4 && c[..4] == "CP2," && c[|c| - 1] == '\n'
  {
    "CP2," + preset + "\n"
  }

  /** The count written into `NP n` is read back by `int()` from the text after `NP `. */
  lemma PeriodsCommandReadsBack(n: int)
    ensures ParseInt(PeriodsCommand(n)[3..]) == Some(n)
  {
    assert PeriodsCommand(n)[3..] == IntToString(n) + "\n";
    ParseIntOfTerminated(n, "\n");
  }

  // ---------------------------------------------------------------------
  // the read loop

  /** How many times `range(count)` runs: none for a count below one. */
  function RangeLength(count: int): (k: nat)
    ensures count <= 0 ==> k == 0
    ensures count > 0 ==> k == count
  {
    if count > 0 then count else 0
  }

  /** `for _ in range(n): line = read().rstrip(); ...`. Every iteration reads
      one reply. When `skipBlank` holds, a line that is empty after `rstrip`
      is skipped; every other line goes through `list(map(int, line.split(',')))`.
      `None`: a reply was missing (time-out) or a line did not parse, and the
      exception ends the loop with nothing returned. Since either exception
      loses every row, the loop is stated as reading the `n` replies first and
      then parsing them; a short reply list fails as the time-out would. */
  function ReadRows(replies: seq<string>, n: nat, skipBlank: bool): (r: Option<seq<seq<int>>>)
    ensures n > |replies| ==> r.None?
    ensures r.Some? ==> |r.value| <= n
    ensures r.Some? && !skipBlank ==> |r.value| == n
    ensures r.Some? ==> forall j :: 0 <= j < |r.value| ==> |r.value[j]| > 0
  {
    if n > |replies| then None else ParseLines(RStripAll(replies[..n]), skipBlank)
  }

  /** The loop body over the right-stripped lines, in reading order: a blank
      line is skipped when `skipBlank` holds, every other line must parse. */
  function ParseLines(lines: seq<string>, skipBlank: bool): (r: Option<seq<seq<int>>>)
    ensures r.Some? ==> |r.value| <= |lines|
    ensures r.Some? && !skipBlank ==> |r.value| == |lines|
    ensures r.Some? ==> forall j :: 0 <= j < |r.value| ==> |r.value[j]| > 0
  {
    if |lines| == 0 then Some([])
    else if skipBlank && lines[0] == "" then ParseLines(lines[1..], skipBlank)
    else
      var row := ParseIntList(lines[0]);
      var rest := ParseLines(lines[1..], skipBlank);
      if row.None? || rest.None? then None else Some([row.value] + rest.value)
  }

  /** The lines the loop keeps when blanks are skipped, right-stripped, in reading order. */
  function NonBlank(lines: seq<string>): (kept: seq<string>)
    ensures |kept| <= |lines|
    ensures forall j :: 0 <= j < |kept| ==> kept[j] != ""
  {
    if |lines| == 0 then []
    else if RStrip(lines[0]) == "" then NonBlank(lines[1..])
    else [RStrip(lines[0])] + NonBlank(lines[1..])
  }

  /** Every line right-stripped, blanks included. */
  function RStripAll(lines: seq<string>): (stripped: seq<string>)
    ensures |stripped| == |lines|
    ensures forall j :: 0 <= j < |lines| ==> stripped[j] == RStrip(lines[j])
  {
    if |lines| == 0 then [] else [RStrip(lines[0])] + RStripAll(lines[1..])
  }

  /** All-or-nothing parse of a list of lines. */
  function ParseRows(lines: seq<string>): (r: Option<seq<seq<int>>>)
    ensures r.Some? ==> |r.value| == |lines|
    ensures r.Some? ==> forall j :: 0 <= j < |lines| ==> ParseIntList(lines[j]) == Some(r.value[j])
  {
    if |lines| == 0 then Some([])
    else match (ParseIntList(lines[0]), ParseRows(lines[1..]))
      case (Some(row), Some(rows)) => Some([row] + rows)
      case _ => None
  }

  /** Stripping the first line and then the rest is stripping them all. */
  lemma RStripAllCons(lines: seq<string>)
    requires |lines| > 0
    ensures RStripAll(lines)[1..] == RStripAll(lines[1..])
  {
  }

  /** Parsing the stripped lines with blanks skipped is parsing the non-blank ones. */
  lemma {:induction false} ParseLinesSkipping(lines: seq<string>)
    ensures ParseLines(RStripAll(lines), true) == ParseRows(NonBlank(lines))
  {
    if |lines| > 0 {
      var line := RStrip(lines[0]);
      var kept := NonBlank(lines[1..]);
      RStripAllCons(lines);
      ParseLinesSkipping(lines[1..]);
      if line != "" {
        assert ([line] + kept)[0] == line;
        assert ([line] + kept)[1..] == kept;
      }
    }
  }

  /** Without the skip, the loop body is the all-or-nothing parse. */
  lemma {:induction false} ParseLinesStrict(lines: seq<string>)
    ensures ParseLines(lines, false) == ParseRows(lines)
  {
    if |lines| > 0 {
      ParseLinesStrict(lines[1..]);
    }
  }

  /** With blanks skipped, the loop parses exactly the non-blank lines among the
      first `n` replies, and fails exactly when one of those does not parse. */
  lemma ReadRowsSkipping(replies: seq<string>, n: nat)
    requires n <= |replies|
    ensures ReadRows(replies, n, true) == ParseRows(NonBlank(replies[..n]))
  {
    ParseLinesSkipping(replies[..n]);
  }

  /** Without the skip, the loop needs every one of the first `n` replies to parse. */
  lemma ReadRowsStrict(replies: seq<string>, n: nat)
    requires n <= |replies|
    ensures ReadRows(replies, n, false) == ParseRows(RStripAll(replies[..n]))
  {
    ParseLinesStrict(RStripAll(replies[..n]));
  }

  /** The loop reads exactly `n` replies: what comes after them is never looked at. */
  lemma ReadRowsPrefix(replies: seq<string>, more: seq<string>, n: nat, skipBlank: bool)
    requires n <= |replies|
    ensures ReadRows(replies + more, n, skipBlank) == ReadRows(replies, n, skipBlank)
  {
    assert (replies + more)[..n] == replies[..n];
  }

  /** The instrument's reply for one row: the counts joined by commas, then a line terminator. */
  function Replies(rows: seq<seq<int>>, terminator: string): (lines: seq<string>)
    ensures |lines| == |rows|
    ensures forall j :: 0 <= j < |rows| ==> lines[j] == FormatIntList(rows[j]) + terminator
  {
    if |rows| == 0 then [] else [FormatIntList(rows[0]) + terminator] + Replies(rows[1..], terminator)
  }

  /** The formatted rows, one line each. */
  function FormatRows(rows: seq<seq<int>>): (lines: seq<string>)
    ensures |lines| == |rows|
    ensures forall j :: 0 <= j < |rows| ==> lines[j] == FormatIntList(rows[j])
  {
    if |rows| == 0 then [] else [FormatIntList(rows[0])] + FormatRows(rows[1..])
  }

  /** Right-stripping the replies removes exactly the terminators. */
  lemma RStripReplies(rows: seq<seq<int>>, terminator: string)
    requires forall j :: 0 <= j < |rows| ==> |rows[j]| > 0
    requires forall i :: 0 <= i < |terminator| ==> IsSpace(terminator[i])
    ensures RStripAll(Replies(rows, terminator)) == FormatRows(rows)
  {
    forall j | 0 <= j < |rows|
      ensures RStrip(FormatIntList(rows[j]) + terminator) == FormatIntList(rows[j])
    {
      RStripTrailing(FormatIntList(rows[j]), terminator);
      FormatIntListPlain(rows[j]);
    }
  }

  /** A first line that parses, ahead of lines that parse, puts its row first. */
  lemma ParseLinesCons(lines: seq<string>, skipBlank: bool, row: seq<int>, rows: seq<seq<int>>)
    requires |lines| > 0 && lines[0] != "" && ParseIntList(lines[0]) == Some(row)
    requires ParseLines(lines[1..], skipBlank) == Some(rows)
    ensures ParseLines(lines, skipBlank) == Some([row] + rows)
  {
  }

  /** Formatted non-empty rows parse back to themselves. */
  lemma {:induction false} ParseFormattedLines(rows: seq<seq<int>>, skipBlank: bool)
    requires forall j :: 0 <= j < |rows| ==> |rows[j]| > 0
    ensures ParseLines(FormatRows(rows), skipBlank) == Some(rows)
  {
    if |rows| > 0 {
      var lines := FormatRows(rows);
      assert lines[1..] == FormatRows(rows[1..]);
      ParseFormattedLines(rows[1..], skipBlank);
      FormatIntListPlain(rows[0]);
      ParseFormatted(rows[0]);
      ParseLinesCons(lines, skipBlank, rows[0], rows[1..]);
      assert [rows[0]] + rows[1..] == rows;
    }
  }

  /** Rows the instrument formats are read back unchanged, whether or not blanks are skipped. */
  lemma ReadFormattedRows(rows: seq<seq<int>>, terminator: string, skipBlank: bool)
    requires forall j :: 0 <= j < |rows| ==> |rows[j]| > 0
    requires forall i :: 0 <= i < |terminator| ==> IsSpace(terminator[i])
    ensures ReadRows(Replies(rows, terminator), |rows|, skipBlank) == Some(rows)
  {
    var replies := Replies(rows, terminator);
    assert replies[..|rows|] == replies;
    RStripReplies(rows, terminator);
    ParseFormattedLines(rows, skipBlank);
  }

  /** A reply that is blank after `rstrip` adds no row when blanks are skipped, and
      makes the whole read fail when they are not (`int('')` raises). */
  lemma BlankReply(replies: seq<string>, n: nat)
    requires 0 < n <= |replies| && RStrip(replies[0]) == ""
    ensures ReadRows(replies, n, true) == ReadRows(replies[1..], n - 1, true)
    ensures ReadRows(replies, n, false).None?
  {
    BlankLineFails();
    assert replies[..n][1..] == replies[1..][..n - 1];
    RStripAllCons(replies[..n]);
  }

  // ---------------------------------------------------------------------
  // choosing the serial resource

  /** A resource the connect loop settles on: its name contains `ASRL` and
      `open_resource` on it succeeds (`opens`). */
  predicate Usable(resource: string, opens: string -> bool)
  {
    Contains(resource, "ASRL") && opens(resource)
  }

  /** The loop over `list_resources()` in `connect_to_sr400`: the position of
      the first usable resource, or `None` when there is none. */
  function FirstUsable(resources: seq<string>, opens: string -> bool): (k: Option<nat>)
    ensures k.Some? ==> k.value < |resources| && Usable(resources[k.value], opens)
    ensures k.Some? ==> forall j :: 0 <= j < k.value ==> !Usable(resources[j], opens)
    ensures k.None? ==> forall j :: 0 <= j < |resources| ==> !Usable(resources[j], opens)
  {
    if |resources| == 0 then None
    else if Usable(resources[0], opens) then Some(0)
    else match FirstUsable(resources[1..], opens)
      case None => None
      case Some(k) => Some(k + 1)
  }

  /** The chosen resource name. */
  function SelectResource(resources: seq<string>, opens: string -> bool): Option<string>
  {
    match FirstUsable(resources, opens)
    case None => None
    case Some(k) => Some(resources[k])
  }

  /** Resources listed later never change a choice already made, and are chosen
      from only when none of the earlier ones is usable. */
  lemma {:induction false} SelectResourceAppend(a: seq<string>, b: seq<string>, opens: string -> bool)
    ensures SelectResource(a + b, opens)
         == if SelectResource(a, opens).Some? then SelectResource(a, opens) else SelectResource(b, opens)
    decreases |a|
  {
    if |a| > 0 {
      assert (a + b)[0] == a[0];
      assert (a + b)[1..] == a[1..] + b;
      SelectResourceAppend(a[1..], b, opens);
    } else {
      assert a + b == b;
    }
  }

  /** A name without `ASRL` is never chosen, however it opens. */
  lemma SelectNeedsAsrl(resources: seq<string>, opens: string -> bool)
    ensures SelectResource(resources, opens).Some? ==> Contains(SelectResource(resources, opens).value, "ASRL")
    ensures SelectResource(resources, opens).Some? ==> opens(SelectResource(resources, opens).value)
  {
  }
}
