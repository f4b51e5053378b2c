/** `Control_sr400.Sr400`: a thin driver object around one serial handle.
    Its state is the number of periods a read collects; what it writes is
    returned as a trace, and the replies it reads are an input. */
module ControlSr400 {
  import opened Base
  import opened PyText
  import opened Instrument

  /** The class attribute `numOfPeriods = 1`. */
  const DefaultPeriods: int := 1

  /** `connected`: whether `sr4` holds a handle, rather than the class
      attribute `None`. */
  datatype Sr400 = Sr400(connected: bool, numOfPeriods: int)

  /** How the constructor's `try` block ends: every step succeeds; a
      `ValueError` (the only exception it catches) is raised before
      `open_resource` returns, so `sr4` stays `None`; a `ValueError` is raised
      after the port opened (by the `NN` query, say), so the handle is kept; or
      any other exception (a VISA I/O error, say) leaves the constructor. */
  datatype OpenOutcome = Opened | ValueErrorBeforeOpen | ValueErrorAfterOpen | RaisedOther

  /** `Sr400(n_counts)`. On success the instance count becomes `n_counts`;
      the `ValueError` branch only reports, so the object exists with the
      class default count, and with a handle exactly when the port had opened;
      any other exception leaves the constructor and no object is made
      (`None`). The `NN` query and its answer are left to the transport. */
  function Create(nCounts: int, outcome: OpenOutcome): (d: Option<Sr400>)
    ensures d.Some? <==> !outcome.RaisedOther?
    ensures d.Some? ==> (d.value.connected <==> !outcome.ValueErrorBeforeOpen?)
    ensures d.Some? ==> d.value.numOfPeriods == if outcome.Opened? then nCounts else DefaultPeriods
  {
    match outcome
    case Opened => Some(Sr400(true, nCounts))
    case ValueErrorBeforeOpen => Some(Sr400(false, DefaultPeriods))
    case ValueErrorAfterOpen => Some(Sr400(true, DefaultPeriods))
    case RaisedOther => None
  }

  /** `write_com`: the command without its trailing whitespace, then one newline. */
  function WriteCom(command: string): (sent: string)
    ensures |sent| > 0 && sent[|sent| - 1] == '\n'
    ensures sent[..|sent| - 1] <= command
  {
    RStrip(command) + "\n"
  }

  /** What `write_com` sends ends in exactly one line break: the text before
      it has no trailing whitespace, and is the command's own text. */
  lemma WriteComSingleNewline(command: string)
    ensures var sent := WriteCom(command);
      && RStrip(sent[..|sent| - 1]) == sent[..|sent| - 1]
      && sent[..|sent| - 1] == RStrip(command)
  {
    RStripIdempotent(command);
    assert WriteCom(command)[..|WriteCom(command)| - 1] == RStrip(command);
  }

  /** A command that already ends in a newline is sent exactly like the bare command. */
  lemma WriteComNewline(command: string)
    ensures WriteCom(command + "\n") == WriteCom(command)
  {
    RStripTrailing(command, "\n");
  }

  /** Sending what `write_com` sends again changes nothing. */
  lemma WriteComIdempotent(command: string)
    ensures WriteCom(WriteCom(command)) == WriteCom(command)
  {
    RStripTrailing(RStrip(command), "\n");
    RStripIdempotent(command);
  }

  /** `numperiod(n_counts)`. */
  function NumPeriod(d: Sr400, nCounts: int): (d': Sr400)
    ensures d'.numOfPeriods == nCounts && d'.connected == d.connected
  {
    d.(numOfPeriods := nCounts)
  }

  /** Setting the count twice keeps only the second value. */
  lemma NumPeriodOverrides(d: Sr400, a: int, b: int)
    ensures NumPeriod(NumPeriod(d, a), b) == NumPeriod(d, b)
    ensures NumPeriod(d, d.numOfPeriods) == d
  {
  }

  /** The result of `single_read`: the writes and the rows collected in `fa`. */
  datatype Reading = Reading(sent: seq<string>, rows: Option<seq<seq<int>>>)

  /** `single_read(chanel)`. It writes `CR` and `CS` through `write_com`,
      then `E<chanel>` directly, and reads one reply per period with no
      blank-line skip. A failing read or parse raises out of the method
      (`rows == None`). Without a handle the first `write_com` raises
      `AttributeError` before anything is sent. */
  function SingleRead(d: Sr400, chanel: string, replies: seq<string>): (r: Reading)
    ensures d.connected ==> r.sent == [ResetCommand, StartCommand, "E" + chanel + "\n"]
    ensures !d.connected ==> r == Reading([], None)
    ensures r.rows.Some? ==> |r.rows.value| == RangeLength(d.numOfPeriods)
    ensures r.rows.Some? <==>
      (d.connected && RangeLength(d.numOfPeriods) <= |replies| && ReadRows(replies, RangeLength(d.numOfPeriods), false).Some?)
  {
    if !d.connected then Reading([], None)
    else
      ResetAndStartWrites();
      Reading([WriteCom("CR\n"), WriteCom("CS\n"), "E" + chanel + "\n"],
              ReadRows(replies, RangeLength(d.numOfPeriods), false))
  }

  /** `single_read()` with the default argument `chanel='A'`: a connected
      driver sends the dump command `EA`. */
  function SingleReadDefault(d: Sr400, replies: seq<string>): (r: Reading)
    ensures d.connected ==> r.sent == [ResetCommand, StartCommand, DumpCommand]
    ensures !d.connected ==> r.sent == [] && r.rows.None?
    ensures r.rows.Some? <==>
      (d.connected && RangeLength(d.numOfPeriods) <= |replies| && ReadRows(replies, RangeLength(d.numOfPeriods), false).Some?)
  {
    assert "E" + "A" + "\n" == DumpCommand;
    SingleRead(d, "A", replies)
  }

  /** `write_com` sends `CR` and `CS` unchanged. */
  lemma ResetAndStartWrites()
    ensures WriteCom("CR\n") == ResetCommand && WriteCom("CS\n") == StartCommand
  {
    WriteComLine("CR\n");
    WriteComLine("CS\n");
  }

  /** A line whose text ends in no whitespace is sent as it is. */
  lemma WriteComLine(line: string)
    requires |line| > 1 && line[|line| - 1] == '\n' && !IsSpace(line[|line| - 2])
    ensures WriteCom(line) == line
  {
    var text := line[..|line| - 1];
    assert line == text + "\n";
    WriteComNewline(text);
    assert RStrip(text) == text;
  }

  /** `single_read` consumes exactly `numOfPeriods` replies: a formatted reply
      per period reads back as the counts, and replies after those are ignored. */
  lemma SingleReadFormatted(d: Sr400, chanel: string, rows: seq<seq<int>>, more: seq<string>)
    requires d.connected
    requires |rows| == RangeLength(d.numOfPeriods)
    requires forall j :: 0 <= j < |rows| ==> |rows[j]| > 0
    ensures SingleRead(d, chanel, Replies(rows, "\r\n") + more).rows == Some(rows)
  {
    assert IsSpace('\r') && IsSpace('\n');
    ReadFormattedRows(rows, "\r\n", false);
    ReadRowsPrefix(Replies(rows, "\r\n"), more, |rows|, false);
  }

  /** A driver made with `n_counts` reads `n_counts` formatted rows per
      `single_read()`; one whose `NN` query raised `ValueError` keeps its
      handle and reads a single row, the class default; one whose port never
      opened sends nothing and reads nothing. */
  lemma CreatedReadsItsCount(nCounts: int, rows: seq<seq<int>>, row: seq<int>, more: seq<string>)
    requires |rows| == nCounts && forall j :: 0 <= j < |rows| ==> |rows[j]| > 0
    requires |row| > 0
    ensures SingleReadDefault(Create(nCounts, Opened).value, Replies(rows, "\r\n") + more).rows == Some(rows)
    ensures SingleReadDefault(Create(nCounts, ValueErrorAfterOpen).value, Replies([row], "\r\n") + more).rows == Some([row])
    ensures SingleReadDefault(Create(nCounts, ValueErrorBeforeOpen).value, Replies(rows, "\r\n") + more) == Reading([], None)
  {
    SingleReadFormatted(Create(nCounts, Opened).value, "A", rows, more);
    SingleReadFormatted(Create(nCounts, ValueErrorAfterOpen).value, "A", [row], more);
  }

  /** Unlike the GUI read loops, a blank reply is not skipped: it makes `int('')` raise. */
  lemma SingleReadBlankReply(d: Sr400, chanel: string, replies: seq<string>)
    requires d.numOfPeriods > 0 && |replies| > 0 && RStrip(replies[0]) == ""
    ensures SingleRead(d, chanel, replies).rows.None?
  {
    if RangeLength(d.numOfPeriods) <= |replies| {
      BlankReply(replies, RangeLength(d.numOfPeriods));
    }
  }
}
