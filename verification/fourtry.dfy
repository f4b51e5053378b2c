/** `fourtry1.py`: the Start / Pause / Reset scanner. A scan runs on a
    worker thread that sets the counter up, starts it, queries `FA` once and
    puts the stripped reply (or the exception) on a queue; `update_gui`
    drains the queue into the text area. Each step is modelled as atomic;
    the thread interleaving is not. */
module FourTry {
  import opened Base
  import opened PyText
  import opened Instrument

  /** `self.Tset = 3 * 10**3` and `self.NumofPeriods = 5`. */
  const Tset: int := 3000
  const NumOfPeriods: int := 5

  /** The status texts `pause_scan` and `reset_scan` put on the queue. */
  const PausedText: string := "Scan paused.\n"
  const ResetText: string := "Scan reset.\n"

  /** The identification query written right after opening the port. */
  const IdentifyCommand: string := "*IDN?\n"
  /** `CH`: halt counting. */
  const HaltCommand: string := "CH\n"
  /** `FA`: the query whose reply is the scan's data. */
  const QueryCommand: string := "FA\n"

  /** What the worker thread puts on the queue: a string or an exception. */
  datatype Item = Text(s: string) | Failure

  /** A line of the text area: inserted text, or `Data points: [...]`. */
  datatype Line = Message(text: string) | Points(values: seq<int>)

  /** `connected`: `self.sr4` is not `None`. `errors` are the titles of the
      error dialogs shown, oldest first. */
  datatype Scanner = Scanner(
    connected: bool,
    reading: bool,
    dataPoints: seq<int>,
    queue: seq<Item>,
    sent: seq<string>,
    shown: seq<Line>,
    errors: seq<string>)

  /** The state after `__init__`. */
  const Start: Scanner := Scanner(false, false, [], [], [], [], [])

  /** `setup_sr400`: reset, the preset of counter T, the period count. */
  function SetupCommands(): (c: seq<string>)
    ensures |c| == 3 && c[0] == ResetCommand
  {
    [ResetCommand, PresetCommand(IntToString(Tset)), PeriodsCommand(NumOfPeriods)]
  }

  /** The preset written is `CP2,3000`. */
  lemma SetupCommandsReadBack()
    ensures SetupCommands()[1] == "CP2,3000\n"
  {
    TsetText();
  }

  /** The period count read back from the `NP` command is 5. */
  lemma SetupPeriodsReadBack()
    ensures ParseInt(SetupCommands()[2][3..]) == Some(NumOfPeriods)
  {
    var c := SetupCommands();
    assert c[2] == PeriodsCommand(NumOfPeriods);
    PeriodsCommandReadsBack(NumOfPeriods);
  }

  lemma TsetText()
    ensures IntToString(Tset) == "3000"
  {
    assert DigitChar(3) == '3' && DigitChar(0) == '0';
    assert NatToString(3) == "3";
    assert NatToString(30) == NatToString(3) + [DigitChar(0)];
    assert NatToString(300) == NatToString(30) + [DigitChar(0)];
    assert NatToString(3000) == NatToString(300) + [DigitChar(0)];
  }

  /** Every write of one `perform_scan`, the query's own write last. */
  function ScanCommands(): (c: seq<string>)
    ensures |c| == 5 && c[..3] == SetupCommands() && c[3] == StartCommand && c[4] == QueryCommand
  {
    SetupCommands() + [StartCommand, QueryCommand]
  }

  /** The line `start_scan` inserts before reading begins. */
  const StartMessage: string := "Start scanning for " + IntToString(NumOfPeriods) + " periods.\n"

  /** `start_scan`. Ignored while reading. `connects` tells whether
      `connect_sr400` (open, then the `*IDN?` write) succeeds; on success the
      start message is shown, reading begins and `update_gui` drains what is
      already queued (the scan thread's own item comes later, through
      `PerformScan`); on failure both the connection dialog and the start
      dialog appear and `close_sr400` leaves no connection. */
  function StartScan(s: Scanner, connects: bool): (r: Scanner)
    ensures s.reading ==> r == s
    ensures !s.reading && connects ==>
      && r.reading && r.connected && r.queue == []
      && r.sent == s.sent + [IdentifyCommand]
      && s.shown + [Message(StartMessage)] <= r.shown && s.errors <= r.errors
      && |r.shown| + |r.errors| == |s.shown| + |s.errors| + 1 + |s.queue|
    ensures !s.reading && connects && s.queue == [] ==>
      r == s.(reading := true, connected := true, sent := r.sent, shown := s.shown + [Message(StartMessage)])
    ensures !s.reading && !connects ==>
      r == s.(connected := false, errors := s.errors + ["Connection Error", "Error"])
  {
    if s.reading then s
    else if connects then
      UpdateGui(s.(reading := true, connected := true, sent := s.sent + [IdentifyCommand],
                   shown := s.shown + [Message(StartMessage)]))
    else
      s.(connected := false, errors := s.errors + ["Connection Error", "Error"])
  }

  /** `close_sr400`, with `close()` itself assumed to succeed. */
  function CloseSr400(s: Scanner): (r: Scanner)
    ensures !r.connected && r == s.(connected := false)
  {
    s.(connected := false)
  }

  /** `perform_scan`. `delivered` is how many of the five writes succeed
      before one raises; `reply` is what the `FA` query reads (`None`: it timed
      out). A failure inside `setup_sr400` (including a missing connection)
      shows the set-up dialog first. Exactly one item is queued: the stripped
      reply, or the exception. Whatever happens, the `finally` block stops
      reading and closes the connection. */
  function PerformScan(s: Scanner, delivered: nat, reply: Option<string>): (r: Scanner)
    ensures !r.reading && !r.connected
    ensures |r.queue| == |s.queue| + 1 && r.queue[..|s.queue|] == s.queue
    ensures r.dataPoints == s.dataPoints && r.shown == s.shown
    ensures r.queue[|s.queue|].Text? <==> s.connected && delivered >= 5 && reply.Some?
    ensures r.queue[|s.queue|].Text? ==>
      r.queue[|s.queue|].s == Strip(reply.value) && r.sent == s.sent + ScanCommands() && r.errors == s.errors
    ensures r.queue[|s.queue|].Failure? ==>
      && s.sent <= r.sent
      && r.sent[|s.sent|..] <= ScanCommands()
      && (r.errors == s.errors + ["Setup Error"] <==> !s.connected || delivered < 3)
  {
    var after := if !s.connected then s.sent
                 else if delivered < 5 then s.sent + ScanCommands()[..delivered]
                 else s.sent + ScanCommands();
    var done := s.(reading := false, sent := after);
    var item := if s.connected && delivered >= 5 && reply.Some? then Text(Strip(reply.value)) else Failure;
    var errors := if !s.connected || delivered < 3 then s.errors + ["Setup Error"] else s.errors;
    assert after[|s.sent|..] <= ScanCommands();
    CloseSr400(done.(queue := s.queue + [item], errors := errors))
  }

  /** `pause_scan`, with `writes` telling whether the `CH` write succeeds. Only
      while reading: a successful halt queues the pause text and stops reading;
      a failing one (or a missing connection) queues the exception. */
  function PauseScan(s: Scanner, writes: bool): (r: Scanner)
    ensures !s.reading ==> r == s
    ensures s.reading && s.connected && writes ==>
      r == s.(sent := s.sent + [HaltCommand], queue := s.queue + [Text(PausedText)], reading := false)
    ensures s.reading && !(s.connected && writes) ==> r == s.(queue := s.queue + [Failure])
  {
    if !s.reading then s
    else if s.connected && writes then
      s.(sent := s.sent + [HaltCommand], queue := s.queue + [Text(PausedText)], reading := false)
    else s.(queue := s.queue + [Failure])
  }

  /** `reset_scan`: only with a connection. A successful `CR` clears the data
      points, queues the reset text and stops reading; a failing write queues
      the exception and changes nothing else. */
  function ResetScan(s: Scanner, writes: bool): (r: Scanner)
    ensures !s.connected ==> r == s
    ensures s.connected && writes ==>
      r == s.(sent := s.sent + [ResetCommand], dataPoints := [], queue := s.queue + [Text(ResetText)], reading := false)
    ensures s.connected && !writes ==> r == s.(queue := s.queue + [Failure])
  {
    if !s.connected then s
    else if writes then
      s.(sent := s.sent + [ResetCommand], dataPoints := [], queue := s.queue + [Text(ResetText)], reading := false)
    else s.(queue := s.queue + [Failure])
  }

  // ---------------------------------------------------------------------
  // update_gui

  /** A string the loop shows as it is rather than parsing it. */
  predicate IsStatus(t: string)
  {
    Contains(t, "Scan paused") || Contains(t, "Scan reset")
  }

  /** The data points an item carries: a non-status string every
      comma-separated piece of which `int()` accepts. */
  function PointsOf(item: Item): (p: Option<seq<int>>)
    ensures p.Some? ==> item.Text? && !IsStatus(item.s)
  {
    match item
    case Failure => None
    case Text(t) => if IsStatus(t) then None else ParseIntList(t)
  }

  /** One pass of the `while` loop on one item. A status text is inserted as
      it is; another string replaces the data points when every piece parses,
      and shows the data-error dialog (keeping the old points) otherwise; an
      exception shows the thread-error dialog. */
  function Show(s: Scanner, item: Item): (r: Scanner)
    ensures |r.shown| + |r.errors| == |s.shown| + |s.errors| + 1
    ensures s.shown <= r.shown && s.errors <= r.errors
    ensures r.dataPoints == if PointsOf(item).Some? then PointsOf(item).value else s.dataPoints
    ensures r == s.(dataPoints := r.dataPoints, shown := r.shown, errors := r.errors)
  {
    match item
    case Failure => s.(errors := s.errors + ["Error"])
    case Text(t) =>
      if IsStatus(t) then s.(shown := s.shown + [Message(t)])
      else match ParseIntList(t)
        case Some(points) => s.(dataPoints := points, shown := s.shown + [Points(points)])
        case None => s.(errors := s.errors + ["Data Error"])
  }

  /** The loop over the items, oldest first. */
  function ShowAll(s: Scanner, items: seq<Item>): (r: Scanner)
    ensures |r.shown| + |r.errors| == |s.shown| + |s.errors| + |items|
    ensures s.shown <= r.shown && s.errors <= r.errors
    ensures r == s.(dataPoints := r.dataPoints, shown := r.shown, errors := r.errors)
    decreases |items|
  {
    if |items| == 0 then s else ShowAll(Show(s, items[0]), items[1..])
  }

  /** `update_gui`: the whole queue is drained. Every item ends up as exactly
      one shown line or one error dialog. Its rescheduling through `after` is
      not modelled. */
  function UpdateGui(s: Scanner): (r: Scanner)
    ensures r.queue == []
    ensures |r.shown| + |r.errors| == |s.shown| + |s.errors| + |s.queue|
    ensures s.shown <= r.shown && s.errors <= r.errors
    ensures r.connected == s.connected && r.reading == s.reading && r.sent == s.sent
  {
    ShowAll(s.(queue := []), s.queue)
  }

  /** The data points after a drain, read from the newest item backwards:
      those of the newest item that carries any, or the old ones. */
  function LastPoints(items: seq<Item>, current: seq<int>): seq<int>
  {
    if |items| == 0 then current
    else match PointsOf(items[|items| - 1])
      case Some(p) => p
      case None => LastPoints(items[..|items| - 1], current)
  }

  /** Showing one more item at the end is one more loop pass. */
  lemma {:induction false} ShowAllSnoc(s: Scanner, items: seq<Item>, item: Item)
    ensures ShowAll(s, items + [item]) == Show(ShowAll(s, items), item)
    decreases |items|
  {
    if |items| == 0 {
      assert ShowAll(Show(s, item), []) == Show(s, item);
    } else {
      assert (items + [item])[0] == items[0];
      assert (items + [item])[1..] == items[1..] + [item];
      ShowAllSnoc(Show(s, items[0]), items[1..], item);
    }
  }

  /** The loop leaves the points of the newest item that carries any. */
  lemma {:induction false} ShowAllPoints(s: Scanner, items: seq<Item>)
    ensures ShowAll(s, items).dataPoints == LastPoints(items, s.dataPoints)
    decreases |items|
  {
    if |items| > 0 {
      var front := items[..|items| - 1];
      var last := items[|items| - 1];
      assert front + [last] == items;
      ShowAllSnoc(s, front, last);
      ShowAllPoints(s, front);
    }
  }

  /** After `update_gui`, the data points are those of the newest queued item
      that parses, or unchanged when none does. */
  lemma UpdateGuiPoints(s: Scanner)
    ensures UpdateGui(s).dataPoints == LastPoints(s.queue, s.dataPoints)
  {
    ShowAllPoints(s.(queue := []), s.queue);
  }

  // ---------------------------------------------------------------------
  // what the loop does with each kind of item

  /** A formatted row holds neither status text: it has no capital `S`. */
  lemma FormattedIsData(row: seq<int>)
    ensures !IsStatus(FormatIntList(row))
  {
    var t := FormatIntList(row);
    FormatIntListChars(row);
    assert forall i :: 0 <= i < |t| ==> t[i] != 'S';
    LacksFirstChar(t, "Scan paused");
    LacksFirstChar(t, "Scan reset");
  }

  /** The queued reply of a scan, a formatted non-empty row, becomes the data points. */
  lemma ShowFormatted(s: Scanner, row: seq<int>)
    requires |row| > 0
    ensures Show(s, Text(FormatIntList(row))) == s.(dataPoints := row, shown := s.shown + [Points(row)])
  {
    FormattedIsData(row);
    ParseFormatted(row);
  }

  /** The pause and reset texts are shown verbatim and leave the data points alone. */
  lemma ShowStatus(s: Scanner)
    ensures Show(s, Text(PausedText)) == s.(shown := s.shown + [Message(PausedText)])
    ensures Show(s, Text(ResetText)) == s.(shown := s.shown + [Message(ResetText)])
  {
    ContainsInside("", "Scan paused", ".\n");
    assert "" + "Scan paused" + ".\n" == PausedText;
    ContainsInside("", "Scan reset", ".\n");
    assert "" + "Scan reset" + ".\n" == ResetText;
  }

  /** A reply that is not a list of integers shows the data-error dialog and
      keeps the previous points. */
  lemma ShowGarbage(s: Scanner, t: string)
    requires !IsStatus(t) && ParseIntList(t).None?
    ensures Show(s, Text(t)) == s.(errors := s.errors + ["Data Error"])
  {
  }

  // ---------------------------------------------------------------------
  // a whole scan

  /** The counter's reply: the counts joined by commas with a line ending. */
  function ScanReply(row: seq<int>): string
  {
    FormatIntList(row) + "\r\n"
  }

  /** The queued text of a scan is the formatted row without its line ending. */
  lemma ScanReplyStrips(row: seq<int>)
    requires |row| > 0
    ensures Strip(ScanReply(row)) == FormatIntList(row)
  {
    var t := FormatIntList(row);
    assert IsSpace('\r') && IsSpace('\n');
    RStripTrailing(t, "\r\n");
    FormatIntListPlain(row);
    FormatIntListChars(row);
    assert !IsSpace(t[0]);
  }

  /** Start, a scan whose five writes go through and whose `FA` reply is a
      formatted row, then one `update_gui`: the row is the data points, the
      counter was sent the identification query and the scan commands in
      order, and the scanner is idle and disconnected again. */
  lemma ScanRoundTrip(s: Scanner, row: seq<int>)
    requires !s.reading && s.queue == [] && |row| > 0
    ensures var r := UpdateGui(PerformScan(StartScan(s, true), 5, Some(ScanReply(row))));
      && r.dataPoints == row
      && r.sent == s.sent + [IdentifyCommand] + ScanCommands()
      && !r.reading && !r.connected && r.queue == []
      && r.errors == s.errors
      && r.shown == s.shown + [Message(StartMessage), Points(row)]
  {
    var started := StartScan(s, true);
    var scanned := PerformScan(started, 5, Some(ScanReply(row)));
    ScanReplyStrips(row);
    assert scanned.queue == [Text(FormatIntList(row))];
    ShowFormatted(scanned.(queue := []), row);
    assert UpdateGui(scanned) == ShowAll(Show(scanned.(queue := []), Text(FormatIntList(row))), []);
  }

  /** The first scan of a fresh scanner: the start line and then the row are
      the only lines shown, no dialog appears, and the counter was sent the
      identification query and the scan commands. */
  lemma FirstScan(row: seq<int>)
    requires |row| > 0
    ensures var r := UpdateGui(PerformScan(StartScan(Start, true), 5, Some(ScanReply(row))));
      && r.shown == [Message(StartMessage), Points(row)] && r.errors == []
      && r.dataPoints == row && r.sent == [IdentifyCommand] + ScanCommands()
  {
    ScanRoundTrip(Start, row);
  }

  /** A scan always ends idle and disconnected, whatever fails, so a later
      `pause_scan` does nothing and a later `reset_scan` sends nothing. */
  lemma ScanEndsIdle(s: Scanner, delivered: nat, reply: Option<string>, writes: bool)
    ensures var r := PerformScan(s, delivered, reply);
      PauseScan(r, writes) == r && ResetScan(r, writes) == r
  {
  }

  /** A reset followed by `update_gui` with nothing else queued: the points
      are cleared and the reset text is shown. */
  lemma ResetShown(s: Scanner)
    requires s.connected && s.queue == []
    ensures var r := UpdateGui(ResetScan(s, true));
      r.dataPoints == [] && r.shown == s.shown + [Message(ResetText)] && !r.reading
  {
    var reset := ResetScan(s, true);
    ShowStatus(reset.(queue := []));
    assert UpdateGui(reset) == ShowAll(Show(reset.(queue := []), Text(ResetText)), []);
  }
}
