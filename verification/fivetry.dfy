/** `fivetry1.py`: a single-window front end that talks to the SR400
    directly. Its reader thread derives the number of periods from the
    period entry, runs one counting cycle and queues the rows; the GUI side
    drains the queue with three displayed columns. */
module FiveTry {
  import opened Base
  import opened PyText
  import opened PyFloat
  import opened Validators
  import opened Instrument
  import opened Recording
  import opened Series
  import opened Gui

  /** What an empty period entry is read as. */
  const DefaultPeriodText: string := "1"

  /** The clamp on the number of periods per cycle. */
  const MaxPeriods: int := 2000

  /** Displayed columns: `f_value`, `n_value`, `x_value`. */
  const Width: nat := 3

  /** `if not tset_str: tset_str = "1"`. */
  function PeriodText(entry: string): (t: string)
    ensures t != ""
    ensures entry != "" ==> t == entry
  {
    if entry == "" then DefaultPeriodText else entry
  }

  /** The clamp `if n < 1: n = 1 elif n > 2000: n = 2000`. */
  function Clamp(k: int): (n: int)
    ensures 1 <= n <= MaxPeriods
    ensures 1 <= k <= MaxPeriods ==> n == k
    ensures k < 1 ==> n == 1
    ensures k > MaxPeriods ==> n == MaxPeriods
  {
    if k < 1 then 1 else if k > MaxPeriods then MaxPeriods else k
  }

  /** `int(1/tset)` clamped to `[1, 2000]`; `None` when `1/tset` raises
      `ZeroDivisionError` or `int()` rejects the NaN it gives. */
  function PeriodCount(tset: Float): (n: Option<int>)
    ensures n.Some? ==> 1 <= n.value <= MaxPeriods
    ensures n.None? <==> tset == Finite(0.0) || tset.NaN?
  {
    match Reciprocal(tset)
    case None => None
    case Some(inverse) =>
      match ToInt(inverse)
      case None => None
      case Some(k) => Some(Clamp(k))
  }

  /** A finite non-zero period gives `int(1/tset)` clamped; an infinite one gives 1. */
  lemma PeriodCountValue(tset: Float)
    ensures tset.Finite? && tset.v != 0.0 ==> PeriodCount(tset) == Some(Clamp(Trunc(1.0 / tset.v)))
    ensures tset.Inf? ==> PeriodCount(tset) == Some(1)
  {
  }

  /** Every period the field's validator admits yields a count, so the cycle
      never raises on the conversion. */
  lemma ValidPeriodCounts(text: string, parsed: Option<Float>)
    requires text != "" && ValidatePeriodInput(text, parsed)
    ensures PeriodCount(parsed.value).Some?
  {
  }

  /** Floor is monotone. */
  lemma TruncMonotone(a: real, b: real)
    requires 0.0 <= a <= b
    ensures Trunc(a) <= Trunc(b)
  {
  }

  /** `1/x` falls as a positive `x` grows. */
  lemma ReciprocalAntitone(v: real, w: real)
    requires 0.0 < v <= w
    ensures 1.0 / w <= 1.0 / v
  {
    var a, b := 1.0 / w, 1.0 / v;
    assert a * w == 1.0 && b * v == 1.0;
    assert b * v <= b * w;
    if a > b {
      assert a * w > b * w;
    }
  }

  /** A longer positive period never asks for more periods. */
  lemma PeriodCountMonotone(v: real, w: real)
    requires 0.0 < v <= w
    ensures PeriodCount(Finite(w)).value <= PeriodCount(Finite(v)).value
  {
    ReciprocalAntitone(v, w);
    TruncMonotone(1.0 / w, 1.0 / v);
  }

  /** Periods of a second or more are counted once; 1/2000 s or less hit the cap. */
  lemma PeriodCountBounds(v: real)
    requires v > 0.0
    ensures v >= 1.0 ==> PeriodCount(Finite(v)) == Some(1)
    ensures v <= 1.0 / 2000.0 ==> PeriodCount(Finite(v)) == Some(MaxPeriods)
  {
    if v >= 1.0 {
      assert 1.0 / v <= 1.0 by {
        assert (1.0 / v) * v == 1.0;
      }
    }
    if v <= 1.0 / 2000.0 {
      assert 1.0 / v >= 2000.0 by {
        assert (1.0 / v) * v == 1.0;
        assert v * 2000.0 <= 1.0;
      }
    }
  }

  /** One pass of the `while self.reading` loop of `read_data`. */
  datatype Cycle = Cycle(sent: seq<string>, queued: seq<seq<int>>, raised: bool)

  /** The writes of one cycle before the replies are read. */
  function CycleCommands(n: int): seq<string>
  {
    [PeriodsCommand(n), ResetCommand, StartCommand, DumpCommand]
  }

  /** The body of `read_data`'s loop. `connected` is `self.sr400` being set,
      `entry` the period field's text, `floatOf` Python's `float()` on text
      (`None` when it raises) and `replies` what the instrument answers.
      An exception anywhere leaves the queue alone and skips the final `CR`;
      the writes made before it stay made. */
  function ReadCycle(connected: bool, entry: string, floatOf: string -> Option<Float>,
                     replies: seq<string>): (c: Cycle)
    ensures !connected ==> c == Cycle([], [], true)
    ensures c.raised ==> c.queued == []
    ensures !c.raised ==> connected && floatOf(PeriodText(entry)).Some? && SleepAccepts(floatOf(PeriodText(entry)).value)
    ensures c.raised ==> c.sent == [] || (3 <= |c.sent| <= 4 && c.sent[1] == ResetCommand && c.sent[2] == StartCommand)
    ensures !c.raised ==>
      var n := PeriodCount(floatOf(PeriodText(entry)).value);
      && n.Some?
      && c.sent == CycleCommands(n.value) + [ResetCommand]
      && |c.queued| <= n.value
      && ReadRows(replies, n.value, true) == Some(c.queued)
  {
    if !connected then Cycle([], [], true)
    else match floatOf(PeriodText(entry))
      case None => Cycle([], [], true)
      case Some(tset) =>
        match PeriodCount(tset)
        case None => Cycle([], [], true)
        case Some(n) =>
          // `time.sleep(tset * (n + 1))` after `NP`, `CR`, `CS`: `n + 1` is
          // positive, so the duration is rejected exactly when `tset` is
          if !SleepAccepts(tset) then Cycle(CycleCommands(n)[..3], [], true)
          else match ReadRows(replies, n, true)
          case None => Cycle(CycleCommands(n), [], true)
          case Some(rows) => Cycle(CycleCommands(n) + [ResetCommand], rows, false)
  }

  /** An empty period entry runs a one-period cycle: `NP 1`, and one reply read. */
  lemma EmptyEntryReadsOnce(floatOf: string -> Option<Float>, row: seq<int>, more: seq<string>)
    requires floatOf(DefaultPeriodText) == Some(Finite(1.0))
    requires |row| > 0
    ensures ReadCycle(true, "", floatOf, Replies([row], "\r\n") + more)
         == Cycle(CycleCommands(1) + [ResetCommand], [row], false)
  {
    assert PeriodCount(Finite(1.0)) == Some(1);
    assert IsSpace('\r') && IsSpace('\n');
    ReadFormattedRows([row], "\r\n", true);
    ReadRowsPrefix(Replies([row], "\r\n"), more, 1, true);
  }

  /** A negative period gets past the conversion (the count clamps to 1) but
      not past the sleep: `NP 1`, `CR`, `CS` are written and the cycle raises. */
  lemma NegativePeriodHalts(entry: string, floatOf: string -> Option<Float>, replies: seq<string>, v: real)
    requires v < 0.0 && floatOf(PeriodText(entry)) == Some(Finite(v))
    ensures ReadCycle(true, entry, floatOf, replies) == Cycle([PeriodsCommand(1), ResetCommand, StartCommand], [], true)
  {
    assert 1.0 / v < 0.0;
    assert PeriodCount(Finite(v)) == Some(1);
  }

  /** With a valid entry and the counter answering every period, the cycle
      queues exactly the counted rows, in reading order, and sends the full
      command sequence `NP n, CR, CS, EA, CR`. */
  lemma CycleQueuesCounts(entry: string, floatOf: string -> Option<Float>,
                          rows: seq<seq<int>>, more: seq<string>)
    requires ValidatePeriodInput(PeriodText(entry), floatOf(PeriodText(entry)))
    requires PeriodCount(floatOf(PeriodText(entry)).value) == Some(|rows|)
    requires forall j :: 0 <= j < |rows| ==> |rows[j]| > 0
    ensures ReadCycle(true, entry, floatOf, Replies(rows, "\r\n") + more)
         == Cycle(CycleCommands(|rows|) + [ResetCommand], rows, false)
  {
    assert IsSpace('\r') && IsSpace('\n');
    ReadFormattedRows(rows, "\r\n", true);
    ReadRowsPrefix(Replies(rows, "\r\n"), more, |rows|, true);
  }

  /** The initial application: not reading. */
  const Start: App := Initial(false, Width)

  /** `read_data`, one pass of its `while self.reading` loop: the rows go to
      the back of the queue. Once reading is off the loop has ended and
      nothing happens. */
  function ReadData(app: App, connected: bool, entry: string, floatOf: string -> Option<Float>,
                    replies: seq<string>): (a: App)
    ensures !app.reading ==> a == app
    ensures app.queue <= a.queue && |a.queue| <= |app.queue| + MaxPeriods
    ensures app.sent <= a.sent && |a.sent| <= |app.sent| + 5
    ensures a == app.(queue := a.queue, sent := a.sent)
  {
    if !app.reading then app
    else
      var c := ReadCycle(connected, entry, floatOf, replies);
      app.(queue := app.queue + CountRows(c.queued), sent := app.sent + c.sent)
  }

  /** `toggle_start_record`: only the flag changes. */
  function ToggleStartRecord(app: App): (a: App)
    ensures a.startRecord == !app.startRecord
    ensures a == app.(startRecord := a.startRecord)
  {
    app.(startRecord := !app.startRecord)
  }

  /** `start_reading`: when not reading, start; with record-on-start the code
      sets `is_recording` and then toggles, which closes any file. */
  function StartReading(app: App, stamp: string, created: bool): (a: App)
    ensures app.reading ==> a == app
    ensures !app.reading ==> a.reading && a.queue == app.queue && a.panel == app.panel
    ensures !app.reading && app.startRecord ==> a.rec == SetThenToggle(app.rec, stamp, created)
    ensures !app.reading && !app.startRecord ==> a.rec == app.rec
    ensures a == app.(reading := a.reading, rec := a.rec)
  {
    if app.reading then app
    else
      var a := app.(reading := true);
      if app.startRecord then a.(rec := SetThenToggle(app.rec, stamp, created)) else a
  }

  /** `reset_data`: also rewinds the tail position. */
  function ResetData(app: App): (a: App)
    ensures a == ClearData(app, Width).(lastReadPos := 0)
  {
    ClearData(app, Width).(lastReadPos := 0)
  }

  /** `stop_reading`: if reading, stop and switch recording off; then reset
      the data whether or not reading was on. */
  function StopReading(app: App, stamp: string, created: bool): (a: App)
    ensures a.queue == [] && a.panel == BlankPanel(Width) && a.lastReadPos == 0 && !a.reading
    ensures app.reading && Consistent(app.rec) ==> !a.rec.isRecording && a.rec.file.None?
    ensures !app.reading ==> a.rec == app.rec
    ensures a == app.(reading := false, rec := a.rec, queue := [], panel := BlankPanel(Width), lastReadPos := 0)
  {
    var a := if app.reading then
      var b := app.(reading := false);
      if app.rec.isRecording then ToggleRecording(b, stamp, created) else b
    else app;
    ResetData(a)
  }


  /** Start then Stop from the initial application comes back to it exactly. */
  lemma StartStopFromStart(stamp: string, created: bool)
    ensures StopReading(StartReading(Start, stamp, created), stamp, created) == Start
  {
  }

  /** Record-on-start never leaves a recording running, as written; the
      recorder stays consistent under every transition. */
  lemma RecordOnStartEndsIdle(app: App, stamp: string, created: bool)
    requires !app.reading && app.startRecord && Consistent(app.rec)
    ensures var a := StartReading(app, stamp, created);
      a.reading && !a.rec.isRecording && a.rec.file.None? && Consistent(a.rec)
  {
  }

  /** Every transition keeps the recorder consistent and leaks no file. */
  lemma TransitionsKeepRecorder(app: App, stamp: string, created: bool)
    requires Consistent(app.rec)
    ensures Consistent(StartReading(app, stamp, created).rec)
    ensures Consistent(StopReading(app, stamp, created).rec)
    ensures Consistent(ToggleStartRecord(app).rec)
    ensures Consistent(ToggleRecording(app, stamp, created).rec)
    ensures StartReading(app, stamp, created).rec.abandoned == app.rec.abandoned
    ensures StopReading(app, stamp, created).rec.abandoned == app.rec.abandoned
  {
    ToggleKeepsConsistent(app.rec, stamp, created);
  }

  /** A cycle's rows, once drained, are the newest points of every series in
      reading order, and they leave the queue empty; a stopped application
      reads no rows and its plot is unchanged. */
  lemma CycleThenDrain(app: App, connected: bool, entry: string, floatOf: string -> Option<Float>,
                       replies: seq<string>, clock: seq<int>)
    requires app.queue == []
    requires |clock| >= |ReadCycle(connected, entry, floatOf, replies).queued|
    ensures var rows := if app.reading then ReadCycle(connected, entry, floatOf, replies).queued else [];
      var r := Drain(ReadData(app, connected, entry, floatOf, replies), clock, Width, true);
      && !r.1 && r.0.queue == []
      && r.0.panel.plot == AppendRows(app.panel.plot, RealRows(rows), clock[..|rows|])
  {
    var rows := if app.reading then ReadCycle(connected, entry, floatOf, replies).queued else [];
    var a := ReadData(app, connected, entry, floatOf, replies);
    assert a.queue == CountRows(rows);
    DrainCountRows(a, rows, clock, Width);
  }

  /** `connect_to_sr400`: the handle opened on the chosen resource, and
      whether the Start button is left enabled. */
  datatype Link = Link(sr400: Option<string>, startEnabled: bool)

  /** The first listed `ASRL` resource that opens is opened again for use
      (`reopens`); Start is enabled exactly when that succeeds. */
  function Connect(resources: seq<string>, opens: string -> bool, reopens: bool): (l: Link)
    ensures l.startEnabled <==> l.sr400.Some?
    ensures l.sr400.Some? <==> SelectResource(resources, opens).Some? && reopens
    ensures l.sr400.Some? ==> l.sr400 == SelectResource(resources, opens)
  {
    match SelectResource(resources, opens)
    case None => Link(None, false)
    case Some(r) => if reopens then Link(Some(r), true) else Link(None, false)
  }

  /** Start stays disabled exactly when no listed resource is usable or the second open fails. */
  lemma ConnectDisablesStart(resources: seq<string>, opens: string -> bool, reopens: bool)
    ensures !Connect(resources, opens, reopens).startEnabled <==>
      !reopens || forall j :: 0 <= j < |resources| ==> !Usable(resources[j], opens)
  {
  }
}
