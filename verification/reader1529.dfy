/** `modified_1529reader.py`: the experiment runner. Each pass of the device
    loop is one experiment: one `acquire_data`, whose rows are averaged per
    channel; the average of channel A is the experiment's value X. QA/QB
    polling is on from construction for a device and is never switched off;
    after M experiments the reading stops and the polling flags are set again.
    The queue is still drained, but only into the 10-row log. */
module Reader1529 {
  import opened Base
  import opened PyText
  import opened Recording
  import opened Series
  import opened Validators
  import opened Instrument
  import opened MainApp
  import opened Gui

  /** The application state the experiment loop and the buttons touch.
      `counter` is `current_experiment_num`, `numExperiments` is
      `num_experiments`, `averages` is `experiment_averages`, `log` is
      `data_list`. */
  datatype Session = Session(
    reading: bool,
    startRecord: bool,
    rec: Recorder,
    counter: int,
    numExperiments: int,
    aValues: seq<real>,
    bValues: seq<real>,
    xValues: seq<real>,
    averages: seq<real>,
    aValue: real,
    bValue: real,
    xValue: real,
    queue: seq<Row>,
    log: seq<seq<real>>,
    qaActive: bool,
    qbActive: bool,
    sent: seq<string>)

  /** The state after `__init__`: not reading, nothing collected and no
      experiment asked for (`num_experiments = 0`). A device source switches
      QA/QB polling on at once; a file source or none leaves it off. The
      counter is only created by `start_reading`; it is 0 here. */
  function Start(source: Source): (s: Session)
    ensures !s.reading && !s.startRecord && s.rec == Idle
    ensures s.counter == 0 && s.numExperiments == 0
    ensures s.qaActive == s.qbActive == source.DeviceSource?
    ensures s.queue == [] && s.log == [] && s.averages == [] && s.sent == []
  {
    var polling := source.DeviceSource?;
    Session(false, false, Idle, 0, 0, [], [], [], [], 0.0, 0.0, 0.0, [], [], polling, polling, [])
  }

  // ---------------------------------------------------------------------
  // buttons

  /** `toggle_start_record`: switching it on while reading and not yet
      recording sets `is_recording` and toggles, which takes the OFF branch. */
  function ToggleStartRecord(s: Session, stamp: string, created: bool): (r: Session)
    ensures r.startRecord == !s.startRecord
    ensures r.startRecord && s.reading && !s.rec.isRecording ==> r.rec == SetThenToggle(s.rec, stamp, created)
    ensures !(r.startRecord && s.reading && !s.rec.isRecording) ==> r.rec == s.rec
    ensures r == s.(startRecord := r.startRecord, rec := r.rec)
  {
    var t := s.(startRecord := !s.startRecord);
    if t.startRecord && s.reading && !s.rec.isRecording then t.(rec := SetThenToggle(s.rec, stamp, created)) else t
  }

  /** The Record button: `toggle_recording`. */
  function ToggleRecording(s: Session, stamp: string, created: bool): (r: Session)
    ensures r.rec == Toggle(s.rec, stamp, created) && r == s.(rec := r.rec)
  {
    s.(rec := Toggle(s.rec, stamp, created))
  }

  /** `int(m_entry.get())`, falling back to 1 when `int()` raises. */
  function ExperimentCount(text: string): (m: int)
    ensures ParseInt(text).Some? ==> m == ParseInt(text).value
    ensures ParseInt(text).None? ==> m == 1
  {
    match ParseInt(text)
    case Some(n) => n
    case None => 1
  }

  /** Any text the M field lets through yields between 1 and 1000
      experiments; the empty field falls back to one. */
  lemma ExperimentCountOfValidText(text: string)
    requires ValidateCountInput(text)
    ensures 1 <= ExperimentCount(text) <= MaxExperiments
  {
    if text == "" {
      assert ParseInt(text).None?;
    }
  }

  /** The numeral of `n` gives `n` experiments. */
  lemma ExperimentCountOfNumeral(n: int)
    ensures ExperimentCount(IntToString(n)) == n
  {
    ParseIntOfString(n);
  }

  /** `start_reading`. When not reading: the counter restarts at zero, reading
      begins, record-on-start (when not already recording) sets the flag and
      toggles, and M is read. When no reader thread is alive and the source is
      not a file, the per-experiment series are cleared before the device
      thread is started. */
  function StartReading(s: Session, source: Source, threadAlive: bool, mText: string,
                        stamp: string, created: bool): (r: Session)
    ensures s.reading ==> r == s
    ensures !s.reading ==> r.reading && r.counter == 0 && r.numExperiments == ExperimentCount(mText)
    ensures !s.reading && s.startRecord && !s.rec.isRecording ==> r.rec == SetThenToggle(s.rec, stamp, created)
    ensures !(s.startRecord && !s.rec.isRecording) ==> r.rec == s.rec
    ensures !s.reading && !threadAlive && !source.FileSource? ==>
      r.averages == [] && r.aValues == [] && r.bValues == [] && r.xValues == []
    ensures (threadAlive || source.FileSource?) ==>
      r.averages == s.averages && r.aValues == s.aValues && r.bValues == s.bValues && r.xValues == s.xValues
    ensures r.queue == s.queue && r.log == s.log && r.sent == s.sent
    ensures r.qaActive == s.qaActive && r.qbActive == s.qbActive
    ensures r == s.(reading := r.reading, counter := r.counter, rec := r.rec, numExperiments := r.numExperiments,
                    averages := r.averages, aValues := r.aValues, bValues := r.bValues, xValues := r.xValues)
  {
    if s.reading then s
    else
      var t := s.(counter := 0, reading := true);
      var u := if s.startRecord && !s.rec.isRecording then t.(rec := SetThenToggle(s.rec, stamp, created)) else t;
      var v := u.(numExperiments := ExperimentCount(mText));
      if !threadAlive && !source.FileSource? then
        v.(averages := [], aValues := [], bValues := [], xValues := [])
      else v
  }

  /** `stop_reading`: when reading, stop, switch recording off and halt a
      device source with `CR`. Nothing is reset: the collected averages stay. */
  function StopReading(s: Session, source: Source, d: Device, stamp: string, created: bool): (r: Session)
    ensures !r.reading
    ensures !s.reading ==> r == s
    ensures s.reading && Consistent(s.rec) ==> !r.rec.isRecording && r.rec.file.None?
    ensures s.reading && source.DeviceSource? ==> r.sent == s.sent + [ResetCommand]
    ensures !(s.reading && source.DeviceSource?) ==> r.sent == s.sent
    ensures r == s.(reading := r.reading, rec := r.rec, sent := r.sent)
  {
    if !s.reading then s
    else
      var t := s.(reading := false);
      var u := if s.rec.isRecording then t.(rec := Toggle(s.rec, stamp, created)) else t;
      if source.DeviceSource? then u.(sent := u.sent + StopAcquisition(d)) else u
  }

  // ---------------------------------------------------------------------
  // one experiment

  /** `[row[i] for row in data if len(row) > i]`. */
  function ColumnValues(rows: seq<seq<int>>, i: nat): (vs: seq<int>)
    ensures |vs| <= |rows|
  {
    if |rows| == 0 then []
    else (if |rows[0]| > i then [rows[0][i]] else []) + ColumnValues(rows[1..], i)
  }

  /** When every row is long enough, the column has one value per row, in order. */
  lemma {:induction false} ColumnValuesOfFullRows(rows: seq<seq<int>>, i: nat)
    requires forall j :: 0 <= j < |rows| ==> |rows[j]| > i
    ensures |ColumnValues(rows, i)| == |rows|
    ensures forall j :: 0 <= j < |rows| ==> ColumnValues(rows, i)[j] == rows[j][i]
  {
    if |rows| > 0 {
      ColumnValuesOfFullRows(rows[1..], i);
      var vs := ColumnValues(rows, i);
      assert vs == [rows[0][i]] + ColumnValues(rows[1..], i);
      assert forall j :: 1 <= j < |rows| ==> vs[j] == ColumnValues(rows[1..], i)[j - 1];
    }
  }

  /** When no row is long enough, the column is empty. */
  lemma {:induction false} ColumnValuesOfShortRows(rows: seq<seq<int>>, i: nat)
    requires forall j :: 0 <= j < |rows| ==> |rows[j]| <= i
    ensures ColumnValues(rows, i) == []
  {
    if |rows| > 0 {
      ColumnValuesOfShortRows(rows[1..], i);
    }
  }

  /** The column of a concatenation is the concatenation of the columns. */
  lemma {:induction false} ColumnValuesAppend(a: seq<seq<int>>, b: seq<seq<int>>, i: nat)
    ensures ColumnValues(a + b, i) == ColumnValues(a, i) + ColumnValues(b, i)
  {
    if |a| > 0 {
      assert (a + b)[0] == a[0];
      assert (a + b)[1..] == a[1..] + b;
      ColumnValuesAppend(a[1..], b, i);
    } else {
      assert a + b == b;
    }
  }

  /** A row too short for column `i` contributes nothing to it, wherever it
      sits: only rows with two or more counts feed channel B. */
  lemma ShortRowIgnored(a: seq<seq<int>>, row: seq<int>, b: seq<seq<int>>, i: nat)
    requires |row| <= i
    ensures ColumnValues(a + [row] + b, i) == ColumnValues(a + b, i)
  {
    ColumnValuesAppend(a + [row], b, i);
    ColumnValuesAppend(a, [row], i);
    ColumnValuesAppend(a, b, i);
    assert ColumnValues([row], i) == [] + ColumnValues([row][1..], i);
    assert ColumnValues(a, i) + [] == ColumnValues(a, i);
  }

  /** The body of `if data:` for the rows of one experiment. Channel A's
      average is appended (0 when no row has it) and displayed only when it
      exists; likewise channel B. X is `avg_a` whenever either channel has a
      value, else 0; it goes to both `experiment_averages` and `x_values`. The
      raw rows go to the queue. */
  function Experiment(s: Session, rows: seq<seq<int>>): (r: Session)
    ensures r.aValues == s.aValues + [MeanOrZero(ColumnValues(rows, 0))]
    ensures r.bValues == s.bValues + [MeanOrZero(ColumnValues(rows, 1))]
    ensures r.aValue == if |ColumnValues(rows, 0)| > 0 then MeanOrZero(ColumnValues(rows, 0)) else s.aValue
    ensures r.bValue == if |ColumnValues(rows, 1)| > 0 then MeanOrZero(ColumnValues(rows, 1)) else s.bValue
    ensures |r.averages| == |s.averages| + 1 && r.averages[..|s.averages|] == s.averages
    ensures r.xValues == s.xValues + [r.xValue] && r.averages[|s.averages|] == r.xValue
    ensures r.queue == s.queue + CountRows(rows)
    ensures r == s.(aValues := r.aValues, bValues := r.bValues, aValue := r.aValue, bValue := r.bValue,
                    xValue := r.xValue, averages := r.averages, xValues := r.xValues, queue := r.queue)
  {
    var a := ColumnValues(rows, 0);
    var b := ColumnValues(rows, 1);
    var avgA := if |a| > 0 then MeanOrZero(a) else 0.0;
    var avgB := if |b| > 0 then MeanOrZero(b) else 0.0;
    var x := if |a| > 0 || |b| > 0 then avgA else 0.0;
    s.(aValues := s.aValues + [avgA], aValue := if |a| > 0 then avgA else s.aValue,
       bValues := s.bValues + [avgB], bValue := if |b| > 0 then avgB else s.bValue,
       xValue := x, averages := s.averages + [x], xValues := s.xValues + [x],
       queue := s.queue + CountRows(rows))
  }

  /** X is the mean of channel A alone: channel B never enters it, so two
      experiments that agree on channel A record the same average. */
  lemma ExperimentValueIsMeanOfA(s: Session, rows: seq<seq<int>>, rows': seq<seq<int>>)
    requires ColumnValues(rows, 0) == ColumnValues(rows', 0)
    ensures Experiment(s, rows).xValue == MeanOrZero(ColumnValues(rows, 0))
    ensures Experiment(s, rows).averages == Experiment(s, rows').averages
    ensures Experiment(s, rows).xValues == Experiment(s, rows').xValues
  {
  }

  /** A one-channel dump: every row holds a single count. Channel B has no
      values, so 0 is plotted for it and its display keeps the old value, while
      A and X are the mean of the counts. */
  lemma SingleChannelExperiment(s: Session, rows: seq<seq<int>>)
    requires |rows| > 0
    requires forall j :: 0 <= j < |rows| ==> |rows[j]| == 1
    ensures var r := Experiment(s, rows);
      && r.bValues == s.bValues + [0.0] && r.bValue == s.bValue
      && r.aValue == r.xValue == MeanOrZero(ColumnValues(rows, 0))
      && |ColumnValues(rows, 0)| == |rows|
  {
    ColumnValuesOfShortRows(rows, 1);
    ColumnValuesOfFullRows(rows, 0);
  }

  /** The first half of a pass: the acquisition's writes, the counter
      advanced, and the experiment recorded when rows came back. */
  function RecordPass(s: Session, acq: Acquisition): (u: Session)
    ensures u.counter == s.counter + 1 && u.numExperiments == s.numExperiments && u.reading == s.reading
    ensures u.sent == s.sent + acq.sent
    ensures !(acq.rows.Some? && |acq.rows.value| > 0) ==> u == s.(counter := u.counter, sent := u.sent)
    ensures u == s.(counter := u.counter, sent := u.sent, aValues := u.aValues, bValues := u.bValues,
                    aValue := u.aValue, bValue := u.bValue, xValue := u.xValue, averages := u.averages,
                    xValues := u.xValues, queue := u.queue)
  {
    var t := s.(sent := s.sent + acq.sent, counter := s.counter + 1);
    if acq.rows.Some? && |acq.rows.value| > 0 then Experiment(t, acq.rows.value) else t
  }

  /** The second half: after the last experiment the reading stops (with its
      `CR`) and the QA/QB polling flags are set again, so polling is on
      afterwards; before it, nothing changes. The recorded data is kept either
      way. */
  function FinishPass(u: Session, source: Source, d: Device, stamp: string, created: bool): (r: Session)
    ensures u.counter < u.numExperiments ==> r == u
    ensures u.counter >= u.numExperiments ==> !r.reading && r.qaActive && r.qbActive
    ensures r.counter == u.counter && r.numExperiments == u.numExperiments && u.sent <= r.sent
    ensures r == u.(reading := r.reading, rec := r.rec, sent := r.sent, qaActive := r.qaActive, qbActive := r.qbActive)
  {
    if u.counter >= u.numExperiments then
      StopReading(u, source, d, stamp, created).(qaActive := true, qbActive := true)
    else u
  }

  /** One pass of `read_data_from_device` while reading a device: one
      acquisition, the counter advanced, the experiment recorded when rows came
      back, and after the last experiment the reading stopped (with its `CR`)
      and QA/QB polling on. A pass with reading off, or without a
      device, does nothing. */
  function ExperimentStep(s: Session, source: Source, d: Device, preset: string, replies: seq<string>,
                          stamp: string, created: bool): (r: Session)
    ensures !(s.reading && source.DeviceSource?) ==> r == s
    ensures s.reading && source.DeviceSource? ==>
      && r.counter == s.counter + 1 && r.numExperiments == s.numExperiments
      && (r.reading <==> r.counter < r.numExperiments)
      && (!r.reading ==> r.qaActive && r.qbActive)
      && s.sent <= r.sent
    ensures s.qaActive ==> r.qaActive
    ensures s.qbActive ==> r.qbActive
    ensures r.startRecord == s.startRecord && r.numExperiments == s.numExperiments && r.log == s.log
  {
    if !(s.reading && source.DeviceSource?) then s
    else FinishPass(RecordPass(s, AcquireData(d, preset, replies)), source, d, stamp, created)
  }

  /** An experiment whose replies are the formatted counts of every period
      records one average, the mean of channel A, and queues the counts. */
  lemma ExperimentStepFormatted(s: Session, d: Device, preset: string, rows: seq<seq<int>>, more: seq<string>,
                                stamp: string, created: bool)
    requires s.reading && |rows| == d.numPeriods && |rows| > 0 && d.tset >= 0.0
    requires forall j :: 0 <= j < |rows| ==> |rows[j]| > 0
    ensures var r := ExperimentStep(s, DeviceSource, d, preset, Replies(rows, "\r\n") + more, stamp, created);
      && r.averages == s.averages + [MeanOrZero(ColumnValues(rows, 0))]
      && r.queue == s.queue + CountRows(rows)
      && |ColumnValues(rows, 0)| == |rows|
  {
    AcquireFormatted(d, preset, rows, more);
    ColumnValuesOfFullRows(rows, 0);
    ExperimentStepRows(s, d, preset, Replies(rows, "\r\n") + more, rows, stamp, created);
  }

  lemma ExperimentStepRows(s: Session, d: Device, preset: string, replies: seq<string>, rows: seq<seq<int>>,
                           stamp: string, created: bool)
    requires s.reading && AcquireData(d, preset, replies).rows == Some(rows) && |rows| > 0
    ensures var r := ExperimentStep(s, DeviceSource, d, preset, replies, stamp, created);
      && r.averages == s.averages + [MeanOrZero(ColumnValues(rows, 0))]
      && r.queue == s.queue + CountRows(rows)
  {
    RecordPassRows(s, AcquireData(d, preset, replies), rows);
  }

  /** Rows that came back add the mean of channel A as the experiment's average and are queued. */
  lemma RecordPassRows(s: Session, acq: Acquisition, rows: seq<seq<int>>)
    requires acq.rows == Some(rows) && |rows| > 0
    ensures RecordPass(s, acq).averages == s.averages + [MeanOrZero(ColumnValues(rows, 0))]
    ensures RecordPass(s, acq).queue == s.queue + CountRows(rows)
  {
    var t := s.(sent := s.sent + acq.sent, counter := s.counter + 1);
    var u := Experiment(t, rows);
    assert RecordPass(s, acq) == u;
    ExperimentValueIsMeanOfA(t, rows, rows);
    assert u.averages == u.averages[..|s.averages|] + [u.averages[|s.averages|]];
  }

  /** An acquisition that fails still counts as an experiment but records nothing. */
  lemma ExperimentStepFailed(s: Session, d: Device, preset: string, replies: seq<string>,
                             stamp: string, created: bool)
    requires s.reading && AcquireData(d, preset, replies).rows.None?
    ensures var r := ExperimentStep(s, DeviceSource, d, preset, replies, stamp, created);
      r.counter == s.counter + 1 && r.averages == s.averages && r.queue == s.queue
  {
  }

  /** The device thread's loop, one batch of replies per pass. */
  function Run(s: Session, source: Source, d: Device, preset: string, batches: seq<seq<string>>,
               stamp: string, created: bool): (r: Session)
    ensures s.counter <= r.counter && r.numExperiments == s.numExperiments
    ensures s.qaActive ==> r.qaActive
    ensures s.qbActive ==> r.qbActive
    decreases |batches|
  {
    if |batches| == 0 then s
    else Run(ExperimentStep(s, source, d, preset, batches[0], stamp, created), source, d, preset, batches[1..], stamp, created)
  }

  /** Once reading is off, the loop does nothing more. */
  lemma {:induction false} RunWhenStopped(s: Session, source: Source, d: Device, preset: string,
                                          batches: seq<seq<string>>, stamp: string, created: bool)
    requires !s.reading
    ensures Run(s, source, d, preset, batches, stamp, created) == s
    decreases |batches|
  {
    if |batches| > 0 {
      RunWhenStopped(s, source, d, preset, batches[1..], stamp, created);
    }
  }

  /** Before the last experiment the loop keeps reading, one experiment per pass. */
  lemma {:induction false} RunContinues(s: Session, d: Device, preset: string, batches: seq<seq<string>>,
                                        stamp: string, created: bool)
    requires s.reading && s.counter + |batches| < s.numExperiments
    ensures var r := Run(s, DeviceSource, d, preset, batches, stamp, created);
      r.reading && r.counter == s.counter + |batches|
    decreases |batches|
  {
    if |batches| > 0 {
      var t := ExperimentStep(s, DeviceSource, d, preset, batches[0], stamp, created);
      RunContinues(t, d, preset, batches[1..], stamp, created);
    }
  }

  /** Started with a counter below M and given enough passes, the loop stops
      exactly at M experiments, with QA/QB polling on, whatever the replies. */
  lemma {:induction false} RunStops(s: Session, d: Device, preset: string, batches: seq<seq<string>>,
                                    stamp: string, created: bool)
    requires s.reading && 0 <= s.counter < s.numExperiments
    requires |batches| >= s.numExperiments - s.counter
    ensures var r := Run(s, DeviceSource, d, preset, batches, stamp, created);
      !r.reading && r.counter == s.numExperiments && r.qaActive && r.qbActive
    decreases |batches|
  {
    var t := ExperimentStep(s, DeviceSource, d, preset, batches[0], stamp, created);
    if t.reading {
      RunStops(t, d, preset, batches[1..], stamp, created);
    } else {
      RunWhenStopped(t, DeviceSource, d, preset, batches[1..], stamp, created);
    }
  }

  /** Pressing Start with any text the M field accepts, then letting the
      device loop run, stops after exactly M experiments (one for an empty field). */
  lemma StartThenRun(s: Session, threadAlive: bool, mText: string, d: Device, preset: string,
                     batches: seq<seq<string>>, stamp: string, created: bool)
    requires !s.reading && ValidateCountInput(mText)
    requires |batches| >= ExperimentCount(mText)
    ensures var started := StartReading(s, DeviceSource, threadAlive, mText, stamp, created);
      var r := Run(started, DeviceSource, d, preset, batches, stamp, created);
      !r.reading && r.counter == ExperimentCount(mText) && r.qaActive && r.qbActive
  {
    var started := StartReading(s, DeviceSource, threadAlive, mText, stamp, created);
    StartedCounter(s, threadAlive, mText, stamp, created);
    RunFromStart(started, ExperimentCount(mText), d, preset, batches, stamp, created);
  }

  lemma RunFromStart(started: Session, m: int, d: Device, preset: string, batches: seq<seq<string>>,
                     stamp: string, created: bool)
    requires started.reading && started.counter == 0 && started.numExperiments == m
    requires 1 <= m <= |batches|
    ensures var r := Run(started, DeviceSource, d, preset, batches, stamp, created);
      !r.reading && r.counter == m && r.qaActive && r.qbActive
  {
    RunStops(started, d, preset, batches, stamp, created);
  }

  lemma StartedCounter(s: Session, threadAlive: bool, mText: string, stamp: string, created: bool)
    requires !s.reading && ValidateCountInput(mText)
    ensures var started := StartReading(s, DeviceSource, threadAlive, mText, stamp, created);
      started.reading && started.counter == 0 && started.numExperiments == ExperimentCount(mText)
      && 1 <= ExperimentCount(mText)
  {
    ExperimentCountOfValidText(mText);
  }

  /** For a device, QA/QB polling is on from construction and stays on
      through Start and any number of passes, whether or not M is reached. */
  lemma DevicePollingStaysOn(threadAlive: bool, mText: string, d: Device, preset: string,
                             batches: seq<seq<string>>, stamp: string, created: bool)
    ensures var r := Run(StartReading(Start(DeviceSource), DeviceSource, threadAlive, mText, stamp, created),
                         DeviceSource, d, preset, batches, stamp, created);
      r.qaActive && r.qbActive
  {
  }

  /** Without a device the loop never runs: a session built for a file or no
      source stays exactly as Start left it. */
  lemma NoDeviceNoExperiments(source: Source, threadAlive: bool, mText: string, d: Device, preset: string,
                              batches: seq<seq<string>>, stamp: string, created: bool)
    requires !source.DeviceSource?
    ensures var started := StartReading(Start(source), source, threadAlive, mText, stamp, created);
      var r := Run(started, source, d, preset, batches, stamp, created);
      r == started && r.counter == 0 && !r.qaActive && !r.qbActive
  {
    var started := StartReading(Start(source), source, threadAlive, mText, stamp, created);
    RunWithoutDevice(started, source, d, preset, batches, stamp, created);
  }

  /** The loop's passes do nothing without a device. */
  lemma {:induction false} RunWithoutDevice(s: Session, source: Source, d: Device, preset: string,
                                            batches: seq<seq<string>>, stamp: string, created: bool)
    requires !source.DeviceSource?
    ensures Run(s, source, d, preset, batches, stamp, created) == s
    decreases |batches|
  {
    if |batches| > 0 {
      RunWithoutDevice(s, source, d, preset, batches[1..], stamp, created);
    }
  }

  // ---------------------------------------------------------------------
  // the queue

  /** The log after the drain loop, what is left in the queue, and whether a
      conversion raised (which also ends the `after` chain). */
  datatype LogDrain = LogDrain(log: seq<seq<real>>, rest: seq<Row>, raised: bool)

  /** The drain loop of this variant: each row is converted with `float()`
      and logged; nothing is plotted. */
  function DrainLog(log: seq<seq<real>>, queue: seq<Row>): (r: LogDrain)
    ensures IsSuffix(r.rest, queue) && (|queue| > 0 ==> |r.rest| < |queue|)
    decreases |queue|
  {
    if |queue| == 0 then LogDrain(log, [], false)
    else match Floats(queue[0])
      case None => LogDrain(log, queue[1..], true)
      case Some(numbers) => DrainLog(CapLog(log, numbers), queue[1..])
  }

  /** The log keeps the last 10 converted rows in arrival order; the drain
      raises exactly when some row does not convert, and otherwise empties
      the queue. */
  lemma {:induction false} DrainLogSpec(log: seq<seq<real>>, queue: seq<Row>)
    requires |log| <= MaxLogRows
    ensures var r := DrainLog(log, queue);
      && r.log == LastN(log + GoodRows(queue), MaxLogRows)
      && (r.raised <==> |GoodRows(queue)| < |queue|)
      && (!r.raised ==> r.rest == [])
    decreases |queue|
  {
    if |queue| == 0 || Floats(queue[0]).None? {
      assert GoodRows(queue) == [];
      assert log + [] == log;
    } else {
      var numbers := Floats(queue[0]).value;
      var rows := GoodRows(queue[1..]);
      DrainLogStep(log, queue);
      DrainLogSpec(CapLog(log, numbers), queue[1..]);
      LogAfterGoodRow(log, numbers, rows, DrainLog(log, queue).log);
    }
  }

  /** The log after a converted row and then `rows` is the log after all of them. */
  lemma LogAfterGoodRow(log: seq<seq<real>>, numbers: seq<real>, rows: seq<seq<real>>, after: seq<seq<real>>)
    requires |log| <= MaxLogRows
    requires after == LastN(CapLog(log, numbers) + rows, MaxLogRows)
    ensures after == LastN(log + ([numbers] + rows), MaxLogRows)
  {
    LogOfRows(log, numbers, rows);
    assert log + [numbers] + rows == log + ([numbers] + rows);
  }

  /** A row that converts is logged and the drain goes on with the rest. */
  lemma DrainLogStep(log: seq<seq<real>>, queue: seq<Row>)
    requires |queue| > 0 && Floats(queue[0]).Some?
    ensures DrainLog(log, queue) == DrainLog(CapLog(log, Floats(queue[0]).value), queue[1..])
    ensures GoodRows(queue) == [Floats(queue[0]).value] + GoodRows(queue[1..])
  {
  }

  /** `process_data_queue`. The recording write is not modelled. */
  function ProcessQueue(s: Session): (r: (Session, bool))
    ensures IsSuffix(r.0.queue, s.queue)
    ensures |s.log| <= MaxLogRows ==> |r.0.log| <= MaxLogRows
    ensures r.0 == s.(queue := r.0.queue, log := r.0.log)
  {
    var d := DrainLog(s.log, s.queue);
    if |s.log| <= MaxLogRows then
      DrainLogSpec(s.log, s.queue);
      (s.(queue := d.rest, log := d.log), d.raised)
    else (s.(queue := d.rest, log := d.log), d.raised)
  }

  /** From a log within its bound, `process_data_queue` keeps the last 10
      converted rows in order, raises exactly on a row that does not convert,
      and otherwise empties the queue. */
  lemma ProcessQueueLog(s: Session)
    requires |s.log| <= MaxLogRows
    ensures var r := ProcessQueue(s);
      && r.0.log == LastN(s.log + GoodRows(s.queue), MaxLogRows)
      && (r.1 <==> |GoodRows(s.queue)| < |s.queue|)
      && (!r.1 ==> r.0.queue == [])
  {
    DrainLogSpec(s.log, s.queue);
  }

  /** The counts queued by an experiment drain without error into the log,
      which then holds the last 10 of the old entries and the new rows. */
  lemma ProcessCounts(s: Session, rows: seq<seq<int>>)
    requires s.queue == CountRows(rows) && |s.log| <= MaxLogRows
    ensures var r := ProcessQueue(s);
      !r.1 && r.0.queue == [] && r.0.log == LastN(s.log + RealRows(rows), MaxLogRows)
  {
    DrainLogSpec(s.log, s.queue);
    GoodRowsOfCounts(rows);
  }

  /** Every button keeps the recorder consistent and leaks no file. */
  lemma TransitionsKeepRecorder(s: Session, source: Source, threadAlive: bool, mText: string, d: Device,
                                stamp: string, created: bool)
    requires Consistent(s.rec)
    ensures Consistent(StartReading(s, source, threadAlive, mText, stamp, created).rec)
    ensures Consistent(StopReading(s, source, d, stamp, created).rec)
    ensures Consistent(ToggleStartRecord(s, stamp, created).rec)
    ensures Consistent(ToggleRecording(s, stamp, created).rec)
    ensures StopReading(s, source, d, stamp, created).rec.abandoned == s.rec.abandoned
  {
    ToggleKeepsConsistent(s.rec, stamp, created);
  }
}
