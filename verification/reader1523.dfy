/** `modified_1523reader.py`: the three-column plotting reader whose data
    source is a file path or an `SR400Device`. Stopping always resets the
    panel; a device source is halted with `CR` first. */
module Reader1523 {
  import opened Base
  import opened Recording
  import opened Series
  import opened Instrument
  import opened MainApp
  import opened Gui

  /** F, N and X. */
  const Width: nat := 3

  /** The state after `__init__`: not reading. */
  const Start: App := Initial(false, Width)

  /** `toggle_start_record`: flips the flag; switching it on while reading
      sets `is_recording` and toggles, which closes any open file. */
  function ToggleStartRecord(app: App, stamp: string, created: bool): (a: App)
    ensures a.startRecord == !app.startRecord
    ensures a.startRecord && app.reading ==> a.rec == SetThenToggle(app.rec, stamp, created)
    ensures !(a.startRecord && app.reading) ==> a.rec == app.rec
    ensures a == app.(startRecord := a.startRecord, rec := a.rec)
  {
    var a := app.(startRecord := !app.startRecord);
    if a.startRecord && app.reading then a.(rec := SetThenToggle(app.rec, stamp, created)) else a
  }

  /** `start_reading`: when not reading, start; with record-on-start set,
      `is_recording` is set and then toggled. Starting the reader thread is
      not modelled. */
  function StartReading(app: App, stamp: string, created: bool): (a: App)
    ensures app.reading ==> a == app
    ensures !app.reading ==> a.reading
    ensures !app.reading && app.startRecord ==> a == app.(reading := true, rec := SetThenToggle(app.rec, stamp, created))
    ensures !app.reading && !app.startRecord ==> a == app.(reading := true)
  {
    if app.reading then app
    else
      var a := app.(reading := true);
      if app.startRecord then a.(rec := SetThenToggle(app.rec, stamp, created)) else a
  }

  /** `reset_data`: queue, series, values and log cleared; unlike the other
      variants, the tail position is left alone. */
  function ResetData(app: App): (a: App)
    ensures a.queue == [] && a.panel == BlankPanel(Width)
    ensures a == app.(queue := [], panel := BlankPanel(Width))
  {
    ClearData(app, Width)
  }

  /** `stop_reading`: when reading, stop, switch recording off, and send
      `stop_acquisition`'s `CR` to a device source `d`; then reset whatever the
      state was. */
  function StopReading(app: App, source: Source, d: Device, stamp: string, created: bool): (a: App)
    ensures !a.reading && a.queue == [] && a.panel == BlankPanel(Width) && a.lastReadPos == app.lastReadPos
    ensures app.reading && source.DeviceSource? ==> a.sent == app.sent + [ResetCommand]
    ensures !(app.reading && source.DeviceSource?) ==> a.sent == app.sent
    ensures app.reading && Consistent(app.rec) ==> !a.rec.isRecording && a.rec.file.None?
    ensures !app.reading ==> a.rec == app.rec
    ensures a == app.(reading := false, rec := a.rec, sent := a.sent, queue := [], panel := BlankPanel(Width))
  {
    var a := if app.reading then
      var b := app.(reading := false);
      var c := if app.rec.isRecording then ToggleRecording(b, stamp, created) else b;
      if source.DeviceSource? then c.(sent := c.sent + StopAcquisition(d)) else c
    else app;
    ResetData(a)
  }

  /** One pass of `read_data_from_device` while reading: `acquire_data` on
      the device, and each row of a non-empty result put on the queue. The
      loop only runs for a device source and stops once reading is off. */
  function ReadFromDevice(app: App, source: Source, d: Device, preset: string, replies: seq<string>): (a: App)
    ensures !(app.reading && source.DeviceSource?) ==> a == app
    ensures app.reading && source.DeviceSource? ==>
      var acq := AcquireData(d, preset, replies);
      && a.sent == app.sent + acq.sent
      && a.queue == app.queue + (if acq.rows.Some? then CountRows(acq.rows.value) else [])
      && a == app.(sent := a.sent, queue := a.queue)
  {
    if !(app.reading && source.DeviceSource?) then app
    else
      var acq := AcquireData(d, preset, replies);
      var rows := if acq.rows.Some? then acq.rows.value else [];
      app.(sent := app.sent + acq.sent, queue := app.queue + CountRows(rows))
  }


  /** Record-on-start, whichever way it is reached, never leaves a recording
      running: the flag is set before the toggle, so the toggle switches off. */
  lemma RecordOnStartEndsIdle(app: App, stamp: string, created: bool)
    requires Consistent(app.rec)
    ensures !app.reading && app.startRecord ==>
      var a := StartReading(app, stamp, created);
      a.reading && !a.rec.isRecording && a.rec.file.None?
    ensures app.reading && !app.startRecord ==>
      var a := ToggleStartRecord(app, stamp, created);
      a.startRecord && !a.rec.isRecording && a.rec.file.None?
  {
  }

  /** Start then Stop from the initial application comes back to it, except
      that a device source has been sent the `CR` halt. */
  lemma StartStopFromStart(source: Source, d: Device, stamp: string, created: bool)
    ensures var a := StopReading(StartReading(Start, stamp, created), source, d, stamp, created);
      a == if source.DeviceSource? then Start.(sent := [ResetCommand]) else Start
  {
  }

  /** Every transition keeps the recorder consistent and leaks no file. */
  lemma TransitionsKeepRecorder(app: App, source: Source, d: Device, stamp: string, created: bool)
    requires Consistent(app.rec)
    ensures Consistent(StartReading(app, stamp, created).rec)
    ensures Consistent(StopReading(app, source, d, stamp, created).rec)
    ensures Consistent(ToggleStartRecord(app, stamp, created).rec)
    ensures Consistent(ToggleRecording(app, stamp, created).rec)
    ensures StopReading(app, source, d, stamp, created).rec.abandoned == app.rec.abandoned
  {
    ToggleKeepsConsistent(app.rec, stamp, created);
  }

  /** Stopping twice is stopping once: the second stop only resets what is
      already reset, and halts nothing. */
  lemma StopReadingTwice(app: App, source: Source, d: Device, stamp: string, created: bool, stamp': string, created': bool)
    ensures var a := StopReading(app, source, d, stamp, created);
      StopReading(a, source, d, stamp', created') == a
  {
  }

  /** One device pass on an idle queue whose replies are the formatted counts
      of every period, then one drain with the refresh throttled: the counts
      become the newest points of every series in order, the queue is empty,
      and the counter was sent the set-up commands and the closing `CR`. */
  lemma AcquireThenDrain(app: App, d: Device, preset: string, rows: seq<seq<int>>, more: seq<string>,
                         clock: seq<int>)
    requires app.reading && app.queue == []
    requires |rows| == d.numPeriods && |clock| >= |rows| && d.tset >= 0.0
    requires forall j :: 0 <= j < |rows| ==> |rows[j]| > 0
    ensures var a := ReadFromDevice(app, DeviceSource, d, preset, Replies(rows, "\r\n") + more);
      var r := Drain(a, clock, Width, true);
      && a.sent == app.sent + SetupCommands(preset, d.numPeriods) + [ResetCommand]
      && !r.1 && r.0.queue == []
      && r.0.panel.plot == AppendRows(app.panel.plot, RealRows(rows), clock[..|rows|])
  {
    var replies := Replies(rows, "\r\n") + more;
    AcquireFormatted(d, preset, rows, more);
    QueueAcquired(app, d, preset, replies, rows);
    DrainCountRows(ReadFromDevice(app, DeviceSource, d, preset, replies), rows, clock, Width);
  }

  /** A device pass whose acquisition returned `rows` queues exactly their counts. */
  lemma QueueAcquired(app: App, d: Device, preset: string, replies: seq<string>, rows: seq<seq<int>>)
    requires app.reading && app.queue == []
    requires AcquireData(d, preset, replies) == Acquisition(SetupCommands(preset, d.numPeriods) + [ResetCommand], Some(rows))
    ensures var a := ReadFromDevice(app, DeviceSource, d, preset, replies);
      && a.queue == CountRows(rows)
      && a.sent == app.sent + SetupCommands(preset, d.numPeriods) + [ResetCommand]
  {
    assert [] + CountRows(rows) == CountRows(rows);
  }
}
