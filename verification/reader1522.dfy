/** `1522reader.py`: the file-tailing reader with five displayed values
    (F, N, X and the small F and N) and three plotted series. It starts in
    the reading state, and its record-on-start switch has an OFF branch that
    goes through `toggle_recording` after clearing the flag. */
module Reader1522 {
  import opened Base
  import opened Recording
  import opened Series
  import opened Gui

  /** F, N, X, small F, small N. */
  const Width: nat := 5

  /** The state after `__init__`: `reading` is already `True`. */
  const Start: App := Initial(true, Width)

  /** `toggle_start_record`. Switching on while reading sets `is_recording`
      and toggles (so any open file is closed). Switching off clears
      `is_recording` and then, if a file handle is held, toggles: the toggle
      sees the flag clear and takes its ON branch. */
  function ToggleStartRecord(app: App, stamp: string, created: bool): (a: App)
    ensures a.startRecord == !app.startRecord
    ensures a.startRecord && app.reading ==> a.rec == SetThenToggle(app.rec, stamp, created)
    ensures !a.startRecord && app.rec.file.Some? ==> a.rec == Toggle(app.rec.(isRecording := false), stamp, created)
    ensures !a.startRecord && app.rec.file.None? ==> a.rec == app.rec.(isRecording := false)
    ensures a == app.(startRecord := a.startRecord, rec := a.rec)
  {
    var a := app.(startRecord := !app.startRecord);
    if a.startRecord then
      if app.reading then a.(rec := SetThenToggle(app.rec, stamp, created)) else a
    else
      var cleared := app.rec.(isRecording := false);
      if cleared.file.Some? then a.(rec := Toggle(cleared, stamp, created)) else a.(rec := cleared)
  }

  /** `start_reading`: when not reading, start. The record-on-start flag is
      not consulted here, and starting the file reader thread is not modelled. */
  function StartReading(app: App): (a: App)
    ensures a.reading
    ensures a == app.(reading := true)
  {
    if app.reading then app else app.(reading := true)
  }

  /** `reset_data`: the shared reset plus rewinding the tail position. */
  function ResetData(app: App): (a: App)
    ensures a.queue == [] && a.panel == BlankPanel(Width) && a.lastReadPos == 0
    ensures a == app.(queue := [], panel := BlankPanel(Width), lastReadPos := 0)
  {
    ClearData(app, Width).(lastReadPos := 0)
  }

  /** `stop_reading`: when reading, stop and switch recording off; then reset
      whatever the state was. */
  function StopReading(app: App, stamp: string, created: bool): (a: App)
    ensures !a.reading && a.queue == [] && a.panel == BlankPanel(Width) && a.lastReadPos == 0
    ensures app.reading && Consistent(app.rec) ==> !a.rec.isRecording && a.rec.file.None?
    ensures !app.reading ==> a.rec == app.rec
    ensures a.sent == app.sent && a.startRecord == app.startRecord
  {
    var a := if app.reading then
      var b := app.(reading := false);
      if app.rec.isRecording then ToggleRecording(b, stamp, created) else b
    else app;
    ResetData(a)
  }


  /** Start does nothing until Stop has been pressed once, because the
      application is created reading; after a stop it starts again. */
  lemma StartNeedsStop(stamp: string, created: bool)
    ensures StartReading(Start) == Start
    ensures var stopped := StopReading(Start, stamp, created);
      !stopped.reading && StartReading(stopped).reading
  {
  }

  /** As written, switching record-on-start off while a recording is running
      does not stop it: the flag is cleared, the toggle then opens a fresh file,
      and the old handle is dropped without being closed. If that open fails,
      the recorder is left off with the old handle still held. */
  lemma RecordOffReopens(app: App, stamp: string, created: bool)
    requires app.startRecord && app.rec.isRecording && app.rec.file.Some?
    ensures created ==>
      var r := ToggleStartRecord(app, stamp, created).rec;
      r.isRecording && r.file == Some(Handle(FileName(stamp))) && r.abandoned == app.rec.abandoned + 1
    ensures !created ==>
      var r := ToggleStartRecord(app, stamp, created).rec;
      !r.isRecording && r.file == app.rec.file && !Consistent(r)
  {
  }

  /** Switching record-on-start off with no file held only clears the flag. */
  lemma RecordOffWhenIdle(app: App, stamp: string, created: bool)
    requires app.startRecord && Consistent(app.rec) && !app.rec.isRecording
    ensures ToggleStartRecord(app, stamp, created) == app.(startRecord := false)
  {
  }

  /** Every transition but the record-on-start switch keeps the recorder
      consistent, and the switch keeps it so too when switching on. */
  lemma TransitionsKeepRecorder(app: App, stamp: string, created: bool)
    requires Consistent(app.rec)
    ensures Consistent(StartReading(app).rec)
    ensures Consistent(StopReading(app, stamp, created).rec)
    ensures Consistent(ToggleRecording(app, stamp, created).rec)
    ensures !app.startRecord ==> Consistent(ToggleStartRecord(app, stamp, created).rec)
    ensures StopReading(app, stamp, created).rec.abandoned == app.rec.abandoned
  {
    ToggleKeepsConsistent(app.rec, stamp, created);
  }

  /** After a stop the queue and panel are blank, so the next periodic drain
      raises nothing and changes nothing, throttled or not. */
  lemma DrainAfterStop(app: App, stamp: string, created: bool, clock: seq<int>, throttled: bool)
    ensures var stopped := StopReading(app, stamp, created);
      var r := Drain(stopped, clock, Width, throttled);
      !r.1 && r.0 == stopped
  {
    DrainIdle(StopReading(app, stamp, created), clock, Width, throttled);
  }
}
