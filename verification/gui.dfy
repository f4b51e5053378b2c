/** The state the plotting front ends (`fivetry1.py`, `1522reader.py`,
    `modified_1523reader.py`) have in common: the reading and record-on-start
    flags, the recorder, the row queue filled by the reader thread, the
    panel drawn from it, the file position of the tail reader, and the
    writes made to the instrument. */
module Gui {
  import opened Base
  import opened Recording
  import opened Series

  /** `data_source`: a file path, an instrument object, or nothing. */
  datatype Source = FileSource(path: string) | DeviceSource | NoSource

  datatype App = App(
    reading: bool,
    startRecord: bool,
    rec: Recorder,
    queue: seq<Row>,
    panel: Panel,
    lastReadPos: nat,
    sent: seq<string>)

  /** `width` displayed values, all `0.0`. */
  function Zeros(width: nat): (z: seq<real>)
    ensures |z| == width
    ensures forall i :: 0 <= i < width ==> z[i] == 0.0
  {
    seq(width, i requires 0 <= i < width => 0.0)
  }

  /** A panel with no points, no logged rows and every value at zero. */
  function BlankPanel(width: nat): Panel
  {
    Panel(EmptyPlot, Zeros(width), [])
  }

  /** The state right after `__init__`. */
  function Initial(reading: bool, width: nat): (app: App)
    ensures app.reading == reading && !app.startRecord && app.rec == Idle
    ensures app.queue == [] && app.panel == BlankPanel(width) && app.lastReadPos == 0 && app.sent == []
  {
    App(reading, false, Idle, [], BlankPanel(width), 0, [])
  }

  /** The part of `reset_data` every variant shares: the queue is cleared,
      every series and `data_list` emptied, every displayed value zeroed.
      Its closing `update_plot` has nothing left to trim. */
  function ClearData(app: App, width: nat): (a: App)
    ensures a.queue == [] && a.panel == BlankPanel(width)
    ensures a.reading == app.reading && a.startRecord == app.startRecord && a.rec == app.rec
    ensures a.lastReadPos == app.lastReadPos && a.sent == app.sent
  {
    app.(queue := [], panel := BlankPanel(width))
  }

  /** A blank panel is what `update_plot` leaves it, throttled or not. */
  lemma BlankPanelTrimmed(width: nat, throttled: bool)
    ensures UpdatePlot(BlankPanel(width).plot, throttled) == BlankPanel(width).plot
    ensures Lockstep(BlankPanel(width).plot)
  {
  }

  /** The Record button: `toggle_recording` on the application's recorder. */
  function ToggleRecording(app: App, stamp: string, created: bool): (a: App)
    ensures a.rec == Toggle(app.rec, stamp, created)
    ensures a == app.(rec := a.rec)
  {
    app.(rec := Toggle(app.rec, stamp, created))
  }

  /** `process_data_queue` with `width` displayed columns: the queue keeps
      only what the drain left in it. The flag tells whether the drain
      raised, which also ends the `after` chain that would have called it again. */
  function Drain(app: App, clock: seq<int>, width: nat, throttled: bool): (r: (App, bool))
    requires |clock| >= |app.queue|
    ensures IsSuffix(r.0.queue, app.queue)
    ensures |app.queue| > 0 ==> |r.0.queue| < |app.queue|
    ensures Lockstep(app.panel.plot) ==> Lockstep(r.0.panel.plot)
    ensures r.0 == app.(queue := r.0.queue, panel := r.0.panel)
  {
    var d := ProcessDataQueue(app.panel, app.queue, clock, width, throttled);
    (app.(queue := d.rest, panel := d.panel), d.raised)
  }

  /** The drain empties the queue unless it raised, and it raises exactly when
      some queued row has a cell `float()` rejects. */
  lemma DrainEmptiesQueue(app: App, clock: seq<int>, width: nat, throttled: bool)
    requires |clock| >= |app.queue|
    ensures var (a, raised) := Drain(app, clock, width, throttled);
      && (!raised <==> forall j :: 0 <= j < |app.queue| ==> Floats(app.queue[j]).Some?)
      && (!raised ==> a.queue == [])
  {
    DrainQueueRest(app.panel, app.queue, clock, width);
    GoodRowsSpec(app.queue);
  }

  /** With nothing queued and a blank panel, a drain raises nothing and changes nothing. */
  lemma DrainIdle(app: App, clock: seq<int>, width: nat, throttled: bool)
    requires app.queue == [] && app.panel == BlankPanel(width)
    ensures !Drain(app, clock, width, throttled).1
    ensures Drain(app, clock, width, throttled).0 == app
  {
    ProcessEmptyQueue(app.panel, clock, width, throttled, throttled);
    BlankPanelTrimmed(width, throttled);
  }

  /** Draining queued counts never raises, empties the queue, and (with the
      refresh throttled, so nothing is trimmed) appends one point per row to
      every series. */
  lemma DrainCountRows(app: App, rows: seq<seq<int>>, clock: seq<int>, width: nat)
    requires app.queue == CountRows(rows) && |clock| >= |rows|
    ensures !Drain(app, clock, width, true).1
    ensures Drain(app, clock, width, true).0.queue == []
    ensures Drain(app, clock, width, true).0.panel.plot == AppendRows(app.panel.plot, RealRows(rows), clock[..|rows|])
  {
    DrainCounts(app.panel, rows, clock, width);
  }
}
