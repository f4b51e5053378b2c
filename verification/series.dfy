/** The GUI side of the producer/consumer pair: `process_data_queue` takes
    every queued row in FIFO order, converts its cells with `float()`, shows
    the first columns, appends one point to every plotted series, keeps the
    10 most recent rows in `data_list`, and finally `update_plot` trims the
    series to their last 100 points. */
module Series {
  import opened Base

  /** `MAX_DATA_POINTS`. */
  const MaxDataPoints: nat := 100

  /** `data_list` keeps at most this many rows. */
  const MaxLogRows: nat := 10

  /** A queued cell after `float(cell)`: `None` when the conversion raises. */
  type Cell = Option<real>

  /** One queued row (a CSV row or a list of counts). */
  type Row = seq<Cell>

  /** The plotted series: `times`, `f_values`, `n_values`, `x_values`. */
  datatype Plot = Plot(times: seq<int>, f: seq<real>, n: seq<real>, x: seq<real>)

  const EmptyPlot: Plot := Plot([], [], [], [])

  /** All series have one entry per drained row. */
  predicate Lockstep(p: Plot)
  {
    |p.f| == |p.times| && |p.n| == |p.times| && |p.x| == |p.times|
  }

  /** The trimming step of `update_plot`: when `times` has more than 100
      entries, every series is cut to its own last 100 entries. */
  function Trim(p: Plot): (q: Plot)
    ensures |q.times| <= MaxDataPoints
    ensures Lockstep(p) ==> Lockstep(q)
  {
    if |p.times| > MaxDataPoints then
      Plot(LastN(p.times, MaxDataPoints), LastN(p.f, MaxDataPoints),
           LastN(p.n, MaxDataPoints), LastN(p.x, MaxDataPoints))
    else p
  }

  /** Trimming keeps, of every series, a suffix: exactly the last 100
      entries once `times` is longer than that, and everything otherwise. */
  lemma TrimKeepsSuffixes(p: Plot)
    ensures var q := Trim(p);
      && IsSuffix(q.times, p.times) && IsSuffix(q.f, p.f) && IsSuffix(q.n, p.n) && IsSuffix(q.x, p.x)
      && (|p.times| > MaxDataPoints ==> |q.times| == MaxDataPoints)
      && (|p.times| <= MaxDataPoints ==> q == p)
  {
  }

  /** Trimming twice is trimming once. */
  lemma TrimIdempotent(p: Plot)
    ensures Trim(Trim(p)) == Trim(p)
  {
  }

  /** `update_plot` minus the drawing: `throttled` stands for the wall-clock
      test `current_time - last_plot_time < PLOT_UPDATE_INTERVAL`, which
      returns before anything is trimmed. */
  function UpdatePlot(p: Plot, throttled: bool): Plot
  {
    if throttled then p else Trim(p)
  }

  /** `numbers[i] if len(numbers) > i else 0.0`. */
  function Column(numbers: seq<real>, i: nat): real
  {
    if i < |numbers| then numbers[i] else 0.0
  }

  /** The displayed values `f_value, n_value, x_value, ...` for one row. */
  function Columns(numbers: seq<real>, width: nat): (vs: seq<real>)
    ensures |vs| == width
    ensures forall i :: 0 <= i < width ==> vs[i] == Column(numbers, i)
  {
    seq(width, i requires 0 <= i < width => Column(numbers, i))
  }

  /** Column `i` of every row in order: what the appends contribute to one series. */
  function ColumnOf(rows: seq<seq<real>>, i: nat): (c: seq<real>)
    ensures |c| == |rows|
    ensures forall j :: 0 <= j < |rows| ==> c[j] == Column(rows[j], i)
  {
    seq(|rows|, j requires 0 <= j < |rows| => Column(rows[j], i))
  }

  /** `list(map(float, row))`: every cell's value, or `None` when one raises. */
  function Floats(row: Row): (r: Option<seq<real>>)
    ensures r.Some? ==> |r.value| == |row|
  {
    if |row| == 0 then Some([])
    else match (row[0], Floats(row[1..]))
      case (Some(v), Some(vs)) => Some([v] + vs)
      case _ => None
  }

  /** The conversion succeeds exactly when every cell converts, and then keeps every value in place. */
  lemma {:induction false} FloatsSpec(row: Row)
    ensures Floats(row).Some? <==> forall j :: 0 <= j < |row| ==> row[j].Some?
    ensures Floats(row).Some? ==> forall j :: 0 <= j < |row| ==> Floats(row).value[j] == row[j].value
  {
    if |row| > 0 {
      FloatsSpec(row[1..]);
      assert forall j :: 1 <= j < |row| ==> row[j] == row[1..][j - 1];
    }
  }

  /** A queued row of counts, as `float()` sees it. */
  function CountCells(counts: seq<int>): (row: Row)
    ensures |row| == |counts|
    ensures forall j :: 0 <= j < |counts| ==> row[j] == Some(counts[j] as real)
  {
    seq(|counts|, j requires 0 <= j < |counts| => Some(counts[j] as real))
  }

  /** Rows of counts always convert: `float()` of an integer never raises. */
  lemma CountCellsConvert(counts: seq<int>)
    ensures Floats(CountCells(counts)) == Some(Reals(counts))
  {
    FloatsSpec(CountCells(counts));
    assert Floats(CountCells(counts)).value == Reals(counts);
  }

  /** Integer counts as reals. */
  function Reals(counts: seq<int>): (vs: seq<real>)
    ensures |vs| == |counts|
    ensures forall j :: 0 <= j < |counts| ==> vs[j] == counts[j] as real
  {
    seq(|counts|, j requires 0 <= j < |counts| => counts[j] as real)
  }

  /** Rows of counts from the instrument, as the reader thread queues them. */
  function CountRows(rows: seq<seq<int>>): (q: seq<Row>)
    ensures |q| == |rows|
    ensures forall j :: 0 <= j < |rows| ==> q[j] == CountCells(rows[j])
  {
    seq(|rows|, j requires 0 <= j < |rows| => CountCells(rows[j]))
  }

  /** Every row of counts, as reals. */
  function RealRows(rows: seq<seq<int>>): (rs: seq<seq<real>>)
    ensures |rs| == |rows|
    ensures forall j :: 0 <= j < |rows| ==> rs[j] == Reals(rows[j])
  {
    seq(|rows|, j requires 0 <= j < |rows| => Reals(rows[j]))
  }

  /** Queued counts all convert: the converted prefix is the whole queue. */
  lemma {:induction false} GoodRowsOfCounts(rows: seq<seq<int>>)
    ensures GoodRows(CountRows(rows)) == RealRows(rows)
    decreases |rows|
  {
    if |rows| > 0 {
      var q := CountRows(rows);
      CountCellsConvert(rows[0]);
      assert q[1..] == CountRows(rows[1..]);
      GoodRowsOfCounts(rows[1..]);
      assert GoodRows(q) == [Reals(rows[0])] + RealRows(rows[1..]);
    }
  }

  /** `data_list.append(entry)` followed by `pop(0)` when it grew past 10. */
  function CapLog<T>(log: seq<T>, entry: T): (r: seq<T>)
    ensures |log| <= MaxLogRows ==> r == LastN(log + [entry], MaxLogRows)
    ensures |log| <= MaxLogRows ==> |r| <= MaxLogRows
    ensures |r| > 0 && r[|r| - 1] == entry
  {
    var grown := log + [entry];
    if |grown| > MaxLogRows then grown[1..] else grown
  }

  /** Cutting to the last `k` before appending more changes nothing once the result is cut again. */
  lemma {:induction false} LastNConcat<T>(s: seq<T>, t: seq<T>, k: nat)
    ensures LastN(LastN(s, k) + t, k) == LastN(s + t, k)
  {
    var u := LastN(s, k);
    assert u == s[|s| - |u|..];
    if |s| > k {
      var a := u + t;
      var b := s + t;
      assert a == b[|s| - k..];
      if |a| > k {
        assert a[|a| - k..] == b[|b| - k..];
      } else {
        assert |b| > k;
        assert |a| == k;
      }
    }
  }

  /** The log kept by a sequence of `CapLog` calls holds the last 10 entries in arrival order. */
  lemma LogOfRows<T>(log: seq<T>, entry: T, more: seq<T>)
    requires |log| <= MaxLogRows
    ensures LastN(CapLog(log, entry) + more, MaxLogRows) == LastN(log + [entry] + more, MaxLogRows)
  {
    LastNConcat(log + [entry], more, MaxLogRows);
  }

  /** What `process_data_queue` touches besides the queue: the plot series,
      the displayed column values and `data_list` (rows as numbers; the
      space-joined text is their formatting). */
  datatype Panel = Panel(plot: Plot, values: seq<real>, log: seq<seq<real>>)

  /** The body of the drain loop for one successfully converted row: `width`
      columns are shown (3 in most variants, 5 in 1522reader.py) and the first
      three are appended to `f_values`, `n_values`, `x_values` at time `t`. */
  function Absorb(d: Panel, numbers: seq<real>, t: int, width: nat): Panel
  {
    Panel(Plot(d.plot.times + [t], d.plot.f + [Column(numbers, 0)],
               d.plot.n + [Column(numbers, 1)], d.plot.x + [Column(numbers, 2)]),
          Columns(numbers, width),
          CapLog(d.log, numbers))
  }

  /** The longest prefix of the queue whose rows convert, converted. */
  function GoodRows(queue: seq<Row>): (rows: seq<seq<real>>)
    ensures |rows| <= |queue|
  {
    if |queue| == 0 then []
    else match Floats(queue[0])
      case None => []
      case Some(numbers) => [numbers] + GoodRows(queue[1..])
  }

  /** `GoodRows` is the converted longest prefix: each of its rows is the
      conversion of the queued row in the same place, and the next queued
      row, if any, does not convert. */
  lemma {:induction false} GoodRowsSpec(queue: seq<Row>)
    ensures forall j :: 0 <= j < |GoodRows(queue)| ==> Floats(queue[j]) == Some(GoodRows(queue)[j])
    ensures |GoodRows(queue)| < |queue| ==> Floats(queue[|GoodRows(queue)|]).None?
  {
    if |queue| > 0 && Floats(queue[0]).Some? {
      GoodRowsSpec(queue[1..]);
      var rows := GoodRows(queue);
      assert rows == [Floats(queue[0]).value] + GoodRows(queue[1..]);
      assert forall j :: 1 <= j < |queue| ==> queue[j] == queue[1..][j - 1];
    }
  }

  /** The state after the drain loop: the panel, what is left in the queue,
      and whether a conversion raised out of the loop. */
  datatype Drained = Drained(panel: Panel, rest: seq<Row>, raised: bool)

  /** `while not data_queue.empty(): row = data_queue.get(); ...`. The rows
      are taken from the front; a row whose conversion raises has already
      been taken, and the exception ends the loop. `clock` holds the
      `datetime.now()` readings, one per absorbed row. */
  function DrainQueue(d: Panel, queue: seq<Row>, clock: seq<int>, width: nat): (r: Drained)
    requires |clock| >= |queue|
    ensures IsSuffix(r.rest, queue) && (|queue| > 0 ==> |r.rest| < |queue|)
    ensures Lockstep(d.plot) ==> Lockstep(r.panel.plot)
    decreases |queue|
  {
    if |queue| == 0 then
      Drained(d, [], false)
    else match Floats(queue[0])
      case None => Drained(d, queue[1..], true)
      case Some(numbers) =>
        DrainQueue(Absorb(d, numbers, clock[0], width), queue[1..], clock[1..], width)
  }

  /** The drain stops after the convertible prefix: it either empties the
      queue or raises on the first bad row, which it has already taken. */
  lemma {:induction false} DrainQueueRest(d: Panel, queue: seq<Row>, clock: seq<int>, width: nat)
    requires |clock| >= |queue|
    ensures var r := DrainQueue(d, queue, clock, width);
      var k := |GoodRows(queue)|;
      && (r.raised <==> k < |queue|)
      && r.rest == (if r.raised then queue[k + 1..] else [])
    decreases |queue|
  {
    if |queue| == 0 {
    } else if Floats(queue[0]).None? {
      assert GoodRows(queue) == [];
      assert DrainQueue(d, queue, clock, width) == Drained(d, queue[1..], true);
    } else {
      var numbers := Floats(queue[0]).value;
      var d' := Absorb(d, numbers, clock[0], width);
      assert DrainQueue(d, queue, clock, width) == DrainQueue(d', queue[1..], clock[1..], width);
      assert GoodRows(queue) == [numbers] + GoodRows(queue[1..]);
      DrainQueueRest(d', queue[1..], clock[1..], width);
      var k := |GoodRows(queue[1..])|;
      if k < |queue[1..]| {
        assert queue[1..][k + 1..] == queue[k + 2..];
      }
    }
  }

  /** Every series gains, in queue order, the matching column of each converted row. */
  lemma {:induction false} DrainQueuePlot(d: Panel, queue: seq<Row>, clock: seq<int>, width: nat)
    requires |clock| >= |queue|
    ensures var r := DrainQueue(d, queue, clock, width);
      var rows := GoodRows(queue);
      r.panel.plot == AppendRows(d.plot, rows, clock[..|rows|])
    decreases |queue|
  {
    if |queue| == 0 || Floats(queue[0]).None? {
      assert GoodRows(queue) == [];
      AppendNoRows(d.plot, clock[..0]);
    } else {
      var numbers := Floats(queue[0]).value;
      var d' := Absorb(d, numbers, clock[0], width);
      assert DrainQueue(d, queue, clock, width) == DrainQueue(d', queue[1..], clock[1..], width);
      DrainQueuePlot(d', queue[1..], clock[1..], width);
      var rows := GoodRows(queue[1..]);
      assert GoodRows(queue) == [numbers] + rows;
      assert clock[..|rows| + 1] == [clock[0]] + clock[1..][..|rows|];
      AppendRowsCons(d.plot, numbers, rows, clock[0], clock[1..][..|rows|]);
    }
  }

  /** `p` with one point per row appended: the times, then column 0, 1 and 2. */
  function AppendRows(p: Plot, rows: seq<seq<real>>, times: seq<int>): Plot
  {
    Plot(p.times + times, p.f + ColumnOf(rows, 0), p.n + ColumnOf(rows, 1), p.x + ColumnOf(rows, 2))
  }

  lemma AppendNoRows(p: Plot, times: seq<int>)
    requires times == []
    ensures AppendRows(p, [], times) == p
  {
    assert p.times + times == p.times;
    assert p.f + ColumnOf([], 0) == p.f;
    assert p.n + ColumnOf([], 1) == p.n;
    assert p.x + ColumnOf([], 2) == p.x;
  }

  lemma AppendRowsCons(p: Plot, numbers: seq<real>, rows: seq<seq<real>>, t: int, times: seq<int>)
    ensures AppendRows(p, [numbers] + rows, [t] + times)
         == AppendRows(Plot(p.times + [t], p.f + [Column(numbers, 0)], p.n + [Column(numbers, 1)],
                            p.x + [Column(numbers, 2)]), rows, times)
  {
    ColumnOfCons(p.f, numbers, rows, 0);
    ColumnOfCons(p.n, numbers, rows, 1);
    ColumnOfCons(p.x, numbers, rows, 2);
    assert p.times + ([t] + times) == p.times + [t] + times;
  }

  lemma ColumnOfCons(s: seq<real>, numbers: seq<real>, rows: seq<seq<real>>, i: nat)
    ensures s + ColumnOf([numbers] + rows, i) == s + [Column(numbers, i)] + ColumnOf(rows, i)
  {
    assert ColumnOf([numbers] + rows, i) == [Column(numbers, i)] + ColumnOf(rows, i);
  }

  /** The displayed values are the columns of the last converted row. */
  lemma {:induction false} DrainQueueValues(d: Panel, queue: seq<Row>, clock: seq<int>, width: nat)
    requires |clock| >= |queue|
    ensures var r := DrainQueue(d, queue, clock, width);
      var rows := GoodRows(queue);
      r.panel.values == if |rows| == 0 then d.values else Columns(rows[|rows| - 1], width)
    decreases |queue|
  {
    if |queue| == 0 || Floats(queue[0]).None? {
      assert GoodRows(queue) == [];
    } else {
      var numbers := Floats(queue[0]).value;
      var d' := Absorb(d, numbers, clock[0], width);
      assert DrainQueue(d, queue, clock, width) == DrainQueue(d', queue[1..], clock[1..], width);
      DrainQueueValues(d', queue[1..], clock[1..], width);
      var rows := GoodRows(queue[1..]);
      var all := GoodRows(queue);
      assert all == [numbers] + rows;
      assert all[|all| - 1] == if |rows| == 0 then numbers else rows[|rows| - 1];
    }
  }

  /** `data_list` holds the last 10 converted rows in arrival order. */
  lemma {:induction false} DrainQueueLog(d: Panel, queue: seq<Row>, clock: seq<int>, width: nat)
    requires |clock| >= |queue|
    requires |d.log| <= MaxLogRows
    ensures DrainQueue(d, queue, clock, width).panel.log == LastN(d.log + GoodRows(queue), MaxLogRows)
    decreases |queue|
  {
    if |queue| == 0 || Floats(queue[0]).None? {
      assert GoodRows(queue) == [];
      assert d.log + [] == d.log;
    } else {
      var numbers := Floats(queue[0]).value;
      var d' := Absorb(d, numbers, clock[0], width);
      assert DrainQueue(d, queue, clock, width) == DrainQueue(d', queue[1..], clock[1..], width);
      DrainQueueLog(d', queue[1..], clock[1..], width);
      var rows := GoodRows(queue[1..]);
      assert GoodRows(queue) == [numbers] + rows;
      LogOfRows(d.log, numbers, rows);
      assert d.log + [numbers] + rows == d.log + ([numbers] + rows);
    }
  }

  /** `process_data_queue`: drain, then `update_plot`, which is skipped when
      the drain raised. */
  function ProcessDataQueue(d: Panel, queue: seq<Row>, clock: seq<int>, width: nat, throttled: bool): (r: Drained)
    requires |clock| >= |queue|
    ensures Lockstep(d.plot) ==> Lockstep(r.panel.plot)
    ensures !r.raised ==> r.panel.plot == UpdatePlot(DrainQueue(d, queue, clock, width).panel.plot, throttled)
    ensures r.raised ==> r == DrainQueue(d, queue, clock, width)
  {
    var r := DrainQueue(d, queue, clock, width);
    if r.raised then r
    else r.(panel := r.panel.(plot := UpdatePlot(r.panel.plot, throttled)))
  }

  /** Each drained row adds exactly one entry to every series, so the series
      stay in lockstep, and they hold column 0/1/2 of the rows in queue order. */
  lemma DrainAppendsOnePerRow(d: Panel, queue: seq<Row>, clock: seq<int>, width: nat)
    requires |clock| >= |queue|
    requires Lockstep(d.plot)
    requires forall j :: 0 <= j < |queue| ==> Floats(queue[j]).Some?
    ensures var r := DrainQueue(d, queue, clock, width);
      && !r.raised && r.rest == []
      && |r.panel.plot.times| == |d.plot.times| + |queue|
      && Lockstep(r.panel.plot)
      && forall j :: 0 <= j < |queue| ==>
           r.panel.plot.f[|d.plot.f| + j] == Column(Floats(queue[j]).value, 0)
           && r.panel.plot.n[|d.plot.n| + j] == Column(Floats(queue[j]).value, 1)
           && r.panel.plot.x[|d.plot.x| + j] == Column(Floats(queue[j]).value, 2)
  {
    GoodRowsSpec(queue);
    var rows := GoodRows(queue);
    assert |rows| == |queue|;
    DrainQueueRest(d, queue, clock, width);
    DrainQueuePlot(d, queue, clock, width);
  }

  /** With no new data, processing the queue only trims, and doing it a
      second time changes nothing more. */
  lemma ProcessEmptyQueue(d: Panel, clock: seq<int>, width: nat, throttled: bool, throttled': bool)
    ensures var r := ProcessDataQueue(d, [], clock, width, throttled);
      && !r.raised && r.rest == []
      && r.panel == d.(plot := UpdatePlot(d.plot, throttled))
      && ProcessDataQueue(r.panel, [], clock, width, throttled).panel == r.panel
    ensures var r := ProcessDataQueue(d, [], clock, width, false);
      ProcessDataQueue(r.panel, [], clock, width, throttled').panel == r.panel
  {
    TrimIdempotent(d.plot);
  }

  /** After an unthrottled drain without error, every series holds the last
      100 points of what it held plus what was drained. */
  lemma ProcessKeepsLast100(d: Panel, queue: seq<Row>, clock: seq<int>, width: nat)
    requires |clock| >= |queue|
    requires Lockstep(d.plot)
    ensures var r := ProcessDataQueue(d, queue, clock, width, false);
      var rows := GoodRows(queue);
      !r.raised ==>
        && |rows| == |queue|
        && r.panel.plot.times == LastN(d.plot.times + clock[..|queue|], MaxDataPoints)
        && r.panel.plot.f == LastN(d.plot.f + ColumnOf(rows, 0), MaxDataPoints)
        && r.panel.plot.n == LastN(d.plot.n + ColumnOf(rows, 1), MaxDataPoints)
        && r.panel.plot.x == LastN(d.plot.x + ColumnOf(rows, 2), MaxDataPoints)
  {
    DrainQueueRest(d, queue, clock, width);
    DrainQueuePlot(d, queue, clock, width);
  }

  /** Queued counts drain without error: the queue empties, and every series
      gains one point per row, the times from the clock and the columns of the
      rows in queue order. */
  lemma DrainCounts(d: Panel, rows: seq<seq<int>>, clock: seq<int>, width: nat)
    requires |clock| >= |rows|
    ensures var r := DrainQueue(d, CountRows(rows), clock, width);
      && !r.raised && r.rest == []
      && r.panel.plot == AppendRows(d.plot, RealRows(rows), clock[..|rows|])
  {
    GoodRowsOfCounts(rows);
    DrainQueueRest(d, CountRows(rows), clock, width);
    DrainQueuePlot(d, CountRows(rows), clock, width);
  }
}
