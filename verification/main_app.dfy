/** `main_app.py`: the `SR400Device` wrapper handed to the reader GUI as its
    data source, and the `MainApp` pieces that pick the serial port and
    change the dwell time. */
module MainApp {
  import opened Base
  import opened PyText
  import opened PyFloat
  import opened Validators
  import opened Instrument

  /** The constructor's `tset = 0.01` (seconds) and `num_periods = 2000`. */
  const DefaultTset: real := 0.01
  const DefaultPeriods: int := 2000

  datatype Device = Device(resource: string, tset: real, numPeriods: int)

  /** `SR400Device(resource_name)`, once `open_resource` has succeeded. */
  function NewDevice(resource: string): (d: Device)
    ensures d.resource == resource && d.tset == DefaultTset && d.numPeriods == DefaultPeriods
  {
    Device(resource, DefaultTset, DefaultPeriods)
  }

  /** The outcome of `acquire_data`: the writes, and the rows or `None`. */
  datatype Acquisition = Acquisition(sent: seq<string>, rows: Option<seq<seq<int>>>)

  /** The five set-up writes: preset, period count, reset, start, dump. */
  function SetupCommands(preset: string, periods: int): seq<string>
  {
    [PresetCommand(preset), PeriodsCommand(periods), ResetCommand, StartCommand, DumpCommand]
  }

  /** `time.sleep(tset * (num_periods + 1))` returns. */
  predicate SleepsFine(d: Device)
  {
    SleepAccepts(Finite(d.tset * (d.numPeriods + 1) as real))
  }

  /** `acquire_data`. `preset` is the text of `tset * 10**7` (float
      formatting is not modelled). After four set-up writes the thread sleeps
      for the whole run, which raises for a negative duration; then `EA`, one
      reply read per period with blank replies skipped, and a final `CR`. Any
      exception returns `None` and skips the final `CR`; the rows gathered so
      far are dropped. */
  function AcquireData(d: Device, preset: string, replies: seq<string>): (a: Acquisition)
    ensures a.rows.Some? ==> SleepsFine(d) && a.sent == SetupCommands(preset, d.numPeriods) + [ResetCommand]
    ensures a.rows.None? && SleepsFine(d) ==> a.sent == SetupCommands(preset, d.numPeriods)
    ensures !SleepsFine(d) ==> a == Acquisition(SetupCommands(preset, d.numPeriods)[..4], None)
    ensures a.rows.Some? ==> |a.rows.value| <= RangeLength(d.numPeriods)
    ensures a.rows.Some? ==> forall j :: 0 <= j < |a.rows.value| ==> |a.rows.value[j]| > 0
    ensures d.numPeriods > |replies| ==> a.rows.None?
  {
    var setup := SetupCommands(preset, d.numPeriods);
    if !SleepsFine(d) then Acquisition(setup[..4], None)
    else match ReadRows(replies, RangeLength(d.numPeriods), true)
    case None => Acquisition(setup, None)
    case Some(rows) => Acquisition(setup + [ResetCommand], Some(rows))
  }

  /** A non-negative dwell time with a non-negative period count sleeps without error. */
  lemma SleepsFineWhenNonNegative(d: Device)
    requires d.tset >= 0.0 && d.numPeriods >= 0
    ensures SleepsFine(d)
  {
    var k := (d.numPeriods + 1) as real;
    assert k > 0.0;
    assert d.tset * k >= 0.0;
  }

  /** A device as created, and any whose dwell time `update_tset` accepted,
      sleeps without error. */
  lemma DeviceSleepsFine(resource: string, d: Device)
    requires MinPeriod <= d.tset && d.numPeriods == DefaultPeriods
    ensures SleepsFine(NewDevice(resource))
    ensures SleepsFine(d)
  {
  }

  /** The counts come back as the counter formatted them, with blank replies
      in between ignored, and replies after the last period never read. */
  lemma AcquireFormatted(d: Device, preset: string, rows: seq<seq<int>>, more: seq<string>)
    requires |rows| == d.numPeriods && d.tset >= 0.0
    requires forall j :: 0 <= j < |rows| ==> |rows[j]| > 0
    ensures AcquireData(d, preset, Replies(rows, "\r\n") + more)
         == Acquisition(SetupCommands(preset, d.numPeriods) + [ResetCommand], Some(rows))
  {
    SleepsFineWhenNonNegative(d);
    assert IsSpace('\r') && IsSpace('\n');
    ReadFormattedRows(rows, "\r\n", true);
    ReadRowsPrefix(Replies(rows, "\r\n"), more, |rows|, true);
  }

  /** Blank replies for every period give an empty list, not an error. */
  lemma AcquireBlankReplies(d: Device, preset: string, replies: seq<string>)
    requires d.numPeriods == |replies| && d.tset >= 0.0
    requires forall j :: 0 <= j < |replies| ==> RStrip(replies[j]) == ""
    ensures AcquireData(d, preset, replies).rows == Some([])
  {
    SleepsFineWhenNonNegative(d);
    ReadRowsSkipping(replies, |replies|);
    NoNonBlank(replies);
    assert replies[..|replies|] == replies;
  }

  /** Only blank lines leave nothing to parse. */
  lemma {:induction false} NoNonBlank(lines: seq<string>)
    requires forall j :: 0 <= j < |lines| ==> RStrip(lines[j]) == ""
    ensures NonBlank(lines) == []
  {
    if |lines| > 0 {
      NoNonBlank(lines[1..]);
    }
  }

  /** `stop_acquisition`: exactly one `CR`. */
  function StopAcquisition(d: Device): (sent: seq<string>)
    ensures |sent| == 1 && sent[0] == ResetCommand
  {
    [ResetCommand]
  }

  /** `update_tset` on the entry text, `parsed` being `float(text)` (`None`
      when it raises `ValueError`). Only a value in `[1e-9, 100]` is taken. */
  function UpdateTset(d: Device, parsed: Option<Float>): (d': Device)
    ensures d'.resource == d.resource && d'.numPeriods == d.numPeriods
    ensures parsed.Some? && Within(parsed.value, MinPeriod, MaxPeriod) ==> d'.tset == parsed.value.v
    ensures !(parsed.Some? && Within(parsed.value, MinPeriod, MaxPeriod)) ==> d' == d
  {
    match parsed
    case Some(Finite(v)) => if MinPeriod <= v <= MaxPeriod then d.(tset := v) else d
    case _ => d
  }

  /** On non-empty text, `update_tset` accepts exactly what the period field's
      validator lets through; an empty field is allowed by the validator but
      `float('')` raises, so the value is kept. */
  lemma UpdateTsetAgreesWithValidator(d: Device, text: string, parsed: Option<Float>)
    requires text == "" ==> parsed.None?
    ensures text != "" ==>
      UpdateTset(d, parsed).tset == if ValidatePeriodInput(text, parsed) then parsed.value.v else d.tset
    ensures text == "" ==> UpdateTset(d, parsed) == d && ValidatePeriodInput(text, parsed)
  {
  }

  /** The device's dwell time stays in range once it starts there. */
  lemma UpdateTsetKeepsRange(d: Device, parsed: Option<Float>)
    requires MinPeriod <= d.tset <= MaxPeriod
    ensures MinPeriod <= UpdateTset(d, parsed).tset <= MaxPeriod
  {
  }

  /** `connect_to_sr400`: the first listed resource that has `ASRL` in its
      name and opens; then `SR400Device` opens it again (`reopens`). `None`
      when there is no such resource or the second open raises. */
  function Connect(resources: seq<string>, opens: string -> bool, reopens: bool): (d: Option<Device>)
    ensures d.Some? <==> SelectResource(resources, opens).Some? && reopens
    ensures d.Some? ==> d.value == NewDevice(SelectResource(resources, opens).value)
  {
    match SelectResource(resources, opens)
    case None => None
    case Some(r) => if reopens then Some(NewDevice(r)) else None
  }

  /** The device is built on the first usable resource, so no earlier listed
      resource was usable, and one without `ASRL` in its name is never used. */
  lemma ConnectPicksFirst(resources: seq<string>, opens: string -> bool)
    ensures Connect(resources, opens, true).Some? ==>
      exists k :: 0 <= k < |resources| && resources[k] == Connect(resources, opens, true).value.resource
        && Usable(resources[k], opens)
        && forall j :: 0 <= j < k ==> !Usable(resources[j], opens)
    ensures Connect(resources, opens, true).None? <==>
      forall j :: 0 <= j < |resources| ==> !Usable(resources[j], opens)
  {
    var k := FirstUsable(resources, opens);
    if k.Some? {
      assert resources[k.value] == Connect(resources, opens, true).value.resource;
    }
  }
}
