# SR400 counter front ends: a Dafny model

The repository is a set of desktop scripts that drive an SR400 gated photon
counter over a VISA serial link. A worker thread writes ASCII commands to the
counter, waits for the acquisition and reads back one comma-separated line of
counts per period. It queues the rows, and a GUI timer drains the queue into
labels, a bounded plot history and a ten-row log. Beside this there is a
"record to file" toggle and, in one variant, a multi-experiment loop that
averages channel A per experiment.

This project models the sequential decision logic of seven scripts, one
module per script:

- `ControlSr400`: the `Sr400` driver class.
- `MainApp`: `SR400Device` and the Tset control of `MainApp`.
- `FiveTry`: the `fivetry1.py` reader with its own acquisition loop.
- `FourTry`: the `fourtry1.py` Start / Pause / Reset scanner.
- `Reader1523`: `modified_1523reader.py`.
- `Reader1522`: `1522reader.py`.
- `Reader1529`: `modified_1529reader.py`.

These share library modules for logic that the scripts duplicate:

- `Base`: Option, the last-k slice and means.
- `PyText`: Python's `rstrip`/`strip`/`split`/`join`, `int()` on ASCII text, `str(int)` and `in`.
- `PyFloat`: the outcomes of `float()` (finite, infinite, NaN), `int()` truncation, `1/x` and what `time.sleep` accepts.
- `Validators`: the Tset/period and M entry checks.
- `Recording`: `toggle_recording`, which is identical in every GUI.
- `Series`: the plot trim, the row-to-column mapping, the queue drain and the ten-row log.
- `Instrument`: the counter commands, the reply read loop and the resource choice.
- `Gui`: the application state the three plotting readers share.

Every operation is a pure function on an immutable state record. The commands
sent are an output trace (`seq<string>`). The instrument's replies are an input
sequence, and a missing reply stands for a read time-out. Outcomes the model
cannot see are parameters:

- whether `open()` of a recording file succeeds (`created`);
- the clock stamp of the file name (`stamp`);
- what `float()` makes of a text (`floatOf` / `parsed`);
- which resources open (`opens`);
- how many writes get through (`delivered`, `writes`);
- the plot throttle (`throttled`);
- the `datetime.now()` readings (`clock`).

Where the scripts' own comments promise something else, the model follows the
code:

- **Record-on-start does not record.** `is_recording = True` followed by `toggle_recording()` switches recording off, not on.
- **X is the mean of channel A alone.** The commented-out average of A and B is not used.
- **The period clamp lets negative periods through.** `int(1/tset)` clamps a negative period to one period, and then the `time.sleep` of a negative duration raises.

## Model

| member | source | states |
|---|---|---|
| Base.LastN | modified_1523reader.py:365-369 | `s[-k:]` is the suffix of `s` of length `min(k, len(s))` |
| Base.LastNIdempotent | modified_1523reader.py:365-369 | cutting to the last k twice equals cutting once |
| Base.LastNAppend | modified_1523reader.py:390-392 | cutting before one more append and cutting after it agree |
| Base.SumBounds | modified_1529reader.py:381-397 | values all within [lo, hi] sum to between n·lo and n·hi |
| Base.MeanBounds | modified_1529reader.py:381-397 | a per-experiment average lies between the smallest and largest count bound |
| Base.MeanOfConstant | modified_1529reader.py:381-397 | the average of equal counts is that count |
| PyText.RStrip | Control_sr400.py:27 | the result is the longest prefix not ending in whitespace, and only whitespace was dropped |
| PyText.LStrip | fourtry1.py:67 | the result is the longest suffix not starting with whitespace, and only whitespace was dropped |
| PyText.StripNoEdges | fourtry1.py:67 | text without whitespace at either end is its own strip |
| PyText.StripPadded | modified_1529reader.py:283 | one blank on each side is stripped away |
| PyText.RStripIdempotent | Control_sr400.py:27 | `rstrip` is a fixed point |
| PyText.RStripTrailing | main_app.py:28 | trailing whitespace never survives `rstrip` |
| PyText.Split | main_app.py:30 | `split` returns at least one piece and no piece holds the separator |
| PyText.JoinSplit | main_app.py:30 | joining the pieces of a split gives the text back |
| PyText.SplitPiece | main_app.py:30 | a separator-free piece before the separator splits off as one piece |
| PyText.SplitJoin | main_app.py:30 | splitting a join of separator-free pieces gives the pieces back |
| PyText.ContainsIffOccurs | fourtry1.py:137 | `sub in s` holds exactly when `sub` occurs at some position |
| PyText.ContainsInside | fourtry1.py:137 | text holding `sub` anywhere is recognised |
| PyText.LacksFirstChar | fourtry1.py:137 | text lacking the first character of `sub` does not contain `sub` |
| PyText.ParseInt | main_app.py:30 | `int()` succeeds only on text that is non-empty after stripping |
| PyText.NatToString | fourtry1.py:113 | `str(n)` is non-empty, all digits, and has no leading zero |
| PyText.RunValueOfNat | fourtry1.py:113 | the digits of `str(n)` form a digit run whose value is n |
| PyText.ParseIntOfString | modified_1529reader.py:242 | `int(str(n)) == n` for every integer |
| PyText.ParseIntSameStrip | modified_1529reader.py:283 | `int()` depends only on the stripped text |
| PyText.ParseIntOfTerminated | fivetry1.py:325 | `int(str(n) + w) == n` for trailing whitespace w |
| PyText.IntToStringPlain | fivetry1.py:336 | `str(n)` holds no comma and has no whitespace at either end |
| PyText.ParseInts | fivetry1.py:336 | on success `map(int, parts)` yields one value per piece, each the value of its piece |
| PyText.IntStrings | fivetry1.py:336 | one numeral per count, each `str` of that count |
| PyText.FormatIntListPlain | fivetry1.py:334 | a formatted non-empty row is non-empty and unchanged by `rstrip` |
| PyText.IntToStringChars | fourtry1.py:137 | `str(n)` holds only digits and a minus sign |
| PyText.FormatIntListChars | fourtry1.py:137 | a formatted row holds only digits, minus signs and commas |
| PyText.ParseFormatted | fivetry1.py:336 | `list(map(int, line.split(',')))` of a formatted non-empty row is that row |
| PyText.ParseIntsExact | fivetry1.py:336 | pieces that each parse to the row's value parse to the row |
| PyFloat.Trunc | fivetry1.py:318 | `int()` of a float truncates toward zero |
| PyFloat.Reciprocal | fivetry1.py:318 | `1/x` raises exactly for zero, gives 0.0 for an infinity and NaN for NaN |
| PyFloat.ToInt | fivetry1.py:318 | `int()` of a float succeeds exactly on finite values |
| PyFloat.TruncProperties | fivetry1.py:318 | truncation is exact on integers, keeps the sign and respects integer bounds |
| Validators.ValidateCountInput | modified_1529reader.py:239-247 | the M field accepts the empty text and exactly the integer texts in 1..1000, and rejects non-integer text |
| Validators.CountInputOfNumeral | modified_1529reader.py:239-247 | on an integer's numeral the M check accepts exactly 1..1000 |
| Validators.CountInputPadded | modified_1529reader.py:239-247 | blanks around the numeral do not change the verdict |
| Validators.ValidatePeriodInput | modified_1523reader.py:235-243 | the period field accepts the empty text and exactly the finite values in [1e-9, 100], and rejects unparsable text, NaN and infinities |
| Recording.Toggle | modified_1529reader.py:533-550 | recording is on afterwards exactly when it was off and the open succeeded; off always drops the file; a failed open changes nothing |
| Recording.ToggleKeepsConsistent | modified_1529reader.py:533-550 | recording exactly while a file is open is preserved, and no handle is leaked |
| Recording.ToggleOnOff | modified_1529reader.py:535-550 | on then off returns an idle recorder to where it was; a failed open leaves it idle |
| Recording.SetThenToggle | modified_1529reader.py:278-280 | setting the flag and toggling always ends not recording with no file |
| Series.Trim | modified_1523reader.py:365-369 | at most 100 times remain, and series in lockstep stay in lockstep |
| Series.TrimKeepsSuffixes | modified_1523reader.py:365-369 | every series keeps exactly its last 100 entries once times exceeds 100, and everything otherwise |
| Series.TrimIdempotent | modified_1523reader.py:365-369 | trimming twice equals trimming once |
| Series.Columns | modified_1523reader.py:396-398 | the displayed values are column i of the row, 0.0 for a missing column |
| Series.ColumnOf | modified_1523reader.py:400-403 | a series gains column i of every row, in row order |
| Series.Floats | modified_1523reader.py:387 | `list(map(float, row))` keeps the row's length |
| Series.FloatsSpec | modified_1523reader.py:387 | the conversion succeeds exactly when every cell converts, and keeps each value in place |
| Series.CountCells | fivetry1.py:340-341 | a queued row of counts offers every count to `float()` |
| Series.CountCellsConvert | modified_1523reader.py:387 | rows of integer counts always convert |
| Series.Reals | modified_1523reader.py:387 | each count becomes the equal real |
| Series.CountRows | fivetry1.py:340-341 | one queued row per row read, in reading order |
| Series.RealRows | modified_1523reader.py:387 | each row of counts becomes the equal row of reals |
| Series.GoodRowsOfCounts | modified_1523reader.py:385-387 | a queue of counts converts as a whole |
| Series.CapLog | modified_1523reader.py:390-392 | the log holds at most 10 rows, the last 10 in arrival order, ending with the new row |
| Series.LastNConcat | modified_1523reader.py:390-392 | capping early and capping at the end keep the same rows |
| Series.LogOfRows | modified_1523reader.py:390-392 | repeated capping keeps the last 10 rows in arrival order |
| Series.GoodRows | modified_1523reader.py:385-387 | the convertible prefix is no longer than the queue |
| Series.GoodRowsSpec | modified_1523reader.py:385-387 | each converted row is the conversion of the queued row in its place, and the next queued row does not convert |
| Series.DrainQueue | modified_1523reader.py:385-411 | rows leave from the front, at least one per non-empty drain, and series stay in lockstep |
| Series.DrainQueueRest | modified_1523reader.py:385-387 | the drain empties the queue when every row converts, and otherwise stops just after the first bad row |
| Series.DrainQueuePlot | modified_1523reader.py:400-403 | every series gains, in queue order, the matching column of each converted row |
| Series.AppendNoRows | modified_1523reader.py:400-403 | no rows add no points |
| Series.AppendRowsCons | modified_1523reader.py:400-403 | the first row adds its points before the rest |
| Series.ColumnOfCons | modified_1523reader.py:400-403 | the column of a row then more rows is the row's cell then the rest |
| Series.DrainQueueValues | modified_1523reader.py:396-398 | the displayed values are the columns of the last converted row |
| Series.DrainQueueLog | modified_1523reader.py:390-392 | the log is the last 10 of the old log plus the converted rows |
| Series.ProcessDataQueue | modified_1523reader.py:383-412 | the plot is trimmed after a clean drain and left untrimmed when the drain raised |
| Series.DrainAppendsOnePerRow | modified_1523reader.py:400-403 | each converted row adds one entry to every series, in lockstep and in queue order |
| Series.ProcessEmptyQueue | modified_1523reader.py:385-412 | an empty queue only trims, and a second pass changes nothing |
| Series.ProcessKeepsLast100 | modified_1523reader.py:365-369 | after an unthrottled drain every series holds the last 100 of its old points plus the drained points |
| Series.DrainCounts | modified_1523reader.py:383-403 | queued counts drain without error, emptying the queue with one point per row |
| Gui.Zeros | modified_1523reader.py:302-304 | all displayed values are 0.0 |
| Gui.Initial | modified_1523reader.py:37-50 | a fresh application is idle, not recording, with an empty queue and a blank panel |
| Gui.ClearData | modified_1523reader.py:295-308 | the reset empties the queue and every series, zeroes the values, and touches nothing else |
| Gui.BlankPanelTrimmed | modified_1523reader.py:308 | the closing refresh of a reset leaves the blank panel as it is |
| Gui.ToggleRecording | modified_1523reader.py:419-436 | the Record button changes only the recorder |
| Gui.Drain | modified_1523reader.py:383-417 | the queue keeps a suffix, strictly shorter when it was non-empty, and only the queue and panel change; the same drain serves every plotting variant with its own column count |
| Gui.DrainEmptiesQueue | modified_1523reader.py:385-387 | the drain raises exactly when some queued row does not convert, and otherwise empties the queue |
| Gui.DrainIdle | modified_1523reader.py:383-417 | with nothing queued and a blank panel a drain raises nothing and changes nothing |
| Gui.DrainCountRows | modified_1523reader.py:383-403 | draining queued counts never raises and appends one point per row |
| Instrument.PeriodsCommand | fivetry1.py:325 | the command is `NP ` then the count then a newline |
| Instrument.PresetCommand | main_app.py:18 | the command is `CP2,` then the preset then a newline |
| Instrument.PeriodsCommandReadsBack | fivetry1.py:325 | the count written into `NP n` reads back as n |
| Instrument.RangeLength | Control_sr400.py:39 | `range(n)` runs n times, and none for n below one |
| Instrument.ReadRows | main_app.py:27-32 | at most n rows, exactly n without the blank skip, each non-empty; too few replies fail |
| Instrument.NonBlank | main_app.py:29 | the kept lines are the non-blank ones and are never empty |
| Instrument.RStripAll | Control_sr400.py:40 | every line is right-stripped |
| Instrument.ParseRows | Control_sr400.py:40 | every line parses to the row in its place, or the parse fails |
| Instrument.ReadRowsSkipping | main_app.py:27-32 | with the skip, the loop parses exactly the non-blank lines among the first n replies |
| Instrument.ReadRowsStrict | Control_sr400.py:39-40 | without the skip, every one of the first n replies must parse |
| Instrument.ReadRowsPrefix | main_app.py:27 | exactly n replies are read; later ones are never looked at |
| Instrument.Replies | main_app.py:28 | the counter's reply per row is the formatted counts plus a terminator |
| Instrument.ReadFormattedRows | main_app.py:27-32 | formatted rows are read back unchanged, whether or not blanks are skipped |
| Instrument.BlankReply | main_app.py:29-32 | a blank reply adds no row with the skip and fails the read without it |
| Instrument.FirstUsable | main_app.py:69-79 | the chosen position is usable and no earlier resource is; none is chosen only when none is usable |
| Instrument.SelectResourceAppend | main_app.py:69-79 | resources listed later never change a choice already made |
| Instrument.SelectNeedsAsrl | main_app.py:71-76 | a chosen name contains `ASRL` and opens |
| ControlSr400.Create | Control_sr400.py:9-24 | an object exists unless an exception other than `ValueError` escapes; it has `n_counts` periods exactly when every step succeeded, and keeps a handle unless the `ValueError` came before the port opened |
| ControlSr400.WriteCom | Control_sr400.py:26-27 | what is sent ends in a newline after a prefix of the command |
| ControlSr400.WriteComSingleNewline | Control_sr400.py:26-27 | the text sent is the command without trailing whitespace plus exactly one newline |
| ControlSr400.WriteComNewline | Control_sr400.py:27 | `write_com(c)` and `write_com(c + "\n")` send the same text |
| ControlSr400.WriteComIdempotent | Control_sr400.py:27 | sending what `write_com` sends again changes nothing |
| ControlSr400.WriteComLine | Control_sr400.py:27 | a single line whose text ends in no whitespace, such as `CR` or `CS`, is sent exactly as given |
| ControlSr400.NumPeriod | Control_sr400.py:29-30 | the period count becomes exactly the argument |
| ControlSr400.NumPeriodOverrides | Control_sr400.py:29-30 | the second setting wins, and setting the current count changes nothing |
| ControlSr400.SingleRead | Control_sr400.py:26-40 | a driver without a handle sends nothing and fails; otherwise `CR`, `CS`, `E<chanel>` are sent; on success one row per period; failure exactly when a reply is missing or does not parse |
| ControlSr400.SingleReadDefault | Control_sr400.py:32-40 | with no argument a connected driver sends `CR`, `CS`, `EA`, and one without a handle sends nothing |
| ControlSr400.SingleReadFormatted | Control_sr400.py:33-40 | on a connected driver, formatted replies per period read back as the counts, and later replies are ignored |
| ControlSr400.CreatedReadsItsCount | Control_sr400.py:9-40 | a driver reads `n_counts` rows; after a `ValueError` from the `NN` query, one row (the class default); after one before the port opened, nothing is sent and the read fails |
| ControlSr400.SingleReadBlankReply | Control_sr400.py:40 | a blank reply is not skipped; it makes the read fail |
| MainApp.NewDevice | main_app.py:9-13 | a new device has Tset 0.01 and 2000 periods |
| MainApp.AcquireData | main_app.py:15-37 | rows come back only after a valid sleep and with `CP2`, `NP`, `CR`, `CS`, `EA`, `CR` sent; a read failure skips the final `CR`; a bad sleep stops after four writes |
| MainApp.SleepsFineWhenNonNegative | main_app.py:23 | a non-negative Tset and period count sleep without error |
| MainApp.DeviceSleepsFine | main_app.py:12-13 | a new device, and one whose Tset the guard accepted, sleep without error |
| MainApp.AcquireFormatted | main_app.py:15-34 | formatted replies read back as the counts with the full command trace |
| MainApp.AcquireBlankReplies | main_app.py:27-34 | all-blank replies give an empty list, not an error |
| MainApp.NoNonBlank | main_app.py:29 | only blank lines leave nothing to parse |
| MainApp.StopAcquisition | main_app.py:39-41 | exactly one `CR` is sent |
| MainApp.UpdateTset | main_app.py:106-116 | Tset changes only to a value in [1e-9, 100]; anything else leaves the device unchanged |
| MainApp.UpdateTsetAgreesWithValidator | main_app.py:106-116 | on non-empty text the guard accepts exactly what the period validator accepts |
| MainApp.UpdateTsetKeepsRange | main_app.py:106-116 | a Tset in range stays in range |
| MainApp.Connect | main_app.py:64-89 | a device exists exactly when a usable resource exists and reopens, and it is built on that resource |
| MainApp.ConnectPicksFirst | main_app.py:69-86 | the device uses the first usable resource; none is made exactly when no resource is usable |
| FiveTry.PeriodText | fivetry1.py:313-315 | empty text becomes "1"; other text is kept |
| FiveTry.Clamp | fivetry1.py:318-322 | the count lies in [1, 2000], is kept inside that range and is pinned at either end |
| FiveTry.PeriodCount | fivetry1.py:316-322 | a count exists in [1, 2000] exactly unless the period is zero or NaN |
| FiveTry.PeriodCountValue | fivetry1.py:318-322 | a finite non-zero period gives the clamped truncated reciprocal, an infinite one gives 1 |
| FiveTry.ValidPeriodCounts | fivetry1.py:241-249 | every period the validator admits yields a count |
| FiveTry.TruncMonotone | fivetry1.py:318 | truncation of non-negative values is monotone |
| FiveTry.ReciprocalAntitone | fivetry1.py:318 | `1/x` falls as a positive x grows |
| FiveTry.PeriodCountMonotone | fivetry1.py:318-322 | a longer period never asks for more periods |
| FiveTry.PeriodCountBounds | fivetry1.py:318-322 | periods of 1 s or more give 1; 1/2000 s or less give 2000 |
| FiveTry.ReadCycle | fivetry1.py:308-347 | without a connection nothing is sent; a raise queues nothing; a clean cycle had a convertible, sleepable period and sends `NP n`, `CR`, `CS`, `EA`, `CR` |
| FiveTry.EmptyEntryReadsOnce | fivetry1.py:313-341 | an empty entry runs a one-period cycle that reads one reply |
| FiveTry.NegativePeriodHalts | fivetry1.py:318-329 | a negative period writes `NP 1`, `CR`, `CS` and then raises at the sleep |
| FiveTry.CycleQueuesCounts | fivetry1.py:325-343 | with a valid entry and replies for every period, exactly the counted rows are queued in order with the full trace |
| FiveTry.ReadData | fivetry1.py:306-349 | a stopped application is left alone; otherwise the queue grows at the back by at most 2000 rows, at most five commands are sent, and nothing else changes |
| FiveTry.ToggleStartRecord | fivetry1.py:251-258 | only the record-on-start flag changes |
| FiveTry.StartReading | fivetry1.py:261-276 | Start does nothing while reading; otherwise reading begins, record-on-start ends with no recording, and nothing but the flag and the recorder changes |
| FiveTry.ResetData | fivetry1.py:288-304 | the shared reset plus a rewound tail position |
| FiveTry.StopReading | fivetry1.py:278-300 | reading stops, recording is off, and queue, series and tail position are reset even when not reading; the record-on-start flag and the sent commands are kept |
| FiveTry.StartStopFromStart | fivetry1.py:261-300 | Start then Stop from the initial application returns to it exactly |
| FiveTry.RecordOnStartEndsIdle | fivetry1.py:268-270 | record-on-start leaves the application reading with no recording |
| FiveTry.TransitionsKeepRecorder | fivetry1.py:251-442 | every button keeps recording exactly while a file is open, and leaks no handle |
| FiveTry.CycleThenDrain | fivetry1.py:306-349 | a cycle's rows, once drained, are the newest points of every series in reading order; a stopped application plots nothing new |
| FiveTry.Connect | fivetry1.py:206-239 | Start is enabled exactly when a usable resource exists and reopens, and that resource is used |
| FiveTry.ConnectDisablesStart | fivetry1.py:214-232 | Start stays disabled exactly when no resource is usable or the reopen fails |
| FourTry.SetupCommands | fourtry1.py:109-120 | the set-up starts with `CR` and has three writes |
| FourTry.SetupCommandsReadBack | fourtry1.py:112-116 | the preset sent is `CP2,3000` (Tset = 3000 ticks) |
| FourTry.SetupPeriodsReadBack | fourtry1.py:112-116 | the count in the `NP` command sent reads back as 5 |
| FourTry.ScanCommands | fourtry1.py:64-67 | a scan sends the set-up, then `CS`, then `FA` |
| FourTry.StartScan | fourtry1.py:46-59 | Start does nothing while reading; a connection shows the start line, starts reading and drains the queue; a failure shows both error dialogs and leaves no connection |
| FourTry.CloseSr400 | fourtry1.py:122-130 | the connection is always gone afterwards |
| FourTry.PerformScan | fourtry1.py:62-73 | always ends not reading and disconnected; queues one item, the stripped reply exactly when all writes and the read succeed; set-up failures show the set-up dialog |
| FourTry.PauseScan | fourtry1.py:76-84 | acts only while reading; a halt sends `CH`, queues the pause text and stops reading; a failure only queues the exception |
| FourTry.ResetScan | fourtry1.py:86-95 | acts only when connected; `CR` clears the points, queues the reset text and stops reading; a failure only queues the exception |
| FourTry.PointsOf | fourtry1.py:136-144 | points come only from a non-status string |
| FourTry.Show | fourtry1.py:134-147 | each item adds exactly one line or one dialog, and the points change only on a parsed data string |
| FourTry.ShowAll | fourtry1.py:134-147 | each item adds exactly one line or dialog, in order |
| FourTry.UpdateGui | fourtry1.py:132-148 | the whole queue is drained, one line or dialog per item, and nothing else changes |
| FourTry.ShowAllSnoc | fourtry1.py:134-135 | showing one more item is one more loop pass |
| FourTry.ShowAllPoints | fourtry1.py:140-141 | the points are those of the newest item that carries points |
| FourTry.UpdateGuiPoints | fourtry1.py:132-144 | after the drain the points come from the newest data item |
| FourTry.FormattedIsData | fourtry1.py:137 | a formatted row is never taken for a status text |
| FourTry.ShowFormatted | fourtry1.py:140-142 | a formatted row becomes the points and is shown |
| FourTry.ShowStatus | fourtry1.py:136-138 | the pause and reset texts are shown verbatim and do not touch the points |
| FourTry.ShowGarbage | fourtry1.py:143-144 | a non-integer reply shows the data-error dialog and keeps the points |
| FourTry.ScanReplyStrips | fourtry1.py:67 | the stripped reply is the formatted row |
| FourTry.ScanRoundTrip | fourtry1.py:46-73 | a clean scan of a formatted reply shows the start line and the counts, which become the points |
| FourTry.FirstScan | fourtry1.py:46-73 | the first clean scan of a fresh scanner shows only the start line and the row, with no dialog |
| FourTry.ScanEndsIdle | fourtry1.py:71-73 | a scan always ends idle and disconnected, whatever fails |
| FourTry.ResetShown | fourtry1.py:86-95 | a reset then a drain shows the reset text with the points cleared |
| Reader1523.ToggleStartRecord | modified_1523reader.py:245-254 | the flag flips; switching on while reading ends with no recording; otherwise the recorder is untouched |
| Reader1523.StartReading | modified_1523reader.py:263-279 | Start does nothing while reading; otherwise reading begins, and record-on-start ends with no recording |
| Reader1523.ResetData | modified_1523reader.py:295-308 | queue and panel are cleared; the tail position is kept |
| Reader1523.StopReading | modified_1523reader.py:281-293 | always ends reset; a device is halted with `CR` only when reading; recording ends; the record-on-start flag and the tail position are kept |
| Reader1523.StartStopFromStart | modified_1523reader.py:263-305 | Start then Stop from the initial application returns to it, plus the `CR` halt for a device |
| Reader1523.ReadFromDevice | modified_1523reader.py:340-351 | only while reading a device; the acquired rows go to the back of the queue in order |
| Reader1523.RecordOnStartEndsIdle | modified_1523reader.py:250-252 | record-on-start, by either path, leaves no recording |
| Reader1523.TransitionsKeepRecorder | modified_1523reader.py:245-293 | every button keeps recording exactly while a file is open, and leaks no handle |
| Reader1523.StopReadingTwice | modified_1523reader.py:281-293 | stopping twice is stopping once |
| Reader1523.AcquireThenDrain | modified_1523reader.py:340-403 | an acquisition then a drain makes the counts the newest points in order and empties the queue |
| Reader1522.ToggleStartRecord | 1522reader.py:247-259 | switching on while reading ends with no recording; switching off clears the flag and toggles when a file is held |
| Reader1522.StartReading | 1522reader.py:269-280 | afterwards the application is reading and nothing else changed |
| Reader1522.ResetData | 1522reader.py:292-309 | queue and panel are cleared and the tail position rewound |
| Reader1522.StopReading | 1522reader.py:282-290 | always ends reset and not reading; recording ends |
| Reader1522.StartNeedsStop | 1522reader.py:269-290 | Start does nothing until Stop has run once |
| Reader1522.RecordOffReopens | 1522reader.py:255-259 | switching record-on-start off while recording opens a fresh file and drops the old one unclosed |
| Reader1522.RecordOffWhenIdle | 1522reader.py:255-259 | with no file held, switching off only clears the flag |
| Reader1522.TransitionsKeepRecorder | 1522reader.py:247-290 | every transition but switching record-on-start off keeps recording exactly while a file is open |
| Reader1522.DrainAfterStop | 1522reader.py:282-309 | after a stop the next drain raises nothing and changes nothing |
| Reader1529.Start | modified_1529reader.py:34-91 | a new session is idle with no experiment asked for (`num_experiments = 0`), and QA/QB polling is on exactly for a device source |
| Reader1529.ToggleStartRecord | modified_1529reader.py:249-259 | the flag flips; switching on while reading and not recording ends with no recording |
| Reader1529.ToggleRecording | modified_1529reader.py:533-550 | the Record button changes only the recorder |
| Reader1529.ExperimentCount | modified_1529reader.py:282-286 | M is the parsed integer, or 1 when `int()` raises |
| Reader1529.ExperimentCountOfValidText | modified_1529reader.py:282-286 | any text the M field admits gives 1 to 1000 experiments |
| Reader1529.ExperimentCountOfNumeral | modified_1529reader.py:283 | the numeral of n gives n experiments |
| Reader1529.StartReading | modified_1529reader.py:269-299 | Start does nothing while reading; otherwise the counter restarts at 0, M is read, and a device start clears the averages; the record-on-start flag, the displayed values, the queue, the log and QA/QB polling are kept |
| Reader1529.StopReading | modified_1529reader.py:301-313 | reading stops and recording ends; a device is halted with `CR`; the averages stay |
| Reader1529.ColumnValues | modified_1529reader.py:377-378 | a channel's values are no more than the rows |
| Reader1529.ColumnValuesOfFullRows | modified_1529reader.py:377-378 | when every row has the column, there is one value per row in order |
| Reader1529.ColumnValuesOfShortRows | modified_1529reader.py:378 | when no row has the column, the channel has no values |
| Reader1529.ColumnValuesAppend | modified_1529reader.py:377-378 | the channel of two row lists is the two channels concatenated |
| Reader1529.ShortRowIgnored | modified_1529reader.py:378 | a row too short for the column never contributes to it, wherever it sits |
| Reader1529.Experiment | modified_1529reader.py:377-411 | A and B each gain one average, 0 when absent; X is A's average when any channel has values, else 0; averages and X grow by one; the rows are queued |
| Reader1529.ExperimentValueIsMeanOfA | modified_1529reader.py:398-405 | X is the mean of channel A, independent of channel B |
| Reader1529.SingleChannelExperiment | modified_1529reader.py:377-405 | single-count rows give A and X their mean and plot 0 for B |
| Reader1529.RecordPass | modified_1529reader.py:371-411 | the counter advances and the acquisition's writes are kept; a pass without rows changes nothing else; only the experiment data and the queue can change |
| Reader1529.FinishPass | modified_1529reader.py:414-427 | at M experiments reading stops and the QA/QB polling flags are set again; earlier nothing changes; only the reading flag, the recorder, the writes and the polling flags can change, so recorded data is kept |
| Reader1529.ExperimentStep | modified_1529reader.py:365-432 | a pass acquires once, advances the counter, stops reading once the counter reaches M, never switches QA/QB polling off, and keeps M, the record-on-start flag and the log |
| Reader1529.ExperimentStepFormatted | modified_1529reader.py:371-411 | formatted replies record one average, the mean of channel A, and queue the counts |
| Reader1529.ExperimentStepFailed | modified_1529reader.py:371-375 | a failed acquisition still counts as an experiment but records nothing |
| Reader1529.Run | modified_1529reader.py:367-432 | the counter never falls, M never changes, and QA/QB polling once on stays on |
| Reader1529.RunWhenStopped | modified_1529reader.py:367 | once reading is off the loop does nothing |
| Reader1529.RunContinues | modified_1529reader.py:414-427 | before the last experiment the loop keeps reading, one experiment per pass |
| Reader1529.RunStops | modified_1529reader.py:414-422 | the loop stops exactly at M experiments with QA/QB polling on |
| Reader1529.StartThenRun | modified_1529reader.py:269-299 | Start with admitted M text and the loop stops after exactly M experiments, one for an empty field |
| Reader1529.DevicePollingStaysOn | modified_1529reader.py:79-87 | for a device, QA/QB polling is on from construction through Start and any number of passes |
| Reader1529.NoDeviceNoExperiments | modified_1529reader.py:288-299 | with a file or no source, Start runs no experiment and QA/QB polling stays off |
| Reader1529.RunWithoutDevice | modified_1529reader.py:365-368 | the device loop does nothing without a device |
| Reader1529.DrainLog | modified_1529reader.py:458-466 | rows leave from the front, at least one per non-empty drain |
| Reader1529.DrainLogSpec | modified_1529reader.py:458-466 | the log keeps the last 10 converted rows in order; the drain raises exactly on a bad row and otherwise empties the queue |
| Reader1529.ProcessQueue | modified_1529reader.py:456-479 | the log stays within 10 rows and only queue and log change |
| Reader1529.ProcessQueueLog | modified_1529reader.py:456-466 | from a log within 10 rows, the log keeps the last 10 converted rows, the drain raises exactly on a bad row, and otherwise empties the queue |
| Reader1529.ProcessCounts | modified_1529reader.py:456-466 | an experiment's counts drain without error into the log |
| Reader1529.TransitionsKeepRecorder | modified_1529reader.py:249-313 | every button keeps recording exactly while a file is open, and leaks no handle |

## Left out

- Widgets, button states, label text and its `.1f` formatting are UI and are not modelled.
- Matplotlib drawing is not modelled. The wall-clock refresh throttle of `update_plot` is a boolean input.
- Threads and their interleavings are not modelled: the reader threads, the QA/QB polling loops and the cooperative stop races. Each step is treated as atomic, and `fourtry1.py`'s scan thread likewise.
- Timed sleeps are not modelled as time. Only whether `time.sleep` raises is modelled, in `acquire_data` and `read_data`.
- File tailing is not modelled: `read_data_realtime`, and `read_data` in `1522reader.py`. Nor are the recording file's writes and timestamps. The recording file is an abstract handle.
- Python floats are exact reals, so rounding, and `1/tset` overflowing to infinity for a tiny period, are not modelled.
- `float()` of text is an abstract parameter. So is the text of the preset `tset * 10**7`, because float formatting is not modelled.
- `int()` is modelled on ASCII text only. Non-ASCII digits are not modelled.
- Writes in `ControlSr400`, `MainApp` and `FiveTry` are assumed to succeed. Only read time-outs, parse failures and sleep failures are modelled there. `FourTry` models write failures.
- The `NN` query in the `Sr400` constructor and its answer are not modelled. The ten-second sleep of `single_read` is not modelled either.
- ControlSr400.SingleRead: exposes the rows it reads, although `single_read` builds `fa` and returns `None`. A missing handle fails like a read failure (`rows == None`); the model does not tell the `AttributeError` apart.
- FourTry.StartScan: treats every connection failure as the `VisaIOError` that shows the connection dialog. The model does not track an earlier open connection that `start_scan` overwrites without closing. The scan thread is taken to run after the drain in `start_scan`; other interleavings are not modelled.
- FourTry.UpdateGui: does not model the rescheduling through `root.after`, so it also leaves out that every successful Start adds one more periodic `update_gui` loop.
- The drain of `fivetry1.py` (`Gui.Drain` with three columns): `fivetry1.py` never calls `start_gui_update`, so in the program its queue is never drained. The drain is modelled anyway, as the code is written. The `coeff` entry read inside the drain is unused and left out.
- Reader1529.ProcessQueue: does not model the recording write, and the raw rows are only logged.
- `reset_data` of `modified_1529reader.py` is never called and is not modelled.
- `fourtry.py` is an asynchronous duplicate of `fourtry1.py` and is not part of this model. Neither is `qt.py` (a sine-wave plotting demo) nor `mean.py` (a one-off pandas mean).
