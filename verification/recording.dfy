/** The recorder shared by every GUI variant: `toggle_recording` flips the
    `is_recording` flag and opens or closes the log file. The file itself is
    abstract: a handle with the name the code gives it, and a count of
    handles that were replaced while still open (and so never closed). */
module Recording {
  import opened Base

  datatype Handle = Handle(name: string)

  datatype Recorder = Recorder(isRecording: bool, file: Option<Handle>, abandoned: nat)

  /** The state every variant starts in: not recording, no file. */
  const Idle: Recorder := Recorder(false, None, 0)

  /** `recorded_data_<YYYYmmdd_HHMMSS>.txt`, the stamp coming from the wall clock. */
  function FileName(stamp: string): string
  {
    "recorded_data_" + stamp + ".txt"
  }

  /** Recording exactly when a file is open: the invariant the GUI relies on
      when it appends to `recording_file.name` while `is_recording` is set. */
  predicate Consistent(r: Recorder)
  {
    r.isRecording <==> r.file.Some?
  }

  /** `toggle_recording`. `stamp` is the clock reading used for the file name,
      `created` whether `open(filename, "w")` succeeds. */
  function Toggle(r: Recorder, stamp: string, created: bool): (r': Recorder)
    ensures r'.isRecording <==> !r.isRecording && created
    ensures r.isRecording ==> r'.file.None? && r'.abandoned == r.abandoned
    ensures !r.isRecording && created ==> r'.file == Some(Handle(FileName(stamp)))
    ensures !r.isRecording && created ==> r'.abandoned == r.abandoned + (if r.file.Some? then 1 else 0)
    ensures !r.isRecording && !created ==> r' == r
  {
    if r.isRecording then
      // off: clear the flag, close the file if there is one
      r.(isRecording := false, file := None)
    else if created then
      // on: a new handle replaces whatever `recording_file` held, without closing it
      Recorder(true, Some(Handle(FileName(stamp))), r.abandoned + if r.file.Some? then 1 else 0)
    else
      // on, but the open raised: the flag is reset and nothing else changes
      r.(isRecording := false)
  }

  /** Every toggle keeps a consistent recorder consistent and leaks nothing. */
  lemma ToggleKeepsConsistent(r: Recorder, stamp: string, created: bool)
    requires Consistent(r)
    ensures Consistent(Toggle(r, stamp, created))
    ensures Toggle(r, stamp, created).abandoned == r.abandoned
  {
  }

  /** Turning recording on and then off again returns a consistent idle
      recorder to exactly where it was; a failed open leaves it there at once. */
  lemma ToggleOnOff(r: Recorder, stamp: string, stamp': string, created': bool)
    requires Consistent(r) && !r.isRecording
    ensures Toggle(Toggle(r, stamp, true), stamp', created') == r
    ensures Toggle(r, stamp, false) == r
  {
  }

  /** The idiom `self.is_recording = True; self.toggle_recording()` used by the
      record-on-start paths: the toggle sees the flag set and takes its OFF
      branch, so whatever was open is closed and the recorder ends idle. */
  function SetThenToggle(r: Recorder, stamp: string, created: bool): (r': Recorder)
    ensures !r'.isRecording && r'.file.None?
    ensures r'.abandoned == r.abandoned
  {
    Toggle(r.(isRecording := true), stamp, created)
  }
}
