/** The keystroke validators of the entry fields. Tk calls them with the
    text the field would hold after the keystroke and refuses the keystroke
    when they return false, so the empty field is always allowed. */
module Validators {
  import opened Base
  import opened PyText
  import opened PyFloat

  /** Bounds of the Tset/period field: `10**(-9) <= float(text) <= 10**2`. */
  const MinPeriod: real := 0.000000001
  const MaxPeriod: real := 100.0

  /** Upper bound of the M (number of experiments) field. */
  const MaxExperiments: int := 1000

  /** `validate_m_input`: the empty text, or an integer `n` with `0 < n <= 1000`. */
  function ValidateCountInput(text: string): (ok: bool)
    ensures ok ==> text == "" || (ParseInt(text).Some? && 0 < ParseInt(text).value <= MaxExperiments)
    ensures text != "" && ParseInt(text).None? ==> !ok
    ensures text == "" ==> ok
    ensures ParseInt(text).Some? && 0 < ParseInt(text).value <= MaxExperiments ==> ok
  {
    if text == "" then true
    else match ParseInt(text)
      case None => false
      case Some(n) => 0 < n <= MaxExperiments
  }

  /** On the text of an integer, the count validator accepts exactly `1..1000`. */
  lemma CountInputOfNumeral(n: int)
    ensures ValidateCountInput(IntToString(n)) <==> 0 < n <= MaxExperiments
  {
    ParseIntOfString(n);
  }

  /** Whitespace around a numeral does not change the verdict, as `int()` strips it. */
  lemma CountInputPadded(n: int)
    ensures ValidateCountInput(" " + IntToString(n) + " ") <==> 0 < n <= MaxExperiments
  {
    var s := IntToString(n);
    var padded := " " + s + " ";
    IntToStringPlain(n);
    StripPadded(s);
    StripNoEdges(s);
    ParseIntSameStrip(padded, s);
    ParseIntOfString(n);
    assert padded != "";
  }

  /** `validate_input` of the Tset/period field: the empty text, or text whose
      float value `parsed` (`None` when `float()` raises) lies in `[1e-9, 100]`. */
  function ValidatePeriodInput(text: string, parsed: Option<Float>): (ok: bool)
    ensures ok && text != "" ==> parsed.Some? && parsed.value.Finite? && MinPeriod <= parsed.value.v <= MaxPeriod
    ensures text != "" && (parsed.None? || parsed.value.NaN? || parsed.value.Inf?) ==> !ok
    ensures text == "" ==> ok
    ensures parsed.Some? && parsed.value.Finite? && MinPeriod <= parsed.value.v <= MaxPeriod ==> ok
  {
    text == "" || (parsed.Some? && Within(parsed.value, MinPeriod, MaxPeriod))
  }
}
