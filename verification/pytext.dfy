/** The pieces of Python's string handling the instrument code relies on:
    `str.isspace`, `rstrip`/`strip`, `split(',')`, `','.join`, the `in`
    substring test, `int(text)` in base 10 and `str(n)` for integers. */
module PyText {
  import opened Base

  /** Python's `str.isspace` for a single character. */
  predicate IsSpace(c: char)
  {
    || c == ' '
    || ('\t' <= c <= '\r')
    || ('\U{1c}' <= c <= '\U{1f}')
    || c == '\U{85}' || c == '\U{a0}' || c == '\U{1680}'
    || ('\U{2000}' <= c <= '\U{200a}')
    || c == '\U{2028}' || c == '\U{2029}' || c == '\U{202f}' || c == '\U{205f}' || c == '\U{3000}'
  }

  /** `s.rstrip()`: the longest prefix of `s` that does not end in whitespace. */
  function RStrip(s: string): (r: string)
    ensures r <= s
    ensures |r| == 0 || !IsSpace(r[|r| - 1])
    ensures forall i :: |r| <= i < |s| ==> IsSpace(s[i])
  {
    if |s| > 0 && IsSpace(s[|s| - 1]) then RStrip(s[..|s| - 1]) else s
  }

  /** `s.lstrip()`: the longest suffix of `s` that does not start with whitespace. */
  function LStrip(s: string): (r: string)
    ensures |r| <= |s| && r == s[|s| - |r|..]
    ensures |r| == 0 || !IsSpace(r[0])
    ensures forall i :: 0 <= i < |s| - |r| ==> IsSpace(s[i])
  {
    if |s| > 0 && IsSpace(s[0]) then LStrip(s[1..]) else s
  }

  /** `s.strip()`. */
  function Strip(s: string): string
  {
    LStrip(RStrip(s))
  }

  /** Text that neither starts nor ends with whitespace is its own strip. */
  lemma StripNoEdges(s: string)
    requires |s| == 0 || (!IsSpace(s[0]) && !IsSpace(s[|s| - 1]))
    ensures Strip(s) == s
  {
  }

  /** One blank on each side of text without whitespace edges is stripped away. */
  lemma StripPadded(s: string)
    requires |s| > 0 && !IsSpace(s[0]) && !IsSpace(s[|s| - 1])
    ensures Strip(" " + s + " ") == s
  {
    var padded := " " + s + " ";
    assert padded[..|padded| - 1] == " " + s;
    assert RStrip(padded) == RStrip(" " + s);
    assert RStrip(" " + s) == " " + s;
    assert (" " + s)[1..] == s;
    assert LStrip(" " + s) == LStrip(s);
  }

  /** `s.rstrip()` is a fixed point. */
  lemma RStripIdempotent(s: string)
    ensures RStrip(RStrip(s)) == RStrip(s)
  {
  }

  /** Whitespace added at the end never survives `rstrip`. */
  lemma {:induction false} RStripTrailing(s: string, w: string)
    requires forall i :: 0 <= i < |w| ==> IsSpace(w[i])
    ensures RStrip(s + w) == RStrip(s)
    decreases |w|
  {
    if |w| > 0 {
      assert (s + w)[..|s + w| - 1] == s + w[..|w| - 1];
      RStripTrailing(s, w[..|w| - 1]);
    } else {
      assert s + w == s;
    }
  }

  // ---------------------------------------------------------------------
  // split and join on one separator character

  /** `s.split(sep)` for a one-character separator: never empty, and the
      pieces are the maximal separator-free runs, empty ones included. */
  function Split(s: string, sep: char): (parts: seq<string>)
    ensures |parts| >= 1
    ensures forall j :: 0 <= j < |parts| ==> sep !in parts[j]
  {
    if |s| == 0 then [""]
    else
      var rest := Split(s[1..], sep);
      if s[0] == sep then [""] + rest
      else [[s[0]] + rest[0]] + rest[1..]
  }

  /** `sep.join(parts)`. */
  function Join(parts: seq<string>, sep: char): string
  {
    if |parts| == 0 then ""
    else if |parts| == 1 then parts[0]
    else parts[0] + [sep] + Join(parts[1..], sep)
  }

  /** Joining the pieces of a split gives back the original text. */
  lemma {:induction false} JoinSplit(s: string, sep: char)
    ensures Join(Split(s, sep), sep) == s
  {
    if |s| > 0 {
      var rest := Split(s[1..], sep);
      JoinSplit(s[1..], sep);
      if s[0] == sep {
        assert Split(s, sep) == [""] + rest;
        assert ([""] + rest)[1..] == rest;
        assert Join([""] + rest, sep) == "" + [sep] + Join(rest, sep);
        assert [sep] + s[1..] == s;
      } else {
        var parts := [[s[0]] + rest[0]] + rest[1..];
        assert Split(s, sep) == parts;
        if |rest| == 1 {
          assert Join(rest, sep) == rest[0];
          assert Join(parts, sep) == [s[0]] + rest[0];
        } else {
          assert parts[1..] == rest[1..];
          assert Join(rest, sep) == rest[0] + [sep] + Join(rest[1..], sep);
          assert Join(parts, sep) == ([s[0]] + rest[0]) + [sep] + Join(rest[1..], sep);
        }
        assert [s[0]] + s[1..] == s;
      }
    }
  }

  /** A separator-free piece followed by the separator splits off as one piece. */
  lemma {:induction false} SplitPiece(p: string, t: string, sep: char)
    requires sep !in p
    ensures Split(p + [sep] + t, sep) == [p] + Split(t, sep)
    ensures Split(p, sep) == [p]
    decreases |p|
  {
    if |p| > 0 {
      SplitPiece(p[1..], t, sep);
      assert (p + [sep] + t)[1..] == p[1..] + [sep] + t;
      assert [p[0]] + p[1..] == p;
    } else {
      assert p + [sep] + t == [sep] + t;
      assert ([sep] + t)[1..] == t;
    }
  }

  /** Splitting a join of separator-free pieces recovers the pieces. */
  lemma {:induction false} SplitJoin(parts: seq<string>, sep: char)
    requires |parts| >= 1
    requires forall j :: 0 <= j < |parts| ==> sep !in parts[j]
    ensures Split(Join(parts, sep), sep) == parts
  {
    SplitPiece(parts[0], "", sep);
    if |parts| > 1 {
      SplitJoin(parts[1..], sep);
      SplitPiece(parts[0], Join(parts[1..], sep), sep);
      assert [parts[0]] + parts[1..] == parts;
    }
  }

  // ---------------------------------------------------------------------
  // the `in` operator on strings

  /** Python's `sub in s`. */
  predicate Contains(s: string, sub: string)
    decreases |s|
  {
    sub <= s || (|s| > 0 && Contains(s[1..], sub))
  }

  predicate OccursAt(s: string, sub: string, i: nat)
  {
    i + |sub| <= |s| && s[i..i + |sub|] == sub
  }

  /** `sub in s` holds exactly when `sub` occurs at some position of `s`. */
  lemma ContainsIffOccurs(s: string, sub: string)
    ensures Contains(s, sub) <==> exists i: nat :: OccursAt(s, sub, i)
  {
    if Contains(s, sub) {
      var i := ContainsOccurs(s, sub);
    }
    if exists i: nat :: OccursAt(s, sub, i) {
      var i: nat :| OccursAt(s, sub, i);
      OccursContains(s, sub, i);
    }
  }

  /** A position where `sub` occurs, for text that contains it. */
  lemma {:induction false} ContainsOccurs(s: string, sub: string) returns (i: nat)
    requires Contains(s, sub)
    ensures OccursAt(s, sub, i)
    decreases |s|
  {
    if sub <= s {
      i := 0;
      assert s[0..|sub|] == sub;
    } else {
      var k := ContainsOccurs(s[1..], sub);
      i := k + 1;
      assert s[i..i + |sub|] == s[1..][k..k + |sub|];
    }
  }

  /** An occurrence at any position is found by `in`. */
  lemma {:induction false} OccursContains(s: string, sub: string, i: nat)
    requires OccursAt(s, sub, i)
    ensures Contains(s, sub)
    decreases i
  {
    if i == 0 {
      assert s[..|sub|] == sub;
    } else {
      assert s[1..][i - 1..i - 1 + |sub|] == s[i..i + |sub|];
      OccursContains(s[1..], sub, i - 1);
    }
  }

  /** Text containing `sub` anywhere is recognised. */
  lemma ContainsInside(a: string, sub: string, b: string)
    ensures Contains(a + sub + b, sub)
  {
    var s := a + sub + b;
    assert s[|a|..|a| + |sub|] == sub;
    assert OccursAt(s, sub, |a|);
    ContainsIffOccurs(s, sub);
  }

  /** Text in which the first character of `sub` never appears does not contain `sub`. */
  lemma {:induction false} LacksFirstChar(s: string, sub: string)
    requires |sub| > 0
    requires forall i :: 0 <= i < |s| ==> s[i] != sub[0]
    ensures !Contains(s, sub)
    decreases |s|
  {
    if |s| > 0 {
      assert s[0] != sub[0];
      LacksFirstChar(s[1..], sub);
    }
  }

  // ---------------------------------------------------------------------
  // int(text) and str(n), base 10

  predicate IsDigit(c: char)
  {
    '0' <= c <= '9'
  }

  function DigitValue(c: char): nat
    requires IsDigit(c)
  {
    (c as int) - ('0' as int)
  }

  function DigitChar(d: nat): (c: char)
    requires d < 10
    ensures IsDigit(c) && DigitValue(c) == d
  {
    (('0' as int) + d) as char
  }

  /** A base-10 digit run as Python's `int()` accepts it: digits, with single
      underscores allowed only between two digits. */
  predicate IsDigitRun(s: string)
  {
    && |s| > 0
    && IsDigit(s[0])
    && IsDigit(s[|s| - 1])
    && (forall i :: 0 <= i < |s| ==> IsDigit(s[i]) || s[i] == '_')
    && (forall i :: 0 <= i < |s| - 1 ==> s[i] == '_' ==> s[i + 1] != '_')
  }

  /** The value of a digit run, reading underscores as nothing. */
  function RunValue(s: string): nat
  {
    if |s| == 0 then 0
    else if IsDigit(s[|s| - 1]) then RunValue(s[..|s| - 1]) * 10 + DigitValue(s[|s| - 1])
    else RunValue(s[..|s| - 1])
  }

  /** Python's `int(text)`: surrounding whitespace is ignored, one optional
      sign, then a digit run; anything else raises `ValueError` (`None`). */
  function ParseInt(text: string): (r: Option<int>)
    ensures r.Some? ==> |Strip(text)| > 0
  {
    ParseStripped(Strip(text))
  }

  /** `int()` once the surrounding whitespace is gone: an optional sign, then a digit run. */
  function ParseStripped(t: string): (r: Option<int>)
    ensures r.Some? ==> |t| > 0
  {
    if |t| > 0 && (t[0] == '+' || t[0] == '-') then
      if IsDigitRun(t[1..]) then
        var magnitude: int := RunValue(t[1..]);
        Some(if t[0] == '-' then -magnitude else magnitude)
      else None
    else if IsDigitRun(t) then Some(RunValue(t))
    else None
  }

  /** Decimal digits of a natural number, most significant first, no leading zeros. */
  function NatToString(n: nat): (s: string)
    ensures |s| > 0
    ensures forall i :: 0 <= i < |s| ==> IsDigit(s[i])
    ensures |s| > 1 ==> s[0] != '0'
  {
    if n < 10 then [DigitChar(n)] else NatToString(n / 10) + [DigitChar(n % 10)]
  }

  /** Python's `str(n)` for an integer. */
  function IntToString(n: int): string
  {
    if n < 0 then "-" + NatToString(-n) else NatToString(n)
  }

  lemma {:induction false} RunValueOfNat(n: nat)
    ensures IsDigitRun(NatToString(n))
    ensures RunValue(NatToString(n)) == n
  {
    var s := NatToString(n);
    if n >= 10 {
      RunValueOfNat(n / 10);
      assert s[..|s| - 1] == NatToString(n / 10);
    }
  }

  /** `int(str(n)) == n` for every integer. */
  lemma ParseIntOfString(n: int)
    ensures ParseInt(IntToString(n)) == Some(n)
  {
    var s := IntToString(n);
    if n < 0 {
      ParseNegative(-n);
    } else {
      ParseNat(n);
    }
    StringOfIntStrips(n);
  }

  /** The text of an integer has no whitespace to strip. */
  lemma StringOfIntStrips(n: int)
    ensures Strip(IntToString(n)) == IntToString(n)
  {
    var s := IntToString(n);
    var t := NatToString(if n < 0 then -n else n);
    assert s[|s| - 1] == t[|t| - 1];
    assert IsDigit(t[|t| - 1]);
    assert s[0] == '-' || IsDigit(s[0]);
    StripNoEdges(s);
  }

  /** The digits of a natural number read back, unsigned. */
  lemma ParseNat(n: nat)
    ensures ParseStripped(NatToString(n)) == Some(n)
  {
    var s := NatToString(n);
    RunValueOfNat(n);
    assert IsDigit(s[0]);
  }

  /** A minus sign and the digits of `m` read back as `-m`. */
  lemma ParseNegative(m: nat)
    ensures ParseStripped("-" + NatToString(m)) == Some(-(m as int))
  {
    var s := "-" + NatToString(m);
    RunValueOfNat(m);
    assert s[0] == '-' && s[1..] == NatToString(m);
  }

  /** `int()` looks at the stripped text only. */
  lemma ParseIntSameStrip(a: string, b: string)
    requires Strip(a) == Strip(b)
    ensures ParseInt(a) == ParseInt(b)
  {
  }

  /** `int(str(n) + w) == n` for trailing whitespace `w`, such as a line terminator. */
  lemma ParseIntOfTerminated(n: int, w: string)
    requires forall i :: 0 <= i < |w| ==> IsSpace(w[i])
    ensures ParseInt(IntToString(n) + w) == Some(n)
  {
    var s := IntToString(n);
    assert Strip(s + w) == Strip(s) by {
      RStripTrailing(s, w);
    }
    ParseIntSameStrip(s + w, s);
    ParseIntOfString(n);
  }

  /** The text of an integer holds neither whitespace nor a comma. */
  lemma IntToStringPlain(n: int)
    ensures |IntToString(n)| > 0
    ensures ',' !in IntToString(n)
    ensures !IsSpace(IntToString(n)[0])
    ensures !IsSpace(IntToString(n)[|IntToString(n)| - 1])
  {
    var s := IntToString(n);
    if n < 0 {
      assert s[1..] == NatToString(-n);
      assert forall i :: 1 <= i < |s| ==> s[i] == NatToString(-n)[i - 1];
    }
  }

  // ---------------------------------------------------------------------
  // one instrument response line: comma-separated integers

  /** `[int(v) for v in parts]`, raising (`None`) on the first bad piece. */
  function ParseInts(parts: seq<string>): (r: Option<seq<int>>)
    ensures r.Some? ==> |r.value| == |parts|
    ensures r.Some? ==> forall j :: 0 <= j < |parts| ==> ParseInt(parts[j]) == Some(r.value[j])
  {
    if |parts| == 0 then Some([])
    else match ParseInt(parts[0])
      case None => None
      case Some(v) =>
        match ParseInts(parts[1..])
        case None => None
        case Some(vs) => Some([v] + vs)
  }

  /** `list(map(int, line.split(',')))`. */
  function ParseIntList(line: string): (r: Option<seq<int>>)
    ensures r.Some? ==> |r.value| == |Split(line, ',')| > 0
  {
    ParseInts(Split(line, ','))
  }

  /** `int('')` raises, so a blank line yields no row. */
  lemma BlankLineFails()
    ensures ParseIntList("").None?
  {
    var parts := Split("", ',');
    assert parts == [""];
    assert RStrip("") == "" && LStrip("") == "";
    assert ParseStripped("").None?;
    assert ParseInt(parts[0]).None?;
  }

  function IntStrings(row: seq<int>): (parts: seq<string>)
    ensures |parts| == |row|
    ensures forall j :: 0 <= j < |row| ==> parts[j] == IntToString(row[j])
  {
    if |row| == 0 then [] else [IntToString(row[0])] + IntStrings(row[1..])
  }

  /** How the counter formats one row of counts: the values joined by commas. */
  function FormatIntList(row: seq<int>): string
  {
    Join(IntStrings(row), ',')
  }

  /** The formatted row ends in a digit, so `rstrip` leaves it alone and it is never empty. */
  lemma {:induction false} FormatIntListPlain(row: seq<int>)
    requires |row| > 0
    ensures |FormatIntList(row)| > 0
    ensures RStrip(FormatIntList(row)) == FormatIntList(row)
    decreases |row|
  {
    var parts := IntStrings(row);
    if |row| == 1 {
      IntToStringPlain(row[0]);
    } else {
      assert parts[1..] == IntStrings(row[1..]);
      FormatIntListPlain(row[1..]);
      var s := FormatIntList(row);
      var tail := FormatIntList(row[1..]);
      assert s == parts[0] + [','] + tail;
      assert s[|s| - 1] == tail[|tail| - 1];
    }
  }

  /** The text of an integer is a minus sign or digits, character by character. */
  lemma IntToStringChars(n: int)
    ensures forall i :: 0 <= i < |IntToString(n)| ==> IsDigit(IntToString(n)[i]) || IntToString(n)[i] == '-'
  {
    if n < 0 {
      var s := IntToString(n);
      assert forall i :: 1 <= i < |s| ==> s[i] == NatToString(-n)[i - 1];
    }
  }

  /** A formatted row holds only digits, minus signs and commas. */
  lemma {:induction false} FormatIntListChars(row: seq<int>)
    ensures var s := FormatIntList(row);
      forall i :: 0 <= i < |s| ==> IsDigit(s[i]) || s[i] == '-' || s[i] == ','
    decreases |row|
  {
    var parts := IntStrings(row);
    if |row| == 1 {
      IntToStringChars(row[0]);
    } else if |row| > 1 {
      assert parts[1..] == IntStrings(row[1..]);
      FormatIntListChars(row[1..]);
      IntToStringChars(row[0]);
      var head := IntToString(row[0]);
      var tail := FormatIntList(row[1..]);
      var s := FormatIntList(row);
      assert s == head + [','] + tail;
      forall i | 0 <= i < |s|
        ensures IsDigit(s[i]) || s[i] == '-' || s[i] == ','
      {
        if i < |head| {
          assert s[i] == head[i];
        } else if i > |head| {
          assert s[i] == tail[i - |head| - 1];
        }
      }
    }
  }

  /** Parsing a formatted non-empty row gives the row back. */
  lemma ParseFormatted(row: seq<int>)
    requires |row| > 0
    ensures ParseIntList(FormatIntList(row)) == Some(row)
  {
    var parts := IntStrings(row);
    forall j | 0 <= j < |parts|
      ensures ',' !in parts[j]
    {
      IntToStringPlain(row[j]);
    }
    SplitJoin(parts, ',');
    forall j | 0 <= j < |parts|
      ensures ParseInt(parts[j]) == Some(row[j])
    {
      ParseIntOfString(row[j]);
    }
    ParseIntsExact(parts, row);
  }

  lemma {:induction false} ParseIntsExact(parts: seq<string>, row: seq<int>)
    requires |parts| == |row|
    requires forall j :: 0 <= j < |parts| ==> ParseInt(parts[j]) == Some(row[j])
    ensures ParseInts(parts) == Some(row)
  {
    if |parts| > 0 {
      ParseIntsExact(parts[1..], row[1..]);
      assert [row[0]] + row[1..] == row;
    }
  }
}
