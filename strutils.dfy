/** Date and time string formatting for logbook records: inserting and
    removing the dashes of `YYYY-MM-DD` and the colons of `HH:MM:SS`.
    Every operation works by Python slicing, so input of the wrong length
    is not rejected; it yields a shorter string. */
module StrUtils {

  import opened Strings

  function Min(a: int, b: int): int { if a < b then a else b }

  /** `YYYYMMDD` to `YYYY-MM-DD`: the first eight characters with two dashes
      inserted; anything past the eighth character is dropped. */
  function FormatDate(d: string): (r: string)
    ensures |r| == 2 + Min(|d|, 8)
  {
    Slice(d, 0, 4) + "-" + Slice(d, 4, 6) + "-" + Slice(d, 6, 8)
  }

  /** `HHMM` or `HHMMSS` to `HH:MM:SS`; seconds are `00` when the input is
      shorter than six characters. */
  function FormatTime(t: string): (r: string)
    ensures |r| == 4 + Min(|t|, 4)
  {
    Slice(t, 0, 2) + ":" + Slice(t, 2, 4) + ":" + (if |t| >= 6 then Slice(t, 4, 6) else "00")
  }

  /** `YYYYMMDDHHMM[SS]` to `YYYY-MM-DD HH:MM:SS`: the date part formatted,
      a space, and the time part formatted. */
  function FormatTimestamp(ts: string): (r: string)
    ensures |ts| >= 12 ==> |r| == 19 && r[10] == ' '
  {
    FormatDate(Slice(ts, 0, 8)) + " " + FormatTime(Slice(ts, 8, 14))
  }

  /** `YYYY-MM-DD` to `YYYYMMDD`: the characters at indices 4 and 7 are
      dropped, whatever they are. */
  function UnformatDate(d: string): (r: string)
    ensures |d| >= 10 ==> |r| == 8
  {
    Slice(d, 0, 4) + Slice(d, 5, 7) + Slice(d, 8, 10)
  }

  /** `HH:MM` or `HH:MM:SS` to `HHMM` or `HHMMSS`: the characters at
      indices 2 and 5 are dropped. */
  function UnformatTime(t: string): (r: string)
    ensures |t| >= 8 ==> |r| == 6
    ensures |t| == 5 ==> |r| == 4
  {
    Slice(t, 0, 2) + Slice(t, 3, 5) + (if |t| >= 5 then Slice(t, 6, 8) else "")
  }

  /** A formatted date: ten characters with dashes at indices 4 and 7. */
  predicate IsDashedDate(d: string)
  {
    |d| == 10 && d[4] == '-' && d[7] == '-'
  }

  /** A formatted time: eight characters with colons at indices 2 and 5. */
  predicate IsColonTime(t: string)
  {
    |t| == 8 && t[2] == ':' && t[5] == ':'
  }

  /** The formatted date keeps the eight digits in order and puts dashes
      between year, month and day. */
  lemma {:induction false} FormatDateShape(d: string)
    requires |d| >= 8
    ensures IsDashedDate(FormatDate(d))
    ensures FormatDate(d)[..4] == d[..4] && FormatDate(d)[5..7] == d[4..6]
      && FormatDate(d)[8..] == d[6..8]
  {
  }

  /** Removing the dashes undoes inserting them. */
  lemma {:induction false} UnformatFormatDate(d: string)
    requires |d| == 8
    ensures UnformatDate(FormatDate(d)) == d
  {
    var f := FormatDate(d);
    assert f == d[..4] + "-" + d[4..6] + "-" + d[6..];
    assert d == d[..4] + d[4..6] + d[6..];
  }

  /** Inserting the dashes undoes removing them from a formatted date. */
  lemma {:induction false} FormatUnformatDate(d: string)
    requires IsDashedDate(d)
    ensures FormatDate(UnformatDate(d)) == d
  {
    var u := UnformatDate(d);
    assert u == d[..4] + d[5..7] + d[8..];
    assert d == d[..4] + "-" + d[5..7] + "-" + d[8..];
  }

  /** Either time form becomes eight characters with colons, hours and
      minutes kept; the seconds are the input's or `00`. */
  lemma {:induction false} FormatTimeShape(t: string)
    requires |t| >= 4
    ensures IsColonTime(FormatTime(t))
    ensures FormatTime(t)[..2] == t[..2] && FormatTime(t)[3..5] == t[2..4]
    ensures FormatTime(t)[6..] == if |t| >= 6 then t[4..6] else "00"
  {
  }

  /** `HHMMSS` survives formatting and unformatting unchanged. */
  lemma {:induction false} UnformatFormatTime(t: string)
    requires |t| == 6
    ensures UnformatTime(FormatTime(t)) == t
  {
    var f := FormatTime(t);
    assert f == t[..2] + ":" + t[2..4] + ":" + t[4..];
    assert t == t[..2] + t[2..4] + t[4..];
  }

  /** `HHMM` comes back with zero seconds appended. */
  lemma {:induction false} UnformatFormatShortTime(t: string)
    requires |t| == 4
    ensures UnformatTime(FormatTime(t)) == t + "00"
  {
    var f := FormatTime(t);
    assert f == t[..2] + ":" + t[2..] + ":00";
  }

  /** Formatting undoes unformatting of a formatted time. */
  lemma {:induction false} FormatUnformatTime(t: string)
    requires IsColonTime(t)
    ensures FormatTime(UnformatTime(t)) == t
  {
    var u := UnformatTime(t);
    assert u == t[..2] + t[3..5] + t[6..];
    assert t == t[..2] + ":" + t[3..5] + ":" + t[6..];
  }

  /** `HH:MM` is unformatted to `HHMM`, and formatting that appends the
      zero seconds. */
  lemma {:induction false} FormatUnformatShortTime(t: string)
    requires |t| == 5 && t[2] == ':'
    ensures FormatTime(UnformatTime(t)) == t + ":00"
  {
    var u := UnformatTime(t);
    assert u == t[..2] + t[3..];
    assert t == t[..2] + ":" + t[3..];
  }

  /** A full timestamp is its date and its time, formatted and joined by a
      space, so the two halves can be taken apart again. */
  lemma {:induction false} FormatTimestampParts(ts: string)
    requires |ts| == 14
    ensures var r := FormatTimestamp(ts);
      UnformatDate(r[..10]) == ts[..8] && UnformatTime(r[11..]) == ts[8..]
  {
    var r := FormatTimestamp(ts);
    assert Slice(ts, 0, 8) == ts[..8];
    assert Slice(ts, 8, 14) == ts[8..];
    assert r[..10] == FormatDate(ts[..8]);
    assert r[11..] == FormatTime(ts[8..]);
    UnformatFormatDate(ts[..8]);
    UnformatFormatTime(ts[8..]);
  }
}
