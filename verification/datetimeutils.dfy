/**
 * The duration and time-zone formatting of `DateTimeUtils`: a duration in
 * milliseconds broken into days, hours, minutes, seconds and milliseconds,
 * and a zone offset written as `UTC+hh:mm`.
 */
module DateTimeUtils {
  import opened Jdk

  const MILLS_IN_SECOND: int := 1000
  const MILLS_IN_MINUTE: int := 60 * MILLS_IN_SECOND
  const MILLS_IN_HOUR: int := 60 * MILLS_IN_MINUTE
  const MILLS_IN_DAY: int := 24 * MILLS_IN_HOUR

  // ---------------------------------------------------------------------
  // Padded numbers
  // ---------------------------------------------------------------------

  /** A number below 10 gets one leading `0`; `Long.toString` otherwise. */
  function Pad2(n: int): string
  {
    if n < 10 then "0" + IntToString(n) else IntToString(n)
  }

  /** A number below 100 gets `0`, below 10 `00`; `Long.toString` otherwise. */
  function Pad3(n: int): string
  {
    if n < 100 then (if n < 10 then "00" else "0") + IntToString(n) else IntToString(n)
  }

  /** A leading `0` does not change the value of a digit string. */
  lemma {:induction false} LeadingZero(s: string)
    requires AllDigits(s)
    ensures AllDigits("0" + s) && DigitsValue("0" + s) == DigitsValue(s)
    decreases |s|
  {
    if |s| > 0 {
      var t := "0" + s;
      assert t[..|t| - 1] == "0" + s[..|s| - 1];
      LeadingZero(s[..|s| - 1]);
    }
  }

  /** Two or three digits for the numbers of 10 to 99 and of 100 to 999. */
  lemma NatToStringLength(n: nat)
    requires 10 <= n < 1000
    ensures |NatToString(n)| == if n < 100 then 2 else 3
  {
    assert NatToString(n) == NatToString(n / 10) + [DigitChar(n % 10)];
    if n >= 100 {
      assert NatToString(n / 10) == NatToString(n / 100) + [DigitChar(n / 10 % 10)];
    }
  }

  /** Every number of 0 to 99 is written as exactly two digits that read back as it. */
  lemma Pad2ReadsBack(n: int)
    requires 0 <= n < 100
    ensures |Pad2(n)| == 2 && AllDigits(Pad2(n)) && DigitsValue(Pad2(n)) == n
  {
    DigitsValueOfNatToString(n);
    if n >= 10 {
      NatToStringLength(n);
    } else {
      LeadingZero(NatToString(n));
    }
  }

  /** Every number of 0 to 999 is written as exactly three digits that read back as it. */
  lemma Pad3ReadsBack(n: int)
    requires 0 <= n < 1000
    ensures |Pad3(n)| == 3 && AllDigits(Pad3(n)) && DigitsValue(Pad3(n)) == n
  {
    DigitsValueOfNatToString(n);
    if n >= 100 {
      NatToStringLength(n);
    } else if n >= 10 {
      NatToStringLength(n);
      LeadingZero(NatToString(n));
    } else {
      LeadingZero(NatToString(n));
      LeadingZero("0" + NatToString(n));
      assert "00" + NatToString(n) == "0" + ("0" + NatToString(n));
    }
  }

  // ---------------------------------------------------------------------
  // Durations
  // ---------------------------------------------------------------------

  /** The five arguments of `DURATION_MSG_FORMAT`. */
  datatype DurationParts = DurationParts(days: int, hours: int, minutes: int, seconds: int, millis: int)

  predicate InRange(p: DurationParts)
  {
    0 <= p.days && 0 <= p.hours < 24 && 0 <= p.minutes < 60 && 0 <= p.seconds < 60 && 0 <= p.millis < 1000
  }

  function Recombine(p: DurationParts): int
  {
    p.days * MILLS_IN_DAY + p.hours * MILLS_IN_HOUR + p.minutes * MILLS_IN_MINUTE
    + p.seconds * MILLS_IN_SECOND + p.millis
  }

  /** The decomposition of a non-negative duration into its calendar-free units. */
  function Decompose(d: nat): DurationParts
  {
    DurationParts(d / MILLS_IN_DAY, d / MILLS_IN_HOUR % 24, d / MILLS_IN_MINUTE % 60,
                  d / MILLS_IN_SECOND % 60, d % MILLS_IN_SECOND)
  }

  /** The units of `Decompose` are in range and add up to the duration. */
  lemma DecomposeRecombines(d: nat)
    ensures InRange(Decompose(d)) && Recombine(Decompose(d)) == d
  {
    HoursOfDays(d);
    MinutesOfHours(d);
    SecondsOfMinutes(d);
  }

  lemma HoursOfDays(d: nat)
    ensures d / MILLS_IN_HOUR == (d / MILLS_IN_DAY) * 24 + d / MILLS_IN_HOUR % 24
  {
  }

  lemma MinutesOfHours(d: nat)
    ensures d / MILLS_IN_MINUTE == (d / MILLS_IN_HOUR) * 60 + d / MILLS_IN_MINUTE % 60
  {
  }

  lemma SecondsOfMinutes(d: nat)
    ensures d / MILLS_IN_SECOND == (d / MILLS_IN_MINUTE) * 60 + d / MILLS_IN_SECOND % 60
  {
  }

  /** No other in-range units add up to the same duration. */
  lemma DecomposeUnique(d: nat, p: DurationParts)
    requires InRange(p) && Recombine(p) == d
    ensures p == Decompose(d)
  {
    var hours := p.days * 24 + p.hours;
    var minutes := hours * 60 + p.minutes;
    var seconds := minutes * 60 + p.seconds;
    WholeUnits(d, p);
    assert hours % 24 == p.hours by {
      DivOfSplit(hours, p.days, p.hours, 24);
    }
    assert minutes % 60 == p.minutes by {
      DivOfSplit(minutes, hours, p.minutes, 60);
    }
    assert seconds % 60 == p.seconds by {
      DivOfSplit(seconds, minutes, p.seconds, 60);
    }
  }

  /** The whole days, hours, minutes and seconds in a duration made of in-range units. */
  lemma WholeUnits(d: nat, p: DurationParts)
    requires InRange(p) && Recombine(p) == d
    ensures d / MILLS_IN_DAY == p.days
    ensures d / MILLS_IN_HOUR == p.days * 24 + p.hours
    ensures d / MILLS_IN_MINUTE == (p.days * 24 + p.hours) * 60 + p.minutes
    ensures d / MILLS_IN_SECOND == ((p.days * 24 + p.hours) * 60 + p.minutes) * 60 + p.seconds
    ensures d % MILLS_IN_SECOND == p.millis
  {
    WholeDaysAndHours(d, p);
    var minutes := (p.days * 24 + p.hours) * 60 + p.minutes;
    var seconds := minutes * 60 + p.seconds;
    assert d == seconds * MILLS_IN_SECOND + p.millis;
    DivOfSplit(d, minutes, d - minutes * MILLS_IN_MINUTE, MILLS_IN_MINUTE);
    DivOfSplit(d, seconds, p.millis, MILLS_IN_SECOND);
  }

  lemma WholeDaysAndHours(d: nat, p: DurationParts)
    requires InRange(p) && Recombine(p) == d
    ensures d / MILLS_IN_DAY == p.days
    ensures d / MILLS_IN_HOUR == p.days * 24 + p.hours
  {
    var hours := p.days * 24 + p.hours;
    DivOfSplit(d, p.days, d - p.days * MILLS_IN_DAY, MILLS_IN_DAY);
    DivOfSplit(d, hours, d - hours * MILLS_IN_HOUR, MILLS_IN_HOUR);
  }

  /** Euclidean division is unique: a quotient and remainder in range are the ones `/` and `%` give. */
  lemma DivOfSplit(d: int, q: int, r: int, m: int)
    requires m > 0 && d == q * m + r && 0 <= r < m
    ensures d / m == q && d % m == r
  {
    var q' := d / m;
    var r' := d % m;
    assert d == q' * m + r';
    Distribute(q, q', m);
    if q > q' {
      AtLeastOnce(q - q', m);
    } else if q < q' {
      Distribute(q', q, m);
      AtLeastOnce(q' - q, m);
    }
  }

  lemma Distribute(a: int, b: int, m: int)
    ensures (a - b) * m == a * m - b * m
  {
  }

  lemma AtLeastOnce(k: int, m: int)
    requires k >= 1 && m > 0
    ensures k * m >= m
  {
  }

  /** `DURATION_DAY_CHOICES` selected by the `ChoiceFormat` limits 0, 1 and 2. */
  function DayPrefix(days: int): string
  {
    if days < 1 then "" else if days == 1 then "1 day " else IntToString(days) + " days "
  }

  /** `DURATION_MSG_FORMAT` filled with the five parts. */
  function DurationText(p: DurationParts): string
  {
    DayPrefix(p.days) + Pad2(p.hours) + ":" + Pad2(p.minutes) + ":" + Pad2(p.seconds) + "." + Pad3(p.millis)
  }

  /**
   * `formatDuration` as written: each unit is taken from `(int) dur`, the
   * duration truncated to 32 bits, divided by the unit; the remainder is
   * kept in the 64-bit `dur`.
   */
  function DurationPartsAsWritten(duration: Int64): DurationParts
  {
    var days := JDiv(Wrap32(duration), MILLS_IN_DAY);
    var dur1 := Wrap64(duration - days * MILLS_IN_DAY);
    var hours := JDiv(Wrap32(dur1), MILLS_IN_HOUR);
    var dur2 := Wrap64(dur1 - hours * MILLS_IN_HOUR);
    var minutes := JDiv(Wrap32(dur2), MILLS_IN_MINUTE);
    var dur3 := Wrap64(dur2 - minutes * MILLS_IN_MINUTE);
    var seconds := JDiv(Wrap32(dur3), MILLS_IN_SECOND);
    var dur4 := Wrap64(dur3 - seconds * MILLS_IN_SECOND);
    DurationParts(days, hours, minutes, seconds, dur4)
  }

  /**
   * The units taken from the 64-bit duration itself, with no `(int)` cast:
   * each quotient truncated as Java's `/` does, the remainder kept.
   */
  function LongParts(duration: int): DurationParts
  {
    var days := JDiv(duration, MILLS_IN_DAY);
    var dur1 := duration - days * MILLS_IN_DAY;
    var hours := JDiv(dur1, MILLS_IN_HOUR);
    var dur2 := dur1 - hours * MILLS_IN_HOUR;
    var minutes := JDiv(dur2, MILLS_IN_MINUTE);
    var dur3 := dur2 - minutes * MILLS_IN_MINUTE;
    var seconds := JDiv(dur3, MILLS_IN_SECOND);
    DurationParts(days, hours, minutes, seconds, dur3 - seconds * MILLS_IN_SECOND)
  }

  /** For a non-negative duration those units are its decomposition. */
  lemma LongPartsDecompose(d: nat)
    ensures LongParts(d) == Decompose(d)
  {
    var p := LongParts(d);
    assert InRange(p) && Recombine(p) == d;
    DecomposeUnique(d, p);
  }

  /** Below 2^31 ms (about 24.8 days) the cast is harmless: the units are the intended ones. */
  lemma AsWrittenAgreesBelowIntRange(duration: Int64)
    requires 0 <= duration < 0x8000_0000
    ensures DurationPartsAsWritten(duration) == Decompose(duration)
  {
    assert DurationPartsAsWritten(duration) == LongParts(duration);
    LongPartsDecompose(duration);
  }

  lemma DecomposeAtIntRange()
    ensures Decompose(0x8000_0000) == DurationParts(24, 20, 31, 23, 648)
  {
  }

  /**
   * At 2^31 ms (24 days 20:31:23.648) the cast turns the duration negative:
   * every unit comes out negative and the millisecond field holds almost 2^32.
   */
  lemma AsWrittenFailsAtIntRange()
    ensures Decompose(0x8000_0000) == DurationParts(24, 20, 31, 23, 648)
    ensures DurationPartsAsWritten(0x8000_0000) == DurationParts(-24, -20, -31, -23, 4294966648)
  {
    DecomposeAtIntRange();
    assert Wrap32(0x8000_0000) == -0x8000_0000;
    assert JDiv(-0x8000_0000, MILLS_IN_DAY) == -24;
    assert Wrap64(0x8000_0000 + 24 * MILLS_IN_DAY) == 4221083648;
    assert Wrap32(4221083648) == -73883648;
    assert JDiv(-73883648, MILLS_IN_HOUR) == -20;
    assert Wrap64(4221083648 + 20 * MILLS_IN_HOUR) == 4293083648;
    assert Wrap32(4293083648) == -1883648;
    assert JDiv(-1883648, MILLS_IN_MINUTE) == -31;
    assert Wrap64(4293083648 + 31 * MILLS_IN_MINUTE) == 4294943648;
    assert Wrap32(4294943648) == -23648;
    assert JDiv(-23648, MILLS_IN_SECOND) == -23;
    assert Wrap64(4294943648 + 23 * MILLS_IN_SECOND) == 4294966648;
  }

  /** `formatDuration` as written, the `(int)` casts included. */
  method FormatDurationAsWritten(duration: Int64) returns (s: string)
    ensures s == DurationText(DurationPartsAsWritten(duration))
    ensures 0 <= duration < 0x8000_0000 ==> s == DurationText(Decompose(duration))
  {
    var dur: Int64 := duration;
    var days := JDiv(Wrap32(dur), MILLS_IN_DAY);
    dur := Wrap64(dur - days * MILLS_IN_DAY);
    var hours := JDiv(Wrap32(dur), MILLS_IN_HOUR);
    dur := Wrap64(dur - hours * MILLS_IN_HOUR);
    var minutes := JDiv(Wrap32(dur), MILLS_IN_MINUTE);
    dur := Wrap64(dur - minutes * MILLS_IN_MINUTE);
    var seconds := JDiv(Wrap32(dur), MILLS_IN_SECOND);
    dur := Wrap64(dur - seconds * MILLS_IN_SECOND);
    var millis := dur;
    s := DayPrefix(days) + Pad2(hours) + ":" + Pad2(minutes) + ":" + Pad2(seconds) + "." + Pad3(millis);
    if 0 <= duration < 0x8000_0000 {
      AsWrittenAgreesBelowIntRange(duration);
    }
  }

  /**
   * `formatDuration` with the units taken from the 64-bit duration itself:
   * for every non-negative duration the text is the one of its unique
   * decomposition.
   */
  method FormatDuration(duration: Int64) returns (s: string)
    ensures 0 <= duration ==> s == DurationText(Decompose(duration))
  {
    var dur: int := duration;
    var days := JDiv(dur, MILLS_IN_DAY);
    dur := dur - days * MILLS_IN_DAY;
    var hours := JDiv(dur, MILLS_IN_HOUR);
    dur := dur - hours * MILLS_IN_HOUR;
    var minutes := JDiv(dur, MILLS_IN_MINUTE);
    dur := dur - minutes * MILLS_IN_MINUTE;
    var seconds := JDiv(dur, MILLS_IN_SECOND);
    dur := dur - seconds * MILLS_IN_SECOND;
    var millis := dur;
    s := DayPrefix(days) + Pad2(hours) + ":" + Pad2(minutes) + ":" + Pad2(seconds) + "." + Pad3(millis);
    assert DurationParts(days, hours, minutes, seconds, millis) == LongParts(duration);
    if 0 <= duration {
      LongPartsDecompose(duration);
    }
  }

  /**
   * `formatDurationSSmm`: whole seconds (at least two digits) and three
   * digits of milliseconds, for durations inside the range of the `(int)` cast.
   */
  method FormatDurationSSmm(duration: Int64) returns (s: string)
    ensures 0 <= duration < 0x8000_0000 ==> s == Pad2(duration / MILLS_IN_SECOND) + "." + Pad3(duration % MILLS_IN_SECOND)
  {
    var dur: Int64 := duration;
    var seconds := JDiv(Wrap32(dur), MILLS_IN_SECOND);
    dur := Wrap64(dur - seconds * MILLS_IN_SECOND);
    var millis := Wrap32(dur);
    s := Pad2(seconds) + "." + Pad3(millis);
  }

  // ---------------------------------------------------------------------
  // Time zones
  // ---------------------------------------------------------------------

  /** The seconds of an offset given in milliseconds, truncated as Java's `/` does. */
  function OffsetSeconds(offsetMillis: Int32): int
  {
    JDiv(offsetMillis, 1000)
  }

  /** The text `formatTimeZoneOffset` builds for a zone whose current offset is `offsetMillis`. */
  function OffsetText(offsetMillis: Int32): string
  {
    var seconds := OffsetSeconds(offsetMillis);
    "UTC" + [if seconds >= 0 then '+' else '-'] + Pad2(Abs(seconds) / 3600) + ":" + Pad2(Abs(seconds) % 3600 / 60)
  }

  /**
   * For the offsets a zone can have (at most 18 hours either way) the text is
   * nine characters: `UTC`, the sign, two digits of hours, `:` and two digits
   * of minutes, which together give the offset truncated to the minute.
   */
  lemma OffsetTextReadsBack(offsetMillis: Int32)
    requires -18 * 3600 * 1000 <= offsetMillis <= 18 * 3600 * 1000
    ensures var s := OffsetText(offsetMillis);
            var seconds := OffsetSeconds(offsetMillis);
            |s| == 9 && s[..3] == "UTC" && s[3] == (if seconds >= 0 then '+' else '-') && s[6] == ':'
            && AllDigits(s[4..6]) && AllDigits(s[7..9])
            && DigitsValue(s[7..9]) < 60
            && Abs(seconds) - 60 < DigitsValue(s[4..6]) * 3600 + DigitsValue(s[7..9]) * 60 <= Abs(seconds)
  {
    var seconds := OffsetSeconds(offsetMillis);
    var h := Abs(seconds) / 3600;
    var m := Abs(seconds) % 3600 / 60;
    Pad2ReadsBack(h);
    Pad2ReadsBack(m);
    var s := OffsetText(offsetMillis);
    assert s == "UTC" + [if seconds >= 0 then '+' else '-'] + Pad2(h) + ":" + Pad2(m);
    assert s[4..6] == Pad2(h) && s[7..9] == Pad2(m);
  }

  /** `formatTimeZoneOffset`, with the zone's current offset given. */
  method FormatTimeZoneOffset(offsetMillis: Int32) returns (s: string)
    ensures s == OffsetText(offsetMillis)
  {
    var offsetSeconds := JDiv(offsetMillis, 1000);
    var offsetHours := Abs(JDiv(offsetSeconds, 3600));
    var offsetMinutes := JDiv(Abs(offsetSeconds) - offsetHours * 3600, 60);
    OffsetUnits(offsetSeconds);
    s := "UTC";
    if offsetSeconds >= 0 {
      s := s + ['+'];
    } else {
      s := s + ['-'];
    }
    s := AppendPad2(s, offsetHours);
    s := s + [':'];
    s := AppendPad2(s, offsetMinutes);
  }

  /** The hours and the minutes of the offset, as `formatTimeZoneOffset` computes them. */
  lemma OffsetUnits(offsetSeconds: int)
    ensures Abs(JDiv(offsetSeconds, 3600)) == Abs(offsetSeconds) / 3600
    ensures JDiv(Abs(offsetSeconds) - Abs(JDiv(offsetSeconds, 3600)) * 3600, 60) == Abs(offsetSeconds) % 3600 / 60
  {
  }

  /** A `0` when `n` is below ten, then `n`. */
  method AppendPad2(s: string, n: int) returns (r: string)
    ensures r == s + Pad2(n)
  {
    r := s;
    if n < 10 {
      r := r + ['0'];
    }
    r := r + IntToString(n);
  }

  /**
   * `formatTimeZone`: the offset in parentheses, a space, then the zone ID
   * with every underscore shown as a space.
   */
  method FormatTimeZone(zoneId: string, offsetMillis: Int32) returns (s: string)
    ensures var prefix := "(" + OffsetText(offsetMillis) + ") ";
            |s| == |prefix| + |zoneId| && s[..|prefix|] == prefix
            && forall i :: 0 <= i < |zoneId| ==> s[|prefix| + i] == (if zoneId[i] == '_' then ' ' else zoneId[i])
  {
    var displayId := ReplaceChar(zoneId, '_', ' ');
    var offset := FormatTimeZoneOffset(offsetMillis);
    s := "(" + offset + ") " + displayId;
  }
}
