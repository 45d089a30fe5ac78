/**
 * `TimestampWithTZ`: a mutable instant in milliseconds paired with a time
 * zone, with the `add*` methods that shift it in place.
 */
module TimestampWithTZ {
  import opened Jdk

  /**
   * A `java.util.TimeZone` as `equals` sees it: its ID and its rules (here
   * the raw offset). It is a value, so a copy never aliases the original.
   */
  datatype TimeZone = TimeZone(id: string, rawOffset: Int32)

  /** The instant a `addDays(days)` call adds, through `int` products `days * 24`, `* 60`, `* 60` and the `long` product `* 1000L`. */
  function DaysToMillis(days: Int32): int
  {
    Wrap32(Wrap32(Wrap32(days * 24) * 60) * 60) * 1000
  }

  /** While `days * 86400` fits an `int`, none of the `int` products wraps. */
  lemma DaysToMillisExact(days: Int32)
    requires InInt32(days * 86400)
    ensures DaysToMillis(days) == days * 86_400_000
  {
    assert InInt32(days * 24) && InInt32(days * 1440);
  }

  /** 24856 days (about 68 years) wrap: the shift comes out negative, as far back as it should go forward. */
  lemma DaysToMillisWraps()
    ensures DaysToMillis(24856) == -2_147_408_896_000
  {
    assert Wrap32(24856 * 24) == 596544;
    assert Wrap32(596544 * 60) == 35792640;
    assert Wrap32(35792640 * 60) == 2147558400 - 0x1_0000_0000;
  }

  class TimestampWithTZ {
    var millis: Int64
    var timeZone: TimeZone

    constructor (millis: Int64, timeZone: TimeZone)
      ensures this.millis == millis && this.timeZone == timeZone
    {
      this.millis := millis;
      this.timeZone := timeZone;
    }

    /** `addMilliseconds`: `millis += n` in 64-bit arithmetic; the zone is kept and the same object returned. */
    method AddMilliseconds(n: Int32) returns (r: TimestampWithTZ)
      modifies this
      ensures r == this && timeZone == old(timeZone)
      ensures millis == Wrap64(old(millis) + n)
      ensures InInt64(old(millis) + n) ==> millis == old(millis) + n
    {
      millis := Wrap64(millis + n);
      r := this;
    }

    /** `addSeconds`: adds `seconds * 1000L`, a product that always fits a `long`. */
    method AddSeconds(seconds: Int32) returns (r: TimestampWithTZ)
      modifies this
      ensures r == this && timeZone == old(timeZone)
      ensures millis == Wrap64(old(millis) + seconds * 1000)
    {
      millis := Wrap64(millis + seconds * 1000);
      r := this;
    }

    /** `addMinutes`: `addSeconds(minutes * 60)`, the product in `int` arithmetic. */
    method AddMinutes(minutes: Int32) returns (r: TimestampWithTZ)
      modifies this
      ensures r == this && timeZone == old(timeZone)
      ensures millis == Wrap64(old(millis) + Wrap32(minutes * 60) * 1000)
      ensures InInt32(minutes * 60) && InInt64(old(millis) + minutes * 60_000) ==> millis == old(millis) + minutes * 60_000
    {
      r := AddSeconds(Wrap32(minutes * 60));
    }

    /** `addHours`: `addMinutes(hours * 60)`, the product in `int` arithmetic. */
    method AddHours(hours: Int32) returns (r: TimestampWithTZ)
      modifies this
      ensures r == this && timeZone == old(timeZone)
      ensures millis == Wrap64(old(millis) + Wrap32(Wrap32(hours * 60) * 60) * 1000)
      ensures InInt32(hours * 3600) && InInt64(old(millis) + hours * 3_600_000) ==> millis == old(millis) + hours * 3_600_000
    {
      if InInt32(hours * 3600) {
        assert InInt32(hours * 60);
      }
      r := AddMinutes(Wrap32(hours * 60));
    }

    /** `addDays`: `addHours(days * 24)`, the product in `int` arithmetic. */
    method AddDays(days: Int32) returns (r: TimestampWithTZ)
      modifies this
      ensures r == this && timeZone == old(timeZone)
      ensures millis == Wrap64(old(millis) + DaysToMillis(days))
    {
      r := AddHours(Wrap32(days * 24));
    }

    /** `equals`: another timestamp with the same instant and an equal zone. */
    predicate Equals(obj: TimestampWithTZ?)
      reads this, obj
    {
      obj == this || (obj != null && millis == obj.millis && timeZone == obj.timeZone)
    }

    /** `compareTo`: the two instants compared through calendars, the zones playing no part. */
    function CompareTo(o: TimestampWithTZ): (r: int)
      reads this, o
      ensures r == -1 || r == 0 || r == 1
      ensures r < 0 <==> millis < o.millis
      ensures r == 0 <==> millis == o.millis
    {
      if millis > o.millis then 1 else if millis == o.millis then 0 else -1
    }

    /** `clone`: a new timestamp with the same instant and its own copy of the zone. */
    method Clone() returns (t: TimestampWithTZ)
      ensures fresh(t) && t.millis == millis && t.timeZone == timeZone
      ensures Equals(t) && t.Equals(this)
    {
      t := new TimestampWithTZ(millis, timeZone);
    }
  }

  /** Equal timestamps compare as 0; the converse fails for different zones. */
  lemma EqualsAgreesWithCompareTo(a: TimestampWithTZ, b: TimestampWithTZ)
    ensures a.Equals(b) ==> a.CompareTo(b) == 0
    ensures a.CompareTo(b) == 0 && a.timeZone == b.timeZone ==> a.Equals(b)
  {
  }
}
