/**
 * `StopWatch`: start and stop times in milliseconds, 0 meaning "not
 * recorded". The clock is not read here: each call that reads it takes the
 * current time as an argument.
 */
module StopWatch {
  import opened Jdk
  import DateTimeUtils

  /** The `IllegalStateException`s of `stop` and `getElapsedTime`. */
  datatype StopWatchError = NotStarted | NotStopped

  class StopWatch {
    var startedAt: Int64
    var finishedAt: Int64

    /** A new stop-watch is reset: neither time is recorded. */
    constructor ()
      ensures startedAt == 0 && finishedAt == 0
    {
      startedAt := 0;
      finishedAt := 0;
    }

    /** `start`: resets, which forgets an earlier stop, then records the start time. */
    method Start(now: Int64) returns (r: StopWatch)
      modifies this
      ensures r == this
      ensures startedAt == now && finishedAt == 0
    {
      startedAt := 0;
      finishedAt := 0;
      startedAt := now;
      r := this;
    }

    /** `stop`: refused before a start; otherwise records the stop time. */
    method Stop(now: Int64) returns (r: Result<StopWatch, StopWatchError>)
      modifies this
      ensures old(startedAt) == 0 ==> r == Err(NotStarted) && finishedAt == old(finishedAt)
      ensures old(startedAt) != 0 ==> r == Ok(this) && finishedAt == now
      ensures startedAt == old(startedAt)
    {
      if startedAt == 0 {
        return Err(NotStarted);
      }
      finishedAt := now;
      r := Ok(this);
    }

    /** `getElapsedTime`: refused unless both times are recorded, else their 64-bit difference. */
    method GetElapsedTime() returns (r: Result<Int64, StopWatchError>)
      ensures startedAt == 0 <==> r == Err(NotStarted)
      ensures startedAt != 0 && finishedAt == 0 <==> r == Err(NotStopped)
      ensures r.Ok? <==> startedAt != 0 && finishedAt != 0
      ensures r.Ok? ==> r.value == Wrap64(finishedAt - startedAt)
      ensures r.Ok? && InInt64(finishedAt - startedAt) ==> r.value + startedAt == finishedAt
    {
      if startedAt == 0 {
        return Err(NotStarted);
      }
      if finishedAt == 0 {
        return Err(NotStopped);
      }
      r := Ok(Wrap64(finishedAt - startedAt));
    }

    /**
     * `getFormattedElapsedTime`: the elapsed time through `formatDuration` as
     * written, `(int)` casts included; below 2^31 ms that is the intended
     * layout of the elapsed time's days, hours, minutes, seconds and millis.
     */
    method GetFormattedElapsedTime() returns (r: Result<string, StopWatchError>)
      ensures startedAt == 0 <==> r == Err(NotStarted)
      ensures startedAt != 0 && finishedAt == 0 <==> r == Err(NotStopped)
      ensures r.Ok? ==>
                r.value == DateTimeUtils.DurationText(DateTimeUtils.DurationPartsAsWritten(Wrap64(finishedAt - startedAt)))
      ensures r.Ok? && 0 <= Wrap64(finishedAt - startedAt) < 0x8000_0000 ==>
                r.value == DateTimeUtils.DurationText(DateTimeUtils.Decompose(Wrap64(finishedAt - startedAt)))
    {
      var elapsed := GetElapsedTime();
      if elapsed.Err? {
        return Err(elapsed.error);
      }
      var text := DateTimeUtils.FormatDurationAsWritten(elapsed.value);
      r := Ok(text);
    }
  }

  /**
   * A start at `t0` followed by a stop at `t1` measures `t1 - t0`, provided
   * neither clock reading is 0 (the value that means "not recorded").
   */
  method Measure(t0: Int64, t1: Int64) returns (elapsed: Result<Int64, StopWatchError>)
    ensures t0 != 0 && t1 != 0 && InInt64(t1 - t0) ==> elapsed == Ok(t1 - t0)
    ensures t0 != 0 && t1 == 0 ==> elapsed == Err(NotStopped)
    ensures t0 == 0 ==> elapsed == Err(NotStarted)
  {
    var watch := new StopWatch();
    var _ := watch.Start(t0);
    assert watch.startedAt == t0 && watch.finishedAt == 0;
    var _ := watch.Stop(t1);
    assert watch.startedAt == t0 && (t0 != 0 ==> watch.finishedAt == t1);
    elapsed := watch.GetElapsedTime();
  }

  /** A stop-watch that was never started refuses both to stop and to report a time. */
  method NeverStarted(now: Int64) returns (stopped: Result<StopWatch, StopWatchError>, elapsed: Result<Int64, StopWatchError>)
    ensures stopped == Err(NotStarted) && elapsed == Err(NotStarted)
  {
    var watch := new StopWatch();
    stopped := watch.Stop(now);
    elapsed := watch.GetElapsedTime();
  }
}
