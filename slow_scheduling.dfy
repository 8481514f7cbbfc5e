/** The host-side callback scheduler of Scripts/Racecar.cs: the user's start
    callback once, the update callback every frame, and update_slow whenever
    a countdown started at the slow interval runs out. Callbacks are named
    by the log entry their invocation leaves; frame times are inputs. */
module SlowScheduling {

  import opened Wire

  type Callback = string

  /** The log entry of an optional callback: nothing when it is unset. */
  function Invoke(c: Option<Callback>): (log: seq<Callback>)
    ensures c.None? ==> log == []
    ensures c.Some? ==> log == [c.value]
  {
    if c.Some? then [c.value] else []
  }

  /** One countdown step: the new counter, and whether update_slow runs. */
  datatype Tick = Tick(counter: real, fires: bool)

  function Countdown(counter: real, interval: real, dt: real): (t: Tick)
    ensures t.fires <==> counter - dt <= 0.0
    ensures t.fires ==> t.counter == interval
    ensures !t.fires ==> t.counter == counter - dt
  {
    if counter - dt <= 0.0 then Tick(interval, true) else Tick(counter - dt, false)
  }

  function Sum(dts: seq<real>): real
  {
    if dts == [] then 0.0 else Sum(dts[..|dts| - 1]) + dts[|dts| - 1]
  }

  /** The counter and the number of update_slow runs after a run of frames. */
  function Frames(counter: real, interval: real, dts: seq<real>): (t: (real, nat))
  {
    if dts == [] then (counter, 0)
    else
      var before := Frames(counter, interval, dts[..|dts| - 1]);
      var tick := Countdown(before.0, interval, dts[|dts| - 1]);
      (tick.counter, before.1 + if tick.fires then 1 else 0)
  }

  /** Frames in which update_slow does not run consume the countdown: the
      counter has dropped by their summed time, which stays below where it
      started. So once the summed frame time reaches the counter, update_slow
      has run. */
  lemma {:induction false} QuietFrames(counter: real, interval: real, dts: seq<real>)
    requires Frames(counter, interval, dts).1 == 0
    ensures Frames(counter, interval, dts).0 == counter - Sum(dts)
    ensures dts != [] ==> Sum(dts) < counter
  {
    if dts != [] {
      var n := |dts| - 1;
      QuietFrames(counter, interval, dts[..n]);
    }
  }

  /** The counter starts at 0, so the first frame with a non-negative time
      runs update_slow. */
  lemma FirstFrameFires(interval: real, dt: real)
    requires dt >= 0.0
    ensures Countdown(0.0, interval, dt).fires
  {
  }

  class Racecar {
    var userStart: Option<Callback>
    var userUpdate: Option<Callback>
    var userUpdateSlow: Option<Callback>
    var updateSlowTime: real
    var updateSlowCounter: real
    /** The callbacks invoked so far, in order. */
    var log: seq<Callback>

    constructor ()
      ensures userStart.None? && userUpdate.None? && userUpdateSlow.None?
      ensures updateSlowTime == 1.0 && updateSlowCounter == 0.0 && log == []
    {
      userStart := None;
      userUpdate := None;
      userUpdateSlow := None;
      updateSlowTime := 1.0;
      updateSlowCounter := 0.0;
      log := [];
    }

    /** Start: the start callback, if any. */
    method Start()
      modifies this`log
      ensures log == old(log) + Invoke(userStart)
    {
      log := log + Invoke(userStart);
    }

    /** Update: the update callback first, then the countdown, and
        update_slow when it runs out. */
    method Update(dt: real)
      modifies this`log, this`updateSlowCounter
      ensures var t := Countdown(old(updateSlowCounter), updateSlowTime, dt);
              updateSlowCounter == t.counter &&
              log == old(log) + Invoke(userUpdate) + (if t.fires then Invoke(userUpdateSlow) else [])
    {
      log := log + Invoke(userUpdate);
      updateSlowCounter := updateSlowCounter - dt;
      if updateSlowCounter <= 0.0 {
        updateSlowCounter := updateSlowTime;
        log := log + Invoke(userUpdateSlow);
      }
    }

    method SetStartUpdate(start: Option<Callback>, update: Option<Callback>, updateSlow: Option<Callback>)
      modifies this`userStart, this`userUpdate, this`userUpdateSlow
      ensures userStart == start && userUpdate == update && userUpdateSlow == updateSlow
    {
      userStart := start;
      userUpdate := update;
      userUpdateSlow := updateSlow;
    }

    /** set_update_slow_time: the interval only; the running countdown is
        kept. */
    method SetUpdateSlowTime(time: real)
      modifies this`updateSlowTime
      ensures updateSlowTime == time
    {
      updateSlowTime := time;
    }
  }
}
