// Game/Timer.h: a polled deadline. The wall clock (`system_clock::now()`) is passed in
// as `clock`, in seconds; a time point is a `real`.
module Timers {

  /** The comparison every deadline query makes: `point < now`, strictly. */
  predicate Passed(point: real, clock: real) {
    point < clock
  }

  class Timer {
    var point: real

    /** A default-constructed `time_point` is the clock's epoch. */
    constructor ()
      ensures point == 0.0
    {
      point := 0.0;
    }

    /** `SetNow()`: the point becomes the current clock; returns the same timer. */
    method SetNow(clock: real) returns (self: Timer)
      modifies this
      ensures self == this
      ensures point == clock
    {
      point := clock;
      self := this;
    }

    /** `Add(duration)`: shifts the point by exactly `duration`; returns the same timer. */
    method Add(duration: real) returns (self: Timer)
      modifies this
      ensures self == this
      ensures point == old(point) + duration
    {
      point := point + duration;
      self := this;
    }

    /** `IsOver(duration)`: `point + duration` lies strictly before the clock. */
    function IsOver(duration: real, clock: real): (r: bool)
      reads this
      ensures r <==> point + duration < clock
    {
      Passed(point + duration, clock)
    }

    /** `IsOverNow()`: the point lies strictly before the clock. */
    function IsOverNow(clock: real): (r: bool)
      reads this
      ensures r <==> point < clock
      ensures r == IsOver(0.0, clock)
    {
      Passed(point, clock)
    }

    /** `Timer::Now()`: a new timer whose point is the current clock. */
    static method Now(clock: real) returns (t: Timer)
      ensures fresh(t)
      ensures t.point == clock
    {
      t := new Timer();
      var _ := t.SetNow(clock);
    }
  }

  /** `SetNow()` at `t` followed by a query at the same clock: not over yet. */
  method SetNowIsNotOver(timer: Timer, clock: real)
    modifies timer
    ensures !timer.IsOverNow(clock)
  {
    var _ := timer.SetNow(clock);
  }

  /** `Add(a)` then `Add(b)` moves the point exactly as `Add(a + b)` does. */
  method AddComposes(timer: Timer, a: real, b: real)
    modifies timer
    ensures timer.point == old(timer.point) + (a + b)
  {
    var self := timer.Add(a);
    self := self.Add(b);
  }

  /** Under a clock that does not go backwards, a passed deadline stays passed. */
  lemma PassedStaysPassed(point: real, earlier: real, later: real)
    requires earlier <= later
    requires Passed(point, earlier)
    ensures Passed(point, later)
  {
  }
}
