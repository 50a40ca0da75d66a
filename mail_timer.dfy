/** MailDaemon.timer (src/app/mail.js:188-208): a deadline fixed by `start`
    and tested by `canContinue`. Time is milliseconds since the epoch; every
    `new Date()` reads the next value of a clock oracle. */
module MailTimer {
  import opened Wrappers

  const MsPerSecond: int := 1000
  const MsPerMinute: int := 60000

  /** The budget of one run: 5 minutes 30 seconds. */
  const Budget: int := 5 * MsPerMinute + 30 * MsPerSecond

  /** `getSeconds()` and `getMinutes()` of a time value. */
  function SecondsField(t: int): int {
    (t / MsPerSecond) % 60
  }

  function MinutesField(t: int): int {
    (t / MsPerMinute) % 60
  }

  /** `setSeconds(s)` and `setMinutes(m)`: replace one field and let any
      overflow carry into the larger fields, as ECMAScript's MakeTime does. */
  function SetSeconds(t: int, s: int): int {
    t + (s - SecondsField(t)) * MsPerSecond
  }

  function SetMinutes(t: int, m: int): int {
    t + (m - MinutesField(t)) * MsPerMinute
  }

  lemma ShiftSeconds(t: int, k: int)
    ensures SecondsField(t + k * MsPerMinute) == SecondsField(t)
  {
    assert t + k * MsPerMinute == t + (60 * k) * MsPerSecond;
    assert (t + (60 * k) * MsPerSecond) / MsPerSecond == t / MsPerSecond + 60 * k;
  }

  /** `start` puts the end time exactly 5 minutes 30 seconds after the start
      time, whatever carries the two setters cause. */
  lemma {:induction false} DeadlineAfterStart(t: int)
    ensures SetSeconds(SetMinutes(t, MinutesField(t) + 5), SecondsField(t) + 30) == t + Budget
  {
    var e := SetMinutes(t, MinutesField(t) + 5);
    assert e == t + 5 * MsPerMinute;
    ShiftSeconds(t, 5);
    assert SecondsField(e) == SecondsField(t);
  }

  /** The host clock: the k-th `new Date()` of the run observes reading(k). */
  class Clock {
    const reading: nat -> int
    var taken: nat

    constructor (reading: nat -> int)
      ensures this.reading == reading && taken == 0
    {
      this.reading := reading;
      taken := 0;
    }

    method Now() returns (t: int)
      modifies this
      ensures t == reading(old(taken)) && taken == old(taken) + 1
    {
      t := reading(taken);
      taken := taken + 1;
    }
  }

  /** A clock that never runs backwards. */
  ghost predicate Monotone(reading: nat -> int) {
    forall i: nat, j: nat :: i <= j ==> reading(i) <= reading(j)
  }

  /** `new Date() < endTime`; before `start` the end time is undefined and the
      comparison is false. */
  predicate Before(now: int, endTime: Option<int>) {
    endTime.Some? && now < endTime.value
  }

  /** Once a check has failed on a clock that never runs backwards, every later check fails. */
  lemma ExpiryIsFinal(reading: nat -> int, endTime: Option<int>, i: nat, j: nat)
    requires Monotone(reading) && i <= j && !Before(reading(i), endTime)
    ensures !Before(reading(j), endTime)
  {
  }

  class Timer {
    const clock: Clock
    var startTime: Option<int>
    var endTime: Option<int>

    constructor (clock: Clock)
      ensures this.clock == clock && startTime == None && endTime == None
    {
      this.clock := clock;
      startTime := None;
      endTime := None;
    }

    /** `start()`: records the current time and the deadline. */
    method Start()
      modifies this, clock
      ensures clock.taken == old(clock.taken) + 1
      ensures startTime == Some(clock.reading(old(clock.taken)))
      ensures endTime == Some(startTime.value + Budget)
    {
      var now := clock.Now();
      startTime := Some(now);
      var end := SetMinutes(now, MinutesField(now) + 5);
      end := SetSeconds(end, SecondsField(now) + 30);
      DeadlineAfterStart(now);
      endTime := Some(end);
    }

    /** `canContinue()`: true iff the current time is strictly before the deadline. */
    method CanContinue() returns (b: bool)
      modifies clock
      ensures clock.taken == old(clock.taken) + 1
      ensures b == Before(clock.reading(old(clock.taken)), endTime)
    {
      var now := clock.Now();
      b := endTime.Some? && now < endTime.value;
    }
  }
}
