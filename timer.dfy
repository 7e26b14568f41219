/**
 * The work/break countdown of script.js. The timer is the module-level
 * `mode`, `remainingTime`, `isRunning` and `intervalId`; the interval handle
 * is modelled by `ticking`, true while a repeating `tick` is scheduled.
 */
module Pomodoro {
  import TimeDisplay

  const WorkTime := 1500
  const BreakTime := 300

  datatype Mode = Work | Break

  /** The length of a phase, in seconds. */
  function Duration(m: Mode): int {
    if m == Work then WorkTime else BreakTime
  }

  function Other(m: Mode): Mode {
    if m == Work then Break else Work
  }

  /** A snapshot of the timer's four variables. */
  datatype State = State(mode: Mode, remainingTime: int, isRunning: bool, ticking: bool)

  /** What the page script sets up before any button is pressed, and what reset restores. */
  const Initial := State(Work, WorkTime, false, false)

  /**
   * The invariant the timer keeps: the countdown lies within the current
   * phase, and the running flag is set exactly while a tick is scheduled.
   */
  predicate Valid(s: State) {
    1 <= s.remainingTime <= Duration(s.mode) && s.isRunning == s.ticking
  }

  /**
   * `tick`: count one second down; when the count reaches zero the interval
   * is cleared, the timer stops, and the other phase is loaded in full.
   */
  function AfterTick(s: State): (r: State)
    ensures Valid(s) ==> Valid(r)
    ensures s.remainingTime > 1 ==> r == s.(remainingTime := s.remainingTime - 1)
    ensures s.remainingTime == 1 ==>
      r.mode == Other(s.mode) && r.remainingTime == Duration(r.mode) && !r.isRunning && !r.ticking
  {
    var remaining := s.remainingTime - 1;
    if remaining == 0 then
      State(Other(s.mode), Duration(Other(s.mode)), false, false)
    else
      s.(remainingTime := remaining)
  }

  /** The start button: schedule ticking unless already running. */
  function AfterStart(s: State): (r: State)
    ensures Valid(s) ==> Valid(r)
    ensures r.isRunning
    ensures !s.isRunning ==> r.ticking
    ensures r.mode == s.mode && r.remainingTime == s.remainingTime
    ensures s.isRunning ==> r == s
  {
    if s.isRunning then s else s.(isRunning := true, ticking := true)
  }

  /** The stop button: cancel ticking if running; the countdown is kept. */
  function AfterStop(s: State): (r: State)
    ensures Valid(s) ==> Valid(r)
    ensures !r.isRunning
    ensures r.mode == s.mode && r.remainingTime == s.remainingTime
    ensures !s.isRunning ==> r == s
    ensures s.isRunning ==> !r.ticking
  {
    if !s.isRunning then s else s.(isRunning := false, ticking := false)
  }

  /** The reset button: back to a stopped, full work phase from anywhere. */
  function AfterReset(s: State): (r: State)
    ensures Valid(r) && !r.isRunning && !r.ticking
    ensures r.mode == Work && r.remainingTime == WorkTime
  {
    Initial
  }

  /** The state after `n` ticks. */
  function Ticks(s: State, n: nat): State
    decreases n
  {
    if n == 0 then s else Ticks(AfterTick(s), n - 1)
  }

  /** Starting twice is starting once. */
  lemma StartIdempotent(s: State)
    ensures AfterStart(AfterStart(s)) == AfterStart(s)
  {
  }

  /** Stopping a timer that was just started from rest gives back the resting state. */
  lemma StopUndoesStart(s: State)
    requires Valid(s) && !s.isRunning
    ensures AfterStop(AfterStart(s)) == s
  {
  }

  /**
   * Before the phase ends, `k` ticks only take `k` seconds off the count:
   * mode and running flags, and so the scheduled tick, are untouched.
   */
  lemma {:induction false} CountDown(s: State, k: nat)
    requires k < s.remainingTime
    decreases k
    ensures Ticks(s, k) == s.(remainingTime := s.remainingTime - k)
  {
    if k > 0 {
      CountDown(AfterTick(s), k - 1);
    }
  }

  /**
   * Ticking a valid timer through its whole count ends the phase: the other
   * mode is loaded in full and the timer is stopped.
   */
  lemma {:induction false} PhaseEnds(s: State)
    requires Valid(s)
    ensures Ticks(s, s.remainingTime as nat) == State(Other(s.mode), Duration(Other(s.mode)), false, false)
  {
    var n := s.remainingTime as nat;
    CountDown(s, n - 1);
    TicksSplit(s, n - 1, 1);
  }

  /** Ticking `m` then `n` times is ticking `m + n` times. */
  lemma {:induction false} TicksSplit(s: State, m: nat, n: nat)
    decreases m
    ensures Ticks(s, m + n) == Ticks(Ticks(s, m), n)
  {
    if m > 0 {
      TicksSplit(AfterTick(s), m - 1, n);
    }
  }

  /**
   * A full cycle: started from the initial state, 1500 ticks end in a stopped
   * 300-second break; started again, 300 more ticks end in a stopped full
   * work phase.
   */
  lemma WorkThenBreak()
    ensures Ticks(AfterStart(Initial), 1500) == State(Break, 300, false, false)
    ensures Ticks(AfterStart(State(Break, 300, false, false)), 300) == Initial
  {
    PhaseEnds(AfterStart(Initial));
    PhaseEnds(AfterStart(State(Break, 300, false, false)));
  }

  /** The invariant holds after any number of ticks, whether or not an interval would deliver them. */
  lemma {:induction false} TicksKeepValid(s: State, n: nat)
    requires Valid(s)
    decreases n
    ensures Valid(Ticks(s, n))
  {
    if n > 0 {
      TicksKeepValid(AfterTick(s), n - 1);
    }
  }

  /** Every count a valid timer can hold is shown as exactly `MM:SS`. */
  lemma DisplayWidth(s: State)
    requires Valid(s)
    ensures |TimeDisplay.Format(s.remainingTime as nat)| == 5
  {
    TimeDisplay.FormatReadsBack(s.remainingTime as nat);
  }

  /** The timer's module-level variables. */
  class Timer {
    var mode: Mode
    var remainingTime: int
    var isRunning: bool
    var ticking: bool

    /** The four variables as one value. */
    function Snapshot(): State
      reads this
    {
      State(mode, remainingTime, isRunning, ticking)
    }

    constructor ()
      ensures Snapshot() == Initial
    {
      mode, remainingTime, isRunning, ticking := Work, WorkTime, false, false;
    }

    /** `tick`, run by the interval once a second. */
    method Tick()
      modifies this
      ensures Snapshot() == AfterTick(old(Snapshot()))
      ensures old(Valid(Snapshot())) ==> Valid(Snapshot())
    {
      remainingTime := remainingTime - 1;
      if remainingTime == 0 {
        ticking := false;
        isRunning := false;
        if mode == Work {
          mode := Break;
          remainingTime := BreakTime;
        } else {
          mode := Work;
          remainingTime := WorkTime;
        }
      }
    }

    /** The start button's click handler. */
    method Start()
      modifies this
      ensures Snapshot() == AfterStart(old(Snapshot()))
      ensures old(Valid(Snapshot())) ==> Valid(Snapshot())
    {
      if isRunning {
        return;
      }
      isRunning := true;
      ticking := true;
    }

    /** The stop button's click handler. */
    method Stop()
      modifies this
      ensures Snapshot() == AfterStop(old(Snapshot()))
      ensures old(Valid(Snapshot())) ==> Valid(Snapshot())
    {
      if !isRunning {
        return;
      }
      isRunning := false;
      ticking := false;
    }

    /** The reset button's click handler. */
    method Reset()
      modifies this
      ensures Snapshot() == AfterReset(old(Snapshot())) && Valid(Snapshot())
    {
      isRunning := false;
      ticking := false;
      mode := Work;
      remainingTime := WorkTime;
    }
  }
}
