/**
 * The Stopwatch of src/index.ts: an accumulator of active time with start,
 * stop, toggle and reset, two undo operations and four hooks.
 *
 * The clock read `Date.now()` is the parameter `now` of every operation that
 * reads it. A hook invocation is recorded as a `Hook` tag appended to the
 * object's `emitted` log; what a handler does is up to its owner (see Timers).
 *
 * The pure step functions below take the four private fields as a `State`
 * value and give the operation's result, next state and fired hooks; their
 * contracts are the per-operation promises. The class `Stopwatch` updates its
 * fields in place and is proved to follow them.
 */
module Stopwatches {
  import opened Wrappers
  import opened Decimal

  /** The hook fields `onstart`, `onstop`, `onreset` and `ontime`. */
  datatype Hook = OnStart | OnStop | OnReset | OnTime

  /**
   * The private fields `_total`, `_date`, `_lastStopTime` and `_active`.
   * `date` and `lastStopTime` start out undefined (None).
   */
  datatype State = State(total: int, date: Option<int>, lastStopTime: Option<int>, active: bool)

  /** What a mutator returns, the state it leaves, and the hooks it fired, in order. */
  datatype Step = Step(ok: bool, next: State, hooks: seq<Hook>)

  /** A Stopwatch as constructed without auto-start. */
  function Fresh(): (s: State)
    ensures !s.active && !HasDate(s) && s.lastStopTime.None?
    ensures forall now :: TimeOf(s, now) == 0 && SinceStartOf(s, now).None?
  {
    State(0, None, None, false)
  }

  /**
   * JavaScript truthiness of `_date`: undefined and 0 both read as "never
   * started", so a start at timestamp 0 leaves the date unset in this sense.
   */
  predicate HasDate(s: State)
    ensures HasDate(s) <==> s.date.GetOr(0) != 0
  {
    s.date.Some? && s.date.value != 0
  }

  /** `sinceStart()`: the length of the running interval, null when there is none. */
  function SinceStartOf(s: State, now: int): (r: Option<int>)
    ensures r.None? <==> !s.active || !HasDate(s)
    ensures r.Some? ==> r.value == now - s.date.value
  {
    if !HasDate(s) || !s.active then None else Some(now - s.date.value)
  }

  /** `time()` / `valueOf()`: the completed total plus the running interval. */
  function TimeOf(s: State, now: int): (r: int)
    ensures !s.active || !HasDate(s) ==> r == s.total
    ensures s.active && HasDate(s) ==> r == s.total + (now - s.date.value)
  {
    s.total + SinceStartOf(s, now).GetOr(0)
  }

  /**
   * `toString()`: the time as a canonical decimal numeral followed by "ms";
   * the time can be read back from it.
   */
  function Render(s: State, now: int): (r: string)
    ensures |r| >= 3 && r[|r| - 2..] == "ms"
    ensures r[..|r| - 2] == IntToString(TimeOf(s, now)) && IsNumeral(r[..|r| - 2])
    ensures ParseInt(r[..|r| - 2]) == TimeOf(s, now)
  {
    var t := TimeOf(s, now);
    IntToStringRoundTrip(t);
    assert (IntToString(t) + "ms")[..|IntToString(t)|] == IntToString(t);
    IntToString(t) + "ms"
  }

  /**
   * `start(emit)`: refused while active; otherwise it records `now` as the
   * start and fires onstart when asked. The reading at `now` is unchanged.
   */
  function StartStep(s: State, now: int, emit: bool): (r: Step)
    ensures r.ok <==> !s.active
    ensures !r.ok ==> r.next == s && r.hooks == []
    ensures r.ok ==> r.next.active && r.next.date == Some(now)
    ensures r.next.total == s.total && r.next.lastStopTime == s.lastStopTime
    ensures TimeOf(r.next, now) == TimeOf(s, now)
    ensures r.hooks == if r.ok && emit then [OnStart] else []
  {
    if s.active then Step(false, s, [])
    else Step(true, s.(date := Some(now), active := true), if emit then [OnStart] else [])
  }

  /**
   * `stop(emit)`: refused unless active with a truthy date; otherwise the
   * running interval is remembered as the last stop and added to the total,
   * and the reading stays frozen at its value at `now`.
   */
  function StopStep(s: State, now: int, emit: bool): (r: Step)
    ensures r.ok <==> s.active && HasDate(s)
    ensures !r.ok ==> r.next == s && r.hooks == []
    ensures r.ok ==> !r.next.active && r.next.date == s.date
                     && r.next.lastStopTime == Some(now - s.date.value)
                     && r.next.total == s.total + (now - s.date.value)
    ensures r.ok ==> forall later :: TimeOf(r.next, later) == TimeOf(s, now)
    ensures r.hooks == if r.ok && emit then [OnStop] else []
  {
    if !HasDate(s) || !s.active then Step(false, s, [])
    else
      var last := now - s.date.value;
      Step(true, s.(lastStopTime := Some(last), total := s.total + last, active := false),
           if emit then [OnStop] else [])
  }

  /**
   * `toggle(emit)`: stops an active Stopwatch and starts an inactive one,
   * returning the negation of the old active flag even when the inner stop
   * is refused. The reading at `now` is unchanged.
   */
  function ToggleStep(s: State, now: int, emit: bool): (r: Step)
    ensures r.ok == !s.active
    ensures !s.active ==> r.next == s.(date := Some(now), active := true)
    ensures s.active && HasDate(s) ==>
              r.next == s.(lastStopTime := Some(now - s.date.value),
                           total := s.total + (now - s.date.value), active := false)
    ensures !s.active ==> r.next.active && r.hooks == (if emit then [OnStart] else [])
    ensures s.active && HasDate(s) ==> !r.next.active && r.hooks == (if emit then [OnStop] else [])
    ensures s.active && !HasDate(s) ==> r.next == s && r.hooks == []
    ensures TimeOf(r.next, now) == TimeOf(s, now)
  {
    if s.active then
      var stop := StopStep(s, now, emit);
      Step(false, stop.next, stop.hooks)
    else
      var start := StartStep(s, now, emit);
      Step(true, start.next, start.hooks)
  }

  /**
   * `reset(emit)`: nothing happens while the date is unset; otherwise onreset
   * fires (before the change), the total drops to 0 and `now` becomes the
   * start, so the reading at `now` is 0. The active flag is kept and returned.
   */
  function ResetStep(s: State, now: int, emit: bool): (r: Step)
    ensures r.ok <==> HasDate(s) && s.active
    ensures !HasDate(s) ==> r.next == s && r.hooks == []
    ensures HasDate(s) ==> r.next.total == 0 && r.next.date == Some(now)
                           && r.next.active == s.active && r.next.lastStopTime == s.lastStopTime
    ensures HasDate(s) ==> TimeOf(r.next, now) == 0
    ensures r.hooks == if HasDate(s) && emit then [OnReset] else []
  {
    if !HasDate(s) then Step(false, s, [])
    else
      var next := s.(date := Some(now), total := 0);
      Step(next.active, next, if emit then [OnReset] else [])
  }

  /**
   * `cancelStart()`: refused while inactive; otherwise only the active flag
   * drops, so the running interval is discarded and the reading is the total
   * as it was before the start. No hook fires.
   */
  function CancelStartStep(s: State): (r: Step)
    ensures r.ok <==> s.active
    ensures !r.next.active
    ensures r.next.total == s.total && r.next.date == s.date
            && r.next.lastStopTime == s.lastStopTime
    ensures forall later :: TimeOf(r.next, later) == s.total
    ensures r.hooks == []
  {
    if !s.active then Step(false, s, [])
    else Step(true, s.(active := false), [])
  }

  /**
   * `cancelStop()`: refused while active; otherwise the Stopwatch is active
   * again and the last stop's interval (0 if none was recorded) is taken off
   * the total. The date is not touched. No hook fires.
   */
  function CancelStopStep(s: State): (r: Step)
    ensures r.ok <==> !s.active
    ensures r.next.active
    ensures r.next.total == if r.ok then s.total - s.lastStopTime.GetOr(0) else s.total
    ensures r.next.date == s.date && r.next.lastStopTime == s.lastStopTime
    ensures r.hooks == []
  {
    if s.active then Step(false, s, [])
    else Step(true, s.(active := true, total := s.total - s.lastStopTime.GetOr(0)), [])
  }

  /** The mutators, as a caller may invoke them. */
  datatype Op = Start(emit: bool) | Stop(emit: bool) | Toggle(emit: bool) | Reset(emit: bool)
              | CancelStart | CancelStop

  /** One call of a mutator at an instant. */
  datatype Call = Call(op: Op, at: int)

  /** The mutators that only measure: they neither discard nor undo time. */
  predicate Measuring(op: Op) {
    op.Start? || op.Stop? || op.Toggle?
  }

  function Apply(s: State, op: Op, now: int): (r: Step)
    ensures Measuring(op) ==> TimeOf(r.next, now) == TimeOf(s, now)
  {
    match op
    case Start(emit) => StartStep(s, now, emit)
    case Stop(emit) => StopStep(s, now, emit)
    case Toggle(emit) => ToggleStep(s, now, emit)
    case Reset(emit) => ResetStep(s, now, emit)
    case CancelStart => CancelStartStep(s)
    case CancelStop => CancelStopStep(s)
  }

  /** The state after a sequence of calls, first call first. */
  function Run(s: State, calls: seq<Call>): State
    decreases |calls|
  {
    if calls == [] then s else Run(Apply(s, calls[0].op, calls[0].at).next, calls[1..])
  }

  /** Between mutations the reading never goes down as the clock advances. */
  lemma TimeMonotone(s: State, t1: int, t2: int)
    requires t1 <= t2
    ensures TimeOf(s, t1) <= TimeOf(s, t2)
  {
  }

  /**
   * Over any chronological run of starts, stops and toggles the reading
   * never goes down, so a Timer's remaining time never goes up.
   */
  lemma {:induction false} TimeNeverDecreases(s: State, calls: seq<Call>, from: int, until: int)
    requires from <= until
    requires forall i | 0 <= i < |calls| :: Measuring(calls[i].op)
    requires forall i | 0 <= i < |calls| :: from <= calls[i].at <= until
    requires forall i, j | 0 <= i < j < |calls| :: calls[i].at <= calls[j].at
    ensures TimeOf(s, from) <= TimeOf(Run(s, calls), until)
    decreases |calls|
  {
    if calls == [] {
      TimeMonotone(s, from, until);
    } else {
      var first := calls[0];
      var next := Apply(s, first.op, first.at).next;
      TimeMonotone(s, from, first.at);
      TimeNeverDecreases(next, calls[1..], first.at, until);
    }
  }

  /** A new Stopwatch is inactive, reads 0 and renders as "0ms"; it cannot be stopped. */
  lemma FreshStopwatch(now: int, emit: bool)
    ensures !Fresh().active && TimeOf(Fresh(), now) == 0
    ensures SinceStartOf(Fresh(), now) == None
    ensures Render(Fresh(), now) == "0ms"
    ensures !StopStep(Fresh(), now, emit).ok && !ResetStep(Fresh(), now, emit).ok
  {
    assert NatToString(0) == "0";
  }

  /**
   * A start at `t1` followed by a stop at `t2` adds exactly `t2 - t1` to the
   * reading, whenever it is taken afterwards.
   */
  lemma StartThenStopMeasures(s: State, t1: int, t2: int, emit: bool)
    requires !s.active && t1 != 0
    ensures var started := StartStep(s, t1, emit);
            var stopped := StopStep(started.next, t2, emit);
            started.ok && stopped.ok && !stopped.next.active
            && forall later :: TimeOf(stopped.next, later) == s.total + (t2 - t1)
  {
  }

  /**
   * `cancelStop` right after a successful `stop` restores the total, the
   * active flag and the date, so the reading at every later instant is what
   * it would have been without the stop. Only the recorded last stop differs.
   */
  lemma CancelStopUndoesStop(s: State, now: int, emit: bool)
    requires StopStep(s, now, emit).ok
    ensures var undone := CancelStopStep(StopStep(s, now, emit).next);
            undone.ok && undone.next == s.(lastStopTime := Some(now - s.date.value))
            && forall later :: TimeOf(undone.next, later) == TimeOf(s, later)
  {
  }

  /**
   * `cancelStart` right after a successful `start` gives back the inactive
   * Stopwatch with its old reading; only the recorded date differs.
   */
  lemma CancelStartUndoesStart(s: State, now: int, emit: bool)
    requires !s.active
    ensures var undone := CancelStartStep(StartStep(s, now, emit).next);
            undone.ok && undone.next == s.(date := Some(now))
            && forall later :: TimeOf(undone.next, later) == TimeOf(s, later)
  {
  }

  /**
   * Two toggles whose inner start and stop both succeed give back the
   * original active flag; the two results alternate. From an inactive
   * Stopwatch the second toggle adds exactly the interval between them.
   */
  lemma ToggleTwice(s: State, t1: int, t2: int, emit: bool)
    requires s.active ==> HasDate(s)
    requires !s.active ==> t1 != 0
    ensures var first := ToggleStep(s, t1, emit);
            var second := ToggleStep(first.next, t2, emit);
            first.ok == !s.active && second.ok == s.active && second.next.active == s.active
            && (!s.active ==> TimeOf(second.next, t2) == s.total + (t2 - t1))
  {
  }

  /**
   * Active does not imply a set date: `cancelStop` on a new Stopwatch makes it
   * active with no date, and then neither `stop` nor `reset` is accepted.
   */
  lemma ActiveWithoutDate(now: int, emit: bool)
    ensures var resumed := CancelStopStep(Fresh());
            resumed.ok && resumed.next.active && !HasDate(resumed.next)
            && !StopStep(resumed.next, now, emit).ok && !ResetStep(resumed.next, now, emit).ok
  {
  }

  /** A start at timestamp 0 leaves a date that reads as unset, so `stop` is refused. */
  lemma StartAtZeroCannotStop(s: State, now: int, emit: bool)
    requires !s.active
    ensures var started := StartStep(s, 0, emit);
            started.ok && started.next.active && !StopStep(started.next, now, emit).ok
  {
  }

  /**
   * `reset` keeps the last stop, so a `cancelStop` after it subtracts an
   * interval that no longer belongs to the total and the reading goes negative.
   */
  lemma CancelStopAfterReset(s: State, now: int, emit: bool)
    requires HasDate(s) && !s.active && now != 0
    requires s.lastStopTime.Some?
    ensures var resumed := CancelStopStep(ResetStep(s, now, emit).next);
            resumed.ok && TimeOf(resumed.next, now) == -s.lastStopTime.value
  {
  }

  class Stopwatch {
    var total: int
    var date: Option<int>
    var lastStopTime: Option<int>
    var active: bool
    /** Every hook invocation so far, in order. */
    var emitted: seq<Hook>

    function Current(): State
      reads this
    {
      State(total, date, lastStopTime, active)
    }

    /** `new Stopwatch(autoStart)`: starts at `now` (firing onstart) when asked. */
    constructor (autoStart: bool, now: int)
      ensures Current() == if autoStart then StartStep(Fresh(), now, true).next else Fresh()
      ensures emitted == if autoStart then [OnStart] else []
      ensures TimeOf(Current(), now) == 0 && active == autoStart
    {
      total, date, lastStopTime, active, emitted := 0, None, None, false, [];
      new;
      if autoStart {
        var started := Start(now, true);
      }
    }

    method Start(now: int, emit: bool) returns (ok: bool)
      modifies this
      ensures var r := StartStep(old(Current()), now, emit);
              ok == r.ok && Current() == r.next && emitted == old(emitted) + r.hooks
    {
      if active {
        return false;
      }
      date := Some(now);
      active := true;
      if emit {
        emitted := emitted + [OnStart];
      }
      return true;
    }

    method Stop(now: int, emit: bool) returns (ok: bool)
      modifies this
      ensures var r := StopStep(old(Current()), now, emit);
              ok == r.ok && Current() == r.next && emitted == old(emitted) + r.hooks
    {
      if date.None? || date.value == 0 || !active {
        return false;
      }
      var last := now - date.value;
      lastStopTime := Some(last);
      total := total + last;
      active := false;
      if emit {
        emitted := emitted + [OnStop];
      }
      return true;
    }

    method Toggle(now: int, emit: bool) returns (ok: bool)
      modifies this
      ensures var r := ToggleStep(old(Current()), now, emit);
              ok == r.ok && Current() == r.next && emitted == old(emitted) + r.hooks
    {
      if active {
        var stopped := Stop(now, emit);
        return false;
      }
      var started := Start(now, emit);
      return true;
    }

    method Reset(now: int, emit: bool) returns (ok: bool)
      modifies this
      ensures var r := ResetStep(old(Current()), now, emit);
              ok == r.ok && Current() == r.next && emitted == old(emitted) + r.hooks
    {
      if date.None? || date.value == 0 {
        return false;
      }
      if emit {
        emitted := emitted + [OnReset];
      }
      date := Some(now);
      total := 0;
      ok := IsActive();
    }

    method CancelStart() returns (ok: bool)
      modifies this
      ensures var r := CancelStartStep(old(Current()));
              ok == r.ok && Current() == r.next && emitted == old(emitted)
    {
      if !active {
        return false;
      }
      active := false;
      return true;
    }

    method CancelStop() returns (ok: bool)
      modifies this
      ensures var r := CancelStopStep(old(Current()));
              ok == r.ok && Current() == r.next && emitted == old(emitted)
    {
      if active {
        return false;
      }
      active := true;
      total := total - lastStopTime.GetOr(0);
      return true;
    }

    /** Invokes one hook directly, as a caller holding the Stopwatch may. */
    method Fire(hook: Hook)
      modifies this
      ensures Current() == old(Current()) && emitted == old(emitted) + [hook]
    {
      emitted := emitted + [hook];
    }

    function IsActive(): (r: bool)
      reads this
      ensures r <==> Current().active
    {
      active
    }

    function SinceStart(now: int): (r: Option<int>)
      reads this
      ensures r.None? <==> !active || !HasDate(Current())
      ensures r.Some? ==> r.value == now - date.value
    {
      SinceStartOf(Current(), now)
    }

    /** `time(emit)` and its alias `valueOf(emit)`: reads the time, firing ontime when asked. */
    method Time(now: int, emit: bool) returns (t: int)
      modifies this
      ensures t == TimeOf(old(Current()), now) && Current() == old(Current())
      ensures emitted == old(emitted) + if emit then [OnTime] else []
    {
      if emit {
        emitted := emitted + [OnTime];
      }
      t := total + SinceStart(now).GetOr(0);
    }

    /** `toString()`: reads the time through `time()`, which fires ontime. */
    method ToString(now: int) returns (str: string)
      modifies this
      ensures str == Render(old(Current()), now) && Current() == old(Current())
      ensures emitted == old(emitted) + [OnTime]
    {
      var t := Time(now, true);
      str := IntToString(t) + "ms";
    }
  }
}
