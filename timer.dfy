/**
 * The Timer of src/index.ts: a countdown of `delay` milliseconds over an
 * owned Stopwatch, which asks the host's timer queue for an `onfinish`
 * callback.
 *
 * The host queue is not modelled; what the Timer asks of it is: every
 * `setTimeout(d)` and `clearTimeout(h)` is appended to the log `host`, and a
 * `setTimeout` is known by its position in that log. The code installs
 * `_canceltimeout` as the Stopwatch's onstop handler without binding it, so
 * when the Stopwatch invokes it, `this._timeout` is the Stopwatch's own
 * undefined field: every clear it issues names no handle, and no callback is
 * ever cancelled. `_settimeout` does not clear the previous handle either.
 */
module Timers {
  import opened Wrappers
  import opened Decimal
  import opened Stopwatches

  /** A request to the host timer queue. */
  datatype HostCall = SetTimeout(delay: int) | ClearTimeout(handle: Option<nat>)

  /** The callbacks still waiting after the requests in `log`: set minus cleared. */
  function Pending(log: seq<HostCall>): (p: set<nat>)
    ensures forall h | h in p :: h < |log| && log[h].SetTimeout?
    decreases |log|
  {
    if log == [] then {}
    else
      var earlier := Pending(log[..|log| - 1]);
      match log[|log| - 1]
      case SetTimeout(_) => earlier + {|log| - 1}
      case ClearTimeout(None) => earlier
      case ClearTimeout(Some(h)) => earlier - {h}
  }

  /** Every callback ever requested in `log`. */
  function Scheduled(log: seq<HostCall>): set<nat> {
    set h: nat | h < |log| && log[h].SetTimeout?
  }

  /** No clear in `log` names a handle. */
  predicate ClearsNothing(log: seq<HostCall>) {
    forall i | 0 <= i < |log| :: log[i].ClearTimeout? ==> log[i].handle.None?
  }

  /** When no clear names a handle, every callback ever requested is still pending. */
  lemma {:induction false} NothingCancelled(log: seq<HostCall>)
    requires ClearsNothing(log)
    ensures Pending(log) == Scheduled(log)
    decreases |log|
  {
    if log != [] {
      var earlier := log[..|log| - 1];
      assert ClearsNothing(earlier) by {
        forall i | 0 <= i < |earlier| ensures earlier[i].ClearTimeout? ==> earlier[i].handle.None? {
          assert earlier[i] == log[i];
        }
      }
      NothingCancelled(earlier);
      forall h: nat ensures h in Scheduled(log) <==> h in Pending(log) {
        if h < |earlier| {
          assert log[h] == earlier[h];
        }
      }
    }
  }

  /**
   * `toString()` of a Timer: "<remaining>/<delay>ms" with both numbers as
   * canonical numerals; the first '/' splits them and both can be read back.
   */
  function TimerString(remaining: int, delay: int): (r: string)
    ensures var k := |IntToString(remaining)|;
            k + 3 < |r| && r[k] == '/' && (forall i | 0 <= i < k :: r[i] != '/')
            && r[..k] == IntToString(remaining) && r[k + 1..|r| - 2] == IntToString(delay)
            && IsNumeral(r[..k]) && IsNumeral(r[k + 1..|r| - 2])
            && ParseInt(r[..k]) == remaining && ParseInt(r[k + 1..|r| - 2]) == delay
            && r[|r| - 2..] == "ms"
  {
    var a := IntToString(remaining);
    var b := IntToString(delay);
    IntToStringRoundTrip(remaining);
    IntToStringRoundTrip(delay);
    var r := a + "/" + b + "ms";
    assert r[..|a|] == a;
    assert r[|a| + 1..|r| - 2] == b;
    assert forall i | 0 <= i < |a| :: r[i] == a[i];
    r
  }

  class Timer {
    const delay: int
    /** The Stopwatch the Timer creates and owns. */
    const sw: Stopwatch
    /** `_timeout`: the handle of the latest `setTimeout`. */
    var timeout: Option<nat>
    /** Every request made of the host timer queue, in order. */
    var host: seq<HostCall>

    /**
     * The first request is the constructor's full-delay callback, no clear
     * names a handle, and `timeout` holds the latest callback requested.
     */
    ghost predicate Valid()
      reads this
    {
      |host| > 0 && host[0] == SetTimeout(delay) && ClearsNothing(host)
      && timeout.Some? && timeout.value < |host| && host[timeout.value].SetTimeout?
      && forall i | timeout.value < i < |host| :: !host[i].SetTimeout?
    }

    /**
     * `new Timer(delay, autoStart)`: the Stopwatch starts (when asked) before
     * any handler is installed, so that start requests nothing; then one
     * callback is requested at the full delay, whatever `autoStart` is.
     */
    constructor (delay: int, autoStart: bool, now: int)
      ensures Valid() && fresh(sw)
      ensures this.delay == delay
      ensures sw.Current() == if autoStart then StartStep(Fresh(), now, true).next else Fresh()
      ensures sw.emitted == if autoStart then [OnStart] else []
      ensures host == [SetTimeout(delay)]
      ensures TimeRemaining(now) == delay && IsActive() == autoStart
    {
      this.delay := delay;
      sw := new Stopwatch(autoStart, now);
      timeout := None;
      host := [];
      new;
      SetFinish(delay);
    }

    /** `_settimeout(d)`: requests a callback after `d` without clearing the previous one. */
    method SetFinish(d: int)
      modifies this
      ensures host == old(host) + [SetTimeout(d)] && timeout == Some(|old(host)|)
    {
      host := host + [SetTimeout(d)];
      timeout := Some(|host| - 1);
    }

    /** `_canceltimeout()` invoked on an object whose `_timeout` field holds `target`. */
    method CancelFinish(target: Option<nat>)
      modifies this
      ensures host == old(host) + [ClearTimeout(target)] && timeout == old(timeout)
    {
      host := host + [ClearTimeout(target)];
    }

    /**
     * The handler installed as the Stopwatch's onstart: reads the time with
     * `time()` (firing ontime) and requests a callback after what remains.
     */
    method OnStartHandler(now: int)
      requires Valid()
      modifies this, sw
      ensures Valid()
      ensures host == old(host) + [SetTimeout(old(TimeRemaining(now)))]
      ensures sw.Current() == old(sw.Current()) && sw.emitted == old(sw.emitted) + [OnTime]
    {
      var elapsed := sw.Time(now, true);
      SetFinish(delay - elapsed);
    }

    /**
     * The handler installed as the Stopwatch's onstop: `_canceltimeout`
     * invoked on the Stopwatch, whose `_timeout` is undefined.
     */
    method OnStopHandler()
      requires Valid()
      modifies this
      ensures Valid()
      ensures host == old(host) + [ClearTimeout(None)] && timeout == old(timeout)
    {
      CancelFinish(None);
    }

    /** Runs the installed handler of the hook a Stopwatch call fired, if any. */
    method Handle(fired: seq<Hook>, now: int)
      requires Valid()
      modifies this, sw
      ensures Valid() && sw.Current() == old(sw.Current())
      ensures fired == [OnStart] ==> host == old(host) + [SetTimeout(old(TimeRemaining(now)))]
                                     && sw.emitted == old(sw.emitted) + [OnTime]
      ensures fired == [OnStop] ==> host == old(host) + [ClearTimeout(None)]
                                    && sw.emitted == old(sw.emitted)
      ensures fired != [OnStart] && fired != [OnStop] ==> host == old(host)
                                                          && sw.emitted == old(sw.emitted)
    {
      if fired == [OnStart] {
        OnStartHandler(now);
      } else if fired == [OnStop] {
        OnStopHandler();
      }
    }

    /**
     * `start()`: starts the Stopwatch with hooks on; when it starts, a new
     * callback is requested after the remaining time and none is cleared.
     */
    method Start(now: int) returns (ok: bool)
      requires Valid()
      modifies this, sw
      ensures Valid()
      ensures var r := StartStep(old(sw.Current()), now, true);
              ok == r.ok && sw.Current() == r.next
      ensures ok ==> host == old(host) + [SetTimeout(old(TimeRemaining(now)))]
                     && sw.emitted == old(sw.emitted) + [OnStart, OnTime]
      ensures !ok ==> host == old(host) && sw.emitted == old(sw.emitted)
      ensures old(Pending(host)) <= Pending(host)
    {
      var mark := |sw.emitted|;
      ok := sw.Start(now, true);
      Handle(sw.emitted[mark..], now);
      NothingCancelled(old(host));
      NothingCancelled(host);
    }

    /**
     * `stop()`: stops the Stopwatch with hooks on; its onstop handler issues a
     * clear that names no handle, so every requested callback stays pending.
     */
    method Stop(now: int) returns (ok: bool)
      requires Valid()
      modifies this, sw
      ensures Valid()
      ensures var r := StopStep(old(sw.Current()), now, true);
              ok == r.ok && sw.Current() == r.next && sw.emitted == old(sw.emitted) + r.hooks
      ensures host == old(host) + if ok then [ClearTimeout(None)] else []
      ensures Pending(host) == old(Pending(host)) && timeout == old(timeout)
    {
      var mark := |sw.emitted|;
      ok := sw.Stop(now, true);
      Handle(sw.emitted[mark..], now);
      NothingCancelled(old(host));
      NothingCancelled(host);
    }

    /** `toggle()`: toggles the Stopwatch with hooks on; the fired hook's handler runs. */
    method Toggle(now: int) returns (ok: bool)
      requires Valid()
      modifies this, sw
      ensures Valid()
      ensures var r := ToggleStep(old(sw.Current()), now, true);
              ok == r.ok && sw.Current() == r.next
      ensures host == old(host) + if !old(sw.active) then [SetTimeout(old(TimeRemaining(now)))]
                                  else if old(HasDate(sw.Current())) then [ClearTimeout(None)]
                                  else []
      ensures sw.emitted == old(sw.emitted) + if !old(sw.active) then [OnStart, OnTime]
                                              else if old(HasDate(sw.Current())) then [OnStop]
                                              else []
      ensures old(Pending(host)) <= Pending(host)
    {
      var mark := |sw.emitted|;
      ok := sw.Toggle(now, true);
      Handle(sw.emitted[mark..], now);
      NothingCancelled(old(host));
      NothingCancelled(host);
    }

    /**
     * `reset()`: invokes the Stopwatch's onstop (a clear naming no handle),
     * resets it without hooks, then invokes its onstart (a new callback after
     * what remains). With a date set the remaining time is the full delay
     * again; the active flag is kept and returned.
     */
    method Reset(now: int) returns (ok: bool)
      requires Valid()
      modifies this, sw
      ensures Valid()
      ensures var r := ResetStep(old(sw.Current()), now, false);
              ok == r.ok && sw.Current() == r.next
      ensures IsActive() == old(IsActive())
      ensures HasDate(old(sw.Current())) ==> TimeRemaining(now) == delay
      ensures !HasDate(old(sw.Current())) ==> TimeRemaining(now) == delay - old(sw.total)
      ensures host == old(host) + [ClearTimeout(None), SetTimeout(TimeRemaining(now))]
      ensures sw.emitted == old(sw.emitted) + [OnStop, OnStart, OnTime]
      ensures old(Pending(host)) <= Pending(host)
    {
      sw.Fire(OnStop);
      OnStopHandler();
      ok := sw.Reset(now, false);
      sw.Fire(OnStart);
      OnStartHandler(now);
      NothingCancelled(old(host));
      NothingCancelled(host);
    }

    function IsActive(): (r: bool)
      reads this, sw
      ensures r <==> sw.Current().active
    {
      sw.IsActive()
    }

    function SinceStart(now: int): (r: Option<int>)
      reads this, sw
      ensures r == SinceStartOf(sw.Current(), now)
    {
      sw.SinceStart(now)
    }

    /**
     * `timeRemaining()` and its alias `valueOf()`: the delay less the
     * Stopwatch's time, read with `time(false)` so that no hook fires.
     */
    function TimeRemaining(now: int): (r: int)
      reads this, sw
      ensures r == delay - TimeOf(sw.Current(), now)
      ensures !sw.active || !HasDate(sw.Current()) ==> r == delay - sw.total
      ensures sw.active && HasDate(sw.Current()) ==> r == delay - sw.total - (now - sw.date.value)
    {
      delay - (sw.total + sw.SinceStart(now).GetOr(0))
    }

    function ToString(now: int): (r: string)
      reads this, sw
      ensures r == TimerString(TimeRemaining(now), delay)
    {
      TimerString(TimeRemaining(now), delay)
    }
  }

  /**
   * The full-delay callback the constructor requests is never cancelled: it
   * stays pending through every start, stop, toggle and reset.
   */
  lemma InitialCallbackPending(t: Timer)
    requires t.Valid()
    ensures 0 in Pending(t.host) && t.host[0] == SetTimeout(t.delay)
  {
    NothingCancelled(t.host);
  }

  /**
   * Over any chronological run of starts, stops and toggles of a Timer's
   * Stopwatch, the remaining time never goes up.
   */
  lemma RemainingNeverIncreases(t: Timer, calls: seq<Call>, from: int, until: int)
    requires from <= until
    requires forall i | 0 <= i < |calls| :: Measuring(calls[i].op)
    requires forall i | 0 <= i < |calls| :: from <= calls[i].at <= until
    requires forall i, j | 0 <= i < j < |calls| :: calls[i].at <= calls[j].at
    ensures t.delay - TimeOf(Run(t.sw.Current(), calls), until) <= t.TimeRemaining(from)
  {
    TimeNeverDecreases(t.sw.Current(), calls, from, until);
  }

  /**
   * A new Timer that does not auto-start is inactive, has the whole delay
   * left and renders as "<delay>/<delay>ms", yet one callback is already
   * pending.
   */
  method NewIdleTimer(delay: int, now: int) returns (t: Timer)
    ensures !t.IsActive() && t.TimeRemaining(now) == delay
    ensures t.ToString(now) == TimerString(delay, delay)
    ensures Pending(t.host) == {0}
  {
    t := new Timer(delay, false, now);
    NothingCancelled(t.host);
  }
}
