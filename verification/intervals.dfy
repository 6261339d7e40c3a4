/** The host side of the Timer component: the intervals that are still
    live, the interval handle the component has recorded, the tick count and
    the hooks that were called. The effects Timer.Step returns are performed
    here, and a live interval firing is an event of its own. */
module Intervals {

  import opened Optional
  import opened Timer

  /** An interval id as setInterval hands it out. */
  type Handle = nat

  /** Which of the optional hooks the component was given. */
  datatype Props = Props(onStart: bool, onStop: bool, onPause: bool)

  predicate Provided(props: Props, h: Hook) {
    match h
    case OnStart => props.onStart
    case OnStop => props.onStop
    case OnPause => props.onPause
  }

  /** tryCall: a provided hook is called once, a missing one is skipped
      without an error. The result lists the calls made. */
  function TryCall(props: Props, h: Hook): (called: seq<Hook>)
    ensures |called| <= 1
    ensures h in called <==> Provided(props, h)
    ensures forall g :: g in called ==> g == h
  {
    if Provided(props, h) then [h] else []
  }

  /** Everything outside the reducers that the Timer component touches. */
  datatype Host = Host(
    live: set<Handle>,         // intervals that will still call increment
    recorded: Option<Handle>,  // the `interval` state; null until the first start
    nextHandle: Handle,        // setInterval never hands out a handle twice
    count: int,                // the `time` state shown on screen
    fired: seq<Hook>)          // the hooks called so far, in order

  /** The live intervals other than the recorded one. They are what is left
      live after clearInterval(interval), which ignores a null handle or one
      already cleared; and since only the recorded handle is ever cleared,
      they are also the intervals nothing can cancel any more. */
  function Unrecorded(host: Host): set<Handle> {
    match host.recorded
    case None => host.live
    case Some(h) => host.live - {h}
  }

  /** Performs one effect of the state reducer. */
  function Perform(host: Host, props: Props, e: Effect): Host {
    match e
    case ArmInterval =>
      host.(live := host.live + {host.nextHandle},
            recorded := Some(host.nextHandle),
            nextHandle := host.nextHandle + 1)
    case ClearRecorded => host.(live := Unrecorded(host))
    case ResetCount => host.(count := CountStep(host.count, SetTo(0)))
    case Notify(h) => host.(fired := host.fired + TryCall(props, h))
  }

  /** Performs the effects in order. */
  function PerformAll(host: Host, props: Props, effects: seq<Effect>): Host
    decreases |effects|
  {
    if |effects| == 0 then host
    else PerformAll(Perform(host, props, effects[0]), props, effects[1..])
  }

  /** The component: the reducer's state together with its host. */
  datatype Machine = Machine(state: TimerState, host: Host)

  /** Freshly mounted: off, no interval, count 0. */
  const Initial: Machine := Machine(Off, Host({}, None, 0, 0, []))

  function Advance(m: Machine, props: Props, t: Transition): Machine {
    Machine(t.next, PerformAll(m.host, props, t.effects))
  }

  /** Performing one effect list and then another is performing their
      concatenation. */
  lemma {:induction false} PerformAllConcat(host: Host, props: Props, first: seq<Effect>, second: seq<Effect>)
    ensures PerformAll(host, props, first + second)
         == PerformAll(PerformAll(host, props, first), props, second)
    decreases |first|
  {
    if |first| == 0 {
      assert first + second == second;
    } else {
      assert (first + second)[1..] == first[1..] + second;
      PerformAllConcat(Perform(host, props, first[0]), props, first[1..], second);
    }
  }

  lemma PerformAllOne(host: Host, props: Props, e: Effect)
    ensures PerformAll(host, props, [e]) == Perform(host, props, e)
  {
    assert [e][1..] == [];
  }

  /** Dispatching an action to the state reducer, effects performed. */
  function Dispatch(m: Machine, props: Props, a: TimerAction): Machine {
    Advance(m, props, Step(m.state, a))
  }

  /** What one dispatch does to the component and its host. */
  lemma DispatchEffects(m: Machine, props: Props, a: TimerAction)
    // stop: off, recorded interval cancelled, count 0, onStop called if given
    ensures a == Stop ==>
      Dispatch(m, props, a)
        == Machine(Off, m.host.(live := Unrecorded(m.host),
                                count := 0,
                                fired := m.host.fired + TryCall(props, OnStop)))
    // start, and pause while paused: on, one fresh interval armed and
    // recorded, nothing cancelled, count kept, onStart called if given
    ensures (a == Start || (a == Pause && m.state == Paused)) ==>
      Dispatch(m, props, a)
        == Machine(On, m.host.(live := m.host.live + {m.host.nextHandle},
                               recorded := Some(m.host.nextHandle),
                               nextHandle := m.host.nextHandle + 1,
                               fired := m.host.fired + TryCall(props, OnStart)))
    // pause while on: paused, recorded interval cancelled, count kept
    ensures a == Pause && m.state == On ==>
      Dispatch(m, props, a)
        == Machine(Paused, m.host.(live := Unrecorded(m.host),
                                   fired := m.host.fired + TryCall(props, OnPause)))
    // pause while off: nothing happens
    ensures a == Pause && m.state == Off ==> Dispatch(m, props, a) == m
  {
    if a == Stop {
      PerformStop(m.host, props);
    } else if a == Start || (a == Pause && m.state == Paused) {
      PerformStart(m.host, props);
    } else if m.state == On {
      PerformPause(m.host, props);
    }
  }

  lemma PerformStop(h: Host, props: Props)
    ensures PerformAll(h, props, DoStop().effects)
         == h.(live := Unrecorded(h), count := 0, fired := h.fired + TryCall(props, OnStop))
  {
    var h1 := Perform(h, props, ClearRecorded);
    assert DoStop().effects == [ClearRecorded] + ([ResetCount] + [Notify(OnStop)]);
    PerformAllConcat(h, props, [ClearRecorded], [ResetCount] + [Notify(OnStop)]);
    PerformAllOne(h, props, ClearRecorded);
    PerformAllConcat(h1, props, [ResetCount], [Notify(OnStop)]);
    PerformAllOne(h1, props, ResetCount);
    PerformAllOne(Perform(h1, props, ResetCount), props, Notify(OnStop));
  }

  lemma PerformStart(h: Host, props: Props)
    ensures PerformAll(h, props, DoStart().effects)
         == h.(live := h.live + {h.nextHandle},
               recorded := Some(h.nextHandle),
               nextHandle := h.nextHandle + 1,
               fired := h.fired + TryCall(props, OnStart))
  {
    assert DoStart().effects == [ArmInterval] + [Notify(OnStart)];
    PerformAllConcat(h, props, [ArmInterval], [Notify(OnStart)]);
    PerformAllOne(h, props, ArmInterval);
    PerformAllOne(Perform(h, props, ArmInterval), props, Notify(OnStart));
  }

  lemma PerformPause(h: Host, props: Props)
    ensures PerformAll(h, props, DoPause().effects)
         == h.(live := Unrecorded(h), fired := h.fired + TryCall(props, OnPause))
  {
    assert DoPause().effects == [ClearRecorded] + [Notify(OnPause)];
    PerformAllConcat(h, props, [ClearRecorded], [Notify(OnPause)]);
    PerformAllOne(h, props, ClearRecorded);
    PerformAllOne(Perform(h, props, ClearRecorded), props, Notify(OnPause));
  }

  /** Interval `h` fires and calls increment; a cleared one never fires. */
  function Fire(m: Machine, h: Handle): (r: Machine)
    ensures h in m.host.live ==> r == m.(host := m.host.(count := m.host.count + 1))
    ensures h !in m.host.live ==> r == m
  {
    if h in m.host.live then m.(host := m.host.(count := CountStep(m.host.count, Increment)))
    else m
  }

  /** What can happen to a mounted timer: a click dispatches an action, or an
      interval fires. */
  datatype Event = Act(action: TimerAction) | Tick(handle: Handle)

  function Apply(m: Machine, props: Props, e: Event): Machine {
    match e
    case Act(a) => Dispatch(m, props, a)
    case Tick(h) => Fire(m, h)
  }

  function Run(m: Machine, props: Props, events: seq<Event>): Machine
    decreases |events|
  {
    if |events| == 0 then m
    else Run(Apply(m, props, events[0]), props, events[1..])
  }

  /** What the component keeps true: every handle was handed out already, and
      the recorded interval is live exactly while the timer is on. */
  ghost predicate Consistent(m: Machine) {
    && (forall h :: h in m.host.live ==> h < m.host.nextHandle)
    && (m.host.recorded.Some? ==> m.host.recorded.value < m.host.nextHandle)
    && (m.state == On <==> (m.host.recorded.Some? && m.host.recorded.value in m.host.live))
  }

  lemma ApplyConsistent(m: Machine, props: Props, e: Event)
    requires Consistent(m)
    ensures Consistent(Apply(m, props, e))
    ensures Unrecorded(m.host) <= Unrecorded(Apply(m, props, e).host)
  {
    if e.Act? {
      var a := e.action;
      var r := Dispatch(m, props, a);
      DispatchEffects(m, props, a);
      if a == Start || (a == Pause && m.state == Paused) {
        assert m.host.nextHandle !in m.host.live;
        assert r.host.recorded == Some(m.host.nextHandle);
        assert r.host.live == m.host.live + {m.host.nextHandle};
      } else if a == Stop || m.state == On {
        assert r.host.recorded == m.host.recorded;
        assert r.host.live == Unrecorded(m.host);
      } else {
        assert r == m;
      }
    }
  }

  /** Every event sequence keeps the component consistent, and an orphaned
      interval stays live for good. */
  lemma {:induction false} RunConsistent(m: Machine, props: Props, events: seq<Event>)
    requires Consistent(m)
    ensures Consistent(Run(m, props, events))
    ensures Unrecorded(m.host) <= Unrecorded(Run(m, props, events).host)
    decreases |events|
  {
    if |events| > 0 {
      ApplyConsistent(m, props, events[0]);
      RunConsistent(Apply(m, props, events[0]), props, events[1..]);
    }
  }

  /** Start while on arms a second interval and leaves the first one running
      with nothing left that can cancel it. */
  lemma StartWhileOnOrphans(m: Machine, props: Props)
    requires Consistent(m) && m.state == On
    ensures var r := Dispatch(m, props, Start);
      && r.state == On
      && |r.host.live| == |m.host.live| + 1
      && Unrecorded(r.host) == Unrecorded(m.host) + {m.host.recorded.value}
  {
    var r := Dispatch(m, props, Start);
    DispatchEffects(m, props, Start);
    assert m.host.nextHandle !in m.host.live;
    assert r.host.live == m.host.live + {m.host.nextHandle};
  }

  /** Concretely: start, start, stop leaves interval 0 live, and it still
      counts up while the timer shows off. */
  lemma DoubleStartLeaks(props: Props)
    ensures var m := Run(Initial, props, [Act(Start), Act(Start), Act(Stop)]);
      && m.state == Off
      && m.host.live == {0}
      && Run(m, props, [Tick(0)]).host.count == 1
  {
    var m1 := Apply(Initial, props, Act(Start));
    DispatchEffects(Initial, props, Start);
    var m2 := Apply(m1, props, Act(Start));
    DispatchEffects(m1, props, Start);
    var m3 := Apply(m2, props, Act(Stop));
    DispatchEffects(m2, props, Stop);
    assert m1.host.live == {0} && m1.host.recorded == Some(0);
    assert m2.host.live == {0, 1} && m2.host.recorded == Some(1);
    assert m3.host.live == {0} && m3.host.count == 0;
    assert Run(Initial, props, [Act(Start), Act(Start), Act(Stop)]) == m3 by {
      var es := [Act(Start), Act(Start), Act(Stop)];
      assert es[1..] == [Act(Start), Act(Stop)];
      assert es[1..][1..] == [Act(Stop)];
      assert es[1..][1..][1..] == [];
    }
    assert [Tick(0)][1..] == [];
  }

  // The reducer as evidently intended: start cancels the recorded interval
  // before arming a new one, so at most one interval is ever live.

  function StepIntended(s: TimerState, a: TimerAction): (r: Transition)
    ensures r.next == Documented(s, a)
    ensures r.next == On ==> r.effects == [ClearRecorded] + Step(s, a).effects
    ensures r.next != On ==> r == Step(s, a)
  {
    var t := Step(s, a);
    if t.next == On then Transition(On, [ClearRecorded] + t.effects) else t
  }

  function DispatchIntended(m: Machine, props: Props, a: TimerAction): Machine {
    Advance(m, props, StepIntended(m.state, a))
  }

  /** A corrected transition into "on" first cancels the recorded interval
      and then acts as the original start; every other corrected transition
      is the original one. */
  lemma DispatchIntendedEffects(m: Machine, props: Props, a: TimerAction)
    ensures var r := DispatchIntended(m, props, a);
      && r.state == Documented(m.state, a)
      && (r.state == On ==>
            r.host == m.host.(live := Unrecorded(m.host) + {m.host.nextHandle},
                              recorded := Some(m.host.nextHandle),
                              nextHandle := m.host.nextHandle + 1,
                              fired := m.host.fired + TryCall(props, OnStart)))
      && (r.state != On ==> r == Dispatch(m, props, a))
  {
    if StepIntended(m.state, a).next == On {
      var cleared := Machine(m.state, Perform(m.host, props, ClearRecorded));
      PerformAllConcat(m.host, props, [ClearRecorded], Step(m.state, a).effects);
      PerformAllOne(m.host, props, ClearRecorded);
      DispatchEffects(cleared, props, a);
    }
  }

  function ApplyIntended(m: Machine, props: Props, e: Event): Machine {
    match e
    case Act(a) => DispatchIntended(m, props, a)
    case Tick(h) => Fire(m, h)
  }

  function RunIntended(m: Machine, props: Props, events: seq<Event>): Machine
    decreases |events|
  {
    if |events| == 0 then m
    else RunIntended(ApplyIntended(m, props, events[0]), props, events[1..])
  }

  /** The intended invariant: one live interval, the recorded one, while on;
      none otherwise. */
  ghost predicate Tidy(m: Machine) {
    if m.state == On then
      m.host.recorded.Some? && m.host.live == {m.host.recorded.value}
    else
      m.host.live == {}
  }

  lemma ApplyIntendedTidy(m: Machine, props: Props, e: Event)
    requires Tidy(m)
    ensures Tidy(ApplyIntended(m, props, e))
  {
    if e.Act? {
      DispatchIntendedEffects(m, props, e.action);
      DispatchEffects(m, props, e.action);
    }
  }

  /** With the intended start, every event sequence keeps at most one
      interval live, exactly while the timer is on; so no tick is ever
      counted while the timer is off or paused. */
  lemma {:induction false} RunIntendedTidy(m: Machine, props: Props, events: seq<Event>)
    requires Tidy(m)
    ensures var r := RunIntended(m, props, events);
      && Tidy(r)
      && |r.host.live| <= 1
      && (|r.host.live| == 1 <==> r.state == On)
    decreases |events|
  {
    if |events| > 0 {
      ApplyIntendedTidy(m, props, events[0]);
      RunIntendedTidy(ApplyIntended(m, props, events[0]), props, events[1..]);
    } else {
      if m.state == On {
        assert |m.host.live| == |{m.host.recorded.value}| == 1;
      }
    }
  }

  /** The freshly mounted component meets both invariants, so every run from
      mount keeps the code's invariant, and with the corrected start never
      has more than one live interval. */
  lemma MountedRuns(props: Props, events: seq<Event>)
    ensures Consistent(Initial) && Tidy(Initial)
    ensures Consistent(Run(Initial, props, events))
    ensures |RunIntended(Initial, props, events).host.live| <= 1
  {
    RunConsistent(Initial, props, events);
    RunIntendedTidy(Initial, props, events);
  }

  /** The fix changes no state transition: both reducers agree on the
      state after every event sequence. */
  lemma {:induction false} IntendedKeepsStates(m: Machine, n: Machine, props: Props, events: seq<Event>)
    requires m.state == n.state
    ensures RunIntended(m, props, events).state == Run(n, props, events).state
    decreases |events|
  {
    if |events| > 0 {
      IntendedKeepsStates(ApplyIntended(m, props, events[0]), Apply(n, props, events[0]),
                          props, events[1..]);
    }
  }
}
