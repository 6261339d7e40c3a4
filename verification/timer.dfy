/** A small optional-value datatype, used for the nullable interval handle
    and for parsing a button label back into a state. */
module Optional {

  datatype Option<+T> = None | Some(value: T)
}

/** The two reducers of the Timer component, its toggle dispatcher and its
    button label, with every side effect of the state reducer returned as
    data instead of performed. */
module Timer {

  import opened Optional

  /** The timer's mode: "on" | "off" | "paused". */
  datatype TimerState = On | Off | Paused

  /** What the state reducer is dispatched with: "start" | "stop" | "pause". */
  datatype TimerAction = Start | Stop | Pause

  /** The three optional notification props. */
  datatype Hook = OnStart | OnStop | OnPause

  /** A side effect the state reducer performs while computing the next state. */
  datatype Effect =
    | ArmInterval          // arm a fresh periodic `increment` and record its handle
    | ClearRecorded        // cancel whatever handle is currently recorded
    | ResetCount           // dispatch 0 to the tick-count reducer
    | Notify(hook: Hook)   // call the hook through tryCall

  /** The reducer's answer: the next state and the effects, in program order. */
  datatype Transition = Transition(next: TimerState, effects: seq<Effect>)

  /** The transition table of the comment block above the reducer, written
      down on its own so that the reducer can be checked against it. */
  function Documented(s: TimerState, a: TimerAction): TimerState {
    match (s, a)
    case (Off, Start) => On
    case (Off, Stop) => Off
    case (Off, Pause) => Off
    case (On, Start) => On
    case (On, Stop) => Off
    case (On, Pause) => Paused
    case (Paused, Start) => On
    case (Paused, Stop) => Off
    case (Paused, Pause) => On
  }

  /** How often `e` occurs among `effects`. */
  function Occurrences(effects: seq<Effect>, e: Effect): nat {
    multiset(effects)[e]
  }

  /** The hooks that `effects` notify, in order. */
  function HooksOf(effects: seq<Effect>): seq<Hook> {
    if |effects| == 0 then []
    else
      (match effects[0]
       case Notify(h) => [h]
       case _ => []) + HooksOf(effects[1..])
  }

  // The reducer's three local helpers.

  function DoStart(): (r: Transition)
    ensures r.next == On
    ensures Occurrences(r.effects, ArmInterval) == 1
    ensures Occurrences(r.effects, ClearRecorded) == 0
    ensures Occurrences(r.effects, ResetCount) == 0
    ensures HooksOf(r.effects) == [OnStart]
  {
    var effects := [ArmInterval, Notify(OnStart)];
    assert HooksOf(effects[1..]) == [OnStart] by {
      assert effects[1..][1..] == [];
    }
    Transition(On, effects)
  }

  function DoStop(): (r: Transition)
    ensures r.next == Off
    ensures Occurrences(r.effects, ClearRecorded) == 1
    ensures Occurrences(r.effects, ResetCount) == 1
    ensures Occurrences(r.effects, ArmInterval) == 0
    ensures HooksOf(r.effects) == [OnStop]
  {
    var effects := [ClearRecorded, ResetCount, Notify(OnStop)];
    assert HooksOf(effects[1..]) == [OnStop] by {
      assert effects[1..][1..] == [Notify(OnStop)];
      assert effects[1..][1..][1..] == [];
      assert HooksOf(effects[1..][1..]) == [OnStop];
    }
    Transition(Off, effects)
  }

  function DoPause(): (r: Transition)
    ensures r.next == Paused
    ensures Occurrences(r.effects, ClearRecorded) == 1
    ensures Occurrences(r.effects, ArmInterval) == 0
    ensures Occurrences(r.effects, ResetCount) == 0
    ensures HooksOf(r.effects) == [OnPause]
  {
    var effects := [ClearRecorded, Notify(OnPause)];
    assert HooksOf(effects[1..]) == [OnPause] by {
      assert effects[1..][1..] == [];
    }
    Transition(Paused, effects)
  }

  /** The state reducer: total over every state and action. */
  function Step(s: TimerState, a: TimerAction): (r: Transition)
    ensures r.next == Documented(s, a)
    // stop, from anywhere: one cancel, one reset, one onStop, nothing armed
    ensures a == Stop ==>
      && Occurrences(r.effects, ClearRecorded) == 1
      && Occurrences(r.effects, ResetCount) == 1
      && Occurrences(r.effects, ArmInterval) == 0
      && HooksOf(r.effects) == [OnStop]
    // start, from anywhere, and pause while paused: one fresh interval and
    // one onStart, but the previously recorded interval is left running
    ensures (a == Start || (a == Pause && s == Paused)) ==>
      && Occurrences(r.effects, ArmInterval) == 1
      && Occurrences(r.effects, ClearRecorded) == 0
      && Occurrences(r.effects, ResetCount) == 0
      && HooksOf(r.effects) == [OnStart]
    // pause while on: one cancel and one onPause, the count is kept
    ensures a == Pause && s == On ==>
      && Occurrences(r.effects, ClearRecorded) == 1
      && Occurrences(r.effects, ArmInterval) == 0
      && Occurrences(r.effects, ResetCount) == 0
      && HooksOf(r.effects) == [OnPause]
    // pause while off: nothing at all
    ensures a == Pause && s == Off ==> r.effects == []
  {
    if a == Stop then DoStop()
    else if a == Start then DoStart()
    else if a == Pause && s == Paused then DoStart()
    else if a == Pause && s == On then DoPause()
    else Transition(s, [])
  }

  /** The toggle button: pause while on, start otherwise. */
  function Toggle(s: TimerState): (a: TimerAction)
    ensures a == Pause <==> s == On
    ensures a == Start <==> s != On
    ensures Step(s, a).next == if s == On then Paused else On
  {
    if s == On then Pause else Start
  }

  /** The label shown on the toggle button. */
  function ButtonText(s: TimerState): (text: string)
    ensures text == "Start" || text == "Pause" || text == "Resume"
    ensures StateOfLabel(text) == Some(s)
  {
    match s
    case On => "Pause"
    case Off => "Start"
    case Paused => "Resume"
  }

  /** Which state shows the label `text`, if any: the inverse of ButtonText. */
  function StateOfLabel(text: string): Option<TimerState> {
    if text == "Pause" then Some(On)
    else if text == "Start" then Some(Off)
    else if text == "Resume" then Some(Paused)
    else None
  }

  /** A label names a state exactly when ButtonText shows it for that state. */
  lemma LabelRoundTrip(text: string, s: TimerState)
    ensures StateOfLabel(text) == Some(s) <==> ButtonText(s) == text
  {
  }

  /** ButtonText tells every state apart. */
  lemma ButtonTextInjective(s: TimerState, t: TimerState)
    ensures ButtonText(s) == ButtonText(t) <==> s == t
  {
    assert StateOfLabel(ButtonText(s)) == Some(s);
    assert StateOfLabel(ButtonText(t)) == Some(t);
  }

  /** What the tick-count reducer is dispatched with: "increment" or a number. */
  datatype CountAction = Increment | SetTo(value: int)

  /** The tick-count reducer. */
  function CountStep(prev: int, a: CountAction): (r: int)
    ensures a.Increment? ==> r == prev + 1
    ensures a.SetTo? ==> r == a.value
  {
    if a == Increment then prev + 1 else a.value
  }

  /** The count after `k` interval firings starting from `prev`. */
  function Increments(prev: int, k: nat): int {
    if k == 0 then prev else CountStep(Increments(prev, k - 1), Increment)
  }

  /** k firings of `increment` add exactly k to the count. */
  lemma {:induction false} IncrementsAdd(prev: int, k: nat)
    ensures Increments(prev, k) == prev + k
  {
    if k > 0 {
      IncrementsAdd(prev, k - 1);
    }
  }

  /** A numeric dispatch forgets the count it overwrites, whatever came before. */
  lemma {:induction false} SetToOverrides(prev: int, k: nat, v: int)
    ensures CountStep(Increments(prev, k), SetTo(v)) == v
    ensures Increments(CountStep(prev, SetTo(v)), k) == v + k
  {
    IncrementsAdd(v, k);
  }
}
