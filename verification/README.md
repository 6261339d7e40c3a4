# vertimer core in Dafny

A model of the logic in `script.tsx` of vertimer, a small Preact stopwatch
with a list of removable "slots".

- **Timer** (`timer.dfy`). The timer's mode is `"on" | "off" | "paused"`.
  The state reducer handles the actions `"start" | "stop" | "pause"`. A
  second reducer keeps the tick count. The file also holds the toggle button's
  dispatcher and the button label. The state reducer is the pure function
  `Timer.Step`. It returns the next mode plus its side effects as data, in
  program order:
  - arm a fresh interval and record its handle;
  - clear the recorded handle;
  - reset the count to 0;
  - notify a hook through `tryCall`.

  `Timer.Documented` writes out the transition table from the comment above
  the reducer, and `Step` is proved to agree with it.
- **Intervals** (`intervals.dfy`). This is the host those effects act on:
  - the set of live interval handles;
  - the recorded `interval` state;
  - a counter for fresh handles;
  - the tick count;
  - the list of hooks called.

  `Dispatch` performs one reducer step. `Fire` is one firing of a live
  interval, which calls `increment`. `Run` folds a sequence of clicks and
  firings. `Consistent` is the invariant the code as written keeps: the
  recorded interval is live exactly while the timer is on. `Unrecorded`
  gives the live intervals nothing can cancel any more.
- **Slots** (`slots.dfy`). This covers `newSlot`, `addSlot`, `removeAtIndex`,
  `findIndex` and `removeSlot` on an immutable `seq<Slot>`. `JsArray.Slice`
  models `Array.prototype.slice`, including negative indices. That is what
  makes removing a missing id go wrong.

Facts of the code that the model keeps as they are:
- The comment table above the reducer (script.tsx:37-49) says that
  start while on stays on. The reducer does stay on, but `start` arms a
  second interval without clearing the recorded one (script.tsx:65-69).
  Only that single recorded `interval` is ever cleared, by `stop` and `pause`
  (script.tsx:72, 79), so the first interval keeps running.
- `stop` and `pause` never reset the recorded handle to null. Only `start`
  writes it.
- `clearInterval` on a handle that is null or already cleared does nothing.
- The displayed count goes up by one per interval firing, as the TODO at
  script.tsx:99 says.
- On a list of two or more slots, removing an id that is not there is not
  a no-op.

## Model

| member | source | states |
|---|---|---|
| `Timer.DoStart` | script.tsx:65-69 | the start helper goes to "on", arms exactly one interval, clears nothing, keeps the count and notifies only onStart |
| `Timer.DoStop` | script.tsx:71-76 | the stop helper goes to "off", clears the recorded interval once, resets the count once, arms nothing and notifies only onStop |
| `Timer.DoPause` | script.tsx:78-82 | the pause helper goes to "paused", clears the recorded interval once, arms nothing, keeps the count and notifies only onPause |
| `Timer.Step` | script.tsx:37-97 | the reducer's next state agrees with the documented transition table for all nine state/action pairs. Stop from anywhere gives one clear, one reset and one onStop. Start from anywhere, and pause while paused, give one new interval and one onStart, and clear nothing. Pause while on gives one clear and one onPause. Pause while off has no effects |
| `Timer.Toggle` | script.tsx:102-108 | toggle dispatches "pause" iff the state is "on" and "start" otherwise, so it ends in "paused" from "on" and in "on" from "off" or "paused" |
| `Timer.ButtonText` | script.tsx:111-119 | the label is one of "Start", "Pause", "Resume", and it parses back to the state that showed it |
| `Timer.LabelRoundTrip` | script.tsx:111-119 | a label parses to a state exactly when that state shows that label |
| `Timer.ButtonTextInjective` | script.tsx:111-119 | two states show the same label iff they are the same state |
| `Timer.CountStep` | script.tsx:52-61 | "increment" yields exactly the previous count plus one, and a numeric action yields that number |
| `Timer.IncrementsAdd` | script.tsx:52-61 | k firings of increment add exactly k to the count |
| `Timer.SetToOverrides` | script.tsx:52-61 | a numeric dispatch discards whatever count it overwrites, and later increments count up from it |
| `Intervals.TryCall` | script.tsx:25 | a provided hook is called exactly once, and a missing hook is skipped without error |
| `Intervals.DispatchEffects` | script.tsx:63-97 | stop gives "off", cancels the recorded interval, sets the count to 0, keeps the recorded handle and calls onStop if given. Start, and pause while paused, give "on": they add one fresh live interval and record it, cancel nothing, keep the count and call onStart if given. Pause while on gives "paused", cancels the recorded interval, keeps the count and calls onPause if given. Pause while off changes nothing |
| `Intervals.PerformStart` | script.tsx:65-69 | performing the start helper's effects adds one fresh handle to the live set and records it, keeps the count, and calls onStart if given |
| `Intervals.PerformStop` | script.tsx:71-76 | performing the stop helper's effects cancels the recorded interval, sets the count to 0, and calls onStop if given |
| `Intervals.PerformPause` | script.tsx:78-82 | performing the pause helper's effects cancels the recorded interval, keeps the count, and calls onPause if given |
| `Intervals.PerformAllConcat` | script.tsx:65-82 | performing one effect list and then another is the same as performing their concatenation, so the helpers' effects take place in program order |
| `Intervals.Fire` | script.tsx:66 | a live interval firing adds one to the count, and a cleared one changes nothing |
| `Intervals.ApplyConsistent` | script.tsx:63-100 | one click or firing keeps every live or recorded handle among those already handed out, keeps the recorded interval live exactly while on, and never shrinks the set of intervals nothing can cancel |
| `Intervals.RunConsistent` | script.tsx:63-100 | the same holds for every sequence of clicks and firings: once orphaned, an interval stays live for good |
| `Intervals.StartWhileOnOrphans` | script.tsx:65-69 | start while on adds a second live interval and turns the previously recorded one into an orphan |
| `Intervals.DoubleStartLeaks` | script.tsx:65-76 | after start, start, stop the timer is off, but interval 0 is still live and its next firing raises the count to 1 |
| `Intervals.StepIntended` | script.tsx:63-97 | the corrected reducer keeps the documented transition table and differs from the original only by clearing the recorded interval before a transition into "on" |
| `Intervals.DispatchIntendedEffects` | script.tsx:63-97 | a corrected transition into "on" leaves exactly the fresh interval live besides those already unrecorded, and every other corrected transition matches the original |
| `Intervals.ApplyIntendedTidy` | script.tsx:63-100 | with the corrected start, one click or firing keeps the rule "one live interval, the recorded one, while on; none otherwise" |
| `Intervals.RunIntendedTidy` | script.tsx:63-100 | with the corrected start, every sequence of clicks and firings keeps at most one live interval, and it is live exactly while the timer is on |
| `Intervals.MountedRuns` | script.tsx:60-97 | the freshly mounted component (off, count 0, no interval) meets both invariants. So every run from mount keeps the recorded interval live exactly while on, and with the corrected start never has more than one live interval |
| `Intervals.IntendedKeepsStates` | script.tsx:63-97 | the correction changes no state: for every event sequence both reducers end in the same mode |
| `JsArray.Clamp` | script.tsx:21-22 | a slice index within the array is used as is, and a negative one counts back from the end. An index past the end becomes the length, and one before minus the length becomes 0 |
| `JsArray.Slice` | script.tsx:21-22 | an in-range slice is the subsequence between its bounds. A negative start with no end is the matching suffix. A negative end from 0 is the matching prefix. An end past the length gives the suffix from an in-range start. The result is empty whenever the clamped start is at or past the clamped end |
| `Slots.NewSlot` | script.tsx:12-16 | a new slot carries the given id with time 0 and relative true |
| `Slots.FindIndex` | script.tsx:143 | the result is -1 iff no slot carries the id. Otherwise it is the position of the first slot carrying it |
| `Slots.RemoveAtIndex` | script.tsx:20-23 | for an index inside the array, the result is one shorter. Elements before the index are unchanged, element k from the index on is the original's k+1, and exactly one copy of the removed element leaves the multiset |
| `Slots.RemoveAtAnyIndex` | script.tsx:20-23 | for any integer index, the concatenated slices remove the element at the index when it is in range, and at length+index for indices -length to -2. Index -1 gives all-but-last followed by the whole array. An index past the end, or below minus the length, leaves the array unchanged |
| `Slots.AddSlot` | script.tsx:138 | appending keeps the old list as the prefix and adds exactly one slot at the end, with the given id, time 0 and relative true |
| `Slots.RemoveSlotAsWritten` | script.tsx:139-145 | the index is found in the reducer's list and removed from the last render's slots. A found index inside the slots removes that position. A missing id gives all-but-last of the slots followed by all of them |
| `Slots.StaleRemoveSameSlot` | script.tsx:139-145 | with slots 1 and 2, a first Remove of slot 1 leaves [2]. A second click before a re-render gives ids 1, 1, 2 |
| `Slots.StaleRemoveOtherSlot` | script.tsx:139-145 | with slots x, y, z, after x was removed, removing z before a re-render removes y and gives [x, z] |
| `Slots.RemoveSlot` | script.tsx:139-145 | with the render up to date (slots and list the same), when the id is present, the first slot carrying it is removed and the rest keep their order. When it is absent, the result is all-but-last followed by the whole list |
| `Slots.RemoveMissingDuplicates` | script.tsx:139-145 | removing an absent id from a list of two or more slots yields 2n-1 slots with a repeated id |
| `Slots.RemoveMissingExample` | script.tsx:139-145 | removing id 3 from slots with ids 1 and 2 yields slots with ids 1, 1, 2 |
| `Slots.RemoveSlotIntended` | script.tsx:139-145 | the corrected removal agrees with the original when the id is present and leaves the list unchanged when it is absent |
| `Slots.AddThenRemove` | script.tsx:138-145 | adding a slot with a fresh id and then removing that id gives back the original list, with either removal |
| `Slots.AddSlotUnique` | script.tsx:138 | appending a slot whose id is fresh keeps ids unique |
| `Slots.RemoveSlotIntendedIdempotent` | script.tsx:139-145 | on a list with unique ids, removing the same id twice with the corrected removal is the same as removing it once |
| `Slots.RemoveSlotIntendedUnique` | script.tsx:139-145 | on a list with unique ids, the corrected removal keeps ids unique and leaves no slot with the removed id |

## Findings

| source | as written | input that shows it | evidently intended | confidence | as-written member | corrected member |
|---|---|---|---|---|---|---|
| script.tsx:65-69 | `start` records a new interval handle without clearing the recorded one, including when the timer is already on | start, start, stop: interval 0 stays live and keeps incrementing the count while the timer shows off | at most one live interval, which is live exactly while on | medium; not executed. From the UI, start-while-on needs two toggle clicks before a re-render | `Intervals.DoubleStartLeaks` | `Intervals.RunIntendedTidy` |
| script.tsx:139-145 | the index is found in the reducer's `list` but removed from the closed-over `slots`. A -1 from `findIndex` goes straight into `removeAtIndex`, where `slice(0, -1)` and `slice(0)` concatenate | slots with ids 1 and 2, and Remove on slot 1 clicked twice before a re-render: the result has ids 1, 1, 2 | the removal works on the reducer's list, and a missing id is a no-op | medium; not executed. It needs two Remove clicks before a re-render | `Slots.StaleRemoveSameSlot` | `Slots.RemoveSlotIntended` |

## Left out

- Rendering (the JSX at script.tsx:121-129 and 147-163), `render(<App />, document.body)`, and Preact's hook plumbing are not modelled. Each reducer is a pure function, and its effects are data.
- Stale closures in the timer are left out. The reducer's `interval` (script.tsx:72, 79) comes from the last render. The model assumes a render between two dispatches, so every dispatch sees the state left by the previous one.
- Slots.RemoveSlot is the case where the last render is up to date, so `slots` (script.tsx:142) is the reducer's `list`. `Slots.RemoveSlotAsWritten` models the two lists separately.
- Intervals.TryCall assumes that a hook returns normally. In the source a throwing hook aborts the reducer after its earlier effects have run. A throwing `onStart` (script.tsx:66-67) leaves the state as it was, with a new interval already armed and recorded. That breaks `Intervals.Consistent`, and the next start orphans that interval. `Intervals.RunConsistent` holds only for hooks that return.
- Real timing and `props.rate` (script.tsx:66) are not modelled. An interval is an abstract handle. When it fires is chosen by the caller as a `Tick` event.
- `gid` (script.tsx:10) draws a random id, and randomness is out of scope. The id is an argument of `Slots.NewSlot` and `Slots.AddSlot`. Id uniqueness is a precondition of `Slots.AddSlotUnique`, not a guarantee, because the source gives no guarantee beyond the width of the random range.
- JavaScript numbers are doubles. Slot ids are limited to gid's range, 0 to 10^8 (script.tsx:10), so they are exact as doubles. The tick count and slot times are unbounded integers, so precision loss beyond 2^53 is not modelled for them.
- Handles are numbered from 0 upward. A real host's numbering is not modelled. The model assumes the host never hands out the same handle twice, cleared handles included.
