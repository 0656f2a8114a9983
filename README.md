# Artefact Web Extensions (Awe) core, modelled in Dafny

This project models the core of the Awe browser helper library and proves
properties about it:

- **Drag engine** (`drag_engine.dfy`, module `DragEngine`). `Awe.enableDrag`
  is a `DragSession` class. It holds the `touch` record, the shared animation
  state, the momentum filters' memory, the dragged element's style, flags for
  the event listeners and the update interval, and a trace of every call the
  engine makes into filters, the updater and the configured callbacks.
  - dragStart, dragMove, dragEnd, the per-frame dragUpdate and disableDrag are
    methods specified against pure functions of the old state.
  - A JavaScript exception is an `ok == false` result. The state is left as
    it was at the throw.
- **Drag filters and updaters** (`drag_filters.dfy`, `drag_updaters.dfy`,
  `points.dfy`). These are pure:
  - the filter chain `pos = filter.move(el, pos) || pos`;
  - DragFilterLimitAxes, NullFilter and DragFilterMomentum (its velocity
    memory and its decaying animation);
  - the short-circuiting animation tick;
  - which filters get `start` and `end`;
  - DragUpdaterTopLeft, NullUpdater, HorizontalDragUpdater and
    VerticalDragUpdater;
  - DragAnchorTopLeft;
  - the drag-event snapshot that processDrag builds.
- **State machine** (`state_machine.dfy`, module `StateMachines`).
  `Awe.StateMachine` is a class with its state map, guarded `requestState`,
  `requestTransitionState` with its one-shot completion callback, and
  `update`. `StateMachine.stateMachines` and `StateMachine.update` form a
  `Registry` class.
- **Session cache** (`cache.dfy`, module `SessionCache`). The TTL cache over
  sessionStorage is a `Cache` class. Its storage is a map from key to the
  parsed stored item. It has an identity namespace.
- **Popup stack** (`popups.dfy`, module `Popups`). `_popupStack` is a
  `PopupStack` class with a visibility map and a trace of dismiss callbacks.
- **Helpers** (`awe_core.dfy`, module `AweCore`). These are `clamp`, `sign`,
  `getQueryParam`, the fallback `forEach`, the GUID counter, and the
  `#rrggbb` branch of `Color` with `toHex`, `toRGBA` and `toRGB`. `awe.js`
  holds an earlier revision of `clamp`, `getQueryParam`, `forEach`
  (awe.js:64-71) and the GUID counter with the same logic. The one module
  stands for both, and rows below cite either file.

How the outside world is modelled:

- Time is a parameter `t`: `Date.now()`, in milliseconds.
- Layout reads are parameters: `relX`/`relY`, and `xLeft`/`xTop` for the
  anchor.
- The pointer's client position is a parameter.
- Numbers are mathematical reals and integers.

## Where the code differs from its comments

The model follows the code. Where the code does something other than its
comments or the library's documentation describe, the contracts state what
the code does.

### State machine

- **`allowOnly` denies only its first entry.** `!currentState.allowOnly.indexOf(id)`
  is true only when `indexOf` returns 0. So an `allowOnly` list refuses
  exactly its first entry and lets every other id through. An empty list
  refuses nothing. The comment at awe-state-machine.js:36-40 says an empty
  list makes a state uninterruptible.
- **`doNotAllow` admits only its first entry.** `doNotAllow.indexOf(id)` is
  truthy for every id except the list's first entry, so `doNotAllow` lets
  only its first entry through. (`AllowOnlyDeniesFirst`,
  `DoNotAllowAdmitsFirst`, `DecideCases`.)
- **A state's `start` always receives an undefined previous id.** The machine
  never sets `_i.currentState`, so the argument is undefined (`Hook.Start`
  carries no previous id).

### Drag engine

- **`updater.start` and `updater.end` are called unguarded.** dragStart calls
  `updater.start`, and dragEnd calls `updater.end` when no filter animates,
  without checking that an updater was configured. With no updater, both
  throw, which the model reports as `ok == false`.
- **Filter `start` results are discarded.** dragStart collects them into
  `pos` and then redeclares `pos` from `applyFilters(touch.now)`.
- **The animation tick short-circuits.** Its `||` stops calling `animate` on
  later filters once one reports that it is still running
  (`AnimateFromCalls`).
- **`disableDrag` does not stop a running momentum animation.** It runs
  `dragEnd(null, true)`, which leaves the interval active when a filter
  animates.

### Session cache

- **Namespaces overlap.** Identity names and keys are concatenated with no
  escaping. So the anonymous key `a_x` and the key `x` under identity `a`
  share one storage key, and clearing identity `a` removes both
  (`NamespacesOverlap`).
- **`cacheSet` returns the stored string, not an object.** Its comment says
  it "returns cached object for key, or null". The code returns the value it
  stored, or undefined while the cache is disabled.

### Popups

- **`hidePopup` throws after emptying the stack.** For an element not on the
  stack, it dismisses every popup and then throws. Its comment mentions only
  the dismissal.

## Model

| member | source | states |
|---|---|---|
| `AweCore.Max` | awe-drag.js:84 | Math.max: the result is at least both arguments and is one of them |
| `AweCore.Clamp` | awe-core.js:41-43 | with lo <= hi the result lies in [lo, hi]; a value already inside is returned unchanged; with hi < lo the result is hi; the result is always one of n, lo, hi |
| `AweCore.ClampMonotone` | awe.js:36-38 | clamping preserves the order of its inputs |
| `AweCore.Sign` | awe-core.js:46-48 | -1 exactly for negative numbers, 1 exactly for the others (zero included) |
| `AweCore.FindMatch` | awe-core.js:61-63 | the regular-expression search finds the leftmost `?name=` / `&name=`, or reports that none exists |
| `AweCore.ValueRun` | awe-core.js:61-66 | the captured group is the longest prefix holding neither '&' nor '#' |
| `AweCore.GetQueryParam` | awe-core.js:58-67 | "" when the url (or the page address for an empty url) has no match; otherwise the maximal value run after the leftmost match |
| `AweCore.ValueRunUnique` | awe.js:51-56 | exactly one string is the maximal value run, so the lookup's result is determined |
| `AweCore.QueryParamFromUrl` | awe.js:48-57 | the value is a piece of the url just after `?name=` (or "" without a match) and holds no '&' or '#' |
| `AweCore.ForEach` | awe-core.js:74-81 | the callback sees (array[i], i) for every index, once each, in increasing order |
| `AweCore.DecimalString` | awe-core.js:480-482 | the number's text is a non-empty string of digits that denotes the number, with no leading zero |
| `AweCore.DecimalStringInjective` | awe-core.js:479-482 | distinct counter values have distinct decimal texts |
| `AweCore.GuidString` | awe-core.js:481 | every GUID string starts with "_guid_" |
| `AweCore.GuidStringInjective` | awe.js:146-151 | distinct counter values give distinct GUID strings, so getGuid's strings are unique in the session |
| `AweCore.GuidCounter.constructor` | awe-core.js:477 | the shared counter starts at 0 with nothing issued |
| `AweCore.GuidCounter.GetGuid` | awe-core.js:480-482 | pre-increments the shared counter and returns "_guid_" + counter; the new value exceeds every earlier one |
| `AweCore.GuidCounter.GetGuidNumeric` | awe-core.js:484-487 | pre-increments the same counter and returns it: positive, and greater than every earlier value |
| `AweCore.HexValue` | awe-core.js:490-507 | defined exactly on 0-9, a-f, A-F, with values below 16; a lower-case letter reads as its upper-case form |
| `AweCore.ChannelAt` | awe-core.js:531-533 | a component is NaN exactly when its low digit is undefined; otherwise 16*hi + lo, at most 255, and just the low digit when the high one is undefined (it shifts as 0) |
| `AweCore.HexColorRoundTrip` | awe-core.js:529-534 | parsing a "#rrggbb" string built from three bytes gives those bytes back |
| `AweCore.ChannelCaseInsensitive` | awe-core.js:500-505 | upper-casing the hex letters of a colour string changes no component |
| `AweCore.WellFormedHexColor` | awe-core.js:530-534 | with six hex digits after '#', all three components are numbers, e.g. r = 16*hex(c1) + hex(c2) |
| `AweCore.Color.constructor` | awe-core.js:529-535 | the '#' branch keeps the string as hex, reads r, g, b from digit pairs 1-2, 3-4, 5-6, and sets alpha to 1 |
| `AweCore.Color.ToHex` | awe-core.js:514-516 | toHex returns the specification string the colour was built from |
| `AweCore.Color.ToRGBA` | awe-core.js:518-523 | a missing alpha is replaced by the stored one; the text is "rgba(r,g,b,alpha)" |
| `AweCore.Color.ToRGB` | awe-core.js:525-527 | toRGB emits "rgba(" followed by only the three components |
| `Points.Sub` | awe-drag.js:99-106 | the delta is the displacement that, added to the previous position, gives the new one |
| `Points.DistSq` | awe-drag.js:84 | squared distance is non-negative and zero from a point to itself |
| `Points.Snapshot` | awe-drag.js:89-115 | deltas are relative to the previous snapshot (zero for the first); velocity times elapsed drag time equals the delta when time elapsed, and is zero otherwise |
| `Points.Resnapshot` | awe-drag.js:135-143 | updateDrag keeps positions, velocity and maximum distance, zeroes the deltas and takes the new drag time |
| `DragFilters.LimitAxesMove` | awe-drag.js:355-359 | with non-empty intervals the result is in bounds; an in-bounds position is unchanged; an empty interval clamps to its max |
| `DragFilters.Move` | awe-drag-helpers.js:13-18 | every built-in filter returns a position; NullFilter and momentum return their input |
| `DragFilters.Step` | awe-drag.js:249 | a falsy filter result keeps the previous position, otherwise the filter's result is used |
| `DragFilters.ChainAppend` | awe-drag.js:247-252 | folding through fs + gs is folding through fs, then gs |
| `DragFilters.ChainCons` | awe-drag.js:248-250 | the first filter of the array sees the raw position first |
| `DragFilters.NullChainIdentity` | awe-drag-helpers.js:15-17 | a chain of NullFilters leaves every position unchanged |
| `DragFilters.ChainWithinBounds` | awe-drag.js:352-359 | a limit-axes filter followed only by pass-through filters keeps the chain's output in its bounds |
| `DragFilters.MomentumStart` | awe-drag.js:378-381 | start forgets the last position and zeroes the velocity |
| `DragFilters.MomentumMove` | awe-drag.js:383-394 | move records position and time; with a previous position, velocity times elapsed seconds equals the displacement |
| `DragFilters.MomentumAnimate` | awe-drag.js:398-414 | velocity decays by 0.8; the filter is done exactly when the tick's squared displacement is at most 1; otherwise the position moves by that displacement |
| `DragFilters.MomentumTerminates` | awe-drag.js:400-413 | with bounded tick lengths, momentum reports done within a number of ticks bounded by the initial speed |
| `DragFilters.TickDisplacement` | awe-drag.js:400-406 | one tick's squared displacement is bounded by 0.64 of speed squared times the squared tick length; the squared speed decays by 0.64 |
| `DragFilters.AnimatingIndices` | awe-drag.js:168-169 | exactly the filters whose `animates` is truthy take part in the tick |
| `DragFilters.AnimateFrom` | awe-drag.js:167-172 | once the accumulated value is "running", no further filter is asked and the state is untouched |
| `DragFilters.AnimateFromCalls` | awe-drag.js:170 | the filters asked are a prefix of the animating ones; the tick runs exactly when the last filter asked is not done; when none runs, all were asked |
| `DragFilters.EndIndicesSelected` | awe-drag.js:227-231 | `end` is called on exactly the selected filters that define it, in array order, once each |
| `DragFilters.EndPhasesPartition` | awe-drag.js:146-153 | ending non-animating filters at release and animating ones at animation end calls every filter's `end` exactly once |
| `DragFilters.StartIndicesSelected` | awe-drag.js:276-280 | `start` is called on exactly the filters that define it, in array order |
| `DragFilters.HasAnimatingFilter` | awe-drag.js:28-36 | true exactly when some filter animates |
| `DragUpdaters.MoveStyle` | awe-drag.js:420-425 | TopLeft writes the position to left/top; Horizontal/Vertical write relX/relY plus the delta on one axis; NullUpdater writes nothing |
| `DragUpdaters.HorizontalKeepsOffset` | awe-drag-helpers.js:20-25 | the horizontal updater keeps the element at a fixed offset from the drag position |
| `DragUpdaters.VerticalKeepsOffset` | awe-drag-helpers.js:27-32 | the vertical updater keeps the element at a fixed offset from the drag position |
| `DragUpdaters.AnchorOffset` | awe-drag.js:346-349 | the anchor offset added to the pointer lands on the anchor element's top-left corner |
| `DragEngine.RestartAnimation` | awe-drag.js:67-72 | while dragging, the clock's last tick is the event time in seconds and the animation restarts at zero with the event's velocity and position |
| `DragEngine.ClockTick` | awe-drag.js:73-78 | after release, deltaTime is the time since the last tick and animationTime accumulates it |
| `DragEngine.ClockTickTwice` | awe-drag.js:165-176 | a second update in the same tick sees no elapsed time; animationTime totals the time since the clock restarted |
| `DragEngine.DragSession.constructor` | awe-drag.js:18-39 | keeps the configuration (filters, updater, callbacks, custom filter behaviour); only the dragStart listener is attached; the session is idle; hasAnimatingFilter is true exactly when some filter animates |
| `DragEngine.DragSession.UpdateDrag` | awe-drag.js:134-144 | null exactly when there is no last snapshot; otherwise that snapshot with zero deltas and the current drag time |
| `DragEngine.DragSession.UpdateAnimationState` | awe-drag.js:65-80 | only sessions with an animating filter keep a clock: restart while dragging, tick after release |
| `DragEngine.DragSession.ProcessDrag` | awe-drag.js:82-132 | the running maximum distance rises to cover the current one (reset without a pointer); the snapshot is taken against the previous one and kept; the clock updates |
| `DragEngine.DragSession.EndFilters` | awe-drag.js:227-231 | appends the `end` calls of exactly the selected filters, in order |
| `DragEngine.DragSession.StartFilters` | awe-drag.js:276-280 | appends the `start` calls in order; each momentum filter is reset |
| `DragEngine.DragSession.ApplyFilters` | awe-drag.js:247-252 | returns the chain's fold of the position; each momentum filter records the position it was handed |
| `DragEngine.DragSession.EndAnimation` | awe-drag.js:146-161 | with an active interval, ends the animating filters and the updater, then clears the interval; otherwise does nothing |
| `DragEngine.DragSession.FirstDrag` | awe-drag.js:271-284 | the first snapshot starts at the (anchored) start point, with zero delta, velocity, time and distance |
| `DragEngine.DragSession.ResetTouch` | awe-drag.js:260-273 | the touch record restarts at the pointer shifted by the anchor offset |
| `DragEngine.DragSession.FirstSnapshot` | awe-drag.js:275-284 | filters are started, the start point is folded through the chain, and the first snapshot is taken |
| `DragEngine.DragSession.Begin` | awe-drag.js:254-284 | a running animation is torn down first, then the new session starts as above |
| `DragEngine.DragSession.DragStart` | awe-drag.js:254-300 | succeeds exactly when an updater is configured; the trace is teardown, filter starts, updater start, onDragStart; listeners and interval attach on success |
| `DragEngine.DragSession.Track` | awe-drag.js:207-209 | the new pointer is filtered and snapshotted; the maximum distance covers it |
| `DragEngine.DragSession.MoveElement` | awe-drag.js:210-212 | the updater moves the element only when it defines `move` |
| `DragEngine.DragSession.DragMove` | awe-drag.js:205-216 | the maximum distance never decreases; the snapshot is handed to the updater, then to onDragMove |
| `DragEngine.DragSession.Release` | awe-drag.js:219-234 | stops dragging and unsubscribes; ends the selected filters; ends the updater when nothing animates, throwing without one |
| `DragEngine.DragSession.ReportEnd` | awe-drag.js:237-240 | onDragEnd gets a snapshot at the release point only when configured and an event exists |
| `DragEngine.DragSession.DragEnd` | awe-drag.js:218-245 | a no-op unless dragging; otherwise the release sequence; the interval survives only when a filter animates |
| `DragEngine.DragSession.DisableDrag` | awe-drag.js:336-341 | removes the start listener and ends any drag immediately (every filter's end); the hook is cleared unless dragEnd threw; the maximum distance, style and snapshot are kept |
| `DragEngine.DragSession.DragUpdateDragging` | awe-drag.js:186-195 | reports the elapsed-time snapshot to onDragUpdate; changes nothing else |
| `DragEngine.DragSession.AnimateFilters` | awe-drag.js:167-172 | the tick's running flag, animation state and animate calls are exactly those of the short-circuit fold |
| `DragEngine.DragSession.DragUpdateAnimating` | awe-drag.js:165-184 | while a filter runs, the animated position is snapshotted and handed to the updater; when none runs, the animation ends |
| `DragEngine.DragSession.AnimatedMove` | awe-drag.js:174-177 | snapshots the animated position and calls `updater.move` unguarded (throwing without it) |
| `DragEngine.DragSession.DragUpdate` | awe-drag.js:197-203 | while dragging, only onDragUpdate is called; after release, one animation tick with the effects of dragUpdateAnimating; the maximum distance never changes |
| `StateMachines.Key` | awe-state-machine.js:65 | a string id is looked up under itself |
| `StateMachines.IndexOf` | awe-state-machine.js:74-77 | the first index of the id in the list, or -1 exactly when absent (always for null) |
| `StateMachines.AllowOnlyDeniesFirst` | awe-state-machine.js:74-76 | `!allowOnly.indexOf(id)` holds exactly for the list's first entry |
| `StateMachines.DoNotAllowAdmitsFirst` | awe-state-machine.js:77-79 | `doNotAllow.indexOf(id)` is truthy for every id except the list's first entry |
| `StateMachines.DecideCases` | awe-state-machine.js:63-80 | a request is refused as unknown exactly for a truthy id naming no state, and denied exactly when a live current state's guards deny it |
| `StateMachines.DoneBypassesGuards` | awe-state-machine.js:105-110 | while the completion callback runs, no guard denies a request |
| `StateMachines.Entered` | awe-state-machine.js:86-88 | entering a state restarts its start time and zeroes its runTime, keeping its guards and hooks |
| `StateMachines.RunTime` | awe-state-machine.js:101 | runTime is the seconds since the state was entered; NaN if never entered |
| `StateMachines.StateMachine.constructor` | awe-state-machine.js:16-119 | registers the machine once (the list stays free of duplicates), then enters a truthy known initial state |
| `StateMachines.StateMachine.AddState` | awe-state-machine.js:25-30 | adds a new id; refuses (throws on) a duplicate, leaving the map unchanged |
| `StateMachines.StateMachine.RequestState` | awe-state-machine.js:63-97 | accepted exactly when the verdict is Accepted; then the old state's end, the new state's start, and the switch; otherwise nothing changes |
| `StateMachines.StateMachine.RequestTransitionState` | awe-state-machine.js:41-59 | throws without a trailing callback; stores it on acceptance, clears it on refusal, and throws when the new state has no update |
| `StateMachines.StateMachine.Update` | awe-state-machine.js:99-113 | recomputes runTime (throwing without a current state), calls update, and on completion clears and runs the callback once, whose request bypasses the guards |
| `StateMachines.Registry.constructor` | awe-state-machine.js:122 | the machine list starts empty |
| `StateMachines.Registry.UpdateAll` | awe-state-machine.js:123-127 | updates every machine in registration order, each with the full effect of its own update; it succeeds exactly when every machine's current id names a state; an exception stops at the failing machine and leaves the later ones untouched |
| `SessionCache.KeyForInjective` | awe-cache.js:33-35 | within one identity, distinct keys have distinct storage keys |
| `SessionCache.IdentityKeysArePrefixed` | awe-cache.js:71-81 | the storage keys clearing selects are exactly the identity's cache keys |
| `SessionCache.NamespacesOverlap` | awe-cache.js:58 | an anonymous key and an identity key can share one storage key |
| `SessionCache.EffectiveTtl` | awe-cache.js:134 | a missing or zero ttl means one hour; any other ttl is kept |
| `SessionCache.CreateCO` | awe-cache.js:23-31 | fails exactly for non-strings; otherwise a "string" record expiring ttl after now, with the time stamp or 0 |
| `SessionCache.SetThenGet` | awe-cache.js:132-138 | a value set is read back until its ttl runs out, and is evicted afterwards |
| `SessionCache.SetKeepsOtherKeys` | awe-cache.js:135 | setting one key leaves every other key's read unchanged |
| `SessionCache.Unprefixed` | awe-cache.js:83-85 | clearing keeps exactly the keys outside the prefix, with their items |
| `SessionCache.Cache.constructor` | awe-cache.js:9-16 | the cache starts with no identity over the given storage |
| `SessionCache.Cache.SetIdentity` | awe-cache.js:56-61 | throws unless name and key are both non-empty; otherwise the namespace becomes name + "_" |
| `SessionCache.Cache.ClearIdentity` | awe-cache.js:68-88 | with an identity, removes exactly the keys under its prefix and forgets it; without one, does nothing |
| `SessionCache.Cache.Get` | awe-cache.js:95-107 | null while disabled; a live record's value; otherwise null with the key evicted; unparsable items throw |
| `SessionCache.Cache.GetTimeStamp` | awe-cache.js:114-124 | like Get, returning the record's time stamp |
| `SessionCache.Cache.Set` | awe-cache.js:132-138 | writes the record and returns the value; throws on non-strings; does nothing while disabled |
| `SessionCache.Cache.Invalidate` | awe-cache.js:145-148 | removes exactly this key's item unless disabled |
| `Popups.GetTop` | awe-ui.js:31-33 | null exactly for an empty stack, otherwise the last entry |
| `Popups.TopmostIndex` | awe-ui.js:106-113 | the topmost entry for the element, with none above it, or none at all |
| `Popups.DismissOrderAppend` | awe-ui.js:77-82 | popping runs the upper entries' callbacks before the lower ones' |
| `Popups.DismissOrderContents` | awe-ui.js:108-113 | exactly the popped entries with a callback are dismissed |
| `Popups.HideAllEffect` | awe-ui.js:78 | popped elements become hidden; every other element keeps its visibility |
| `Popups.KeptBelow` | awe-ui.js:76-82 | showPopup keeps the stack up to the topmost parent entry, or nothing without one |
| `Popups.PopupStack.constructor` | awe-ui.js:10 | the stack starts empty |
| `Popups.PopupStack.PopUntil` | awe-ui.js:106-113 | pops, hides and dismisses from the top until the target is on top or the stack is empty |
| `Popups.PopupStack.ShowPopup` | awe-ui.js:70-93 | keeps the prefix up to the parent, dismisses the rest in pop order, then pushes the visible new entry on top |
| `Popups.PopupStack.HidePopup` | awe-ui.js:102-122 | pops the entries down to and including the element, dismissing each; with the element absent, empties the stack and throws |

## Left out

- Event plumbing in the drag engine is not modelled; the raw client position
  is a parameter. This covers:
  - reading the pointer position from the event (`getClientPos`, touch versus
    mouse);
  - `Awe.cancelEvent` and `cancelEvents`;
  - the choice of listener target (`listenToDocument`);
  - `dragUpdateInterval` and the timing of `setInterval`.
- Converting a single filter object into an array is not modelled: the
  session takes a sequence of filters.
- What a custom filter or updater does is not modelled:
  - custom `move` and `animate` are arbitrary functions of the filter's id;
  - a custom updater's effect on the element is not tracked.
- The anchor element choice in `DragAnchorTopLeft` (`anchorEl || el`) is not
  modelled; `xLeft`/`xTop` of the chosen element is a parameter.
- `DragFilters.MomentumMove`: requires that time advanced since the filter's
  last move. The source divides by the elapsed time and yields
  Infinity or NaN velocities for two moves in the same millisecond, which
  reals cannot represent.
- `DragEngine.DragSession.DragMove`: requires `ClockAdvances`, for the
  momentum filters' division by the elapsed time.
- `DragEngine.DragSession.Track`: requires `ClockAdvances`, for the same
  reason.
- `DragEngine.DragSession.ApplyFilters`: requires `ClockAdvances`, for the
  same reason.
- The animation state's velocity and position are values. In the source,
  while dragging they are the very objects of the last drag event
  (awe-drag.js:71-72), so the momentum filter's `animate`, which scales and
  shifts them in place (awe-drag.js:400-408), also changes that event as
  already handed to the updater and onDragMove.
- A custom filter without a `move` function makes applyFilters throw
  (awe-drag.js:249); the model gives every filter a move.
- Floating-point rounding, NaN and Infinity are not modelled: numbers are
  exact reals.
- `StateMachines.StateMachine.Update`: a completion callback is one optional
  state request. Arbitrary re-entrant code in the callback is not modelled.
- User code never throws and never calls back into the library. The drag
  callbacks onDragStart, onDragMove, onDragUpdate and onDragEnd and the state
  hooks `start`, `end` and `update` are only recorded in the trace. This
  excludes three source behaviours:
  - an onDragStart that throws (awe-drag.js:290-291) leaves the listeners
    and the interval unattached (awe-drag.js:294-298);
  - a `start` hook that requests another state (awe-state-machine.js:90)
    restarts that state's clock, and the outer id is still set afterwards
    (awe-state-machine.js:94);
  - a machine built during StateMachine.update is updated in the same pass,
    since the loop re-reads the machine count (awe-state-machine.js:124).
- The clock is read once per handler call: every `Date.now()` within one
  dragStart, dragMove, dragEnd or interval tick sees the same `t`. The source
  reads it several times, with user code in between (dragStart at
  awe-drag.js:272, 391, 93 and 68; an animation tick at 74, 93 and 74 again).
  So the zero drag time of the first snapshot (`FirstDrag`) and the zero
  elapsed time of a second tick (`ClockTickTwice`) hold only under this
  reading.
- `StateMachines.Registry.UpdateAll`: what each machine's update hook reports
  is a parameter.
- `getCurrentStateId` is not modelled: it is a plain read of
  `currentStateId`.
- `stateMap || []` in the constructor is not modelled: the model always takes
  a map.
- State ids are keys of a map that holds only the states added. In the
  source the states live in a plain object, so ids that name inherited
  object properties are found: `addState("toString")` throws as a duplicate
  (awe-state-machine.js:26) and `requestState("constructor")` finds a
  "state" (awe-state-machine.js:65).
- In the cache:
  - console logging and `cacheEnableTrace` are not modelled;
  - the garbage-collection interval is not modelled: `sweep` is an empty
    placeholder;
  - `encrypt`/`decrypt` are not modelled: they are the identity function;
  - how `disabled` is derived from `window` is not modelled: it is a
    constructor parameter;
  - storage quota errors are not modelled;
  - a non-numeric `ttl` (string concatenation) is not modelled.
- `SessionCache.Cache.ClearIdentity`: the enumeration order of storage keys
  is a parameter, required to list exactly the stored keys.
- In the popup stack:
  - `ensureElement`'s lookup by id is not modelled: elements are abstract ids;
  - the `onMouseDown` hit test (`xHasPoint`) is not modelled;
  - the unused `previousonmousedownCb` field is not modelled;
  - re-entrant dismiss callbacks are not modelled.
- `AweCore.GetQueryParam`: the name is matched literally. The source escapes
  only the first `[` and the first `]` of the name (the replacements have no
  `g` flag). Any other regular-expression metacharacter in a name (such as
  `.`) matches more than the literal text. A name the `RegExp` constructor
  rejects (a second `[`, or an unbalanced `(`) makes the source throw. Neither
  case is modelled.
- `AweCore.Color.constructor`: only the `#rrggbb` branch is modelled. The
  `rgb(...)`/`rgba(...)` branch relies on `parseInt` number parsing, which is
  not part of this model.
- `AweCore.GuidCounter.GetGuid`: the counter is unbounded. JavaScript numbers
  lose integer precision above 2^53.
- The earlier copy of the drag engine, its anchor, filters and updater
  inside awe-core.js (awe-core.js:123-390) are not part of this model. The
  awe-drag.js revision is modelled instead.
