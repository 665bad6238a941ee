# Mouse plugin: scroll and drag control

This is a model of the scroll and drag control in the voice and eye-tracking
mouse plugin (`plugin/mouse/mouse.py`), with proofs about it.

The plugin keeps its state in a few module globals:

- the continuous-scroll velocity `scroll_amount`;
- the mode label `continuous_scoll_mode`;
- the two periodic-callback handles `scroll_job` and `gaze_job`;
- the flag `control_mouse_forced`, which records that gaze scroll switched control mouse on.

Voice commands, the 60 ms scroll tick and the pop noise rewrite these globals
and call into the host. The host calls are scrolling, toggling tracking,
pressing and releasing buttons, showing or hiding the wheel GUI, and
scheduling or cancelling jobs. The drag commands work on the list of buttons
the host reports as held.

The project has three layers:

- **`MouseControl`** (`control.dfy`) describes each command as a pure
  transition. A transition maps a snapshot of the globals (and the held
  buttons) to the new snapshot plus the host calls it makes, in order.
  Beside each transition is a lemma stating what the command promises.
- **`Traces`** (`traces.dfy`) runs sequences of commands from the initial
  globals. It proves what holds in every reachable state and that the
  periodic jobs are accounted for exactly: no ticker is ever scheduled twice
  or cancelled when absent.
- **`MousePlugin`** (`plugin.dfy`) is the imperative model, a class whose
  fields are the globals, the held buttons and a log of host calls. Each
  method follows its handler's statements. It is proved to reach the state,
  and append the calls, of the matching transition. The actions the host
  calls also keep the class invariant `Valid`: the reachable-state invariant
  plus the job accounting of the call log.

Two more modules support these:

- `Host` (`host.dfy`) holds the host calls, the settings and their defaults,
  and occurrence counting over call logs.
- `Window` (`window.dfy`) holds the rectangle arithmetic of
  `mouse_move_center_active_window`.

The plugin asks the host some questions:

- whether control mouse is enabled;
- whether the zoom mouse is enabled, idle, or has its noise tag active;
- the settings' current values;
- the active window's rectangle;
- the held buttons.

Each answer enters the model as a parameter of its command. The held buttons
are a field the host updates: pressing a button adds it and releasing one
removes it.

The code has one quirk, and the model keeps it. Both gaze-scroll commands
set the mode label to "gaze scroll" first. Then `start_cursor_scrolling`
runs `stop_scroll`, which clears the label again. So gaze scroll always ends
with no mode (`GazeScrollCursorSpec`, and `Inv` says `ModeGaze` is never
reachable).

The mode label is a string in the code. Here it is the datatype `Mode`, and
`Label` gives the exact strings. Only the empty string means "no mode", and
`LabelInjective` shows that no two modes share a label. So testing the label
for emptiness, as the code does, is the same as testing for `ModeNone`.

## Model

| member | source | states |
|---|---|---|
| MouseControl.Label | plugin/mouse/mouse.py:115-120 | The label is empty exactly for the "no mode" value, so the closure's emptiness test on the label is a test on the mode |
| MouseControl.LabelInjective | plugin/mouse/mouse.py:190-229 | The three mode labels are distinct from each other and from "" |
| MouseControl.MouseScroll | plugin/mouse/mouse.py:297-307 | The `scroll` closure called once, as a transition; `MouseScrollSpec` states what it promises |
| MouseControl.ScrollDown | plugin/mouse/mouse.py:183-185 | `mouse_scroll_down(n)` through the closure; specified by `DiscreteScrollSpec` |
| MouseControl.ScrollUp | plugin/mouse/mouse.py:199-201 | `mouse_scroll_up(n)` through the closure; specified by `DiscreteScrollSpec` |
| MouseControl.ScrollHorizontal | plugin/mouse/mouse.py:214-220 | `mouse_scroll_left` and `mouse_scroll_right`; specified by `ScrollHorizontalSpec` |
| MouseControl.StartScroll | plugin/mouse/mouse.py:317-319 | Installs and schedules the scroll ticker; its effect on jobs is stated by `ScrollContinuousSpec` and `Traces.ScrollContinuousJobs` |
| MouseControl.ScrollContinuous | plugin/mouse/mouse.py:187-212 | Both continuous commands; specified by `ScrollContinuousSpec` |
| MouseControl.StopScroll | plugin/mouse/mouse.py:373-391 | The reset; specified by `StopScrollSpec` |
| MouseControl.StartCursorScrolling | plugin/mouse/mouse.py:394-397 | The reset, then the gaze ticker; specified by `StartCursorScrollingSpec` |
| MouseControl.GazeScrollCursor | plugin/mouse/mouse.py:241-249 | `mouse_gaze_scroll_cursor`; specified by `GazeScrollCursorSpec` |
| MouseControl.GazeScroll | plugin/mouse/mouse.py:226-239 | `mouse_gaze_scroll`; specified by `GazeScrollSpec` |
| MouseControl.ScrollTick | plugin/mouse/mouse.py:310-314 | One tick; specified by `ScrollTickSpec` and `Traces.TickSilentWithoutScrollJob` |
| MouseControl.NoiseTriggerPop | plugin/mouse/mouse.py:427-439 | The pop dispatch; specified by `NoiseTriggerPopSpec` |
| MouseControl.IsDragging | plugin/mouse/mouse.py:164-167 | Some button is held; `DragSpec` shows each drag flips it |
| MouseControl.DragEnd | plugin/mouse/mouse.py:158-162 | Releases every held button; specified by `DragSpec` and `Releases` |
| MouseControl.Drag | plugin/mouse/mouse.py:149-156 | Ends a drag or presses the button; specified by `DragSpec` and `DragTwice` |
| MouseControl.Sleep | plugin/mouse/mouse.py:169-181 | `mouse_sleep`; specified by `SleepSpec` |
| MouseControl.Wake | plugin/mouse/mouse.py:136-147 | `mouse_wake`; specified by `WakeSpec` |
| MouseControl.Accumulate | plugin/mouse/mouse.py:301-304 | The new velocity points the way of the new scroll; in the same direction (zero counts as downward) its size is the sum of the two sizes, otherwise it is the new scroll |
| MouseControl.MouseScrollSpec | plugin/mouse/mouse.py:297-307 | The closure emits exactly its amount once; it changes only the velocity, and changes it (to the accumulated value) only while a mode is set |
| MouseControl.DiscreteScrollSpec | plugin/mouse/mouse.py:183-201 | Down and up emit n times the wheel setting with opposite signs; they touch only the velocity, with no mode set nothing at all, and while a mode is set the velocity accumulates the step (so a step against a continuous scroll reverses it) |
| MouseControl.ScrollHorizontalSpec | plugin/mouse/mouse.py:214-220 | Left and right emit opposite horizontal scrolls of n times the horizontal setting and change no global |
| MouseControl.ScrollContinuousSpec | plugin/mouse/mouse.py:187-212 | A continuous command sets its mode, accumulates its amount, leaves the scroll ticker installed; it scrolls first and exactly once, schedules the ticker only if none was installed and shows the GUI unless hidden by the setting |
| MouseControl.StopScrollSpec | plugin/mouse/mouse.py:373-391 | After the reset the velocity is zero, no job is installed, no mode is set and control is not forced; each installed job is cancelled exactly once, control mouse is switched off exactly once if forced and not at all otherwise, and hiding the GUI comes last |
| MouseControl.StartCursorScrollingSpec | plugin/mouse/mouse.py:394-397 | The full reset, then exactly one schedule of the gaze ticker; only the gaze ticker is left installed |
| MouseControl.GazeScrollCursorSpec | plugin/mouse/mouse.py:241-249 | The gaze label set first is erased by the reset: the command ends with no mode, no velocity and only the gaze ticker, making, in this order, the reset's calls (ending with the GUI hide), one gaze schedule and the optional GUI show, so the wheel is left visible unless the setting hides it |
| MouseControl.GazeScrollSpec | plugin/mouse/mouse.py:226-239 | As the cursor variant, in the same order, and control mouse is switched on and recorded as forced exactly when the host said it was off; that call comes last, after the reset has dropped any earlier forced flag |
| MouseControl.TickDelta | plugin/mouse/mouse.py:314 | The integer meaning of `int(scroll_amount / 10)`: the result is a tenth of the velocity truncated toward zero, for negative and non-negative velocities alike |
| MouseControl.TickDeltaOdd | plugin/mouse/mouse.py:314 | Truncation is symmetric, so scrolling up ticks exactly as fast as scrolling down |
| MouseControl.ScrollTickSpec | plugin/mouse/mouse.py:310-314 | A tick never changes the globals; it scrolls, by the truncated tenth of the velocity, exactly when the velocity is non-zero and the zoom mouse is idle |
| MouseControl.NoiseTriggerPopSpec | plugin/mouse/mouse.py:427-439 | The pop's priority: with pop-stops-scroll set and a job installed it is exactly the reset; otherwise it changes no global and, without the zoom mouse, clicks button 0 (held 16000) only if pop-click is set, and with it hands the pop to the zoom mouse or moves to the gaze point |
| MouseControl.Releases | plugin/mouse/mouse.py:158-162 | One release per held button, in the order the host lists them |
| MouseControl.Without | plugin/mouse/mouse.py:180-181 | The held buttons after releasing one: exactly the others, no more of them than before |
| MouseControl.DragSpec | plugin/mouse/mouse.py:149-167 | Drag toggles dragging: while buttons are held it releases each once and leaves none held, otherwise it presses the button and holds only it; nothing but the held buttons changes; drag-end always releases everything |
| MouseControl.DragTwice | plugin/mouse/mouse.py:149-162 | From rest, two drags press and then release the first button and restore the state |
| MouseControl.SleepSpec | plugin/mouse/mouse.py:169-181 | Sleep switches tracking off and shows the cursor first, then does the full reset; it releases button 0 once if any button was held and never another button |
| MouseControl.WakeSpec | plugin/mouse/mouse.py:136-147 | Wake changes no global, switches the zoom mouse on first, and hides the cursor exactly when the setting asks |
| Window.Center | plugin/mouse/mouse.py:256-259 | The point is equidistant from the left and right edges and from the top and bottom ones, and lies inside a rectangle of non-negative size |
| Traces.Inv | plugin/mouse/mouse.py:21-26 | The reachable-state invariant; `ApplyPreservesInv`, `RunPreservesInv` and `ReachableStates` prove it holds from the initial globals on |
| Traces.Apply | plugin/mouse/mouse.py:128-439 | Dispatches each command to its transition; `ApplyPreservesInv` and `ApplyJobAccounting` state what it keeps |
| Traces.Run | plugin/mouse/mouse.py:21-26 | A sequence of commands from some globals; `RunPreservesInv`, `RunJobAccounting` and `NoJobLeaks` state what it keeps |
| Traces.ApplyPreservesInv | plugin/mouse/mouse.py:187-249 | Every command keeps the reachable-state invariant: forced control only during gaze scroll, velocity only with a mode, a mode only with the scroll ticker, never the gaze mode |
| Traces.RunPreservesInv | plugin/mouse/mouse.py:21-26 | Every sequence of commands keeps the invariant |
| Traces.ReachableStates | plugin/mouse/mouse.py:21-26 | From the module's initial globals the gaze mode never persists and a non-zero velocity always has its ticker installed |
| Traces.TickSilentWithoutScrollJob | plugin/mouse/mouse.py:310-314 | In a reachable state without the scroll ticker a tick would do nothing, so stopping scrolling silences it |
| Traces.StopScrollJobs | plugin/mouse/mouse.py:373-388 | The reset cancels exactly the jobs that were installed |
| Traces.ScrollContinuousJobs | plugin/mouse/mouse.py:187-212 | A continuous command's schedules minus cancellations equal the change in the scroll-ticker flag |
| Traces.GazeScrollJobs | plugin/mouse/mouse.py:226-249 | Both gaze starters change the running jobs exactly as they change the installed flags |
| Traces.SleepJobs | plugin/mouse/mouse.py:169-181 | Sleep leaves no job running that it does not also drop from the flags |
| Traces.DragJobs | plugin/mouse/mouse.py:149-162 | The drag commands neither schedule nor cancel a job |
| Traces.PopJobs | plugin/mouse/mouse.py:427-439 | The pop changes the running jobs exactly as it changes the flags |
| Traces.QuietJobs | plugin/mouse/mouse.py:183-220 | Wheel steps, ticks, wake, cursor and window commands leave jobs and flags alone |
| Traces.ApplyJobAccounting | plugin/mouse/mouse.py:310-397 | For every command, schedules minus cancellations of each job kind equal the change in its installed flag |
| Traces.RunJobAccounting | plugin/mouse/mouse.py:317-397 | The same over any sequence of commands |
| Traces.NoJobLeaks | plugin/mouse/mouse.py:317-397 | From the initial globals, at most one job of each kind is ever live and the handle says exactly whether it is: nothing is scheduled twice or cancelled twice |
| Traces.ContinuousStep | plugin/mouse/mouse.py:187-212 | One continuous command, from any velocity, sets its mode, installs the ticker and schedules it only if it was absent; from an aligned velocity it adds the setting, and it always leaves the velocity aligned |
| Traces.ContinuousRunStep | plugin/mouse/mouse.py:187-212 | The first of several repeated continuous commands splits off as one step, with its one optional ticker schedule |
| Traces.RepeatedContinuous | plugin/mouse/mouse.py:187-212 | Saying a continuous command k times adds k times the setting to an aligned velocity and leaves its mode and the ticker installed |
| Traces.RepeatedContinuousSchedulesOnce | plugin/mouse/mouse.py:187-212 | However often it is repeated, and whichever way the velocity pointed before, a continuous command schedules the scroll ticker at most once, and only when it was not already installed |
| MousePlugin.CommandKeepsAccounted | plugin/mouse/mouse.py:128-439 | Any command on accounted globals and call log leaves them accounted |
| MousePlugin.Plugin.constructor | plugin/mouse/mouse.py:21-26 | The module's initial globals, no held button, an empty log, and the invariant holds |
| MousePlugin.Plugin.MouseScroll | plugin/mouse/mouse.py:297-307 | The closure updates the velocity and logs the scroll as `MouseControl.MouseScroll` says |
| MousePlugin.Plugin.StartScroll | plugin/mouse/mouse.py:317-319 | Installs and logs the scroll ticker |
| MousePlugin.Plugin.StopScroll | plugin/mouse/mouse.py:373-391 | Sets the globals and logs the calls as `MouseControl.StopScroll` gives them |
| MousePlugin.Plugin.StartCursorScrolling | plugin/mouse/mouse.py:394-397 | Sets the globals and logs the calls as `MouseControl.StartCursorScrolling` gives them |
| MousePlugin.Plugin.ScrollContinuously | plugin/mouse/mouse.py:187-212 | The shared body of the continuous commands, as `MouseControl.ScrollContinuous` |
| MousePlugin.Plugin.ScrollContinuousHelper | plugin/mouse/mouse.py:310-314 | One tick, with the truncating division written out, as `MouseControl.ScrollTick`; keeps `Valid` |
| MousePlugin.Plugin.TickSteps | plugin/mouse/mouse.py:310-314 | The tick's statements on any globals, as `MouseControl.ScrollTick` |
| MousePlugin.Plugin.NoiseTriggerPop | plugin/mouse/mouse.py:427-439 | The pop dispatch as `MouseControl.NoiseTriggerPop`; keeps `Valid` |
| MousePlugin.Plugin.PopSteps | plugin/mouse/mouse.py:427-439 | The pop's statements on any globals |
| MousePlugin.Plugin.MouseShowCursor | plugin/mouse/mouse.py:128-130 | Logs showing the cursor and changes no global; keeps `Valid` |
| MousePlugin.Plugin.MouseHideCursor | plugin/mouse/mouse.py:132-134 | Logs hiding the cursor and changes no global; keeps `Valid` |
| MousePlugin.Plugin.MouseWake | plugin/mouse/mouse.py:136-147 | As `MouseControl.Wake`; keeps `Valid` |
| MousePlugin.Plugin.WakeSteps | plugin/mouse/mouse.py:136-147 | Wake's statements on any globals |
| MousePlugin.Plugin.MouseIsDragging | plugin/mouse/mouse.py:164-167 | True exactly when the host reports some button held |
| MousePlugin.Plugin.MouseDragEnd | plugin/mouse/mouse.py:158-162 | The release loop ends with no button held and one release per button, in order, as `MouseControl.DragEnd`; keeps `Valid` |
| MousePlugin.Plugin.DragEndSteps | plugin/mouse/mouse.py:158-162 | The release loop on any globals |
| MousePlugin.Plugin.MouseDrag | plugin/mouse/mouse.py:149-156 | As `MouseControl.Drag`: ends a drag in progress or presses the button; keeps `Valid` |
| MousePlugin.Plugin.DragSteps | plugin/mouse/mouse.py:149-156 | Drag's statements on any globals |
| MousePlugin.Plugin.MouseSleep | plugin/mouse/mouse.py:169-181 | As `MouseControl.Sleep`; keeps `Valid` |
| MousePlugin.Plugin.SleepSteps | plugin/mouse/mouse.py:169-181 | Sleep's statements on any globals |
| MousePlugin.Plugin.MouseScrollDown | plugin/mouse/mouse.py:183-185 | As `MouseControl.ScrollDown`; keeps `Valid` |
| MousePlugin.Plugin.MouseScrollUp | plugin/mouse/mouse.py:199-201 | As `MouseControl.ScrollUp`; keeps `Valid` |
| MousePlugin.Plugin.MouseScrollDownContinuous | plugin/mouse/mouse.py:187-197 | As `MouseControl.ScrollContinuous` downward with the setting; keeps `Valid` |
| MousePlugin.Plugin.MouseScrollUpContinuous | plugin/mouse/mouse.py:203-212 | As `MouseControl.ScrollContinuous` upward with the negated setting; keeps `Valid` |
| MousePlugin.Plugin.MouseScrollLeft | plugin/mouse/mouse.py:214-216 | As `MouseControl.ScrollHorizontal` to the left; keeps `Valid` |
| MousePlugin.Plugin.MouseScrollRight | plugin/mouse/mouse.py:218-220 | As `MouseControl.ScrollHorizontal` to the right; keeps `Valid` |
| MousePlugin.Plugin.MouseScrollStop | plugin/mouse/mouse.py:222-224 | As `MouseControl.StopScroll`; keeps `Valid` |
| MousePlugin.Plugin.MouseGazeScroll | plugin/mouse/mouse.py:226-239 | As `MouseControl.GazeScroll`; keeps `Valid` |
| MousePlugin.Plugin.GazeScrollSteps | plugin/mouse/mouse.py:226-239 | Gaze scroll's statements on any globals |
| MousePlugin.Plugin.MouseGazeScrollCursor | plugin/mouse/mouse.py:241-249 | As `MouseControl.GazeScrollCursor`; keeps `Valid` |
| MousePlugin.Plugin.GazeScrollCursorSteps | plugin/mouse/mouse.py:241-249 | The cursor variant's statements on any globals |
| MousePlugin.Plugin.MouseMoveCenterActiveWindow | plugin/mouse/mouse.py:256-259 | Moves the mouse to `Window.Center` of the given rectangle and changes no global; keeps `Valid` |

## Left out

- The Windows registry writes and the system call behind `show_cursor_helper` are not modelled. They are foreign calls; showing or hiding the cursor is recorded as one host call.
- Timing is not modelled. Neither are the `cron.interval` and `cron.cancel` scheduler or concurrency between ticks and commands. A job is installed or not, a tick is a command that can arrive at any point in a sequence, and a handle is modelled as present or absent.
- Rendering of the wheel GUI is not modelled; the model records only whether it is shown or hidden.
- The gaze ticker `gaze_scroll` and its helper `scroll_formula` are not modelled. They are floating-point work over eye positions and window lists. The model installs and cancels the gaze ticker but never runs it. There is only one gaze ticker: `start_cursor_scrolling` always installs `gaze_scroll`, so `mouse_gaze_scroll_cursor` runs the window-relative ticker too, although its comment describes cursor-relative scrolling. The function `gaze_scroll_cursor` is never scheduled by any code path (and refers to names the module does not define), so it is left out.
- The `custom_zoom_enable` monkey patch and the noise register/unregister calls at import time are host plugin internals and are not modelled.
- `copy_mouse_position` and `noise_trigger_hiss` are not modelled. The first writes the clipboard; the second passes the noise on to the zoom mouse.
- `MouseControl.ScrollDown`, `MouseControl.ScrollUp`, `MouseControl.ScrollHorizontal`: the step count `amount` is an integer, not a float. A fractional amount and the `int(...)` cut on the emitted value are not modelled.
- `MouseControl.Wake`: the exception handler around the zoom toggle (print, notify, a 500 ms sleep) is not modelled; in the model the toggle always returns normally.
- The host's own behaviour is reduced to its answers: control and zoom state, the noise tag, the setting values, the active window and the held buttons. Pressing a button adds it to the held list; releasing one removes it. The settings are the integer values in force when a command runs.
- `MouseControl.TickDelta`: the division by 10 is exact integer division truncated toward zero. The code divides as a float first, so the two can differ once the velocity is near 10^16 or beyond, where floats no longer hold every integer.
- `Window.Center` works on exact reals, not floating point, and so do the `MouseMove` coordinates it produces.
