/**
 The scroll and drag control of the mouse plugin as pure transitions.

 `State` is a snapshot of the plugin's module globals together with the
 buttons the host reports as held. Every command is a function from a
 snapshot (and whatever it asks the host) to a `Step`: the new snapshot and
 the host calls made, in order. The lemma after each function states what
 the command promises.
 */
module MouseControl {
  import opened Host

  /** The values `continuous_scoll_mode` takes, by their labels below. */
  datatype Mode = ModeNone | ModeDown | ModeUp | ModeGaze

  /** The label the GUI wheel shows; the plugin keeps the label itself and
      tests it for emptiness. */
  function Label(m: Mode): (l: string)
    ensures l == "" <==> m == ModeNone
  {
    match m
    case ModeNone => ""
    case ModeDown => "scroll down continuous"
    case ModeUp => "scroll up continuous"
    case ModeGaze => "gaze scroll"
  }

  /** No two modes share a label, so a mode is known from its label. */
  lemma LabelInjective(m: Mode, n: Mode)
    ensures Label(m) == Label(n) ==> m == n
  {
  }

  datatype State = State(
    amount: int,        // scroll_amount, the continuous-scroll velocity
    mode: Mode,         // continuous_scoll_mode
    scrollJob: bool,    // scroll_job is not None
    gazeJob: bool,      // gaze_job is not None
    forced: bool,       // control_mouse_forced
    held: seq<nat>)     // ctrl.mouse_buttons_down(), kept by the host

  /** The globals as the module initialises them, with no button held. */
  const Initial: State := State(0, ModeNone, false, false, false, [])

  datatype Step = Step(st: State, out: seq<Effect>)

  function Abs(n: int): nat
  {
    if n < 0 then -n else n
  }

  /** Whether a job of kind `j` is installed in `st`. */
  function HasJob(st: State, j: Job): bool
  {
    match j
    case ScrollTicker => st.scrollJob
    case GazeTicker => st.gazeJob
  }

  // ---------------------------------------------------------------------
  // Discrete and continuous scrolling

  /** The new velocity when a scroll of `amount` meets velocity `current`:
      a scroll in the same direction (zero counts as downward) speeds up,
      one in the other direction replaces the velocity. */
  function Accumulate(current: int, amount: int): (r: int)
    ensures (r >= 0) == (amount >= 0)
    ensures (current >= 0) == (amount >= 0) ==> Abs(r) == Abs(current) + Abs(amount)
    ensures (current >= 0) != (amount >= 0) ==> r == amount
  {
    if (current >= 0) == (amount >= 0) then current + amount else amount
  }

  /** The `scroll` closure built by `mouse_scroll(amount)`, called once. */
  function MouseScroll(st: State, amount: int): Step
  {
    var a := if st.mode != ModeNone then Accumulate(st.amount, amount) else st.amount;
    Step(st.(amount := a), [Scroll(amount, 0)])
  }

  /** The closure emits `amount` and accumulates it only while a mode is set. */
  lemma MouseScrollSpec(st: State, amount: int)
    ensures MouseScroll(st, amount).out == [Scroll(amount, 0)]
    ensures MouseScroll(st, amount).st.(amount := st.amount) == st
    ensures st.mode == ModeNone ==> MouseScroll(st, amount).st == st
    ensures st.mode != ModeNone ==> MouseScroll(st, amount).st.amount == Accumulate(st.amount, amount)
  {
  }

  /** `mouse_scroll_down(n)`: n wheel steps down through the closure. */
  function ScrollDown(st: State, s: Settings, n: int): Step
  {
    MouseScroll(st, n * s.wheelDownAmount)
  }

  /** `mouse_scroll_up(n)`: n wheel steps up through the closure. */
  function ScrollUp(st: State, s: Settings, n: int): Step
  {
    MouseScroll(st, -n * s.wheelDownAmount)
  }

  /** Up and down emit opposite scrolls and change nothing but the velocity.
      With no mode set they change nothing at all; while a mode is set the
      velocity accumulates the scroll, so a discrete step against a
      continuous scroll reverses it. */
  lemma DiscreteScrollSpec(st: State, s: Settings, n: int)
    ensures ScrollDown(st, s, n).out == [Scroll(n * s.wheelDownAmount, 0)]
    ensures ScrollUp(st, s, n).out == [Scroll(-(n * s.wheelDownAmount), 0)]
    ensures ScrollDown(st, s, n).st.(amount := st.amount) == st
    ensures ScrollUp(st, s, n).st.(amount := st.amount) == st
    ensures st.mode == ModeNone ==> ScrollDown(st, s, n).st == st && ScrollUp(st, s, n).st == st
    ensures st.mode != ModeNone ==> ScrollDown(st, s, n).st.amount == Accumulate(st.amount, n * s.wheelDownAmount)
    ensures st.mode != ModeNone ==> ScrollUp(st, s, n).st.amount == Accumulate(st.amount, -(n * s.wheelDownAmount))
  {
    MouseScrollSpec(st, n * s.wheelDownAmount);
    MouseScrollSpec(st, -n * s.wheelDownAmount);
  }

  /** `mouse_scroll_right(n)` (`right`) and `mouse_scroll_left(n)`. */
  function ScrollHorizontal(st: State, s: Settings, n: int, right: bool): Step
  {
    Step(st, [Scroll(0, if right then n * s.wheelHorizontalAmount else -n * s.wheelHorizontalAmount)])
  }

  /** Left and right scroll by opposite amounts and leave every global alone. */
  lemma ScrollHorizontalSpec(st: State, s: Settings, n: int)
    ensures ScrollHorizontal(st, s, n, true).st == st && ScrollHorizontal(st, s, n, false).st == st
    ensures ScrollHorizontal(st, s, n, true).out == [Scroll(0, n * s.wheelHorizontalAmount)]
    ensures ScrollHorizontal(st, s, n, false).out == [Scroll(0, -(n * s.wheelHorizontalAmount))]
  {
  }

  /** `start_scroll`: install the 60 ms scroll ticker. */
  function StartScroll(st: State): Step
  {
    Step(st.(scrollJob := true), [StartJob(ScrollTicker)])
  }

  /** The GUI wheel is shown unless the hide-GUI setting is set. */
  function ShowGui(s: Settings): seq<Effect>
  {
    Opt(s.hideMouseGui == 0, GuiShow)
  }

  /** `mouse_scroll_down_continuous` (mode `ModeDown`, amount `+setting`) and
      `mouse_scroll_up_continuous` (mode `ModeUp`, amount `-setting`): set the
      mode, scroll once through the closure, install the scroll ticker if none
      is installed, show the GUI. */
  function ScrollContinuous(st: State, s: Settings, mode: Mode, amount: int): Step
  {
    var scroll := MouseScroll(st.(mode := mode), amount);
    var start := if scroll.st.scrollJob then Step(scroll.st, []) else StartScroll(scroll.st);
    Step(start.st, scroll.out + start.out + ShowGui(s))
  }

  /** A continuous command sets its mode, accumulates its amount, leaves one
      scroll ticker installed and schedules one only when none was there. */
  lemma {:induction false} ScrollContinuousSpec(st: State, s: Settings, mode: Mode, amount: int, e: Effect)
    requires mode != ModeNone
    ensures ScrollContinuous(st, s, mode, amount).st ==
              st.(mode := mode, amount := Accumulate(st.amount, amount), scrollJob := true)
    ensures ScrollContinuous(st, s, mode, amount).out[0] == Scroll(amount, 0)
    ensures Count(ScrollContinuous(st, s, mode, amount).out, e) ==
              B2I(e == Scroll(amount, 0)) + B2I(!st.scrollJob && e == StartJob(ScrollTicker))
              + B2I(s.hideMouseGui == 0 && e == GuiShow)
  {
    var scroll := MouseScroll(st.(mode := mode), amount);
    var start := if scroll.st.scrollJob then Step(scroll.st, []) else StartScroll(scroll.st);
    assert start.out == Opt(!st.scrollJob, StartJob(ScrollTicker));
    CountAppend(scroll.out + start.out, ShowGui(s), e);
    CountAppend(scroll.out, start.out, e);
    CountOpt(true, Scroll(amount, 0), e);
    CountOpt(!st.scrollJob, StartJob(ScrollTicker), e);
    CountOpt(s.hideMouseGui == 0, GuiShow, e);
  }

  // ---------------------------------------------------------------------
  // Stopping and gaze scrolling

  /** `stop_scroll`: zero the velocity, cancel whichever jobs are installed,
      switch control mouse off if gaze scroll forced it on, hide the GUI and
      clear the mode. */
  function StopScroll(st: State): Step
  {
    Step(st.(amount := 0, mode := ModeNone, scrollJob := false, gazeJob := false, forced := false),
         Opt(st.scrollJob, CancelJob(ScrollTicker)) + Opt(st.gazeJob, CancelJob(GazeTicker))
         + Opt(st.forced, ControlToggle(false)) + [GuiHide])
  }

  /** After `stop_scroll` nothing is installed, the velocity is zero and no
      mode is set; every installed job is cancelled exactly once, control mouse
      is switched off exactly once if it was forced on and otherwise not at
      all, and the GUI is hidden, last. */
  lemma {:induction false} StopScrollSpec(st: State, e: Effect)
    ensures StopScroll(st).st ==
              st.(amount := 0, mode := ModeNone, scrollJob := false, gazeJob := false, forced := false)
    ensures Count(StopScroll(st).out, e) ==
              B2I(st.scrollJob && e == CancelJob(ScrollTicker)) + B2I(st.gazeJob && e == CancelJob(GazeTicker))
              + B2I(st.forced && e == ControlToggle(false)) + B2I(e == GuiHide)
    ensures StopScroll(st).out != [] && StopScroll(st).out[|StopScroll(st).out| - 1] == GuiHide
  {
    var a, b, c := Opt(st.scrollJob, CancelJob(ScrollTicker)), Opt(st.gazeJob, CancelJob(GazeTicker)),
                   Opt(st.forced, ControlToggle(false));
    CountAppend(a + b + c, [GuiHide], e);
    CountAppend(a + b, c, e);
    CountAppend(a, b, e);
    CountOpt(st.scrollJob, CancelJob(ScrollTicker), e);
    CountOpt(st.gazeJob, CancelJob(GazeTicker), e);
    CountOpt(st.forced, ControlToggle(false), e);
    CountOpt(true, GuiHide, e);
  }

  /** `start_cursor_scrolling`: the full `stop_scroll` reset, then the gaze
      ticker. */
  function StartCursorScrolling(st: State): Step
  {
    var stop := StopScroll(st);
    Step(stop.st.(gazeJob := true), stop.out + [StartJob(GazeTicker)])
  }

  /** Exactly the gaze ticker is left installed, after the complete reset. */
  lemma StartCursorScrollingSpec(st: State, e: Effect)
    ensures StartCursorScrolling(st).st ==
              st.(amount := 0, mode := ModeNone, scrollJob := false, gazeJob := true, forced := false)
    ensures StartCursorScrolling(st).out == StopScroll(st).out + [StartJob(GazeTicker)]
    ensures Count(StartCursorScrolling(st).out, e) ==
              Count(StopScroll(st).out, e) + B2I(e == StartJob(GazeTicker))
  {
    CountAppend(StopScroll(st).out, [StartJob(GazeTicker)], e);
    CountOpt(true, StartJob(GazeTicker), e);
  }

  /** `mouse_gaze_scroll_cursor`: set the gaze label, do the
      `start_cursor_scrolling` reset and start, show the GUI. */
  function GazeScrollCursor(st: State, s: Settings): Step
  {
    var start := StartCursorScrolling(st.(mode := ModeGaze));
    Step(start.st, start.out + ShowGui(s))
  }

  /** The mode label set first is erased by the reset, so gaze scroll ends
      with no mode and the gaze ticker alone, and never switches control
      mouse on. The GUI show comes after the reset's hide, so the wheel is
      left visible unless the setting hides it. */
  lemma {:induction false} GazeScrollCursorSpec(st: State, s: Settings, e: Effect)
    ensures GazeScrollCursor(st, s).st ==
              st.(amount := 0, mode := ModeNone, scrollJob := false, gazeJob := true, forced := false)
    ensures Count(GazeScrollCursor(st, s).out, e) ==
              Count(StopScroll(st).out, e) + B2I(e == StartJob(GazeTicker)) + B2I(s.hideMouseGui == 0 && e == GuiShow)
    ensures GazeScrollCursor(st, s).out == StopScroll(st).out + [StartJob(GazeTicker)] + ShowGui(s)
  {
    var start := StartCursorScrolling(st.(mode := ModeGaze));
    StartCursorScrollingSpec(st.(mode := ModeGaze), e);
    assert StopScroll(st.(mode := ModeGaze)).out == StopScroll(st).out;
    CountAppend(start.out, ShowGui(s), e);
    CountOpt(s.hideMouseGui == 0, GuiShow, e);
  }

  /** `mouse_gaze_scroll`: the same steps as `mouse_gaze_scroll_cursor`, then
      control mouse is switched on and recorded as forced if the host says
      it is off. `controlEnabled` is the host's answer to
      `tracking.control_enabled()`, asked after the reset. */
  function GazeScroll(st: State, s: Settings, controlEnabled: bool): Step
  {
    var start := GazeScrollCursor(st, s);
    Step(start.st.(forced := !controlEnabled), start.out + Opt(!controlEnabled, ControlToggle(true)))
  }

  /** Control mouse is switched on, and recorded as forced, exactly when the
      host said it was off, and that happens last, after the reset (so a
      forced flag left from an earlier gaze scroll is dropped first). */
  lemma {:induction false} GazeScrollSpec(st: State, s: Settings, controlEnabled: bool, e: Effect)
    ensures GazeScroll(st, s, controlEnabled).st ==
              st.(amount := 0, mode := ModeNone, scrollJob := false, gazeJob := true, forced := !controlEnabled)
    ensures Count(GazeScroll(st, s, controlEnabled).out, e) ==
              Count(StopScroll(st).out, e) + B2I(e == StartJob(GazeTicker))
              + B2I(s.hideMouseGui == 0 && e == GuiShow) + B2I(!controlEnabled && e == ControlToggle(true))
    ensures !controlEnabled ==>
              GazeScroll(st, s, controlEnabled).out[|GazeScroll(st, s, controlEnabled).out| - 1] == ControlToggle(true)
    ensures GazeScroll(st, s, controlEnabled).out ==
              StopScroll(st).out + [StartJob(GazeTicker)] + ShowGui(s) + Opt(!controlEnabled, ControlToggle(true))
  {
    var start := GazeScrollCursor(st, s);
    GazeScrollCursorSpec(st, s, e);
    CountAppend(start.out, Opt(!controlEnabled, ControlToggle(true)), e);
    CountOpt(!controlEnabled, ControlToggle(true), e);
  }

  // ---------------------------------------------------------------------
  // The scroll tick and the pop noise

  /** The integer meaning of Python's `int(a / 10)`: division followed by
      truncation toward zero, unlike Dafny's `/`, which rounds down for a
      negative `a`. */
  function TickDelta(a: int): (r: int)
    ensures 0 <= a ==> 0 <= 10 * r <= a < 10 * r + 10
    ensures a < 0 ==> 10 * r - 10 < a <= 10 * r <= 0
  {
    if a >= 0 then a / 10 else -((-a) / 10)
  }

  /** Truncation is symmetric: scrolling up ticks exactly as fast as down. */
  lemma TickDeltaOdd(a: int)
    ensures TickDelta(-a) == -TickDelta(a)
  {
  }

  /** `scroll_continuous_helper`, one 60 ms tick. `zoomIdle` is whether the
      zoom mouse is in its idle state. */
  function ScrollTick(st: State, zoomIdle: bool): Step
  {
    if st.amount != 0 && zoomIdle then Step(st, [Scroll(TickDelta(st.amount), 0)]) else Step(st, [])
  }

  /** A tick scrolls by a tenth of the velocity exactly when the velocity is
      non-zero and the zoom mouse is idle, and never changes the globals. */
  lemma ScrollTickSpec(st: State, zoomIdle: bool)
    ensures ScrollTick(st, zoomIdle).st == st
    ensures ScrollTick(st, zoomIdle).out != [] <==> st.amount != 0 && zoomIdle
    ensures ScrollTick(st, zoomIdle).out != [] ==> ScrollTick(st, zoomIdle).out == [Scroll(TickDelta(st.amount), 0)]
  {
  }

  /** `noise_trigger_pop`. `zoomEnabled` is `tracking.control_zoom_enabled()`
      and `zoomNoiseTag` whether the zoom mouse's noise tag is active. */
  function NoiseTriggerPop(st: State, s: Settings, zoomEnabled: bool, zoomNoiseTag: bool): Step
  {
    if PopStops(st, s) then StopScroll(st)
    else if !zoomEnabled then Step(st, if s.popClick >= 1 then [Click(0, PopClickHold)] else [])
    else if zoomNoiseTag then Step(st, [ZoomPop])
    else Step(st, [MoveToGaze])
  }

  /** Whether a pop stops scrolling: the setting is on and a job is installed. */
  predicate PopStops(st: State, s: Settings)
  {
    s.popStopsScroll >= 1 && (st.gazeJob || st.scrollJob)
  }

  /** The pop's priority: stop scrolling; else, without the zoom mouse, click
      button 0 if so set; else hand the pop to the zoom mouse. */
  lemma NoiseTriggerPopSpec(st: State, s: Settings, zoomEnabled: bool, zoomNoiseTag: bool)
    ensures PopStops(st, s) ==> NoiseTriggerPop(st, s, zoomEnabled, zoomNoiseTag) == StopScroll(st)
    ensures !PopStops(st, s) ==> NoiseTriggerPop(st, s, zoomEnabled, zoomNoiseTag).st == st
    ensures !PopStops(st, s) && !zoomEnabled ==>
              NoiseTriggerPop(st, s, zoomEnabled, zoomNoiseTag).out ==
                if s.popClick >= 1 then [Click(0, PopClickHold)] else []
    ensures !PopStops(st, s) && zoomEnabled ==>
              NoiseTriggerPop(st, s, zoomEnabled, zoomNoiseTag).out == [if zoomNoiseTag then ZoomPop else MoveToGaze]
  {
  }

  // ---------------------------------------------------------------------
  // Dragging, sleeping and waking

  /** `mouse_is_dragging`: some button is held. */
  predicate IsDragging(st: State)
  {
    |st.held| > 0
  }

  /** The releases `mouse_drag_end` makes, one per held button, in order. */
  function Releases(held: seq<nat>): (r: seq<Effect>)
    ensures |r| == |held|
    ensures forall i :: 0 <= i < |held| ==> r[i] == ButtonUp(held[i])
  {
    if held == [] then [] else Releases(held[..|held| - 1]) + [ButtonUp(held[|held| - 1])]
  }

  /** The held buttons once the host has released `b`. */
  function Without(held: seq<nat>, b: nat): (r: seq<nat>)
    ensures forall x :: x in r <==> x in held && x != b
    ensures |r| <= |held|
  {
    if held == [] then []
    else if held[0] == b then Without(held[1..], b)
    else [held[0]] + Without(held[1..], b)
  }

  /** `mouse_drag_end`: release every held button. */
  function DragEnd(st: State): Step
  {
    Step(st.(held := []), Releases(st.held))
  }

  /** `mouse_drag(b)`: while dragging, release everything; otherwise press `b`. */
  function Drag(st: State, b: nat): Step
  {
    if IsDragging(st) then DragEnd(st) else Step(st.(held := [b]), [ButtonDown(b)])
  }

  /** Drag toggles: it ends a drag in progress, releasing each held button
      once, or starts one holding `b`; it touches nothing but the buttons. */
  lemma DragSpec(st: State, b: nat)
    ensures Drag(st, b).st.(held := st.held) == st
    ensures IsDragging(Drag(st, b).st) <==> !IsDragging(st)
    ensures IsDragging(st) ==> Drag(st, b).st.held == [] && Drag(st, b).out == Releases(st.held)
    ensures !IsDragging(st) ==> Drag(st, b).st.held == [b] && Drag(st, b).out == [ButtonDown(b)]
    ensures DragEnd(st).st == st.(held := []) && DragEnd(st).out == Releases(st.held)
  {
  }

  /** Dragging twice from rest presses and then releases the same button. */
  lemma DragTwice(st: State, b: nat, c: nat)
    requires !IsDragging(st)
    ensures Drag(Drag(st, b).st, c).st == st
    ensures Drag(st, b).out + Drag(Drag(st, b).st, c).out == [ButtonDown(b), ButtonUp(b)]
  {
  }

  /** The host calls that open `mouse_sleep`: zoom mouse, control mouse and
      control mouse 1 off, cursor shown. */
  const SleepPrologue: seq<Effect> :=
    [ControlZoomToggle(false), ControlToggle(false), Control1Toggle(false), CursorVisible(true)]

  /** `mouse_sleep`: switch tracking off, show the cursor, do the full
      `stop_scroll` reset, then release button 0 if any button is held. */
  function Sleep(st: State): Step
  {
    var stop := StopScroll(st);
    Step(stop.st.(held := Without(st.held, 0)), SleepPrologue + stop.out + Opt(st.held != [], ButtonUp(0)))
  }

  /** Sleep is the `stop_scroll` reset after the tracking prologue; it
      releases button 0 only when something is held, and only button 0. */
  lemma {:induction false} SleepSpec(st: State, e: Effect)
    ensures Sleep(st).st == StopScroll(st).st.(held := Without(st.held, 0))
    ensures forall b :: b in Sleep(st).st.held <==> b in st.held && b != 0
    ensures Sleep(st).out[..|SleepPrologue|] == SleepPrologue
    ensures Count(Sleep(st).out, e) ==
              Count(SleepPrologue, e) + Count(StopScroll(st).out, e) + B2I(st.held != [] && e == ButtonUp(0))
  {
    var stop := StopScroll(st);
    CountAppend(SleepPrologue + stop.out, Opt(st.held != [], ButtonUp(0)), e);
    CountAppend(SleepPrologue, stop.out, e);
    CountOpt(st.held != [], ButtonUp(0), e);
  }

  /** `mouse_wake`: zoom mouse on, then hide the cursor if so set. */
  function Wake(st: State, s: Settings): Step
  {
    Step(st, [ControlZoomToggle(true)] + Opt(s.wakeHidesCursor >= 1, CursorVisible(false)))
  }

  /** Wake changes no global; it hides the cursor exactly when so set. */
  lemma WakeSpec(st: State, s: Settings)
    ensures Wake(st, s).st == st
    ensures Wake(st, s).out[0] == ControlZoomToggle(true)
    ensures CursorVisible(false) in Wake(st, s).out <==> s.wakeHidesCursor >= 1
    ensures |Wake(st, s).out| == 1 + B2I(s.wakeHidesCursor >= 1)
  {
  }
}
