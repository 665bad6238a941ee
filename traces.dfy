/**
 Sequences of commands and ticks as the host delivers them to the plugin,
 and what holds of every state the plugin can reach from the module's
 initial globals.
 */
module Traces {
  import opened Host
  import opened Window
  import opened MouseControl

  /** The voice commands, timer ticks and noises that drive the plugin, each
      with whatever the host answers when the plugin asks. */
  datatype Command =
    | WheelDown(n: int)                 // mouse_scroll_down
    | WheelUp(n: int)                   // mouse_scroll_up
    | WheelLeft(n: int)                 // mouse_scroll_left
    | WheelRight(n: int)                // mouse_scroll_right
    | WheelDownContinuous               // mouse_scroll_down_continuous
    | WheelUpContinuous                 // mouse_scroll_up_continuous
    | WheelStop                         // mouse_scroll_stop
    | GazeScrollStart(controlEnabled: bool)  // mouse_gaze_scroll
    | GazeScrollCursorStart             // mouse_gaze_scroll_cursor
    | Tick(zoomIdle: bool)              // scroll_continuous_helper
    | Pop(zoomEnabled: bool, zoomNoiseTag: bool)  // noise_trigger_pop
    | MouseSleep                        // mouse_sleep
    | MouseWake                         // mouse_wake
    | ShowCursor                        // mouse_show_cursor
    | HideCursor                        // mouse_hide_cursor
    | MouseDrag(button: nat)            // mouse_drag
    | MouseDragEnd                      // mouse_drag_end
    | MoveCenter(rect: Rect)            // mouse_move_center_active_window

  /** A command together with the settings in force when it runs. */
  datatype Event = Event(settings: Settings, command: Command)

  function Apply(st: State, s: Settings, c: Command): Step
  {
    match c
    case WheelDown(n) => ScrollDown(st, s, n)
    case WheelUp(n) => ScrollUp(st, s, n)
    case WheelLeft(n) => ScrollHorizontal(st, s, n, false)
    case WheelRight(n) => ScrollHorizontal(st, s, n, true)
    case WheelDownContinuous => ScrollContinuous(st, s, ModeDown, s.continuousScrollAmount)
    case WheelUpContinuous => ScrollContinuous(st, s, ModeUp, -s.continuousScrollAmount)
    case WheelStop => StopScroll(st)
    case GazeScrollStart(enabled) => GazeScroll(st, s, enabled)
    case GazeScrollCursorStart => GazeScrollCursor(st, s)
    case Tick(idle) => ScrollTick(st, idle)
    case Pop(zoom, tag) => NoiseTriggerPop(st, s, zoom, tag)
    case MouseSleep => Sleep(st)
    case MouseWake => Wake(st, s)
    case ShowCursor => Step(st, [CursorVisible(true)])
    case HideCursor => Step(st, [CursorVisible(false)])
    case MouseDrag(b) => Drag(st, b)
    case MouseDragEnd => DragEnd(st)
    case MoveCenter(r) => Step(st, [MouseMove(Center(r).x, Center(r).y)])
  }

  /** The events in order: the final state and every host call made. */
  function Run(st: State, evs: seq<Event>): Step
    decreases |evs|
  {
    if evs == [] then Step(st, [])
    else
      var first := Apply(st, evs[0].settings, evs[0].command);
      var rest := Run(first.st, evs[1..]);
      Step(rest.st, first.out + rest.out)
  }

  /** What holds of every reachable state: control mouse is only recorded as
      forced while gaze scroll runs; a velocity needs a mode and a mode needs
      the scroll ticker; and the only modes that persist are the two
      continuous ones (the gaze label never survives its own command). */
  predicate Inv(st: State)
  {
    && (st.forced ==> st.gazeJob)
    && (st.amount != 0 ==> st.mode != ModeNone)
    && (st.mode != ModeNone ==> st.scrollJob)
    && st.mode != ModeGaze
  }

  lemma ApplyPreservesInv(st: State, s: Settings, c: Command)
    requires Inv(st)
    ensures Inv(Apply(st, s, c).st)
  {
    match c
    case WheelDownContinuous =>
      ScrollContinuousSpec(st, s, ModeDown, s.continuousScrollAmount, GuiHide);
    case WheelUpContinuous =>
      ScrollContinuousSpec(st, s, ModeUp, -s.continuousScrollAmount, GuiHide);
    case GazeScrollStart(enabled) =>
      GazeScrollSpec(st, s, enabled, GuiHide);
    case GazeScrollCursorStart =>
      GazeScrollCursorSpec(st, s, GuiHide);
    case _ =>
  }

  lemma {:induction false} RunPreservesInv(st: State, evs: seq<Event>)
    requires Inv(st)
    ensures Inv(Run(st, evs).st)
    decreases |evs|
  {
    if evs != [] {
      ApplyPreservesInv(st, evs[0].settings, evs[0].command);
      RunPreservesInv(Apply(st, evs[0].settings, evs[0].command).st, evs[1..]);
    }
  }

  /** In every reachable state the mode label is never "gaze scroll", and a
      velocity or a mode means the scroll ticker is installed. */
  lemma ReachableStates(evs: seq<Event>)
    ensures Inv(Run(Initial, evs).st)
    ensures Run(Initial, evs).st.mode != ModeGaze
    ensures Run(Initial, evs).st.amount != 0 ==> Run(Initial, evs).st.scrollJob
  {
    RunPreservesInv(Initial, evs);
  }

  /** A tick that arrives while no scroll ticker is installed does nothing. */
  lemma TickSilentWithoutScrollJob(st: State, zoomIdle: bool)
    requires Inv(st) && !st.scrollJob
    ensures ScrollTick(st, zoomIdle) == Step(st, [])
  {
  }

  /** Effects that neither schedule nor cancel a job of kind `j`. */
  lemma JobFree(out: seq<Effect>, j: Job)
    requires StartJob(j) !in out && CancelJob(j) !in out
    ensures Live(out, j) == 0
  {
    CountAbsent(out, StartJob(j));
    CountAbsent(out, CancelJob(j));
  }

  lemma StopScrollJobs(st: State, j: Job)
    ensures Live(StopScroll(st).out, j) == -B2I(HasJob(st, j))
  {
    StopScrollSpec(st, StartJob(j));
    StopScrollSpec(st, CancelJob(j));
  }

  lemma ScrollContinuousJobs(st: State, s: Settings, mode: Mode, amount: int, j: Job)
    requires mode != ModeNone
    ensures Live(ScrollContinuous(st, s, mode, amount).out, j) ==
              B2I(HasJob(ScrollContinuous(st, s, mode, amount).st, j)) - B2I(HasJob(st, j))
  {
    ScrollContinuousSpec(st, s, mode, amount, StartJob(j));
    ScrollContinuousSpec(st, s, mode, amount, CancelJob(j));
  }

  lemma GazeScrollJobs(st: State, s: Settings, enabled: bool, j: Job)
    ensures Live(GazeScroll(st, s, enabled).out, j) == B2I(HasJob(GazeScroll(st, s, enabled).st, j)) - B2I(HasJob(st, j))
    ensures Live(GazeScrollCursor(st, s).out, j) == B2I(HasJob(GazeScrollCursor(st, s).st, j)) - B2I(HasJob(st, j))
  {
    GazeScrollSpec(st, s, enabled, StartJob(j));
    GazeScrollSpec(st, s, enabled, CancelJob(j));
    GazeScrollCursorSpec(st, s, StartJob(j));
    GazeScrollCursorSpec(st, s, CancelJob(j));
    StopScrollJobs(st, j);
  }

  lemma PrologueJobFree(j: Job)
    ensures Live(SleepPrologue, j) == 0
  {
    JobFree(SleepPrologue, j);
  }

  lemma SleepJobs(st: State, j: Job)
    ensures Live(Sleep(st).out, j) == -B2I(HasJob(st, j))
  {
    SleepSpec(st, StartJob(j));
    SleepSpec(st, CancelJob(j));
    StopScrollJobs(st, j);
    PrologueJobFree(j);
  }

  lemma DragJobs(st: State, b: nat, j: Job)
    ensures Live(Drag(st, b).out, j) == 0 && Live(DragEnd(st).out, j) == 0
  {
    JobFree(Releases(st.held), j);
    JobFree([ButtonDown(b)], j);
  }

  lemma PopJobs(st: State, s: Settings, zoom: bool, tag: bool, j: Job)
    ensures Live(NoiseTriggerPop(st, s, zoom, tag).out, j) ==
              B2I(HasJob(NoiseTriggerPop(st, s, zoom, tag).st, j)) - B2I(HasJob(st, j))
  {
    if PopStops(st, s) {
      StopScrollJobs(st, j);
    } else {
      NoiseTriggerPopSpec(st, s, zoom, tag);
      JobFree(NoiseTriggerPop(st, s, zoom, tag).out, j);
    }
  }

  /** The commands that leave both job flags alone: wheel clicks, ticks,
      cursor and window commands. */
  predicate Quiet(c: Command)
  {
    c.WheelDown? || c.WheelUp? || c.WheelLeft? || c.WheelRight? || c.Tick? || c.MouseWake?
    || c.ShowCursor? || c.HideCursor? || c.MoveCenter?
  }

  lemma QuietJobs(st: State, s: Settings, c: Command, j: Job)
    requires Quiet(c)
    ensures Live(Apply(st, s, c).out, j) == 0
    ensures HasJob(Apply(st, s, c).st, j) == HasJob(st, j)
  {
    JobFree(Apply(st, s, c).out, j);
  }

  /** Each command schedules a job only when none of its kind is installed
      and cancels one only when one is: the change in running jobs equals the
      change in the installed flag. */
  lemma ApplyJobAccounting(st: State, s: Settings, c: Command, j: Job)
    ensures Live(Apply(st, s, c).out, j) == B2I(HasJob(Apply(st, s, c).st, j)) - B2I(HasJob(st, j))
  {
    if Quiet(c) {
      QuietJobs(st, s, c, j);
    } else {
      match c
      case WheelDownContinuous => ScrollContinuousJobs(st, s, ModeDown, s.continuousScrollAmount, j);
      case WheelUpContinuous => ScrollContinuousJobs(st, s, ModeUp, -s.continuousScrollAmount, j);
      case WheelStop => StopScrollJobs(st, j);
      case GazeScrollStart(enabled) => GazeScrollJobs(st, s, enabled, j);
      case GazeScrollCursorStart => GazeScrollJobs(st, s, true, j);
      case Pop(zoom, tag) => PopJobs(st, s, zoom, tag, j);
      case MouseSleep => SleepJobs(st, j);
      case MouseDrag(b) => DragJobs(st, b, j);
      case MouseDragEnd => DragJobs(st, 0, j);
    }
  }

  lemma {:induction false} RunJobAccounting(st: State, evs: seq<Event>, j: Job)
    ensures Live(Run(st, evs).out, j) == B2I(HasJob(Run(st, evs).st, j)) - B2I(HasJob(st, j))
    decreases |evs|
  {
    if evs == [] {
      CountAbsent([], StartJob(j));
      CountAbsent([], CancelJob(j));
    } else {
      var first := Apply(st, evs[0].settings, evs[0].command);
      ApplyJobAccounting(st, evs[0].settings, evs[0].command, j);
      RunJobAccounting(first.st, evs[1..], j);
      LiveAppend(first.out, Run(first.st, evs[1..]).out, j);
    }
  }

  /** From the initial globals, at most one job of each kind is ever running,
      and the plugin's handle says exactly whether it is: no ticker is leaked
      by a second schedule, and none is cancelled twice. */
  lemma NoJobLeaks(evs: seq<Event>, j: Job)
    ensures Live(Run(Initial, evs).out, j) == B2I(HasJob(Run(Initial, evs).st, j))
    ensures 0 <= Live(Run(Initial, evs).out, j) <= 1
  {
    RunJobAccounting(Initial, evs, j);
  }

  /** `k` copies of one event. */
  function Repeat(e: Event, k: nat): seq<Event>
  {
    if k == 0 then [] else [e] + Repeat(e, k - 1)
  }

  function ContinuousCommand(up: bool): Command
  {
    if up then WheelUpContinuous else WheelDownContinuous
  }

  function ContinuousMode(up: bool): Mode
  {
    if up then ModeUp else ModeDown
  }

  /** The signed amount one continuous command accumulates. */
  function ContinuousAmount(s: Settings, up: bool): int
  {
    if up then -s.continuousScrollAmount else s.continuousScrollAmount
  }

  /** The globals after one continuous command: its mode, the velocity
      accumulated with its amount, and the scroll ticker installed. */
  function Advance(st: State, s: Settings, up: bool): State
  {
    st.(mode := ContinuousMode(up), amount := Accumulate(st.amount, ContinuousAmount(s, up)), scrollJob := true)
  }

  /** Whether the velocity is zero or already points the command's way. */
  predicate Aligned(st: State, s: Settings, up: bool)
  {
    st.amount == 0 || (st.amount >= 0) == (ContinuousAmount(s, up) >= 0)
  }

  /** One continuous command moves to `Advance` and schedules the ticker only
      if it was not installed; from an aligned velocity it adds the setting,
      and it always leaves the velocity aligned. */
  lemma ContinuousStep(st: State, s: Settings, up: bool)
    ensures Apply(st, s, ContinuousCommand(up)).st == Advance(st, s, up)
    ensures Count(Apply(st, s, ContinuousCommand(up)).out, StartJob(ScrollTicker)) == B2I(!st.scrollJob)
    ensures Aligned(st, s, up) ==> Advance(st, s, up).amount == st.amount + ContinuousAmount(s, up)
    ensures Aligned(Advance(st, s, up), s, up)
  {
    ScrollContinuousSpec(st, s, ContinuousMode(up), ContinuousAmount(s, up), StartJob(ScrollTicker));
  }

  lemma RunCons(st: State, e: Event, evs: seq<Event>)
    ensures Run(st, [e] + evs) ==
              Step(Run(Apply(st, e.settings, e.command).st, evs).st,
                   Apply(st, e.settings, e.command).out + Run(Apply(st, e.settings, e.command).st, evs).out)
  {
    assert ([e] + evs)[0] == e && ([e] + evs)[1..] == evs;
  }

  /** Running no copies of `ev` changes nothing and calls nothing. */
  lemma RunRepeatZero(st: State, ev: Event)
    ensures Run(st, Repeat(ev, 0)) == Step(st, [])
  {
  }

  /** Running `k > 0` copies of `ev` is running one, then the other `k - 1`. */
  lemma RunRepeat(st: State, ev: Event, k: nat)
    requires k > 0
    ensures Run(st, Repeat(ev, k)).st == Run(Apply(st, ev.settings, ev.command).st, Repeat(ev, k - 1)).st
    ensures Run(st, Repeat(ev, k)).out ==
              Apply(st, ev.settings, ev.command).out + Run(Apply(st, ev.settings, ev.command).st, Repeat(ev, k - 1)).out
  {
    assert Repeat(ev, k) == [ev] + Repeat(ev, k - 1);
    RunCons(st, ev, Repeat(ev, k - 1));
  }

  /** The first of `k > 0` continuous commands, as `Advance` and the ticker
      schedules it makes. */
  lemma ContinuousRunStep(st: State, s: Settings, up: bool, k: nat)
    requires k > 0
    ensures Run(st, Repeat(Event(s, ContinuousCommand(up)), k)).st ==
              Run(Advance(st, s, up), Repeat(Event(s, ContinuousCommand(up)), k - 1)).st
    ensures Count(Run(st, Repeat(Event(s, ContinuousCommand(up)), k)).out, StartJob(ScrollTicker)) ==
              B2I(!st.scrollJob) + Count(Run(Advance(st, s, up), Repeat(Event(s, ContinuousCommand(up)), k - 1)).out, StartJob(ScrollTicker))
  {
    var ev := Event(s, ContinuousCommand(up));
    var first := Apply(st, s, ContinuousCommand(up));
    ContinuousStep(st, s, up);
    RunRepeat(st, ev, k);
    CountAppend(first.out, Run(first.st, Repeat(ev, k - 1)).out, StartJob(ScrollTicker));
  }

  /** Saying "scroll down continuous" (or up) `k` times in a row adds `k` times
      the setting to a velocity already pointing that way (or zero) and sets
      the mode. */
  lemma {:induction false} RepeatedContinuous(st: State, s: Settings, up: bool, k: nat)
    requires Aligned(st, s, up)
    ensures Run(st, Repeat(Event(s, ContinuousCommand(up)), k)).st.amount == st.amount + k * ContinuousAmount(s, up)
    ensures k > 0 ==> Run(st, Repeat(Event(s, ContinuousCommand(up)), k)).st.scrollJob
    ensures k > 0 ==> Run(st, Repeat(Event(s, ContinuousCommand(up)), k)).st.mode == ContinuousMode(up)
    decreases k
  {
    if k > 0 {
      var a := ContinuousAmount(s, up);
      ContinuousRunStep(st, s, up, k);
      ContinuousStep(st, s, up);
      RepeatedContinuous(Advance(st, s, up), s, up, k - 1);
      assert k * a == a + (k - 1) * a;
      if k == 1 {
        RunRepeatZero(Advance(st, s, up), Event(s, ContinuousCommand(up)));
      }
    }
  }

  /** However often the continuous command is repeated, and whichever way
      the velocity pointed before, the scroll ticker is scheduled at most
      once: by the first command, and only when it was not already running. */
  lemma {:induction false} RepeatedContinuousSchedulesOnce(st: State, s: Settings, up: bool, k: nat)
    ensures Count(Run(st, Repeat(Event(s, ContinuousCommand(up)), k)).out, StartJob(ScrollTicker)) ==
              if k == 0 || st.scrollJob then 0 else 1
    decreases k
  {
    if k == 0 {
      RunRepeatZero(st, Event(s, ContinuousCommand(up)));
    } else {
      ContinuousRunStep(st, s, up, k);
      RepeatedContinuousSchedulesOnce(Advance(st, s, up), s, up, k - 1);
    }
  }
}
