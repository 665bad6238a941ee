/**
 The host side of the mouse plugin: what the plugin can ask the host to do
 (recorded as effects), the settings it reads, and the window geometry it uses.
 */
module Host {

  /** The two periodic callbacks the plugin installs with the host's scheduler. */
  datatype Job = ScrollTicker | GazeTicker

  /** One call into the host, in the order the plugin makes it. */
  datatype Effect =
    | Scroll(y: int, x: int)           // actions.mouse_scroll
    | ControlToggle(on: bool)          // actions.tracking.control_toggle
    | ControlZoomToggle(on: bool)      // actions.tracking.control_zoom_toggle
    | Control1Toggle(on: bool)         // actions.tracking.control1_toggle
    | CursorVisible(show: bool)        // show_cursor_helper
    | GuiShow                          // gui_wheel.show
    | GuiHide                          // gui_wheel.hide
    | StartJob(job: Job)               // cron.interval("60ms", ...)
    | CancelJob(job: Job)              // cron.cancel
    | ButtonDown(button: nat)          // ctrl.mouse_click(button, down=True)
    | ButtonUp(button: nat)            // ctrl.mouse_click(button, up=True)
    | Click(button: nat, hold: nat)    // ctrl.mouse_click(button, hold=...)
    | ZoomPop                          // the zoom mouse's own pop handler
    | MoveToGaze                       // actions.user.move_cursor_to_gaze_point
    | MouseMove(mx: real, my: real)    // ctrl.mouse_move

  /** How long a pop click holds the button, in microseconds. */
  const PopClickHold: nat := 16000

  /** The integer settings the plugin reads at the moment a command runs. */
  datatype Settings = Settings(
    popClick: int,               // user.mouse_enable_pop_click
    popStopsScroll: int,         // user.mouse_enable_pop_stops_scroll
    wakeHidesCursor: int,        // user.mouse_wake_hides_cursor
    hideMouseGui: int,           // user.mouse_hide_mouse_gui
    continuousScrollAmount: int, // user.mouse_continuous_scroll_amount
    wheelDownAmount: int,        // user.mouse_wheel_down_amount
    wheelHorizontalAmount: int)  // user.mouse_wheel_horizontal_amount

  /** The settings' declared defaults. */
  const Defaults: Settings := Settings(0, 0, 0, 0, 80, 120, 40)

  /** How many times `e` occurs in `out`. */
  function Count(out: seq<Effect>, e: Effect): nat
  {
    if out == [] then 0 else (if out[0] == e then 1 else 0) + Count(out[1..], e)
  }

  lemma {:induction false} CountAppend(a: seq<Effect>, b: seq<Effect>, e: Effect)
    ensures Count(a + b, e) == Count(a, e) + Count(b, e)
  {
    if a == [] {
      assert a + b == b;
    } else {
      assert (a + b)[1..] == a[1..] + b;
      CountAppend(a[1..], b, e);
    }
  }

  lemma {:induction false} CountAbsent(out: seq<Effect>, e: Effect)
    requires e !in out
    ensures Count(out, e) == 0
  {
    if out != [] {
      assert out[0] != e;
      assert forall x :: x in out[1..] ==> x in out;
      CountAbsent(out[1..], e);
    }
  }

  /** `[x]` when `c` holds, else nothing. */
  function Opt(c: bool, x: Effect): seq<Effect>
  {
    if c then [x] else []
  }

  lemma CountOpt(c: bool, x: Effect, e: Effect)
    ensures Count(Opt(c, x), e) == B2I(c && x == e)
  {
    if c {
      assert [x][1..] == [];
    }
  }

  /** The number of jobs of kind `j` that the effects `out` leave running:
      schedules minus cancellations. */
  function Live(out: seq<Effect>, j: Job): int
  {
    Count(out, StartJob(j)) - Count(out, CancelJob(j))
  }

  lemma LiveAppend(a: seq<Effect>, b: seq<Effect>, j: Job)
    ensures Live(a + b, j) == Live(a, j) + Live(b, j)
  {
    CountAppend(a, b, StartJob(j));
    CountAppend(a, b, CancelJob(j));
  }

  function B2I(b: bool): int
  {
    if b then 1 else 0
  }
}
