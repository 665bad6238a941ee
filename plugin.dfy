/**
 The plugin as the host runs it: one object holding the module globals that
 the command handlers and helpers rewrite in place, the buttons the host
 reports as held, and the log of every host call made so far.

 Each method does what its handler does, statement by statement, and is
 proved to land on the state and emit the host calls of the matching pure
 transition in `MouseControl`. The actions the host calls also keep
 `Valid`; the longer ones do their statements in a `...Steps` method, which
 holds on any globals, and add the invariant on top.
 */
module MousePlugin {
  import opened Host
  import opened Window
  import opened MouseControl
  import opened Traces

  /** Appending in steps is appending the parts joined. */
  lemma Assoc(a: seq<Effect>, b: seq<Effect>, c: seq<Effect>)
    ensures a + b + c == a + (b + c)
  {
  }

  /** Between any two commands the globals satisfy the reachable-state
      invariant, and the log shows exactly one unmatched schedule for each
      installed job and none for the others. */
  predicate Accounted(st: State, log: seq<Effect>)
  {
    Inv(st) && Live(log, ScrollTicker) == B2I(st.scrollJob) && Live(log, GazeTicker) == B2I(st.gazeJob)
  }

  /** Running one command on accounted globals keeps them accounted. */
  lemma CommandKeepsAccounted(st: State, log: seq<Effect>, s: Settings, c: Command)
    requires Accounted(st, log)
    ensures Accounted(Apply(st, s, c).st, log + Apply(st, s, c).out)
  {
    ApplyPreservesInv(st, s, c);
    ApplyJobAccounting(st, s, c, ScrollTicker);
    ApplyJobAccounting(st, s, c, GazeTicker);
    LiveAppend(log, Apply(st, s, c).out, ScrollTicker);
    LiveAppend(log, Apply(st, s, c).out, GazeTicker);
  }

  /** A plugin whose globals and log are those `r` leaves after running `c`
      on accounted globals `st` and log `log` is valid again. */
  lemma Settle(p: Plugin, st: State, log: seq<Effect>, s: Settings, c: Command, r: Step)
    requires Accounted(st, log) && r == Apply(st, s, c)
    requires p.Snapshot() == r.st && p.effects == log + r.out
    ensures p.Valid()
  {
    CommandKeepsAccounted(st, log, s, c);
  }

  class Plugin {
    var scrollAmount: int           // scroll_amount
    var continuousScrollMode: Mode  // continuous_scoll_mode
    var scrollJob: bool             // scroll_job is not None
    var gazeJob: bool               // gaze_job is not None
    var controlMouseForced: bool    // control_mouse_forced
    var buttonsDown: seq<nat>       // ctrl.mouse_buttons_down(), kept by the host
    var effects: seq<Effect>        // every host call made, in order

    /** The globals as a snapshot. */
    function Snapshot(): State
      reads this`scrollAmount, this`continuousScrollMode, this`scrollJob, this`gazeJob,
            this`controlMouseForced, this`buttonsDown
    {
      State(scrollAmount, continuousScrollMode, scrollJob, gazeJob, controlMouseForced, buttonsDown)
    }

    predicate Valid()
      reads this
    {
      Accounted(Snapshot(), effects)
    }

    /** The module's initial globals, with no button held and no call made. */
    constructor ()
      ensures Snapshot() == Initial && effects == []
      ensures Valid()
    {
      scrollAmount := 0;
      continuousScrollMode := ModeNone;
      scrollJob := false;
      gazeJob := false;
      controlMouseForced := false;
      buttonsDown := [];
      effects := [];
      new;
      JobFree([], ScrollTicker);
      JobFree([], GazeTicker);
    }

    // -------------------------------------------------------------------
    // Helpers

    /** The closure `mouse_scroll(amount)` returns, called once. */
    method MouseScroll(amount: int)
      modifies this
      ensures Snapshot() == MouseControl.MouseScroll(old(Snapshot()), amount).st
      ensures effects == old(effects) + MouseControl.MouseScroll(old(Snapshot()), amount).out
    {
      if continuousScrollMode != ModeNone {
        if (scrollAmount >= 0) == (amount >= 0) {
          scrollAmount := scrollAmount + amount;
        } else {
          scrollAmount := amount;
        }
      }
      effects := effects + [Scroll(amount, 0)];
    }

    /** `scroll_continuous_helper`; `zoomIdle` is whether the zoom mouse is idle. */
    method ScrollContinuousHelper(zoomIdle: bool)
      requires Valid()
      modifies this
      ensures Snapshot() == ScrollTick(old(Snapshot()), zoomIdle).st
      ensures effects == old(effects) + ScrollTick(old(Snapshot()), zoomIdle).out
      ensures Valid()
    {
      TickSteps(zoomIdle);
      Settle(this, old(Snapshot()), old(effects), Defaults, Tick(zoomIdle), ScrollTick(old(Snapshot()), zoomIdle));
    }

    /** `scroll_continuous_helper`'s statements, on any globals; the action above adds `Valid`. */
    method TickSteps(zoomIdle: bool)
      modifies this
      ensures Snapshot() == ScrollTick(old(Snapshot()), zoomIdle).st
      ensures effects == old(effects) + ScrollTick(old(Snapshot()), zoomIdle).out
    {
      ghost var r := ScrollTick(Snapshot(), zoomIdle);
      if scrollAmount != 0 && zoomIdle {
        var delta := if scrollAmount >= 0 then scrollAmount / 10 else -((-scrollAmount) / 10);
        effects := effects + [Scroll(delta, 0)];
      }
      assert Snapshot() == r.st && effects == old(effects) + r.out;
    }

    /** `start_scroll`: install the scroll ticker. */
    method StartScroll()
      modifies this
      ensures Snapshot() == MouseControl.StartScroll(old(Snapshot())).st
      ensures effects == old(effects) + MouseControl.StartScroll(old(Snapshot())).out
    {
      effects := effects + [StartJob(ScrollTicker)];
      scrollJob := true;
    }

    /** `stop_scroll`. */
    method StopScroll()
      modifies this
      ensures Snapshot() == MouseControl.StopScroll(old(Snapshot())).st
      ensures effects == old(effects) + MouseControl.StopScroll(old(Snapshot())).out
    {
      ghost var st0, log0 := Snapshot(), effects;
      ghost var a, b, c := Opt(st0.scrollJob, CancelJob(ScrollTicker)), Opt(st0.gazeJob, CancelJob(GazeTicker)),
                           Opt(st0.forced, ControlToggle(false));
      scrollAmount := 0;
      if scrollJob {
        effects := effects + [CancelJob(ScrollTicker)];
      }
      assert effects == log0 + a;
      if gazeJob {
        effects := effects + [CancelJob(GazeTicker)];
      }
      assert effects == log0 + a + b;
      Assoc(log0, a, b);
      if controlMouseForced {
        effects := effects + [ControlToggle(false)];
        controlMouseForced := false;
      }
      assert effects == log0 + (a + b) + c;
      Assoc(log0, a + b, c);
      scrollJob := false;
      gazeJob := false;
      effects := effects + [GuiHide];
      Assoc(log0, a + b + c, [GuiHide]);
      continuousScrollMode := ModeNone;
    }

    /** `start_cursor_scrolling`. */
    method StartCursorScrolling()
      modifies this
      ensures Snapshot() == MouseControl.StartCursorScrolling(old(Snapshot())).st
      ensures effects == old(effects) + MouseControl.StartCursorScrolling(old(Snapshot())).out
    {
      ghost var st0, log0 := Snapshot(), effects;
      StopScroll();
      effects := effects + [StartJob(GazeTicker)];
      Assoc(log0, MouseControl.StopScroll(st0).out, [StartJob(GazeTicker)]);
      gazeJob := true;
    }

    // -------------------------------------------------------------------
    // Voice actions

    method MouseShowCursor()
      requires Valid()
      modifies this
      ensures Snapshot() == old(Snapshot()) && effects == old(effects) + [CursorVisible(true)]
      ensures Valid()
    {
      effects := effects + [CursorVisible(true)];
      Settle(this, old(Snapshot()), old(effects), Defaults, ShowCursor, Step(old(Snapshot()), [CursorVisible(true)]));
    }

    method MouseHideCursor()
      requires Valid()
      modifies this
      ensures Snapshot() == old(Snapshot()) && effects == old(effects) + [CursorVisible(false)]
      ensures Valid()
    {
      effects := effects + [CursorVisible(false)];
      Settle(this, old(Snapshot()), old(effects), Defaults, HideCursor, Step(old(Snapshot()), [CursorVisible(false)]));
    }

    method MouseWake(s: Settings)
      requires Valid()
      modifies this
      ensures Snapshot() == Wake(old(Snapshot()), s).st
      ensures effects == old(effects) + Wake(old(Snapshot()), s).out
      ensures Valid()
    {
      WakeSteps(s);
      Settle(this, old(Snapshot()), old(effects), s, Traces.MouseWake, Wake(old(Snapshot()), s));
    }

    /** `mouse_wake`'s statements, on any globals; the action above adds `Valid`. */
    method WakeSteps(s: Settings)
      modifies this
      ensures Snapshot() == Wake(old(Snapshot()), s).st
      ensures effects == old(effects) + Wake(old(Snapshot()), s).out
    {
      ghost var r := Wake(Snapshot(), s);
      effects := effects + [ControlZoomToggle(true)];
      if s.wakeHidesCursor >= 1 {
        effects := effects + [CursorVisible(false)];
      }
      Assoc(old(effects), [ControlZoomToggle(true)], Opt(s.wakeHidesCursor >= 1, CursorVisible(false)));
      assert Snapshot() == r.st && effects == old(effects) + r.out;
    }

    /** `mouse_is_dragging`. */
    method MouseIsDragging() returns (dragging: bool)
      ensures dragging <==> buttonsDown != []
    {
      var buttonsHeldDown := buttonsDown;
      dragging := |buttonsHeldDown| > 0;
    }

    /** `mouse_drag_end`: release each button the host reported held, in
        order; the host stops reporting each one as it is released. */
    method MouseDragEnd()
      requires Valid()
      modifies this
      ensures Snapshot() == DragEnd(old(Snapshot())).st
      ensures effects == old(effects) + DragEnd(old(Snapshot())).out
      ensures Valid()
    {
      DragEndSteps();
      Settle(this, old(Snapshot()), old(effects), Defaults, Traces.MouseDragEnd, DragEnd(old(Snapshot())));
    }

    /** `mouse_drag_end`'s statements, on any globals; the action above adds `Valid`. */
    method DragEndSteps()
      modifies this
      ensures Snapshot() == DragEnd(old(Snapshot())).st
      ensures effects == old(effects) + DragEnd(old(Snapshot())).out
    {
      ghost var r := DragEnd(Snapshot());
      var buttonsHeldDown := buttonsDown;
      var i := 0;
      while i < |buttonsHeldDown|
        invariant 0 <= i <= |buttonsHeldDown|
        invariant buttonsDown == buttonsHeldDown[i..]
        invariant effects == old(effects) + Releases(buttonsHeldDown[..i])
        modifies this`effects, this`buttonsDown
      {
        var button := buttonsHeldDown[i];
        effects := effects + [ButtonUp(button)];
        buttonsDown := buttonsHeldDown[i + 1..];
        assert buttonsHeldDown[..i + 1][..i] == buttonsHeldDown[..i];
        Assoc(old(effects), Releases(buttonsHeldDown[..i]), [ButtonUp(button)]);
        i := i + 1;
      }
      assert buttonsHeldDown[..i] == buttonsHeldDown;
      assert Snapshot() == r.st && effects == old(effects) + r.out;
    }

    /** `mouse_drag(button)`: end a drag in progress, or press `button`. */
    method MouseDrag(button: nat)
      requires Valid()
      modifies this
      ensures Snapshot() == Drag(old(Snapshot()), button).st
      ensures effects == old(effects) + Drag(old(Snapshot()), button).out
      ensures Valid()
    {
      DragSteps(button);
      Settle(this, old(Snapshot()), old(effects), Defaults, Traces.MouseDrag(button), Drag(old(Snapshot()), button));
    }

    /** `mouse_drag`'s statements, on any globals; the action above adds `Valid`. */
    method DragSteps(button: nat)
      modifies this
      ensures Snapshot() == Drag(old(Snapshot()), button).st
      ensures effects == old(effects) + Drag(old(Snapshot()), button).out
    {
      ghost var r := Drag(Snapshot(), button);
      var dragging := MouseIsDragging();
      if dragging {
        DragEndSteps();
      } else {
        effects := effects + [ButtonDown(button)];
        buttonsDown := [button];
        assert Snapshot() == r.st && effects == old(effects) + r.out;
      }
    }

    /** `mouse_sleep`. */
    method MouseSleep()
      requires Valid()
      modifies this
      ensures Snapshot() == Sleep(old(Snapshot())).st
      ensures effects == old(effects) + Sleep(old(Snapshot())).out
      ensures Valid()
    {
      SleepSteps();
      Settle(this, old(Snapshot()), old(effects), Defaults, Traces.MouseSleep, Sleep(old(Snapshot())));
    }

    /** `mouse_sleep`'s statements, on any globals; the action above adds `Valid`. */
    method SleepSteps()
      modifies this
      ensures Snapshot() == Sleep(old(Snapshot())).st
      ensures effects == old(effects) + Sleep(old(Snapshot())).out
    {
      ghost var st0, log0 := Snapshot(), effects;
      effects := effects + [ControlZoomToggle(false)];
      effects := effects + [ControlToggle(false)];
      effects := effects + [Control1Toggle(false)];
      effects := effects + [CursorVisible(true)];
      assert effects == log0 + SleepPrologue;
      StopScroll();
      Assoc(log0, SleepPrologue, MouseControl.StopScroll(st0).out);
      ghost var log1 := effects;
      var buttonDown := |buttonsDown| > 0;
      if buttonDown {
        effects := effects + [ButtonUp(0)];
        buttonsDown := Without(buttonsDown, 0);
      }
      assert effects == log1 + Opt(st0.held != [], ButtonUp(0));
      Assoc(log0, SleepPrologue + MouseControl.StopScroll(st0).out, Opt(st0.held != [], ButtonUp(0)));
      assert Snapshot() == Sleep(st0).st && effects == log0 + Sleep(st0).out;
    }

    /** `mouse_scroll_down(n)`. */
    method MouseScrollDown(s: Settings, n: int)
      requires Valid()
      modifies this
      ensures Snapshot() == ScrollDown(old(Snapshot()), s, n).st
      ensures effects == old(effects) + ScrollDown(old(Snapshot()), s, n).out
      ensures Valid()
    {
      MouseScroll(n * s.wheelDownAmount);
      Settle(this, old(Snapshot()), old(effects), s, WheelDown(n), ScrollDown(old(Snapshot()), s, n));
    }

    /** `mouse_scroll_up(n)`. */
    method MouseScrollUp(s: Settings, n: int)
      requires Valid()
      modifies this
      ensures Snapshot() == ScrollUp(old(Snapshot()), s, n).st
      ensures effects == old(effects) + ScrollUp(old(Snapshot()), s, n).out
      ensures Valid()
    {
      MouseScroll(-n * s.wheelDownAmount);
      Settle(this, old(Snapshot()), old(effects), s, WheelUp(n), ScrollUp(old(Snapshot()), s, n));
    }

    /** The shared body of the two continuous commands. */
    method ScrollContinuously(s: Settings, mode: Mode, amount: int)
      requires mode != ModeNone
      modifies this
      ensures Snapshot() == ScrollContinuous(old(Snapshot()), s, mode, amount).st
      ensures effects == old(effects) + ScrollContinuous(old(Snapshot()), s, mode, amount).out
    {
      ghost var st0, log0 := Snapshot(), effects;
      ghost var scroll := [Scroll(amount, 0)];
      ghost var start := Opt(!st0.scrollJob, StartJob(ScrollTicker));
      continuousScrollMode := mode;
      MouseScroll(amount);
      ghost var log1 := effects;
      if !scrollJob {
        StartScroll();
      }
      assert effects == log1 + start;
      Assoc(log0, scroll, start);
      ghost var log2 := effects;
      if s.hideMouseGui == 0 {
        effects := effects + [GuiShow];
      }
      assert effects == log2 + ShowGui(s);
      Assoc(log0, scroll + start, ShowGui(s));
    }

    /** `mouse_scroll_down_continuous`. */
    method MouseScrollDownContinuous(s: Settings)
      requires Valid()
      modifies this
      ensures Snapshot() == ScrollContinuous(old(Snapshot()), s, ModeDown, s.continuousScrollAmount).st
      ensures effects == old(effects) + ScrollContinuous(old(Snapshot()), s, ModeDown, s.continuousScrollAmount).out
      ensures Valid()
    {
      ScrollContinuously(s, ModeDown, s.continuousScrollAmount);
      Settle(this, old(Snapshot()), old(effects), s, WheelDownContinuous, ScrollContinuous(old(Snapshot()), s, ModeDown, s.continuousScrollAmount));
    }

    /** `mouse_scroll_up_continuous`. */
    method MouseScrollUpContinuous(s: Settings)
      requires Valid()
      modifies this
      ensures Snapshot() == ScrollContinuous(old(Snapshot()), s, ModeUp, -s.continuousScrollAmount).st
      ensures effects == old(effects) + ScrollContinuous(old(Snapshot()), s, ModeUp, -s.continuousScrollAmount).out
      ensures Valid()
    {
      ScrollContinuously(s, ModeUp, -s.continuousScrollAmount);
      Settle(this, old(Snapshot()), old(effects), s, WheelUpContinuous, ScrollContinuous(old(Snapshot()), s, ModeUp, -s.continuousScrollAmount));
    }

    /** `mouse_scroll_left(n)`. */
    method MouseScrollLeft(s: Settings, n: int)
      requires Valid()
      modifies this
      ensures Snapshot() == ScrollHorizontal(old(Snapshot()), s, n, false).st
      ensures effects == old(effects) + ScrollHorizontal(old(Snapshot()), s, n, false).out
      ensures Valid()
    {
      effects := effects + [Scroll(0, -n * s.wheelHorizontalAmount)];
      Settle(this, old(Snapshot()), old(effects), s, WheelLeft(n), ScrollHorizontal(old(Snapshot()), s, n, false));
    }

    /** `mouse_scroll_right(n)`. */
    method MouseScrollRight(s: Settings, n: int)
      requires Valid()
      modifies this
      ensures Snapshot() == ScrollHorizontal(old(Snapshot()), s, n, true).st
      ensures effects == old(effects) + ScrollHorizontal(old(Snapshot()), s, n, true).out
      ensures Valid()
    {
      effects := effects + [Scroll(0, n * s.wheelHorizontalAmount)];
      Settle(this, old(Snapshot()), old(effects), s, WheelRight(n), ScrollHorizontal(old(Snapshot()), s, n, true));
    }

    /** `mouse_scroll_stop`. */
    method MouseScrollStop()
      requires Valid()
      modifies this
      ensures Snapshot() == MouseControl.StopScroll(old(Snapshot())).st
      ensures effects == old(effects) + MouseControl.StopScroll(old(Snapshot())).out
      ensures Valid()
    {
      StopScroll();
      Settle(this, old(Snapshot()), old(effects), Defaults, WheelStop, MouseControl.StopScroll(old(Snapshot())));
    }

    /** `mouse_gaze_scroll`; `controlEnabled` is the host's answer to
        `tracking.control_enabled()`. */
    method MouseGazeScroll(s: Settings, controlEnabled: bool)
      requires Valid()
      modifies this
      ensures Snapshot() == GazeScroll(old(Snapshot()), s, controlEnabled).st
      ensures effects == old(effects) + GazeScroll(old(Snapshot()), s, controlEnabled).out
      ensures Valid()
    {
      GazeScrollSteps(s, controlEnabled);
      Settle(this, old(Snapshot()), old(effects), s, GazeScrollStart(controlEnabled), GazeScroll(old(Snapshot()), s, controlEnabled));
    }

    /** `mouse_gaze_scroll`'s statements, on any globals; the action above adds `Valid`. */
    method GazeScrollSteps(s: Settings, controlEnabled: bool)
      modifies this
      ensures Snapshot() == GazeScroll(old(Snapshot()), s, controlEnabled).st
      ensures effects == old(effects) + GazeScroll(old(Snapshot()), s, controlEnabled).out
    {
      ghost var st0, log0 := Snapshot(), effects;
      ghost var start := MouseControl.StartCursorScrolling(st0.(mode := ModeGaze)).out;
      continuousScrollMode := ModeGaze;
      StartCursorScrolling();
      ghost var log1 := effects;
      if s.hideMouseGui == 0 {
        effects := effects + [GuiShow];
      }
      assert effects == log1 + ShowGui(s);
      Assoc(log0, start, ShowGui(s));
      assert Snapshot() == GazeScrollCursor(st0, s).st && effects == log0 + GazeScrollCursor(st0, s).out;
      ghost var log2 := effects;
      if !controlEnabled {
        effects := effects + [ControlToggle(true)];
        controlMouseForced := true;
      }
      assert effects == log2 + Opt(!controlEnabled, ControlToggle(true));
      Assoc(log0, start + ShowGui(s), Opt(!controlEnabled, ControlToggle(true)));
      assert Snapshot() == GazeScroll(st0, s, controlEnabled).st && effects == log0 + GazeScroll(st0, s, controlEnabled).out;
    }

    /** `mouse_gaze_scroll_cursor`. */
    method MouseGazeScrollCursor(s: Settings)
      requires Valid()
      modifies this
      ensures Snapshot() == GazeScrollCursor(old(Snapshot()), s).st
      ensures effects == old(effects) + GazeScrollCursor(old(Snapshot()), s).out
      ensures Valid()
    {
      GazeScrollCursorSteps(s);
      Settle(this, old(Snapshot()), old(effects), s, GazeScrollCursorStart, GazeScrollCursor(old(Snapshot()), s));
    }

    /** `mouse_gaze_scroll_cursor`'s statements, on any globals; the action above adds `Valid`. */
    method GazeScrollCursorSteps(s: Settings)
      modifies this
      ensures Snapshot() == GazeScrollCursor(old(Snapshot()), s).st
      ensures effects == old(effects) + GazeScrollCursor(old(Snapshot()), s).out
    {
      ghost var st0, log0 := Snapshot(), effects;
      ghost var start := MouseControl.StartCursorScrolling(st0.(mode := ModeGaze)).out;
      continuousScrollMode := ModeGaze;
      StartCursorScrolling();
      ghost var log1 := effects;
      if s.hideMouseGui == 0 {
        effects := effects + [GuiShow];
      }
      assert effects == log1 + ShowGui(s);
      Assoc(log0, start, ShowGui(s));
      assert Snapshot() == GazeScrollCursor(st0, s).st && effects == log0 + GazeScrollCursor(st0, s).out;
    }

    /** `mouse_move_center_active_window`, given the active window's rectangle. */
    method MouseMoveCenterActiveWindow(rect: Rect)
      requires Valid()
      modifies this
      ensures Snapshot() == old(Snapshot())
      ensures effects == old(effects) + [MouseMove(Center(rect).x, Center(rect).y)]
      ensures Valid()
    {
      effects := effects + [MouseMove(rect.left + (rect.width / 2.0), rect.top + (rect.height / 2.0))];
      Settle(this, old(Snapshot()), old(effects), Defaults, MoveCenter(rect), Step(old(Snapshot()), [MouseMove(Center(rect).x, Center(rect).y)]));
    }

    /** `noise_trigger_pop`; `zoomEnabled` is `tracking.control_zoom_enabled()`
        and `zoomNoiseTag` whether the zoom mouse's noise tag is active. */
    method NoiseTriggerPop(s: Settings, zoomEnabled: bool, zoomNoiseTag: bool)
      requires Valid()
      modifies this
      ensures Snapshot() == MouseControl.NoiseTriggerPop(old(Snapshot()), s, zoomEnabled, zoomNoiseTag).st
      ensures effects == old(effects) + MouseControl.NoiseTriggerPop(old(Snapshot()), s, zoomEnabled, zoomNoiseTag).out
      ensures Valid()
    {
      PopSteps(s, zoomEnabled, zoomNoiseTag);
      Settle(this, old(Snapshot()), old(effects), s, Pop(zoomEnabled, zoomNoiseTag), MouseControl.NoiseTriggerPop(old(Snapshot()), s, zoomEnabled, zoomNoiseTag));
    }

    /** `noise_trigger_pop`'s statements, on any globals; the action above adds `Valid`. */
    method PopSteps(s: Settings, zoomEnabled: bool, zoomNoiseTag: bool)
      modifies this
      ensures Snapshot() == MouseControl.NoiseTriggerPop(old(Snapshot()), s, zoomEnabled, zoomNoiseTag).st
      ensures effects == old(effects) + MouseControl.NoiseTriggerPop(old(Snapshot()), s, zoomEnabled, zoomNoiseTag).out
    {
      ghost var r := MouseControl.NoiseTriggerPop(Snapshot(), s, zoomEnabled, zoomNoiseTag);
      if s.popStopsScroll >= 1 && (gazeJob || scrollJob) {
        StopScroll();
      } else if !zoomEnabled {
        if s.popClick >= 1 {
          effects := effects + [Click(0, PopClickHold)];
        }
      } else if zoomEnabled {
        if zoomNoiseTag {
          effects := effects + [ZoomPop];
        } else {
          effects := effects + [MoveToGaze];
        }
      }
      assert Snapshot() == r.st && effects == old(effects) + r.out;
    }
  }
}
