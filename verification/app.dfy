/**
 The frame loop of src/lib.rs: the closure `run_window_event_loop` hands to
 winit, as a pure step over an event, the application state and the
 control-flow flag, producing the calls it makes as effects.
 */
module App {
  import opened Prelude
  import opened Gpu
  import opened Window
  import opened RenderState

  datatype LogLevel = Warn

  /** What one call of the handler does beyond updating the state and the flag. */
  datatype Effect =
    | ConfigureSurface(config: SurfaceConfiguration)   // surface.configure inside State::resize
    | Rendered(commands: seq<Command>)                 // the trace of one State::render call
    | RequestRedraw(window: WindowId)                  // window.request_redraw()
    | Log(level: LogLevel, message: string)            // log::warn!

  datatype Transition = Transition(state: State, flow: ControlFlow, effects: seq<Effect>)

  /**
   One event, together with what `surface.get_current_texture()` answers
   should the handler render in response to it.
   */
  datatype Tick = Tick(event: Event, acquired: Result<SurfaceTexture, SurfaceError>)

  /**
   `State::new(&window).await.unwrap()`: the loop starts only from a
   successfully built state; an error or a panic in `new` ends the program.
   */
  function Launch(p: Platform): (r: Option<State>)
    ensures r.Some? <==> New(p).Built?
    ensures r.Some? ==> r.value == New(p).state && Consistent(r.value)
  {
    match New(p)
    case Built(s) => Some(s)
    case Failed(_) => None
    case Panicked => None
  }

  function ConfigureEffects(cs: seq<SurfaceConfiguration>): (r: seq<Effect>)
    ensures |r| == |cs|
    ensures forall i :: 0 <= i < |r| ==> r[i] == ConfigureSurface(cs[i])
  {
    seq(|cs|, i requires 0 <= i < |cs| => ConfigureSurface(cs[i]))
  }

  /** `state.resize(n)` as a step: the new state and the surface configuration it issues. */
  function ResizeStep(s: State, flow: ControlFlow, n: PhysicalSize): Transition
  {
    Transition(Resize(s, n), flow, ConfigureEffects(ResizeCalls(s, n)))
  }

  /** True of an event addressed to a window other than the application's. */
  predicate Foreign(window: WindowId, e: Event)
  {
    (e.WindowEventFor? || e.RedrawRequested?) && e.windowId != window
  }

  /** The inner `match` on a window event of the application's window. */
  function HandleWindowEvent(s: State, flow: ControlFlow, e: WindowEvent): (r: Transition)
    ensures forall i :: 0 <= i < |r.effects| ==> !r.effects[i].RequestRedraw?
  {
    match e
    case CloseRequested => Transition(s, Exit, [])
    case KeyboardEvent(input) =>
      if IsEscapePress(input) then Transition(s, Exit, []) else Transition(s, flow, [])
    case Resized(n) => ResizeStep(s, flow, n)
    case ScaleFactorChanged(n) => ResizeStep(s, flow, n)
    case OtherWindowEvent => Transition(s, flow, [])
  }

  /** Redrawing the application's window: update, render, then react to the render result. */
  function HandleRedraw(s: State, flow: ControlFlow, acquired: Result<SurfaceTexture, SurfaceError>): (r: Transition)
    ensures forall i :: 0 <= i < |r.effects| ==> !r.effects[i].RequestRedraw?
  {
    var s1 := Update(s);
    var out := Render(s1, acquired);
    var rendered := [Rendered(out.commands)];
    match out.result
    case Ok(_) => Transition(s1, flow, rendered)
    case Err(Lost) | Err(Outdated) =>
      var t := ResizeStep(s1, flow, s1.size);
      Transition(t.state, t.flow, rendered + t.effects)
    case Err(OutOfMemory) => Transition(s1, Exit, rendered)
    case Err(Timeout) => Transition(s1, flow, rendered + [Log(Warn, "Surface timeout")])
  }

  /** The number of redraw requests among `effects`. */
  function CountRedrawRequests(effects: seq<Effect>): nat
  {
    if |effects| == 0 then 0
    else (if effects[0].RequestRedraw? then 1 else 0) + CountRedrawRequests(effects[1..])
  }

  lemma {:induction false} NoRedrawRequests(effects: seq<Effect>)
    requires forall i :: 0 <= i < |effects| ==> !effects[i].RequestRedraw?
    ensures CountRedrawRequests(effects) == 0
  {
    if |effects| > 0 {
      NoRedrawRequests(effects[1..]);
    }
  }

  /**
   True of the events that make the handler write `Exit`: a close request
   or an Escape press for the application's window, or a redraw of it
   whose frame acquisition ran out of memory.
   */
  predicate ExitTrigger(window: WindowId, tick: Tick)
  {
    match tick.event
    case WindowEventFor(id, e) =>
      id == window && (e.CloseRequested? || (e.KeyboardEvent? && IsEscapePress(e.input)))
    case RedrawRequested(id) => id == window && tick.acquired == Err(OutOfMemory)
    case RedrawEventsCleared => false
    case OtherEvent => false
  }

  /** The handler closure, called by winit once per event. */
  function Step(window: WindowId, s: State, flow: ControlFlow, tick: Tick): (r: Transition)
    ensures flow == Exit ==> r.flow == Exit
    ensures r.flow == flow || r.flow == Exit
    ensures r.flow != flow <==> flow != Exit && ExitTrigger(window, tick)
    ensures Foreign(window, tick.event) ==> r == Transition(s, flow, [])
    ensures Consistent(s) ==> Consistent(r.state)
    ensures Accepts(s.size) ==> Accepts(r.state.size)
    ensures SameApartFromSize(s, r.state)
    ensures CountRedrawRequests(r.effects) == (if tick.event.RedrawEventsCleared? then 1 else 0)
    ensures forall i :: 0 <= i < |r.effects| && r.effects[i].RequestRedraw? ==> r.effects[i].window == window
  {
    match tick.event
    case WindowEventFor(id, e) =>
      if id == window then
        var inp := Input(s, e);
        if !inp.consumed then
          var t := HandleWindowEvent(inp.state, flow, e);
          NoRedrawRequests(t.effects);
          t
        else Transition(inp.state, flow, [])
      else Transition(s, flow, [])
    case RedrawRequested(id) =>
      if id == window then
        var t := HandleRedraw(s, flow, tick.acquired);
        NoRedrawRequests(t.effects);
        t
      else Transition(s, flow, [])
    case RedrawEventsCleared => Transition(s, flow, [RequestRedraw(window)])
    case OtherEvent => Transition(s, flow, [])
  }

  /** The handler applied to each of `ticks` in turn, effects concatenated in order. */
  function Run(window: WindowId, s: State, flow: ControlFlow, ticks: seq<Tick>): (r: Transition)
    ensures flow == Exit ==> r.flow == Exit
    ensures r.flow == flow || r.flow == Exit
    ensures Consistent(s) ==> Consistent(r.state)
    ensures Accepts(s.size) ==> Accepts(r.state.size)
    ensures SameApartFromSize(s, r.state)
    decreases |ticks|
  {
    if |ticks| == 0 then Transition(s, flow, [])
    else
      var t := Step(window, s, flow, ticks[0]);
      var rest := Run(window, t.state, t.flow, ticks[1..]);
      Transition(rest.state, rest.flow, t.effects + rest.effects)
  }

  /** The number of `RedrawEventsCleared` events among `ticks`. */
  function CountCleared(ticks: seq<Tick>): nat
  {
    if |ticks| == 0 then 0
    else (if ticks[0].event.RedrawEventsCleared? then 1 else 0) + CountCleared(ticks[1..])
  }

  lemma {:induction false} CountRedrawRequestsAppend(a: seq<Effect>, b: seq<Effect>)
    ensures CountRedrawRequests(a + b) == CountRedrawRequests(a) + CountRedrawRequests(b)
  {
    if |a| > 0 {
      assert (a + b)[1..] == a[1..] + b;
      CountRedrawRequestsAppend(a[1..], b);
    } else {
      assert a + b == b;
    }
  }

  /** Running two batches of events is running the first and then the second from where it left off. */
  lemma {:induction false} RunAppend(window: WindowId, s: State, flow: ControlFlow, a: seq<Tick>, b: seq<Tick>)
    ensures var x := Run(window, s, flow, a);
            var y := Run(window, x.state, x.flow, b);
            Run(window, s, flow, a + b) == Transition(y.state, y.flow, x.effects + y.effects)
    decreases |a|
  {
    if |a| == 0 {
      assert a + b == b;
    } else {
      var t := Step(window, s, flow, a[0]);
      assert (a + b)[0] == a[0];
      assert (a + b)[1..] == a[1..] + b;
      RunAppend(window, t.state, t.flow, a[1..], b);
      var x' := Run(window, t.state, t.flow, a[1..]);
      var y := Run(window, x'.state, x'.flow, b);
      assert t.effects + (x'.effects + y.effects) == (t.effects + x'.effects) + y.effects;
    }
  }

  /** Exactly one redraw request is issued per `RedrawEventsCleared`, whatever the control flow. */
  lemma {:induction false} RunRequestsOneRedrawPerCleared(window: WindowId, s: State, flow: ControlFlow, ticks: seq<Tick>)
    ensures CountRedrawRequests(Run(window, s, flow, ticks).effects) == CountCleared(ticks)
    decreases |ticks|
  {
    if |ticks| > 0 {
      var t := Step(window, s, flow, ticks[0]);
      RunRequestsOneRedrawPerCleared(window, t.state, t.flow, ticks[1..]);
      CountRedrawRequestsAppend(t.effects, Run(window, t.state, t.flow, ticks[1..]).effects);
    }
  }

  /** Once some prefix of the events has set `Exit`, the flag is still `Exit` after all of them. */
  lemma ExitIsFinal(window: WindowId, s: State, flow: ControlFlow, ticks: seq<Tick>, k: nat)
    requires k <= |ticks|
    requires Run(window, s, flow, ticks[..k]).flow == Exit
    ensures Run(window, s, flow, ticks).flow == Exit
  {
    assert ticks == ticks[..k] + ticks[k..];
    RunAppend(window, s, flow, ticks[..k], ticks[k..]);
  }

  /** Events addressed to other windows change nothing and do nothing. */
  lemma {:induction false} RunIgnoresForeignEvents(window: WindowId, s: State, flow: ControlFlow, ticks: seq<Tick>)
    requires forall i :: 0 <= i < |ticks| ==> Foreign(window, ticks[i].event)
    ensures Run(window, s, flow, ticks) == Transition(s, flow, [])
    decreases |ticks|
  {
    if |ticks| > 0 {
      assert Foreign(window, ticks[0].event);
      RunIgnoresForeignEvents(window, s, flow, ticks[1..]);
    }
  }

  /** `State::input` never claims an event, so the inner window-event match always runs. */
  lemma InputNeverIntercepts(window: WindowId, s: State, flow: ControlFlow, e: WindowEvent, acquired: Result<SurfaceTexture, SurfaceError>)
    ensures Step(window, s, flow, Tick(WindowEventFor(window, e), acquired)) == HandleWindowEvent(s, flow, e)
  {
  }

  /** The catch-all arms: other window events and other loop events change nothing and do nothing. */
  lemma OtherEventsChangeNothing(window: WindowId, s: State, flow: ControlFlow, acquired: Result<SurfaceTexture, SurfaceError>)
    ensures Step(window, s, flow, Tick(OtherEvent, acquired)) == Transition(s, flow, [])
    ensures Step(window, s, flow, Tick(WindowEventFor(window, OtherWindowEvent), acquired)) == Transition(s, flow, [])
  {
  }

  /** A close request for the application's window sets `Exit` and changes nothing else. */
  lemma CloseRequestedExits(window: WindowId, s: State, flow: ControlFlow, acquired: Result<SurfaceTexture, SurfaceError>)
    ensures Step(window, s, flow, Tick(WindowEventFor(window, CloseRequested), acquired)) == Transition(s, Exit, [])
  {
  }

  /** A key event sets `Exit` exactly when it is Escape going down; otherwise nothing changes. */
  lemma KeyboardExitsOnlyOnEscapePress(window: WindowId, s: State, flow: ControlFlow, input: KeyboardInput, acquired: Result<SurfaceTexture, SurfaceError>)
    ensures var r := Step(window, s, flow, Tick(WindowEventFor(window, KeyboardEvent(input)), acquired));
            && r.state == s && r.effects == []
            && (input.state == Pressed && input.virtualKeycode == Some(Escape) ==> r.flow == Exit)
            && (input.state == Released || input.virtualKeycode != Some(Escape) ==> r.flow == flow)
  {
  }

  /** `Resized(n)` and `ScaleFactorChanged` to `n` both act as `state.resize(n)` and keep the flag. */
  lemma ResizeEventsActAsResize(window: WindowId, s: State, flow: ControlFlow, n: PhysicalSize, acquired: Result<SurfaceTexture, SurfaceError>)
    ensures var r := Step(window, s, flow, Tick(WindowEventFor(window, Resized(n)), acquired));
            && r.state == Resize(s, n) && r.flow == flow
            && r.effects == (if Accepts(n) then [ConfigureSurface(Resize(s, n).config)] else [])
    ensures Step(window, s, flow, Tick(WindowEventFor(window, ScaleFactorChanged(n)), acquired))
         == Step(window, s, flow, Tick(WindowEventFor(window, Resized(n)), acquired))
  {
  }

  /** A frame that renders changes neither state nor flag and records one well-formed frame. */
  lemma RedrawOkRendersFrame(window: WindowId, s: State, flow: ControlFlow, frame: SurfaceTexture)
    ensures var r := Step(window, s, flow, Tick(RedrawRequested(window), Ok(frame)));
            && r.state == s && r.flow == flow
            && |r.effects| == 1 && r.effects[0].Rendered?
            && FrameProtocol(r.effects[0].commands, s, frame)
  {
  }

  /** A lost or outdated surface is reconfigured at the current size, which leaves the state as it was. */
  lemma RedrawLostOrOutdatedReconfigures(window: WindowId, s: State, flow: ControlFlow, e: SurfaceError)
    requires e == Lost || e == Outdated
    requires ConfigTracksSize(s)
    ensures var r := Step(window, s, flow, Tick(RedrawRequested(window), Err(e)));
            && r.state == Resize(s, s.size) == s && r.flow == flow
            && r.effects == [Rendered([])] + (if Accepts(s.size) then [ConfigureSurface(s.config)] else [])
  {
  }

  /** Running out of memory sets `Exit`, records no frame and leaves the state alone. */
  lemma RedrawOutOfMemoryExits(window: WindowId, s: State, flow: ControlFlow)
    ensures Step(window, s, flow, Tick(RedrawRequested(window), Err(OutOfMemory))) == Transition(s, Exit, [Rendered([])])
  {
  }

  /** A timed-out surface only logs a warning. */
  lemma RedrawTimeoutOnlyWarns(window: WindowId, s: State, flow: ControlFlow)
    ensures Step(window, s, flow, Tick(RedrawRequested(window), Err(Timeout)))
         == Transition(s, flow, [Rendered([]), Log(Warn, "Surface timeout")])
  {
  }

  /** `RedrawEventsCleared` requests one redraw of the application's window, even after `Exit`. */
  lemma EventsClearedRequestsRedraw(window: WindowId, s: State, flow: ControlFlow, acquired: Result<SurfaceTexture, SurfaceError>)
    ensures Step(window, s, flow, Tick(RedrawEventsCleared, acquired)) == Transition(s, flow, [RequestRedraw(window)])
  {
  }
}
