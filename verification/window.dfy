/**
 The part of winit the event handler sees: window ids, physical sizes,
 keyboard input, window events, loop events and the control-flow flag.
 */
module Window {
  import opened Prelude

  datatype WindowId = WindowId(id: nat)

  /** `winit::dpi::PhysicalSize<u32>`. */
  datatype PhysicalSize = PhysicalSize(width: u32, height: u32)

  datatype ElementState = Pressed | Released

  /** Virtual key codes; only Escape is told apart from the others. */
  datatype VirtualKeyCode = Escape | OtherKey(code: nat)

  /** `winit::event::KeyboardInput`; the deprecated modifier field is not modelled. */
  datatype KeyboardInput = KeyboardInput(
    scancode: u32,
    state: ElementState,
    virtualKeycode: Option<VirtualKeyCode>)

  /**
   The window events the handler distinguishes. The scale factor of
   `ScaleFactorChanged` is a float the handler never reads, so only the
   new inner size is kept.
   */
  datatype WindowEvent =
    | CloseRequested
    | KeyboardEvent(input: KeyboardInput)
    | Resized(size: PhysicalSize)
    | ScaleFactorChanged(newInnerSize: PhysicalSize)
    | OtherWindowEvent

  /**
   `winit::event::Event<()>`. `OtherEvent` stands for every variant the
   handler ignores (new events, device and user events, suspend and
   resume, main events cleared, loop destroyed).
   */
  datatype Event =
    | WindowEventFor(windowId: WindowId, event: WindowEvent)
    | RedrawRequested(windowId: WindowId)
    | RedrawEventsCleared
    | OtherEvent

  /** `winit::event_loop::ControlFlow`; winit starts a loop in `Poll`. */
  datatype ControlFlow = Poll | Wait | WaitUntil(instant: nat) | Exit

  /** True of a key event that is Escape going down; a release or another key is not. */
  predicate IsEscapePress(input: KeyboardInput)
  {
    input.state == Pressed && input.virtualKeycode == Some(Escape)
  }
}
