# wgpu-dunes render track, modelled in Dafny

This project models the decision logic of the render track of wgpu-dunes, a
small wgpu/winit application shell. Two pieces are modelled.

- The event handler that `run_window_event_loop` hands to winit
  (`src/lib.rs`). It is a pure step over an event, the application state and
  winit's `ControlFlow` flag. The step returns the new state, the new flag and
  the calls the handler makes: surface reconfigurations, render traces,
  redraw requests and warnings.
- The application `State` (`src/state.rs`). This covers construction from
  the platform's answers, the zero-size-guarded `resize`, the no-op `input`
  and `update` hooks, and `render` as a trace of abstract GPU commands.

GPU and window objects are opaque values. The answers of wgpu and winit are
inputs: the adapter, the device reply, the preferred format, and the frame
`get_current_texture` hands out.

Files, leaf first:

- `prelude.dfy` (`Prelude`): Rust's `Option`/`Result`, `u32`/`u64`, and the truncating `as u32` cast.
- `gpu.dfy` (`Gpu`): opaque wgpu handles, surface configuration, surface errors, pipeline descriptor and the `Command` trace alphabet.
- `window.dfy` (`Window`): winit window ids, physical sizes, keyboard input, window and loop events, `ControlFlow`.
- `render_state.dfy` (`RenderState`): `State` and its operations (src/state.rs).
- `app.dfy` (`App`): the event handler `Step`, its fold `Run` over a sequence of events, and their lemmas (src/lib.rs).

The central invariant is `RenderState.Consistent`. It says four things:

- the surface configuration's width and height equal the recorded size;
- the pipeline targets the configured format;
- the surface is presented FIFO;
- the surface is used as a render attachment.

`New` establishes the invariant. `Resize`, `Step` and `Run` preserve it.

A well-formed frame is defined by `RenderState.FrameProtocol` on its own
terms. Each command has a stage number, and command `i` of the frame has
stage `i`. There are seven stages in all:

1. the pass opens, clearing the acquired frame;
2. the state's pipeline is bound;
3. the state's vertex buffer is bound whole at slot 0;
4. one draw covers vertices `0..num_vertices` and instances `0..1`;
5. the pass closes;
6. one command buffer is submitted;
7. the acquired frame is presented.

From this definition, `FrameHasOneOfEachStage` proves that a frame has
exactly one command of each kind.

## Model

| member | source | states |
|---|---|---|
| `RenderState.FromRequestDeviceError` | src/state.rs:19-23 | a device-request error converts into `DeviceRequestError` carrying the same cause |
| `RenderState.GetDeviceAndQueue` | src/state.rs:48-65 | the device and queue pass through unchanged; a refused request becomes `DeviceRequestError` with the refusal's cause |
| `RenderState.New` | src/state.rs:88-197 | no adapter gives `AdapterRequestError`; a refused device gives `DeviceRequestError`; a missing preferred format panics; otherwise the state is built, and it is `Consistent`. Its pipeline is the one `create_render_pipeline` describes: the device and shader given, entry points `vs_main`/`fs_main`, the configured format, and the fixed-function state `PipelineFixedFunction` (triangle list, counter-clockwise front face, back-face culling, fill, `Replace` blending, one sample, no depth-stencil). The state is built with the window's inner size, the preferred format, the surface, device, queue and vertex buffer given, and the vertex count recorded as `len as u32` (`AsU32`), so a count below 2^32 is kept exactly |
| `Prelude.AsU32` | src/state.rs:161 | `len as u32` keeps lengths below 2^32 exactly and otherwise drops a multiple of 2^32 |
| `RenderState.Resize` | src/state.rs:199-206 | an accepted size (both dimensions positive) becomes both the recorded size and the configured width/height; a size with a zero dimension leaves the whole state unchanged; format, present mode, usage, surface, device, queue, pipeline, vertex buffer and vertex count never change; `ConfigTracksSize` and `Consistent` are preserved |
| `RenderState.ResizeCalls` | src/state.rs:199-206 | `resize` reconfigures the surface exactly once with the new configuration when the size is accepted, and not at all otherwise |
| `RenderState.ResizeIdempotent` | src/state.rs:199-206 | resizing twice to the same size equals resizing once |
| `RenderState.ResizeToCurrentSizeIsIdentity` | src/state.rs:199-206 | when the configuration tracks the size, resizing to the recorded size changes nothing |
| `RenderState.ResizeKeepsPositiveSize` | src/state.rs:200-203 | once both recorded dimensions are positive, no resize makes either zero |
| `RenderState.NewAcceptsZeroSize` | src/state.rs:178-194 | construction has no zero-size guard: a zero-width window yields a built state configured with width 0 |
| `RenderState.Input` | src/state.rs:208-211 | `input` never consumes an event and leaves the state alone |
| `RenderState.Update` | src/state.rs:213 | `update` leaves the state alone |
| `RenderState.Render` | src/state.rs:215-262 | a failed acquisition returns that same error and records no command; a successful one returns `Ok` and records a frame satisfying `FrameProtocol` for this state and the acquired frame |
| `RenderState.FrameHasOneOfEachStage` | src/state.rs:227-259 | a well-formed frame holds exactly one pass start, pipeline bind, vertex-buffer bind, draw, pass end, submit and present |
| `RenderState.FrameSubmitsBeforePresenting` | src/state.rs:258-259 | in a well-formed frame the single submit precedes the present of the acquired frame |
| `RenderState.RenderRecordsOneOfEachStage` | src/state.rs:215-262 | a successful render records one command of each stage; a failed render records none |
| `App.Launch` | src/lib.rs:85 | the loop starts exactly when `State::new` builds a state, and it starts from that state, which is `Consistent` |
| `App.Step` | src/lib.rs:86-135 | `Exit` is never left and is the only value ever written to the flag; the flag changes exactly when it is not yet `Exit` and the event is a close request or an Escape press for the application's window, or a redraw of it whose acquisition ran out of memory; events for another window change nothing and do nothing; `Consistent` and positive size are preserved; only the size changes; a step issues one redraw request exactly on `RedrawEventsCleared`, always for the application's window |
| `App.Run` | src/lib.rs:86-135 | over any sequence of events, the flag moves only to `Exit` and never back; `Consistent`, positive size and everything but the size are preserved |
| `App.RunAppend` | src/lib.rs:86-135 | handling `a + b` equals handling `a` and then `b` from the resulting state and flag, with the effects concatenated |
| `App.RunRequestsOneRedrawPerCleared` | src/lib.rs:128-132 | over any sequence of events, the number of redraw requests equals the number of `RedrawEventsCleared` events, whatever the flag |
| `App.ExitIsFinal` | src/lib.rs:104 | once a prefix of the events has set `Exit`, the flag is `Exit` after the whole sequence |
| `App.RunIgnoresForeignEvents` | src/lib.rs:88-116 | a sequence of window and redraw events for other windows leaves state and flag unchanged and does nothing |
| `App.InputNeverIntercepts` | src/lib.rs:92-114 | because `input` returns false, a window event for the application's window always reaches the inner match |
| `App.OtherEventsChangeNothing` | src/lib.rs:112-133 | the catch-all arms: any other window event for the application's window, and any other loop event, leave state and flag unchanged and do nothing |
| `App.CloseRequestedExits` | src/lib.rs:95-104 | a close request sets `Exit` and changes nothing else |
| `App.KeyboardExitsOnlyOnEscapePress` | src/lib.rs:96-104 | a key event sets `Exit` when it is Escape pressed; a release, a key without a code or any other key leaves state and flag unchanged; no key event has effects |
| `App.ResizeEventsActAsResize` | src/lib.rs:105-111 | `Resized(n)` is `resize(n)` with one surface reconfiguration when `n` is accepted and none otherwise, and the flag is kept; `ScaleFactorChanged` to `n` behaves identically |
| `App.RedrawOkRendersFrame` | src/lib.rs:116-119 | a successful redraw keeps state and flag and records exactly one well-formed frame |
| `App.RedrawLostOrOutdatedReconfigures` | src/lib.rs:121 | a lost or outdated surface triggers `resize(size)`; in a state whose configuration tracks its size (every state `Launch` and `Run` reach) this leaves the state unchanged; it records no frame, reconfigures the surface once when the size is positive, and keeps the flag |
| `App.RedrawOutOfMemoryExits` | src/lib.rs:123 | running out of memory sets `Exit`, records no frame and leaves the state unchanged |
| `App.RedrawTimeoutOnlyWarns` | src/lib.rs:125 | a timeout only logs the warning "Surface timeout"; state and flag are unchanged |
| `App.EventsClearedRequestsRedraw` | src/lib.rs:128-132 | `RedrawEventsCleared` requests one redraw of the application's window and changes nothing else, even when the flag is already `Exit` |

## Behaviour worth knowing

- The render pipeline blends with `BlendState::REPLACE` (src/state.rs:111). `PipelineFixedFunction` records `Replace`, and `New` builds exactly that pipeline.
- `State::new` has no zero-size guard. It copies the window's inner size into the configuration as is (src/state.rs:178,190-191). Only `resize` rejects zero sizes. `NewAcceptsZeroSize` shows a built state configured with width 0. `ResizeKeepsPositiveSize` shows that positive dimensions, once reached, stay positive.
- `RedrawEventsCleared` requests a redraw whatever the flag, even after `Exit` (src/lib.rs:128-132). `EventsClearedRequestsRedraw` states this. Redraws stop only because winit ends the loop once `Exit` is set.

## Left out

- src/compute.rs (the compute session) and src/image.rs (a plain float record and a layout macro) are not part of this model.
- src/vertex.rs and the shader source are not part of this model. The vertex count is an input of `New`, and the shader module is an opaque handle.
- Logger setup, canvas creation and its 450×400 size on the web, and DOM insertion (src/lib.rs:21-82, 139-152) are platform glue.
- wgpu and winit calls are inputs or opaque handles: instance, adapter and device requests, shader and buffer creation, surface acquisition. The device limits profile (src/state.rs:56-60) is not modelled.
- The clear colour (0.1, 0.2, 0.3, 1.0) is the opaque constant `Background`, and the scale factor of `ScaleFactorChanged` is dropped. Both are floats the handler never reasons about.
- `Run` applies the handler to every event it is given. winit ends the loop once `Exit` is set, and winit also keeps the flag at `Exit` on its own; both are outside the program.
- The `surface.configure` call inside `State::new` (src/state.rs:194) is not recorded as an effect. The ones in `resize` are.
- Asynchronous waits on the adapter and device requests are not modelled. Neither is the invalidation of an acquired frame by a reconfiguration.
- Several keyboard-event fields are not modelled, because the handler's pattern ignores them through `..` (src/lib.rs:96-103). They are the deprecated `modifiers` field of winit's keyboard input, and the `device_id` and `is_synthetic` fields of `WindowEvent::KeyboardInput`.
