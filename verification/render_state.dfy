/**
 The application state of the render track (`State` in src/state.rs):
 construction from the platform's answers, the zero-size guarded resize,
 the no-op input and update hooks, and the command trace of one frame.
 */
module RenderState {
  import opened Prelude
  import opened Gpu
  import opened Window

  /** Construction errors. */
  datatype Error =
    | AdapterRequestError
    | DeviceRequestError(cause: RequestDeviceError)

  /** `impl From<wgpu::RequestDeviceError> for Error`. */
  function FromRequestDeviceError(e: RequestDeviceError): (r: Error)
    ensures r.DeviceRequestError? && r.cause == e
  {
    DeviceRequestError(e)
  }

  datatype DeviceAndQueue = DeviceAndQueue(device: Device, queue: Queue)

  /**
   What the platform answers while `State::new` runs. The calls into wgpu
   and winit are not modelled; their results are inputs here.
   */
  datatype Platform = Platform(
    innerSize: PhysicalSize,                                 // window.inner_size()
    surface: Surface,                                        // instance.create_surface(window)
    adapter: Option<Adapter>,                                // instance.request_adapter(..)
    deviceReply: Result<DeviceAndQueue, RequestDeviceError>, // adapter.request_device(..)
    preferredFormat: Option<TextureFormat>,                  // surface.get_preferred_format(&adapter)
    shader: ShaderModule,                                    // device.create_shader_module(..)
    vertexBuffer: Buffer,                                    // device.create_buffer_init(..)
    vertexCount: nat)                                        // vertex::VERTICES.len()

  datatype State = State(
    surface: Surface,
    device: Device,
    queue: Queue,
    config: SurfaceConfiguration,
    size: PhysicalSize,
    renderPipeline: RenderPipeline,
    vertexBuffer: Buffer,
    numVertices: u32)

  /**
   The outcome of `State::new`: a state, an error, or the panic of the
   `unwrap` on the preferred surface format.
   */
  datatype Construction = Built(state: State) | Failed(error: Error) | Panicked

  /** The surface configuration agrees with the recorded window size. */
  predicate ConfigTracksSize(s: State)
  {
    s.config.width == s.size.width && s.config.height == s.size.height
  }

  /**
   Everything `State::new` establishes and no later operation breaks: the
   configuration tracks the size, the pipeline renders into the surface's
   format, and the surface is a FIFO-presented render attachment.
   */
  predicate Consistent(s: State)
  {
    && ConfigTracksSize(s)
    && s.renderPipeline.targetFormat == s.config.format
    && s.config.presentMode == Fifo
    && s.config.usage == RenderAttachment
  }

  /** The fixed-function state of the render pipeline descriptor. */
  const PipelineFixedFunction: FixedFunctionState := FixedFunctionState(
    topology := TriangleList,
    stripIndexFormat := None,
    frontFace := Ccw,
    cullMode := Some(Back),
    polygonMode := Fill,
    unclippedDepth := false,
    conservative := false,
    blend := Some(Replace),
    writeMaskAll := true,
    hasDepthStencil := false,
    sampleCount := 1,
    sampleMask := 0xFFFF_FFFF_FFFF_FFFF,
    alphaToCoverage := false,
    multiview := None)

  /** `create_render_pipeline`: the pipeline targets the surface configuration's format. */
  function CreateRenderPipeline(device: Device, shader: ShaderModule, config: SurfaceConfiguration): RenderPipeline
  {
    RenderPipeline(device, shader, "vs_main", "fs_main", config.format, PipelineFixedFunction)
  }

  /** `get_device_and_queue`: a refused device request becomes `DeviceRequestError`. */
  function GetDeviceAndQueue(reply: Result<DeviceAndQueue, RequestDeviceError>): (r: Result<DeviceAndQueue, Error>)
    ensures r.Ok? <==> reply.Ok?
    ensures reply.Ok? ==> r.value == reply.value
    ensures reply.Err? ==> r.error == DeviceRequestError(reply.error)
  {
    match reply
    case Ok(dq) => Ok(dq)
    case Err(e) => Err(FromRequestDeviceError(e))
  }

  /** `initialize_application_state`: builds the pipeline and records the vertex count. */
  function InitializeApplicationState(
    size: PhysicalSize, surface: Surface, config: SurfaceConfiguration,
    device: Device, queue: Queue, shader: ShaderModule, vertexBuffer: Buffer, vertexCount: nat): State
  {
    var renderPipeline := CreateRenderPipeline(device, shader, config);
    State(surface, device, queue, config, size, renderPipeline, vertexBuffer, AsU32(vertexCount))
  }

  /**
   `State::new`. The adapter is requested first, then the device; the
   configuration copies the window's inner size and is FIFO-presented.
   */
  function New(p: Platform): (r: Construction)
    ensures p.adapter.None? <==> r == Failed(AdapterRequestError)
    ensures r.Failed? && r.error.DeviceRequestError? <==> p.adapter.Some? && p.deviceReply.Err?
    ensures p.adapter.Some? && p.deviceReply.Err? ==> r == Failed(DeviceRequestError(p.deviceReply.error))
    ensures r.Panicked? <==> p.adapter.Some? && p.deviceReply.Ok? && p.preferredFormat.None?
    ensures r.Built? <==> p.adapter.Some? && p.deviceReply.Ok? && p.preferredFormat.Some?
    ensures r.Built? ==>
      && Consistent(r.state)
      && r.state.size == p.innerSize
      && r.state.config.format == p.preferredFormat.value
      && r.state.surface == p.surface
      && r.state.device == p.deviceReply.value.device
      && r.state.queue == p.deviceReply.value.queue
      && r.state.renderPipeline.device == r.state.device
      && r.state.renderPipeline == RenderPipeline(
           r.state.device, p.shader, "vs_main", "fs_main", r.state.config.format, PipelineFixedFunction)
      && r.state.vertexBuffer == p.vertexBuffer
      && r.state.numVertices == AsU32(p.vertexCount)
  {
    match p.adapter
    case None => Failed(AdapterRequestError)
    case Some(_) =>
      match GetDeviceAndQueue(p.deviceReply)
      case Err(e) => Failed(e)
      case Ok(dq) =>
        match p.preferredFormat
        case None => Panicked
        case Some(format) =>
          var config := SurfaceConfiguration(
            usage := RenderAttachment,
            format := format,
            width := p.innerSize.width,
            height := p.innerSize.height,
            presentMode := Fifo);
          Built(InitializeApplicationState(
            p.innerSize, p.surface, config, dq.device, dq.queue, p.shader, p.vertexBuffer, p.vertexCount))
  }

  /** The resize guard: a size with a zero dimension is ignored. */
  predicate Accepts(n: PhysicalSize)
  {
    n.width > 0 && n.height > 0
  }

  /** True when two states differ at most in their size and configured dimensions. */
  predicate SameApartFromSize(s: State, t: State)
  {
    && s.surface == t.surface
    && s.device == t.device
    && s.queue == t.queue
    && s.config.usage == t.config.usage
    && s.config.format == t.config.format
    && s.config.presentMode == t.config.presentMode
    && s.renderPipeline == t.renderPipeline
    && s.vertexBuffer == t.vertexBuffer
    && s.numVertices == t.numVertices
  }

  /** `State::resize`. */
  function Resize(s: State, n: PhysicalSize): (r: State)
    ensures Accepts(n) ==> r.size == n && r.config.width == n.width && r.config.height == n.height
    ensures !Accepts(n) ==> r == s
    ensures SameApartFromSize(s, r)
    ensures ConfigTracksSize(s) ==> ConfigTracksSize(r)
    ensures Consistent(s) ==> Consistent(r)
  {
    if n.width > 0 && n.height > 0 then
      s.(size := n, config := s.config.(width := n.width, height := n.height))
    else
      s
  }

  /** The `surface.configure` calls one `State::resize` issues: one call exactly when the size is accepted. */
  function ResizeCalls(s: State, n: PhysicalSize): (r: seq<SurfaceConfiguration>)
    ensures |r| == (if Accepts(n) then 1 else 0)
    ensures forall i :: 0 <= i < |r| ==> r[i] == Resize(s, n).config
  {
    if Accepts(n) then [Resize(s, n).config] else []
  }

  datatype InputResult = InputResult(state: State, consumed: bool)

  /** `State::input`: never consumes an event and leaves the state alone. */
  function Input(s: State, e: WindowEvent): (r: InputResult)
    ensures !r.consumed
    ensures r.state == s
  {
    InputResult(s, false)
  }

  /** `State::update`: leaves the state alone. */
  function Update(s: State): (r: State)
    ensures r == s
  {
    s
  }

  datatype RenderOutcome = RenderOutcome(result: Result<Unit, SurfaceError>, commands: seq<Command>)

  /**
   The place of each kind of command in a frame: the pass is opened, the
   pipeline and then the vertex buffer are bound, one draw is issued, the
   pass is closed, the work is submitted and the frame presented.
   */
  function Stage(c: Command): (r: nat)
    ensures r < FrameStages
  {
    match c
    case BeginRenderPass(_, _, _) => 0
    case SetPipeline(_) => 1
    case SetVertexBuffer(_, _) => 2
    case Draw(_, _) => 3
    case EndRenderPass => 4
    case Submit(_) => 5
    case Present(_) => 6
  }

  const FrameStages: nat := 7

  /** The arguments a command must carry in a frame of state `s` drawn into `frame`. */
  predicate Conforms(c: Command, s: State, frame: SurfaceTexture)
  {
    match c
    case BeginRenderPass(target, load, store) => target == DefaultView(frame) && load == Clear(Background) && store
    case SetPipeline(p) => p == s.renderPipeline
    case SetVertexBuffer(slot, slice) => slot == 0 && slice == Whole(s.vertexBuffer)
    case Draw(vertices, instances) => vertices == Range(0, s.numVertices) && instances == Range(0, 1)
    case EndRenderPass => true
    case Submit(n) => n == 1
    case Present(f) => f == frame
  }

  /**
   A well-formed frame: one command of each stage, stages in order, every
   command with the arguments of the state and the acquired frame.
   */
  predicate FrameProtocol(cmds: seq<Command>, s: State, frame: SurfaceTexture)
  {
    && |cmds| == FrameStages
    && (forall i :: 0 <= i < |cmds| ==> Stage(cmds[i]) == i)
    && (forall i :: 0 <= i < |cmds| ==> Conforms(cmds[i], s, frame))
  }

  /** `State::render`: `acquired` is what `surface.get_current_texture()` returned. */
  function Render(s: State, acquired: Result<SurfaceTexture, SurfaceError>): (r: RenderOutcome)
    ensures r.result.Ok? <==> acquired.Ok?
    ensures acquired.Err? ==> r.result.error == acquired.error && r.commands == []
    ensures acquired.Ok? ==> FrameProtocol(r.commands, s, acquired.value)
  {
    match acquired
    case Err(e) => RenderOutcome(Err(e), [])
    case Ok(output) =>
      var view := DefaultView(output);
      RenderOutcome(Ok(Unit), [
        BeginRenderPass(view, Clear(Background), true),
        SetPipeline(s.renderPipeline),
        SetVertexBuffer(0, Whole(s.vertexBuffer)),
        Draw(Range(0, s.numVertices), Range(0, 1)),
        EndRenderPass,
        Submit(1),
        Present(output)])
  }

  /** The number of commands of stage `k` in `cmds`. */
  function CountStage(cmds: seq<Command>, k: nat): nat
  {
    if |cmds| == 0 then 0
    else (if Stage(cmds[0]) == k then 1 else 0) + CountStage(cmds[1..], k)
  }

  /** A trace whose stages run consecutively from `first` holds each of those stages once. */
  lemma {:induction false} ConsecutiveStagesOnce(cmds: seq<Command>, first: nat, k: nat)
    requires forall i :: 0 <= i < |cmds| ==> Stage(cmds[i]) == first + i
    ensures CountStage(cmds, k) == (if first <= k < first + |cmds| then 1 else 0)
  {
    if |cmds| > 0 {
      forall i | 0 <= i < |cmds[1..]|
        ensures Stage(cmds[1..][i]) == (first + 1) + i
      {
        assert cmds[1..][i] == cmds[i + 1];
      }
      ConsecutiveStagesOnce(cmds[1..], first + 1, k);
    }
  }

  /** A well-formed frame has exactly one command of each stage: one pass, one pipeline bind, one vertex-buffer bind, one draw, one submit, one present. */
  lemma FrameHasOneOfEachStage(cmds: seq<Command>, s: State, frame: SurfaceTexture, k: nat)
    requires FrameProtocol(cmds, s, frame)
    ensures CountStage(cmds, k) == (if k < FrameStages then 1 else 0)
  {
    ConsecutiveStagesOnce(cmds, 0, k);
  }

  /** In a well-formed frame the work is submitted before the frame that was drawn into is presented. */
  lemma FrameSubmitsBeforePresenting(cmds: seq<Command>, s: State, frame: SurfaceTexture)
    requires FrameProtocol(cmds, s, frame)
    ensures exists i, j :: 0 <= i < j < |cmds| && cmds[i] == Submit(1) && cmds[j] == Present(frame)
  {
    assert Stage(cmds[5]) == 5 && Conforms(cmds[5], s, frame);
    assert Stage(cmds[6]) == 6 && Conforms(cmds[6], s, frame);
  }

  /** A successful render records one of each stage; a failed one records nothing. */
  lemma RenderRecordsOneOfEachStage(s: State, acquired: Result<SurfaceTexture, SurfaceError>, k: nat)
    ensures CountStage(Render(s, acquired).commands, k) == (if acquired.Ok? && k < FrameStages then 1 else 0)
  {
    if acquired.Ok? {
      FrameHasOneOfEachStage(Render(s, acquired).commands, s, acquired.value, k);
    }
  }

  /** Resizing twice to the same size is resizing once. */
  lemma ResizeIdempotent(s: State, n: PhysicalSize)
    ensures Resize(Resize(s, n), n) == Resize(s, n)
  {
  }

  /** Resizing to the recorded size changes nothing when the configuration tracks the size. */
  lemma ResizeToCurrentSizeIsIdentity(s: State)
    requires ConfigTracksSize(s)
    ensures Resize(s, s.size) == s
  {
  }

  /** Once both dimensions are positive, no resize makes either zero. */
  lemma ResizeKeepsPositiveSize(s: State, n: PhysicalSize)
    requires Accepts(s.size)
    ensures Accepts(Resize(s, n).size)
  {
  }

  /** `State::new` has no zero-size guard: a window with no area yields a zero-width configuration. */
  lemma NewAcceptsZeroSize(p: Platform)
    requires p.adapter.Some? && p.deviceReply.Ok? && p.preferredFormat.Some?
    requires p.innerSize.width == 0
    ensures New(p).Built? && New(p).state.config.width == 0
  {
  }
}
