/**
 The wgpu objects the program touches, as opaque values. Creation of the
 instance, adapter, device, shader module, pipeline and buffers is library
 behaviour; each handle is identified by an abstract id.
 */
module Gpu {
  import opened Prelude

  datatype Surface = Surface(id: nat)
  datatype Adapter = Adapter(id: nat)
  datatype Device = Device(id: nat)
  datatype Queue = Queue(id: nat)
  datatype ShaderModule = ShaderModule(id: nat)

  /** The device's reason for refusing a device request (`wgpu::RequestDeviceError`). */
  datatype RequestDeviceError = RequestDeviceError(reason: nat)

  /** A texture format, as chosen by `Surface::get_preferred_format`. */
  datatype TextureFormat = TextureFormat(id: nat)

  datatype PresentMode = Immediate | Mailbox | Fifo

  datatype TextureUsages = RenderAttachment | OtherTextureUsages(bits: nat)

  /** `wgpu::SurfaceConfiguration`. */
  datatype SurfaceConfiguration = SurfaceConfiguration(
    usage: TextureUsages,
    format: TextureFormat,
    width: u32,
    height: u32,
    presentMode: PresentMode)

  /** The frame handed out by `Surface::get_current_texture`. */
  datatype SurfaceTexture = SurfaceTexture(id: nat)

  /** A view of a frame made with the default `TextureViewDescriptor`. */
  datatype TextureView = DefaultView(texture: SurfaceTexture)

  /** Why `Surface::get_current_texture` gave no frame (`wgpu::SurfaceError`). */
  datatype SurfaceError = Timeout | Outdated | Lost | OutOfMemory

  datatype BufferUsages = Vertex | OtherBufferUsages(bits: nat)

  datatype Buffer = Buffer(id: nat, usage: BufferUsages)

  /** A buffer slice; the render loop only ever binds the whole buffer (`slice(..)`). */
  datatype BufferSlice = Whole(buffer: Buffer)

  /**
   The clear colour of a render pass. Its four floating-point channels
   are not modelled: the only colour the program uses is `Background`.
   */
  datatype Color = Background

  datatype LoadOp = Clear(color: Color) | Load

  datatype PrimitiveTopology = PointList | LineList | LineStrip | TriangleList | TriangleStrip
  datatype FrontFace = Ccw | Cw
  datatype Face = Front | Back
  datatype PolygonMode = Fill | Line | Point
  datatype BlendState = Replace | AlphaBlending | PremultipliedAlphaBlending

  /** The fixed-function part of a render pipeline descriptor. */
  datatype FixedFunctionState = FixedFunctionState(
    topology: PrimitiveTopology,
    stripIndexFormat: Option<nat>,
    frontFace: FrontFace,
    cullMode: Option<Face>,
    polygonMode: PolygonMode,
    unclippedDepth: bool,
    conservative: bool,
    blend: Option<BlendState>,
    writeMaskAll: bool,
    hasDepthStencil: bool,
    sampleCount: u32,
    sampleMask: u64,
    alphaToCoverage: bool,
    multiview: Option<nat>)

  /** A render pipeline, described by what it was created from. */
  datatype RenderPipeline = RenderPipeline(
    device: Device,
    shader: ShaderModule,
    vertexEntry: string,
    fragmentEntry: string,
    targetFormat: TextureFormat,
    fixed: FixedFunctionState)

  /**
   One recorded GPU call of a frame: the render pass and what is recorded
   into it, the queue submission and the presentation of the frame.
   */
  datatype Command =
    | BeginRenderPass(target: TextureView, load: LoadOp, store: bool)
    | SetPipeline(pipeline: RenderPipeline)
    | SetVertexBuffer(slot: u32, slice: BufferSlice)
    | Draw(vertices: Range, instances: Range)
    | EndRenderPass
    | Submit(commandBuffers: nat)
    | Present(frame: SurfaceTexture)
}
