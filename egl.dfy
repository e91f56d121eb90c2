/** Types and constants of the EGL 1.4 interface that the configuration
    lister uses, together with an abstract model of the driver and of the
    log the lister writes.

    Values are those of the Khronos header EGL/egl.h. */
module Egl {

  /** EGLint: a signed 32-bit integer. */
  type int32 = x: int | -0x8000_0000 <= x < 0x8000_0000

  datatype Option<T> = None | Some(value: T)

  // Error codes and booleans
  const EGL_FALSE: int32 := 0
  const EGL_TRUE: int32 := 1
  const EGL_SUCCESS: int32 := 0x3000

  // Configuration attributes (section 3.4 of the EGL 1.4 specification, Table 3.1)
  const EGL_BUFFER_SIZE: int32 := 0x3020
  const EGL_ALPHA_SIZE: int32 := 0x3021
  const EGL_BLUE_SIZE: int32 := 0x3022
  const EGL_GREEN_SIZE: int32 := 0x3023
  const EGL_RED_SIZE: int32 := 0x3024
  const EGL_DEPTH_SIZE: int32 := 0x3025
  const EGL_STENCIL_SIZE: int32 := 0x3026
  const EGL_CONFIG_CAVEAT: int32 := 0x3027
  const EGL_CONFIG_ID: int32 := 0x3028
  const EGL_LEVEL: int32 := 0x3029
  const EGL_MAX_PBUFFER_HEIGHT: int32 := 0x302A
  const EGL_MAX_PBUFFER_PIXELS: int32 := 0x302B
  const EGL_MAX_PBUFFER_WIDTH: int32 := 0x302C
  const EGL_NATIVE_RENDERABLE: int32 := 0x302D
  const EGL_NATIVE_VISUAL_ID: int32 := 0x302E
  const EGL_NATIVE_VISUAL_TYPE: int32 := 0x302F
  const EGL_SAMPLES: int32 := 0x3031
  const EGL_SAMPLE_BUFFERS: int32 := 0x3032
  const EGL_SURFACE_TYPE: int32 := 0x3033
  const EGL_TRANSPARENT_TYPE: int32 := 0x3034
  const EGL_TRANSPARENT_BLUE_VALUE: int32 := 0x3035
  const EGL_TRANSPARENT_GREEN_VALUE: int32 := 0x3036
  const EGL_TRANSPARENT_RED_VALUE: int32 := 0x3037
  const EGL_NONE: int32 := 0x3038
  const EGL_BIND_TO_TEXTURE_RGB: int32 := 0x3039
  const EGL_BIND_TO_TEXTURE_RGBA: int32 := 0x303A
  const EGL_MIN_SWAP_INTERVAL: int32 := 0x303B
  const EGL_MAX_SWAP_INTERVAL: int32 := 0x303C
  const EGL_LUMINANCE_SIZE: int32 := 0x303D
  const EGL_ALPHA_MASK_SIZE: int32 := 0x303E
  const EGL_COLOR_BUFFER_TYPE: int32 := 0x303F
  const EGL_RENDERABLE_TYPE: int32 := 0x3040
  const EGL_CONFORMANT: int32 := 0x3042

  // Values of EGL_CONFIG_CAVEAT
  const EGL_SLOW_CONFIG: int32 := 0x3050
  const EGL_NON_CONFORMANT_CONFIG: int32 := 0x3051

  // Values of EGL_COLOR_BUFFER_TYPE
  const EGL_RGB_BUFFER: int32 := 0x308E
  const EGL_LUMINANCE_BUFFER: int32 := 0x308F

  // Bits of EGL_SURFACE_TYPE
  const EGL_PBUFFER_BIT: int32 := 0x0001
  const EGL_PIXMAP_BIT: int32 := 0x0002
  const EGL_WINDOW_BIT: int32 := 0x0004

  /** Whether the single-bit mask `bit` is set in the two's-complement
      representation of `v`. Dafny's division rounds down for a positive
      divisor, which is what shifting two's-complement bits does. */
  predicate HasBit(v: int32, bit: int32)
    requires bit in {EGL_PBUFFER_BIT, EGL_PIXMAP_BIT, EGL_WINDOW_BIT}
  {
    (v / bit) % 2 == 1
  }

  /** An EGLDisplay: opaque to the lister. */
  datatype Display = Display(handle: int)

  /** An EGLConfig: an opaque handle owned by the driver. */
  datatype Config = Config(handle: int)

  /** What one eglGetConfigAttrib call followed by eglGetError yields:
      the EGLBoolean it returned, the value it wrote into the out-parameter
      (None when it left the out-parameter alone) and the error code. */
  datatype AttribReply = AttribReply(returnVal: int32, written: Option<int32>, error: int32)

  /** What one eglGetConfigs call with a buffer yields: the EGLBoolean it
      returned and the handles it wrote into the buffer; their number is
      what it writes back into the count out-parameter. */
  datatype FillReply = FillReply(returnVal: int32, configs: seq<Config>)

  /** The driver, as an oracle: the answer to every query the lister makes. */
  datatype Driver = Driver(
    getConfigAttrib: (Display, Config, int32) -> AttribReply,
    getConfigs: (Display, int32) -> FillReply)

  /** The largest number of handles a buffer for `count` handles holds. */
  function Capacity(count: int32): nat
  {
    if count < 0 then 0 else count
  }

  /** Section 3.4.1 of the EGL 1.4 specification: eglGetConfigs returns at
      most `config_size` configurations. */
  ghost predicate WellBehaved(drv: Driver)
  {
    forall dpy: Display, size: int32 ::
      |drv.getConfigs(dpy, size).configs| <= Capacity(size)
  }

  /** One line of the log, abstracted from its printf format. */
  datatype Line =
    | ConfigCount(count: int32)                        // "Number of EGL configuration: %d"
    | AllocFailed                                      // "Could not allocate configs."
    | CallFailed(op: string, returnVal: int32)         // checkEglError: "%s() returned %d"
    | Marker(index: int)                               // "Configuration %d"
    | Decoded(name: string, text: string, raw: int32) // "\t%-32s: %10s (0x%08x)"
    | Raw(name: string, raw: int32)                    // "\t%-32s: %10d (0x%08x)"
    | Blank                                            // "\n"
}
