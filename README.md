# ListEGLConfigs configuration report, modelled in Dafny

ListEGLConfigs is an Android diagnostic that lists the EGL configurations a
display supports. This project models its one piece of real logic: enumerating
and reporting configurations, following the configuration query model of the
Khronos EGL 1.4 specification. That model is section 3.4 (attributes, Table 3.1),
section 3.4.1 (`eglGetConfigs`) and section 3.4.3 (`eglGetConfigAttrib`).

Modules, one per component of `jni/ListEGLConfigs.cpp`:

- `Egl` (egl.dfy): EGLint as `int32`, and the constants of the Khronos
  header `EGL/egl.h`. It also models the driver as an oracle: a datatype of
  two functions, one for `eglGetConfigAttrib` followed by `eglGetError`, and
  one for `eglGetConfigs`. The log is a sequence of `Line` records instead of
  printf text.
- `Decode` (decode.dfy): the three pure decoders `decodeCaveat`,
  `decodeSurface` (and its table `decodeSurfaceStrings`) and
  `decodeColorBuffer`.
- `Reporter` (reporter.dfy): the 32-entry attribute table and
  `printEGLConfiguration`. It is a method with the source's `for j` loop,
  proved equal to the spec function `ConfigurationReport`, with lemmas about
  that function.
- `Enumerator` (enumerator.dfy): `printEGLConfigurations`. A `Heap` object
  stands for malloc/free. The buffer is an `array<Config>` that the driver
  fills. A `for i` loop emits the markers and blocks. All of it is proved
  equal to the spec function `Enumeration`, with lemmas about that function.

Modelling decisions:

- `decodeSurface` indexes its table with `value & 7`. On a two's-complement
  EGLint that is the floored remainder by 8, which is Dafny's `%`, negative
  values included.
- Bit k of a surface mask is `(value / 2^k) % 2`, for the same reason.
- `value` starts at -1 before each query. If the driver reports success
  without writing it, -1 is printed; `ValueOf` models this.
- A query counts as successful when the returned EGLBoolean is nonzero and
  `eglGetError` is `EGL_SUCCESS`.
- After `eglGetConfigs`, `checkEglError` logs a diagnostic whenever the
  returned EGLBoolean is not exactly `EGL_TRUE`, while the loop runs whenever
  it is nonzero. So a return value of, say, 2 logs the diagnostic and still
  reports every configuration. The model keeps both tests.
- The reporter recognises its three decoded attributes by comparing names,
  as the source does with `strcmp`.
- The driver must honour section 3.4.1 of EGL 1.4: it returns at most
  `config_size` handles (`Egl.WellBehaved`).

The attribute table has 32 entries (jni/ListEGLConfigs.cpp:101-132), and
0x3038 is `EGL_NONE`, so `decodeCaveat(0x3038)` is "Normal".

## Model

| member | source | states |
|---|---|---|
| `Decode.DecodeCaveat` | jni/ListEGLConfigs.cpp:45-62 | EGL_NONE gives "Normal", EGL_SLOW_CONFIG "Slow", EGL_NON_CONFORMANT_CONFIG "Non-conformant", and every other 32-bit value "Unknown EGL_CONFIG_CAVEAT", each as an if-and-only-if |
| `Decode.CaveatRoundTrip` | jni/ListEGLConfigs.cpp:45-62 | the label of a recognised caveat reads back to that value; every other value's label reads back to nothing |
| `Decode.DecodeSurface` | jni/ListEGLConfigs.cpp:64-79 | the result is always one of the eight entries of the surface table |
| `Decode.KindsOfLowBits` | jni/ListEGLConfigs.cpp:75-79 | the window, pixmap and pbuffer bits of any 32-bit value, negative ones included, are the bits of the table index `value & 7` |
| `Decode.TableEntryJoinsParts` | jni/ListEGLConfigs.cpp:64-73 | entry 0 is the only "None!"; every other entry is its kinds' names joined by '+' |
| `Decode.TablePartsAreIndexBits` | jni/ListEGLConfigs.cpp:64-73 | entry i names exactly the kinds whose bit is set in i (bit0 PBuffer, bit1 Pixmap, bit2 Window), each once |
| `Decode.SurfaceLabelNamesSetBits` | jni/ListEGLConfigs.cpp:64-79 | for every 32-bit mask the label is "None!" iff no surface bit is set, and otherwise lists exactly the set bits, each once |
| `Decode.DecodeColorBuffer` | jni/ListEGLConfigs.cpp:81-95 | EGL_RGB_BUFFER and EGL_LUMINANCE_BUFFER give their own names, and every other value "Unknown EGL_COLOR_BUFFER_TYPE", each as an if-and-only-if |
| `Decode.DecoderExamples` | jni/ListEGLConfigs.cpp:45-95 | 5 gives "Window+PBuffer", 0 and -8 give "None!", 7 and -1 give "Window+Pixmap+PBuffer", 0x3038 gives "Normal" |
| `Reporter.AttributeLines` | jni/ListEGLConfigs.cpp:137-153 | a failed query gives no line; a successful plain attribute gives one raw line; a successful decoded attribute gives its decoder's line and then the raw line, both with the queried value |
| `Reporter.ReportAttribute` | jni/ListEGLConfigs.cpp:137-153 | one pass of the loop logs exactly the attribute's lines |
| `Reporter.UnknownCaveatExample` | jni/ListEGLConfigs.cpp:141-152 | a caveat value of 0 logs "Unknown EGL_CONFIG_CAVEAT" with raw value 0, then the raw line |
| `Reporter.PrintEGLConfiguration` | jni/ListEGLConfigs.cpp:97-156 | the loop over the table logs each attribute's lines in table order, then the closing blank line |
| `Reporter.AttributesReportLength` | jni/ListEGLConfigs.cpp:136-154 | the attribute lines number the successful attributes plus the successful decoded ones |
| `Reporter.ConfigurationReportShape` | jni/ListEGLConfigs.cpp:136-155 | a block has successes + decoded successes + 1 lines and ends with the blank line |
| `Reporter.ReportRawLinesInTableOrder` | jni/ListEGLConfigs.cpp:136-154 | the raw lines are those of the successful attributes, in table order, with the queried values |
| `Reporter.ReportLinesWellFormed` | jni/ListEGLConfigs.cpp:140-153 | every decoded line is directly followed by the same attribute's raw line; every line names an attribute whose query succeeded |
| `Reporter.AttributeSilentIffFailed` | jni/ListEGLConfigs.cpp:136-154 | in a table with distinct names, a failed attribute has no line at all and a successful one has its raw line |
| `Reporter.FailedAttributeSilent` | jni/ListEGLConfigs.cpp:136-155 | in the source's table, a failed attribute leaves no line in the configuration's block, while every other attribute still reports |
| `Reporter.ConfigurationReportLines` | jni/ListEGLConfigs.cpp:136-155 | a block is attribute lines, each decoded line followed by its raw line, then one blank line |
| `Reporter.NamesTableShape` | jni/ListEGLConfigs.cpp:100-133 | the table has 32 entries; the decoded ones are entries 7, 18 and 29 |
| `Reporter.NamesTableDistinct` | jni/ListEGLConfigs.cpp:100-133 | no two table entries share a name |
| `Reporter.NamesDecodedEntries` | jni/ListEGLConfigs.cpp:101-151 | exactly three table entries have a decoder |
| `Reporter.AllSucceededCounts` | jni/ListEGLConfigs.cpp:136-154 | when every query succeeds, every entry and every decoded entry counts |
| `Reporter.AllSucceededReportLength` | jni/ListEGLConfigs.cpp:136-155 | when every query succeeds, a block has 36 lines |
| `Reporter.AllFailedReport` | jni/ListEGLConfigs.cpp:136-155 | when every query fails, a block is just the blank line |
| `Enumerator.Heap.Malloc` | jni/ListEGLConfigs.cpp:161-165 | a granted request for a non-negative count gives a fresh buffer of that many handles and records it as allocated |
| `Enumerator.Heap.Free` | jni/ListEGLConfigs.cpp:170 | the freed buffer is no longer allocated |
| `Enumerator.GetConfigs` | jni/ListEGLConfigs.cpp:167 | the driver's handles fill the front of the buffer, and the count becomes their number |
| `Enumerator.PrintEGLConfigurations` | jni/ListEGLConfigs.cpp:158-181 | the set of allocated buffers is the same after the call as before it, on every path; the result and the log are `Enumeration` |
| `Enumerator.PrintBlocks` | jni/ListEGLConfigs.cpp:174-177 | the loop logs marker i and then configuration i's block for each handle below the updated count |
| `Enumerator.ReportHasNoMarkers` | jni/ListEGLConfigs.cpp:136-155 | a configuration's block holds no "Configuration" marker |
| `Enumerator.BlocksMarkers` | jni/ListEGLConfigs.cpp:174-177 | the markers are 0, 1, ..., n-1 in order |
| `Enumerator.BlockBounds` | jni/ListEGLConfigs.cpp:174-177 | block i ends where block i+1 starts, inside the output |
| `Enumerator.MarkerAtBlockStart` | jni/ListEGLConfigs.cpp:175 | block i opens with marker i |
| `Enumerator.ReportAfterMarker` | jni/ListEGLConfigs.cpp:175-176 | marker i is followed by exactly configuration i's report |
| `Enumerator.LastBlockEnds` | jni/ListEGLConfigs.cpp:174-177 | the last block runs to the end of the output |
| `Enumerator.AllocationFailure` | jni/ListEGLConfigs.cpp:159-165 | a failed allocation returns false after logging only the count and the allocation message, with no marker |
| `Enumerator.EnumerationOutcome` | jni/ListEGLConfigs.cpp:161-180 | the enumerator succeeds iff the allocation is granted and eglGetConfigs returns nonzero; a failure logs no marker |
| `Enumerator.EnumerationSuccess` | jni/ListEGLConfigs.cpp:167-177 | on success the markers are 0..n'-1, where n' is the count the driver wrote back, not the one requested; the output is the count line, the eglGetConfigs diagnostic if the return value is not EGL_TRUE, then the blocks |

## Left out

- `setupGLEnv`, `releaseGLEnv` and `listConfigs` (jni/ListEGLConfigs.cpp:183-315): chains of driver calls that set process-wide globals and return early on failure. They contain no logic beyond that.
- `printGLString` (jni/ListEGLConfigs.cpp:23-31): it tests the address of the pointer `glGetString` returns, which has no meaning on values.
- `checkEglError` and `checkGlError` as functions (jni/ListEGLConfigs.cpp:33-43): only the one `checkEglError` call inside the enumerator is modelled, as its `CallFailed` line.
- The JNI entry points and src/android/egl/listeglconfigs/ListEGLConfigs.java: Android activity and library-loading glue.
- Log formatting: printf field widths, the hexadecimal and decimal renderings, the log levels, and the copy sent to stderr. Lines are abstract records.
- Enumerator.Heap.Malloc: allocation success is an input, and so is what `malloc(0)` returns. A negative count is always refused. That is right on a 64-bit target with 8-byte handles, where `sizeof(EGLConfig) * count` converts to a size_t of at least 2^64 - 2^34 bytes.
- Enumerator.Heap.Malloc: the 32-bit case is not modelled. There `4 * count` wraps modulo 2^32, so a negative count can ask for a few bytes or none, malloc may grant that, and the source then calls eglGetConfigs. The only caller in the source passes the count the driver reported (jni/ListEGLConfigs.cpp:232-237).
- Enumerator.PrintEGLConfigurations: the model does not order the `free` against the log output. The log is returned as a value; it is not interleaved with heap events.
- Enumerator.PrintBlocks: the source runs this `for i` loop inline in `printEGLConfigurations`; the model gives it a method of its own.
- Concurrency and driver-side state: the driver is a fixed oracle, and repeated calls with the same arguments give the same answer.
