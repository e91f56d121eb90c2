/** The three decoders that turn the value of a configuration attribute
    into a text: EGL_CONFIG_CAVEAT, EGL_SURFACE_TYPE and
    EGL_COLOR_BUFFER_TYPE. Each is total over 32-bit values. */
module Decode {
  import opened Egl

  // ---------------------------------------------------------------- caveat

  const UNKNOWN_CAVEAT := "Unknown EGL_CONFIG_CAVEAT"

  /** The labels decodeCaveat can return. */
  const CaveatLabels: set<string> := {"Normal", "Slow", "Non-conformant", UNKNOWN_CAVEAT}

  function DecodeCaveat(value: int32): (text: string)
    ensures text in CaveatLabels
    ensures text == "Normal" <==> value == EGL_NONE
    ensures text == "Slow" <==> value == EGL_SLOW_CONFIG
    ensures text == "Non-conformant" <==> value == EGL_NON_CONFORMANT_CONFIG
    ensures text == UNKNOWN_CAVEAT <==>
              value != EGL_NONE && value != EGL_SLOW_CONFIG && value != EGL_NON_CONFORMANT_CONFIG
  {
    if value == EGL_NONE then "Normal"
    else if value == EGL_SLOW_CONFIG then "Slow"
    else if value == EGL_NON_CONFORMANT_CONFIG then "Non-conformant"
    else UNKNOWN_CAVEAT
  }

  /** The caveat value a text names, if it names one. */
  function CaveatValue(text: string): (v: Option<int32>)
    ensures v.Some? <==> text in {"Normal", "Slow", "Non-conformant"}
  {
    if text == "Normal" then Some(EGL_NONE)
    else if text == "Slow" then Some(EGL_SLOW_CONFIG)
    else if text == "Non-conformant" then Some(EGL_NON_CONFORMANT_CONFIG)
    else None
  }

  /** A recognised caveat can be read back from its text; any other value
      shows up as the one "unknown" text, so no information but the raw value
      (which the reporter prints beside it) identifies it. */
  lemma CaveatRoundTrip(value: int32)
    ensures CaveatValue(DecodeCaveat(value)) ==
              if value in {EGL_NONE, EGL_SLOW_CONFIG, EGL_NON_CONFORMANT_CONFIG}
              then Some(value) else None
  {
  }

  // ---------------------------------------------------------- surface type

  /** The table decodeSurface indexes by the low three bits of the value. */
  const SurfaceStrings: seq<string> := [
    "None!",
    "PBuffer",
    "Pixmap",
    "PBuffer+Pixmap",
    "Window",
    "Window+PBuffer",
    "Window+Pixmap",
    "Window+Pixmap+PBuffer"
  ]

  /** decodeSurface indexes the table by `value & 7`. On the two's-complement
      representation that is the remainder of the floored division by 8, which
      is what Dafny's `%` computes for negative values too. */
  function DecodeSurface(value: int32): (text: string)
    ensures text in SurfaceStrings
  {
    SurfaceStrings[value % 8]
  }

  /** The kinds of surface a configuration can back. */
  datatype SurfaceKind = Window | Pixmap | PBuffer

  function KindName(k: SurfaceKind): string
  {
    match k
    case Window => "Window"
    case Pixmap => "Pixmap"
    case PBuffer => "PBuffer"
  }

  /** The names of `ks`, separated by '+'. */
  function JoinPlus(ks: seq<SurfaceKind>): string
  {
    if |ks| == 0 then ""
    else if |ks| == 1 then KindName(ks[0])
    else KindName(ks[0]) + "+" + JoinPlus(ks[1..])
  }

  /** The surface kinds whose bit is set in an EGL_SURFACE_TYPE mask. */
  function SupportedKinds(value: int32): set<SurfaceKind>
  {
    (if HasBit(value, EGL_WINDOW_BIT) then {Window} else {})
    + (if HasBit(value, EGL_PIXMAP_BIT) then {Pixmap} else {})
    + (if HasBit(value, EGL_PBUFFER_BIT) then {PBuffer} else {})
  }

  /** The surface kinds whose bit is set in a table index 0..7. */
  function IndexKinds(i: nat): set<SurfaceKind>
    requires i < 8
  {
    (if i / 4 == 1 then {Window} else {})
    + (if (i / 2) % 2 == 1 then {Pixmap} else {})
    + (if i % 2 == 1 then {PBuffer} else {})
  }

  /** The bits decodeSurface looks at are the bits of the table index. */
  lemma KindsOfLowBits(value: int32)
    ensures SupportedKinds(value) == IndexKinds(value % 8)
  {
  }

  /** The order in which table entry `i` lists its kinds. */
  function TableParts(i: nat): seq<SurfaceKind>
    requires i < 8
  {
    [ [], [PBuffer], [Pixmap], [PBuffer, Pixmap],
      [Window], [Window, PBuffer], [Window, Pixmap], [Window, Pixmap, PBuffer] ][i]
  }

  /** Entry `i` of the table joins the names of its kinds with '+'; only
      entry 0 is "None!". */
  lemma TableEntryJoinsParts(i: nat)
    requires i < 8
    ensures SurfaceStrings[i] == "None!" <==> i == 0
    ensures i != 0 ==> SurfaceStrings[i] == JoinPlus(TableParts(i))
  {
  }

  /** The kinds entry `i` lists are those whose bit is set in `i`, each once. */
  lemma TablePartsAreIndexBits(i: nat)
    requires i < 8
    ensures IndexKinds(i) == {} <==> i == 0
    ensures forall k :: k in TableParts(i) <==> k in IndexKinds(i)
    ensures forall a, b :: 0 <= a < b < |TableParts(i)| ==> TableParts(i)[a] != TableParts(i)[b]
  {
  }

  /** The label decodeSurface gives names exactly the kinds whose bit is set,
      each once, and says "None!" exactly when no bit is set. */
  lemma SurfaceLabelNamesSetBits(value: int32)
    ensures DecodeSurface(value) == "None!" <==> SupportedKinds(value) == {}
    ensures SupportedKinds(value) != {} ==>
              exists ks: seq<SurfaceKind> ::
                DecodeSurface(value) == JoinPlus(ks)
                && (forall k :: k in ks <==> k in SupportedKinds(value))
                && (forall a, b :: 0 <= a < b < |ks| ==> ks[a] != ks[b])
  {
    var r := value % 8;
    KindsOfLowBits(value);
    TableEntryJoinsParts(r);
    TablePartsAreIndexBits(r);
    if r != 0 {
      var ks := TableParts(r);
      assert DecodeSurface(value) == JoinPlus(ks);
    }
  }

  // ---------------------------------------------------- colour buffer type

  const UNKNOWN_COLOR_BUFFER := "Unknown EGL_COLOR_BUFFER_TYPE"

  function DecodeColorBuffer(value: int32): (text: string)
    ensures text in {"EGL_RGB_BUFFER", "EGL_LUMINANCE_BUFFER", UNKNOWN_COLOR_BUFFER}
    ensures text == "EGL_RGB_BUFFER" <==> value == EGL_RGB_BUFFER
    ensures text == "EGL_LUMINANCE_BUFFER" <==> value == EGL_LUMINANCE_BUFFER
    ensures text == UNKNOWN_COLOR_BUFFER <==>
              value != EGL_RGB_BUFFER && value != EGL_LUMINANCE_BUFFER
  {
    if value == EGL_RGB_BUFFER then "EGL_RGB_BUFFER"
    else if value == EGL_LUMINANCE_BUFFER then "EGL_LUMINANCE_BUFFER"
    else UNKNOWN_COLOR_BUFFER
  }

  /** Sample decodings. 0x3038 is EGL_NONE, so it reads "Normal"; a negative
      mask such as -1 has all three low bits set. */
  lemma DecoderExamples()
    ensures DecodeSurface(5) == "Window+PBuffer"
    ensures DecodeSurface(0) == "None!"
    ensures DecodeSurface(7) == "Window+Pixmap+PBuffer"
    ensures DecodeSurface(-1) == "Window+Pixmap+PBuffer"
    ensures DecodeSurface(-8) == "None!"
    ensures DecodeCaveat(0x3038) == "Normal"
    ensures DecodeCaveat(0) == UNKNOWN_CAVEAT
    ensures DecodeColorBuffer(EGL_LUMINANCE_BUFFER) == "EGL_LUMINANCE_BUFFER"
  {
  }
}
