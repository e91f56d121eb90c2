/** The per-configuration reporter (printEGLConfiguration): it queries a fixed,
    ordered table of attributes, skips every attribute whose query fails, and
    emits a raw line per remaining attribute, preceded by a decoded line for
    the three attributes that have a decoder. A blank line ends the block. */
module Reporter {
  import opened Egl
  import opened Decode

  /** One entry of the attribute table: attribute identifier and its name. */
  datatype Attribute = Attribute(id: int32, name: string)

  const CAVEAT_NAME := "EGL_CONFIG_CAVEAT"
  const SURFACE_NAME := "EGL_SURFACE_TYPE"
  const COLOR_BUFFER_NAME := "EGL_COLOR_BUFFER_TYPE"

  /** The attribute table, in the order the reporter walks it. */
  const Names: seq<Attribute> := [
    Attribute(EGL_BUFFER_SIZE, "EGL_BUFFER_SIZE"),
    Attribute(EGL_ALPHA_SIZE, "EGL_ALPHA_SIZE"),
    Attribute(EGL_BLUE_SIZE, "EGL_BLUE_SIZE"),
    Attribute(EGL_GREEN_SIZE, "EGL_GREEN_SIZE"),
    Attribute(EGL_RED_SIZE, "EGL_RED_SIZE"),
    Attribute(EGL_DEPTH_SIZE, "EGL_DEPTH_SIZE"),
    Attribute(EGL_STENCIL_SIZE, "EGL_STENCIL_SIZE"),
    Attribute(EGL_CONFIG_CAVEAT, "EGL_CONFIG_CAVEAT"),
    Attribute(EGL_CONFIG_ID, "EGL_CONFIG_ID"),
    Attribute(EGL_LEVEL, "EGL_LEVEL"),
    Attribute(EGL_MAX_PBUFFER_HEIGHT, "EGL_MAX_PBUFFER_HEIGHT"),
    Attribute(EGL_MAX_PBUFFER_PIXELS, "EGL_MAX_PBUFFER_PIXELS"),
    Attribute(EGL_MAX_PBUFFER_WIDTH, "EGL_MAX_PBUFFER_WIDTH"),
    Attribute(EGL_NATIVE_RENDERABLE, "EGL_NATIVE_RENDERABLE"),
    Attribute(EGL_NATIVE_VISUAL_ID, "EGL_NATIVE_VISUAL_ID"),
    Attribute(EGL_NATIVE_VISUAL_TYPE, "EGL_NATIVE_VISUAL_TYPE"),
    Attribute(EGL_SAMPLES, "EGL_SAMPLES"),
    Attribute(EGL_SAMPLE_BUFFERS, "EGL_SAMPLE_BUFFERS"),
    Attribute(EGL_SURFACE_TYPE, "EGL_SURFACE_TYPE"),
    Attribute(EGL_TRANSPARENT_TYPE, "EGL_TRANSPARENT_TYPE"),
    Attribute(EGL_TRANSPARENT_RED_VALUE, "EGL_TRANSPARENT_RED_VALUE"),
    Attribute(EGL_TRANSPARENT_GREEN_VALUE, "EGL_TRANSPARENT_GREEN_VALUE"),
    Attribute(EGL_TRANSPARENT_BLUE_VALUE, "EGL_TRANSPARENT_BLUE_VALUE"),
    Attribute(EGL_BIND_TO_TEXTURE_RGB, "EGL_BIND_TO_TEXTURE_RGB"),
    Attribute(EGL_BIND_TO_TEXTURE_RGBA, "EGL_BIND_TO_TEXTURE_RGBA"),
    Attribute(EGL_MIN_SWAP_INTERVAL, "EGL_MIN_SWAP_INTERVAL"),
    Attribute(EGL_MAX_SWAP_INTERVAL, "EGL_MAX_SWAP_INTERVAL"),
    Attribute(EGL_LUMINANCE_SIZE, "EGL_LUMINANCE_SIZE"),
    Attribute(EGL_ALPHA_MASK_SIZE, "EGL_ALPHA_MASK_SIZE"),
    Attribute(EGL_COLOR_BUFFER_TYPE, "EGL_COLOR_BUFFER_TYPE"),
    Attribute(EGL_RENDERABLE_TYPE, "EGL_RENDERABLE_TYPE"),
    Attribute(EGL_CONFORMANT, "EGL_CONFORMANT")
  ]

  /** A query counts only if eglGetConfigAttrib returned a true EGLBoolean
      and eglGetError then reported EGL_SUCCESS. */
  predicate Succeeded(reply: AttribReply)
  {
    reply.returnVal != EGL_FALSE && reply.error == EGL_SUCCESS
  }

  /** The value printed: what the driver wrote, or the -1 the out-parameter
      was initialised to if it wrote nothing. */
  function ValueOf(reply: AttribReply): int32
  {
    match reply.written
    case Some(v) => v
    case None => -1
  }

  /** The attributes whose value the reporter also decodes (it tells them by name). */
  predicate IsDecoded(name: string)
  {
    name == CAVEAT_NAME || name == SURFACE_NAME || name == COLOR_BUFFER_NAME
  }

  /** The decoded lines for one successful attribute: one for each of the three
      name tests the source makes, in its order. */
  function DecodedLines(name: string, value: int32): seq<Line>
  {
    (if name == CAVEAT_NAME then [Decoded(name, DecodeCaveat(value), value)] else [])
    + (if name == SURFACE_NAME then [Decoded(name, DecodeSurface(value), value)] else [])
    + (if name == COLOR_BUFFER_NAME then [Decoded(name, DecodeColorBuffer(value), value)] else [])
  }

  /** The lines one attribute contributes to a report. */
  function AttributeLines(a: Attribute, reply: AttribReply): (lines: seq<Line>)
    ensures !Succeeded(reply) ==> lines == []
    ensures Succeeded(reply) && !IsDecoded(a.name) ==> lines == [Raw(a.name, ValueOf(reply))]
    ensures Succeeded(reply) && IsDecoded(a.name) ==>
              |lines| == 2
              && lines[0].Decoded? && lines[0].name == a.name && lines[0].raw == ValueOf(reply)
              && lines[1] == Raw(a.name, ValueOf(reply))
    ensures Succeeded(reply) && a.name == CAVEAT_NAME ==> lines[0].text == DecodeCaveat(ValueOf(reply))
    ensures Succeeded(reply) && a.name == SURFACE_NAME ==> lines[0].text == DecodeSurface(ValueOf(reply))
    ensures Succeeded(reply) && a.name == COLOR_BUFFER_NAME ==> lines[0].text == DecodeColorBuffer(ValueOf(reply))
  {
    if Succeeded(reply) then DecodedLines(a.name, ValueOf(reply)) + [Raw(a.name, ValueOf(reply))]
    else []
  }

  /** The driver's answer for attribute `a` of configuration `cfg`. */
  function Reply(drv: Driver, dpy: Display, cfg: Config, a: Attribute): AttribReply
  {
    drv.getConfigAttrib(dpy, cfg, a.id)
  }

  /** The lines the attributes of `table` contribute, in table order. */
  function AttributesReport(drv: Driver, dpy: Display, cfg: Config, table: seq<Attribute>): seq<Line>
  {
    if table == [] then []
    else
      var last := table[|table| - 1];
      AttributesReport(drv, dpy, cfg, table[..|table| - 1]) + AttributeLines(last, Reply(drv, dpy, cfg, last))
  }

  /** The whole block printed for one configuration. */
  function ConfigurationReport(drv: Driver, dpy: Display, cfg: Config): seq<Line>
  {
    AttributesReport(drv, dpy, cfg, Names) + [Blank]
  }

  /** One pass of printEGLConfiguration's loop: query one attribute and
      return the lines logged for it. */
  method ReportAttribute(drv: Driver, dpy: Display, cfg: Config, a: Attribute) returns (lines: seq<Line>)
    ensures lines == AttributeLines(a, Reply(drv, dpy, cfg, a))
  {
    lines := [];
    var value: int32 := -1;
    var reply := drv.getConfigAttrib(dpy, cfg, a.id);
    if reply.written.Some? {
      value := reply.written.value;
    }
    if reply.returnVal != EGL_FALSE && reply.error == EGL_SUCCESS {
      if a.name == CAVEAT_NAME {
        lines := lines + [Decoded(a.name, DecodeCaveat(value), value)];
      }
      if a.name == SURFACE_NAME {
        lines := lines + [Decoded(a.name, DecodeSurface(value), value)];
      }
      if a.name == COLOR_BUFFER_NAME {
        lines := lines + [Decoded(a.name, DecodeColorBuffer(value), value)];
      }
      lines := lines + [Raw(a.name, value)];
    }
  }

  /** printEGLConfiguration: returns the lines it logs, in order. */
  method PrintEGLConfiguration(drv: Driver, dpy: Display, cfg: Config) returns (lines: seq<Line>)
    ensures lines == ConfigurationReport(drv, dpy, cfg)
  {
    lines := [];
    for j := 0 to |Names|
      invariant lines == AttributesReport(drv, dpy, cfg, Names[..j])
    {
      var more := ReportAttribute(drv, dpy, cfg, Names[j]);
      lines := lines + more;
      assert Names[..j + 1][..j] == Names[..j];
    }
    assert Names[..|Names|] == Names;
    lines := lines + [Blank];
  }

  // ------------------------------------------------------------ properties

  /** How many attributes of `table` are queried successfully. */
  function SucceededCount(drv: Driver, dpy: Display, cfg: Config, table: seq<Attribute>): nat
  {
    if table == [] then 0
    else
      var last := table[|table| - 1];
      SucceededCount(drv, dpy, cfg, table[..|table| - 1])
      + (if Succeeded(Reply(drv, dpy, cfg, last)) then 1 else 0)
  }

  /** How many decoded attributes of `table` are queried successfully. */
  function DecodedCount(drv: Driver, dpy: Display, cfg: Config, table: seq<Attribute>): nat
  {
    if table == [] then 0
    else
      var last := table[|table| - 1];
      DecodedCount(drv, dpy, cfg, table[..|table| - 1])
      + (if Succeeded(Reply(drv, dpy, cfg, last)) && IsDecoded(last.name) then 1 else 0)
  }

  /** Every successful attribute gives one line, and a decoded one a second. */
  lemma {:induction false} AttributesReportLength(drv: Driver, dpy: Display, cfg: Config, table: seq<Attribute>)
    ensures |AttributesReport(drv, dpy, cfg, table)| ==
              SucceededCount(drv, dpy, cfg, table) + DecodedCount(drv, dpy, cfg, table)
  {
    if table != [] {
      AttributesReportLength(drv, dpy, cfg, table[..|table| - 1]);
    }
  }

  /** A configuration's block has one line per successful attribute, one more
      per successful decoded attribute, and the closing blank line, which is
      there even when every query fails. */
  lemma ConfigurationReportShape(drv: Driver, dpy: Display, cfg: Config)
    ensures var r := ConfigurationReport(drv, dpy, cfg);
            |r| == SucceededCount(drv, dpy, cfg, Names) + DecodedCount(drv, dpy, cfg, Names) + 1
            && r[|r| - 1] == Blank
  {
    AttributesReportLength(drv, dpy, cfg, Names);
  }

  /** The raw lines among `lines`, in order. */
  function RawLines(lines: seq<Line>): seq<Line>
  {
    if lines == [] then []
    else RawLines(lines[..|lines| - 1]) + (if lines[|lines| - 1].Raw? then [lines[|lines| - 1]] else [])
  }

  lemma {:induction false} RawLinesAppend(a: seq<Line>, b: seq<Line>)
    ensures RawLines(a + b) == RawLines(a) + RawLines(b)
  {
    if b == [] {
      assert a + b == a;
    } else {
      assert (a + b)[..|a + b| - 1] == a + b[..|b| - 1];
      RawLinesAppend(a, b[..|b| - 1]);
    }
  }

  /** The raw line each successful attribute of `table` gets, in table order. */
  function ExpectedRawLines(drv: Driver, dpy: Display, cfg: Config, table: seq<Attribute>): seq<Line>
  {
    if table == [] then []
    else
      var last := table[|table| - 1];
      var reply := Reply(drv, dpy, cfg, last);
      ExpectedRawLines(drv, dpy, cfg, table[..|table| - 1])
      + (if Succeeded(reply) then [Raw(last.name, ValueOf(reply))] else [])
  }

  /** The raw lines of a report are those of the successful attributes, in
      table order, each with the value the driver returned. */
  lemma {:induction false} ReportRawLinesInTableOrder(drv: Driver, dpy: Display, cfg: Config, table: seq<Attribute>)
    ensures RawLines(AttributesReport(drv, dpy, cfg, table)) == ExpectedRawLines(drv, dpy, cfg, table)
  {
    if table != [] {
      var init, last := table[..|table| - 1], table[|table| - 1];
      var lines := AttributeLines(last, Reply(drv, dpy, cfg, last));
      ReportRawLinesInTableOrder(drv, dpy, cfg, init);
      RawLinesAppend(AttributesReport(drv, dpy, cfg, init), lines);
      if |lines| == 2 {
        assert lines == [lines[0]] + [lines[1]];
        RawLinesAppend([lines[0]], [lines[1]]);
      }
    }
  }

  /** Every decoded line is immediately followed by the raw line of the same
      attribute with the same value. */
  ghost predicate DecodedThenRaw(lines: seq<Line>)
  {
    forall k :: 0 <= k < |lines| && lines[k].Decoded? ==>
      k + 1 < |lines| && lines[k + 1] == Raw(lines[k].name, lines[k].raw)
  }

  /** The lines of a report are attribute lines, and each names an attribute
      of the table whose query succeeded. */
  ghost predicate NamesSucceeded(drv: Driver, dpy: Display, cfg: Config, table: seq<Attribute>, lines: seq<Line>)
  {
    forall k :: 0 <= k < |lines| ==>
      (lines[k].Decoded? || lines[k].Raw?)
      && exists i :: 0 <= i < |table| && table[i].name == lines[k].name && Succeeded(Reply(drv, dpy, cfg, table[i]))
  }

  lemma {:induction false} ReportLinesWellFormed(drv: Driver, dpy: Display, cfg: Config, table: seq<Attribute>)
    ensures DecodedThenRaw(AttributesReport(drv, dpy, cfg, table))
    ensures NamesSucceeded(drv, dpy, cfg, table, AttributesReport(drv, dpy, cfg, table))
  {
    if table != [] {
      var init, last := table[..|table| - 1], table[|table| - 1];
      var a := AttributesReport(drv, dpy, cfg, init);
      var b := AttributeLines(last, Reply(drv, dpy, cfg, last));
      ReportLinesWellFormed(drv, dpy, cfg, init);
      var r := a + b;
      forall k | 0 <= k < |r|
        ensures (r[k].Decoded? || r[k].Raw?)
        ensures exists i :: 0 <= i < |table| && table[i].name == r[k].name && Succeeded(Reply(drv, dpy, cfg, table[i]))
      {
        if k < |a| {
          var i :| 0 <= i < |init| && init[i].name == a[k].name && Succeeded(Reply(drv, dpy, cfg, init[i]));
          assert table[i] == init[i];
        } else {
          assert table[|table| - 1] == last;
        }
      }
    }
  }

  /** No two entries of the table share a name. */
  ghost predicate DistinctNames(table: seq<Attribute>)
  {
    forall i, j :: 0 <= i < j < |table| ==> table[i].name != table[j].name
  }

  /** An attribute whose query fails contributes no line at all; one whose
      query succeeds contributes its raw line. */
  lemma AttributeSilentIffFailed(drv: Driver, dpy: Display, cfg: Config, table: seq<Attribute>, j: nat)
    requires DistinctNames(table)
    requires j < |table|
    ensures var a := table[j];
            var reply := Reply(drv, dpy, cfg, a);
            var lines := AttributesReport(drv, dpy, cfg, table);
            (!Succeeded(reply) ==> forall k :: 0 <= k < |lines| && (lines[k].Decoded? || lines[k].Raw?) ==> lines[k].name != a.name)
            && (Succeeded(reply) ==> Raw(a.name, ValueOf(reply)) in lines)
  {
    var a := table[j];
    var reply := Reply(drv, dpy, cfg, a);
    var lines := AttributesReport(drv, dpy, cfg, table);
    ReportLinesWellFormed(drv, dpy, cfg, table);
    if Succeeded(reply) {
      ExpectedRawContains(drv, dpy, cfg, table, j);
      ReportRawLinesInTableOrder(drv, dpy, cfg, table);
      RawLinesSubset(lines);
    }
  }

  lemma {:induction false} ExpectedRawContains(drv: Driver, dpy: Display, cfg: Config, table: seq<Attribute>, j: nat)
    requires j < |table| && Succeeded(Reply(drv, dpy, cfg, table[j]))
    ensures Raw(table[j].name, ValueOf(Reply(drv, dpy, cfg, table[j]))) in ExpectedRawLines(drv, dpy, cfg, table)
  {
    if j < |table| - 1 {
      ExpectedRawContains(drv, dpy, cfg, table[..|table| - 1], j);
    }
  }

  lemma {:induction false} RawLinesSubset(lines: seq<Line>)
    ensures forall l :: l in RawLines(lines) ==> l in lines
  {
    if lines != [] {
      RawLinesSubset(lines[..|lines| - 1]);
    }
  }

  // ------------------------------------------------ the table of the source

  /** The table has 32 entries and the decoded attributes are entries 7, 18 and 29. */
  lemma NamesTableShape()
    ensures |Names| == 32
    ensures forall j :: 0 <= j < |Names| ==> (IsDecoded(Names[j].name) <==> j in {7, 18, 29})
  {
  }

  /** A number that tells the table's names apart: length * 2^24 + sixth
      character * 2^8 + last character. */
  function NameKey(name: string): int
  {
    if |name| < 6 then 0 else |name| * 0x100_0000 + (name[5] as int) * 0x100 + (name[|name| - 1] as int)
  }

  /** The position in the table of the entry whose name has key `key`: the
      inverse of NameKey on the table, so equal keys mean equal positions.
      Each key is the name's length in the top bits, then its sixth
      character, then its last character, in hexadecimal. */
  function KeyIndex(key: int): int
  {
    if key == 0xf005545 then 0                // EGL_BUFFER_SIZE
    else if key == 0xe004c45 then 1           // EGL_ALPHA_SIZE
    else if key == 0xd004c45 then 2           // EGL_BLUE_SIZE
    else if key == 0xe005245 then 3           // EGL_GREEN_SIZE
    else if key == 0xc004545 then 4           // EGL_RED_SIZE
    else if key == 0xe004545 then 5           // EGL_DEPTH_SIZE
    else if key == 0x10005445 then 6          // EGL_STENCIL_SIZE
    else if key == 0x11004f54 then 7          // EGL_CONFIG_CAVEAT
    else if key == 0xd004f44 then 8           // EGL_CONFIG_ID
    else if key == 0x900454c then 9           // EGL_LEVEL
    else if key == 0x16004154 then 10         // EGL_MAX_PBUFFER_HEIGHT
    else if key == 0x16004153 then 11         // EGL_MAX_PBUFFER_PIXELS
    else if key == 0x15004148 then 12         // EGL_MAX_PBUFFER_WIDTH
    else if key == 0x15004145 then 13         // EGL_NATIVE_RENDERABLE
    else if key == 0x14004144 then 14         // EGL_NATIVE_VISUAL_ID
    else if key == 0x16004145 then 15         // EGL_NATIVE_VISUAL_TYPE
    else if key == 0xb004153 then 16          // EGL_SAMPLES
    else if key == 0x12004153 then 17         // EGL_SAMPLE_BUFFERS
    else if key == 0x10005545 then 18         // EGL_SURFACE_TYPE
    else if key == 0x14005245 then 19         // EGL_TRANSPARENT_TYPE
    else if key == 0x19005245 then 20         // EGL_TRANSPARENT_RED_VALUE
    else if key == 0x1b005245 then 21         // EGL_TRANSPARENT_GREEN_VALUE
    else if key == 0x1a005245 then 22         // EGL_TRANSPARENT_BLUE_VALUE
    else if key == 0x17004942 then 23         // EGL_BIND_TO_TEXTURE_RGB
    else if key == 0x18004941 then 24         // EGL_BIND_TO_TEXTURE_RGBA
    else if key == 0x1500494c then 25         // EGL_MIN_SWAP_INTERVAL
    else if key == 0x1500414c then 26         // EGL_MAX_SWAP_INTERVAL
    else if key == 0x12005545 then 27         // EGL_LUMINANCE_SIZE
    else if key == 0x13004c45 then 28         // EGL_ALPHA_MASK_SIZE
    else if key == 0x15004f45 then 29         // EGL_COLOR_BUFFER_TYPE
    else if key == 0x13004545 then 30         // EGL_RENDERABLE_TYPE
    else if key == 0xe004f54 then 31          // EGL_CONFORMANT
    else -1
  }

  lemma KeysIdentifyEntries0To3()
    ensures forall j :: 0 <= j < 4 ==> KeyIndex(NameKey(Names[j].name)) == j
  {
  }

  lemma KeysIdentifyEntries4To7()
    ensures forall j :: 4 <= j < 8 ==> KeyIndex(NameKey(Names[j].name)) == j
  {
  }

  lemma KeysIdentifyEntries8To11()
    ensures forall j :: 8 <= j < 12 ==> KeyIndex(NameKey(Names[j].name)) == j
  {
  }

  lemma KeysIdentifyEntries12To15()
    ensures forall j :: 12 <= j < 16 ==> KeyIndex(NameKey(Names[j].name)) == j
  {
  }

  lemma KeysIdentifyEntries16To19()
    ensures forall j :: 16 <= j < 20 ==> KeyIndex(NameKey(Names[j].name)) == j
  {
  }

  lemma KeysIdentifyEntries20To23()
    ensures forall j :: 20 <= j < 24 ==> KeyIndex(NameKey(Names[j].name)) == j
  {
  }

  lemma KeysIdentifyEntries24To27()
    ensures forall j :: 24 <= j < 28 ==> KeyIndex(NameKey(Names[j].name)) == j
  {
  }

  lemma KeysIdentifyEntries28To31()
    ensures forall j :: 28 <= j < 32 ==> KeyIndex(NameKey(Names[j].name)) == j
  {
  }

  lemma NamesTableDistinct()
    ensures DistinctNames(Names)
  {
    KeysIdentifyEntries0To3();
    KeysIdentifyEntries4To7();
    KeysIdentifyEntries8To11();
    KeysIdentifyEntries12To15();
    KeysIdentifyEntries16To19();
    KeysIdentifyEntries20To23();
    KeysIdentifyEntries24To27();
    KeysIdentifyEntries28To31();
    assert forall j :: 0 <= j < |Names| ==> KeyIndex(NameKey(Names[j].name)) == j;
  }

  /** In the source's table, a failed query leaves no line naming that
      attribute in the configuration's block, and a successful one leaves its
      raw line there. */
  lemma FailedAttributeSilent(drv: Driver, dpy: Display, cfg: Config, j: nat)
    requires j < |Names|
    ensures var a := Names[j];
            var reply := Reply(drv, dpy, cfg, a);
            var r := ConfigurationReport(drv, dpy, cfg);
            (!Succeeded(reply) ==> forall k :: 0 <= k < |r| && (r[k].Decoded? || r[k].Raw?) ==> r[k].name != a.name)
            && (Succeeded(reply) ==> Raw(a.name, ValueOf(reply)) in r)
  {
    NamesTableDistinct();
    AttributeSilentIffFailed(drv, dpy, cfg, Names, j);
  }

  /** A block is attribute lines followed by the one blank line; in particular
      it holds no "Configuration" marker. */
  lemma ConfigurationReportLines(drv: Driver, dpy: Display, cfg: Config)
    ensures var r := ConfigurationReport(drv, dpy, cfg);
            (forall k :: 0 <= k < |r| - 1 ==> r[k].Decoded? || r[k].Raw?)
            && r[|r| - 1] == Blank
            && DecodedThenRaw(r)
  {
    var a := AttributesReport(drv, dpy, cfg, Names);
    ReportLinesWellFormed(drv, dpy, cfg, Names);
    assert ConfigurationReport(drv, dpy, cfg) == a + [Blank];
  }

  /** How many entries of `table` have a decoder, whatever the driver says. */
  function DecodedEntries(table: seq<Attribute>): nat
  {
    if table == [] then 0
    else DecodedEntries(table[..|table| - 1]) + (if IsDecoded(table[|table| - 1].name) then 1 else 0)
  }

  /** When every query succeeds, every entry counts, and so does every
      decoded one. */
  lemma {:induction false} AllSucceededCounts(drv: Driver, dpy: Display, cfg: Config, table: seq<Attribute>)
    requires forall j :: 0 <= j < |table| ==> Succeeded(Reply(drv, dpy, cfg, table[j]))
    ensures SucceededCount(drv, dpy, cfg, table) == |table|
    ensures DecodedCount(drv, dpy, cfg, table) == DecodedEntries(table)
  {
    if table != [] {
      AllSucceededCounts(drv, dpy, cfg, table[..|table| - 1]);
    }
  }

  /** Among the first `k` entries of the source's table, those before
      positions 7, 18 and 29 have no decoder. */
  lemma {:induction false} NamesDecodedPrefix(k: nat)
    requires k <= |Names|
    ensures DecodedEntries(Names[..k]) == if k > 29 then 3 else if k > 18 then 2 else if k > 7 then 1 else 0
  {
    NamesTableShape();
    if k > 0 {
      assert Names[..k][..k - 1] == Names[..k - 1];
      NamesDecodedPrefix(k - 1);
    }
  }

  /** Three entries of the source's table have a decoder. */
  lemma NamesDecodedEntries()
    ensures DecodedEntries(Names) == 3
  {
    NamesTableShape();
    NamesDecodedPrefix(|Names|);
    assert Names[..|Names|] == Names;
  }

  /** A configuration whose every query succeeds gets 32 raw lines, 3 decoded
      lines and the blank line. */
  lemma AllSucceededReportLength(drv: Driver, dpy: Display, cfg: Config)
    requires forall j :: 0 <= j < |Names| ==> Succeeded(Reply(drv, dpy, cfg, Names[j]))
    ensures |ConfigurationReport(drv, dpy, cfg)| == 36
  {
    NamesTableShape();
    AllSucceededCounts(drv, dpy, cfg, Names);
    NamesDecodedEntries();
    ConfigurationReportShape(drv, dpy, cfg);
  }

  lemma {:induction false} AllFailedSilent(drv: Driver, dpy: Display, cfg: Config, table: seq<Attribute>)
    requires forall j :: 0 <= j < |table| ==> !Succeeded(Reply(drv, dpy, cfg, table[j]))
    ensures AttributesReport(drv, dpy, cfg, table) == []
  {
    if table != [] {
      AllFailedSilent(drv, dpy, cfg, table[..|table| - 1]);
    }
  }

  /** A configuration whose every query fails still gets its blank line. */
  lemma AllFailedReport(drv: Driver, dpy: Display, cfg: Config)
    requires forall j :: 0 <= j < |Names| ==> !Succeeded(Reply(drv, dpy, cfg, Names[j]))
    ensures ConfigurationReport(drv, dpy, cfg) == [Blank]
  {
    AllFailedSilent(drv, dpy, cfg, Names);
  }

  /** A caveat query that returns the unrecognised value 0 logs the
      "unknown" decoded line and then the raw line. */
  lemma UnknownCaveatExample(reply: AttribReply)
    requires Succeeded(reply) && reply.written == Some(0)
    ensures AttributeLines(Attribute(EGL_CONFIG_CAVEAT, CAVEAT_NAME), reply)
            == [Decoded(CAVEAT_NAME, UNKNOWN_CAVEAT, 0), Raw(CAVEAT_NAME, 0)]
  {
  }
}
