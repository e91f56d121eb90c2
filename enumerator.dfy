/** The enumerator (printEGLConfigurations): it logs the count it was given,
    allocates a buffer of that many handles, lets the driver fill it and
    overwrite the count, then logs "Configuration i" and the block of
    configuration i for every i below the count the driver wrote back. The
    buffer is freed on every path that allocated it. */
module Enumerator {
  import opened Egl
  import opened Reporter

  /** The C heap, as far as the enumerator uses it: the buffers currently allocated. */
  class Heap {
    var live: set<object>

    constructor ()
      ensures live == {}
    {
      live := {};
    }

    /** malloc(sizeof(EGLConfig) * count). Whether the allocator grants a
        request is not the enumerator's business, so `granted` says it. On a
        64-bit target, with 8-byte handles, a negative count makes the size_t
        product at least 2^64 - 2^34 bytes, which no allocator grants, so a
        negative count is refused. */
    method Malloc(count: int32, granted: bool) returns (buf: array?<Config>)
      modifies this
      ensures buf == null <==> !granted || count < 0
      ensures buf != null ==> fresh(buf) && buf.Length == count && live == old(live) + {buf}
      ensures buf == null ==> live == old(live)
    {
      if granted && count >= 0 {
        buf := new Config[count];
        live := live + {buf};
      } else {
        buf := null;
      }
    }

    /** free(buf), for a buffer that Malloc returned and that is still allocated. */
    method Free(buf: array<Config>)
      requires buf in live
      modifies this
      ensures live == old(live) - {buf}
    {
      live := live - {buf};
    }
  }

  /** eglGetConfigs(dpy, buf, size, &count): the driver writes its handles into
      the front of the buffer and returns the EGLBoolean and the new count. */
  method GetConfigs(drv: Driver, dpy: Display, buf: array<Config>, size: int32)
      returns (returnVal: int32, count: int32)
    requires WellBehaved(drv)
    requires buf.Length == Capacity(size)
    modifies buf
    ensures returnVal == drv.getConfigs(dpy, size).returnVal
    ensures count as int == |drv.getConfigs(dpy, size).configs| <= buf.Length
    ensures buf[..count] == drv.getConfigs(dpy, size).configs
  {
    var reply := drv.getConfigs(dpy, size);
    assert |reply.configs| <= Capacity(size);
    forall k | 0 <= k < |reply.configs| {
      buf[k] := reply.configs[k];
    }
    returnVal, count := reply.returnVal, |reply.configs|;
  }

  /** "Configuration i" followed by the block `report` gives configuration i,
      for every handle of `configs` in order. */
  function Blocks(report: Config -> seq<Line>, configs: seq<Config>): seq<Line>
  {
    if configs == [] then []
    else
      Blocks(report, configs[..|configs| - 1])
      + [Marker(|configs| - 1)]
      + report(configs[|configs| - 1])
  }

  /** The reporter the enumerator calls: printEGLConfiguration on this display. */
  function ReportOf(drv: Driver, dpy: Display): Config -> seq<Line>
  {
    cfg => ConfigurationReport(drv, dpy, cfg)
  }

  /** What printEGLConfigurations returns and logs. */
  datatype Outcome = Outcome(ok: bool, lines: seq<Line>)

  /** printEGLConfigurations as a function of the count it is given, the
      allocator's answer and the driver. */
  function Enumeration(drv: Driver, dpy: Display, numConfigs: int32, granted: bool): Outcome
  {
    var header := [ConfigCount(numConfigs)];
    if !granted || numConfigs < 0 then
      Outcome(false, header + [AllocFailed])
    else
      var reply := drv.getConfigs(dpy, numConfigs);
      var diagnostic := if reply.returnVal != EGL_TRUE then [CallFailed("eglGetConfigs", reply.returnVal)] else [];
      if reply.returnVal == EGL_FALSE then Outcome(false, header + diagnostic)
      else Outcome(true, header + diagnostic + Blocks(ReportOf(drv, dpy), reply.configs))
  }

  /** printEGLConfigurations: the buffer it allocates is freed before it
      returns, and what it returns and logs is Enumeration. */
  method PrintEGLConfigurations(heap: Heap, drv: Driver, dpy: Display, numConfigs: int32, granted: bool)
      returns (ok: bool, lines: seq<Line>)
    requires WellBehaved(drv)
    modifies heap
    ensures heap.live == old(heap.live)
    ensures Outcome(ok, lines) == Enumeration(drv, dpy, numConfigs, granted)
  {
    lines := [ConfigCount(numConfigs)];
    var configs := heap.Malloc(numConfigs, granted);
    if configs == null {
      lines := lines + [AllocFailed];
      return false, lines;
    }
    var returnVal, count := GetConfigs(drv, dpy, configs, numConfigs);
    if returnVal != EGL_TRUE {
      lines := lines + [CallFailed("eglGetConfigs", returnVal)];
    }
    if returnVal == EGL_FALSE {
      heap.Free(configs);
      return false, lines;
    }
    var blocks := PrintBlocks(drv, dpy, configs, count);
    lines := lines + blocks;
    heap.Free(configs);
    ok := true;
  }

  /** The loop of printEGLConfigurations: "Configuration i" and the block of
      configuration i for each of the first `count` handles of the buffer. */
  method PrintBlocks(drv: Driver, dpy: Display, configs: array<Config>, count: int32) returns (lines: seq<Line>)
    requires 0 <= count as int <= configs.Length
    ensures lines == Blocks(ReportOf(drv, dpy), configs[..count])
  {
    lines := [];
    for i := 0 to count
      invariant lines == Blocks(ReportOf(drv, dpy), configs[..i])
    {
      lines := lines + [Marker(i)];
      var block := PrintEGLConfiguration(drv, dpy, configs[i]);
      lines := lines + block;
      BlocksStep(ReportOf(drv, dpy), configs[..count], i);
      assert configs[..count][..i] == configs[..i];
      assert configs[..count][..i + 1] == configs[..i + 1];
    }
  }

  // ------------------------------------------------------------ properties

  /** The indices of the "Configuration" markers among `lines`, in order. */
  function MarkerIndices(lines: seq<Line>): seq<int>
  {
    if lines == [] then []
    else
      var last := lines[|lines| - 1];
      MarkerIndices(lines[..|lines| - 1]) + (if last.Marker? then [last.index] else [])
  }

  lemma {:induction false} MarkerIndicesAppend(a: seq<Line>, b: seq<Line>)
    ensures MarkerIndices(a + b) == MarkerIndices(a) + MarkerIndices(b)
  {
    if b == [] {
      assert a + b == a;
    } else {
      assert (a + b)[..|a + b| - 1] == a + b[..|b| - 1];
      MarkerIndicesAppend(a, b[..|b| - 1]);
    }
  }

  lemma {:induction false} NoMarkers(lines: seq<Line>)
    requires forall k :: 0 <= k < |lines| ==> !lines[k].Marker?
    ensures MarkerIndices(lines) == []
  {
    if lines != [] {
      NoMarkers(lines[..|lines| - 1]);
    }
  }

  lemma ReportHasNoMarkers(drv: Driver, dpy: Display, cfg: Config)
    ensures MarkerIndices(ConfigurationReport(drv, dpy, cfg)) == []
  {
    ConfigurationReportLines(drv, dpy, cfg);
    NoMarkers(ConfigurationReport(drv, dpy, cfg));
  }

  /** 0, 1, ..., n - 1. */
  function Range(n: nat): (r: seq<int>)
    ensures |r| == n && forall i :: 0 <= i < n ==> r[i] == i
  {
    if n == 0 then [] else Range(n - 1) + [n - 1]
  }

  /** The blocks are numbered 0, 1, ..., |configs| - 1, in order, when the
      reporter itself never logs a marker. */
  lemma {:induction false} BlocksMarkers(report: Config -> seq<Line>, configs: seq<Config>)
    requires forall c :: MarkerIndices(report(c)) == []
    ensures MarkerIndices(Blocks(report, configs)) == Range(|configs|)
  {
    if configs != [] {
      var n := |configs|;
      var init := configs[..n - 1];
      BlocksMarkers(report, init);
      MarkerIndicesAppend(Blocks(report, init) + [Marker(n - 1)], report(configs[n - 1]));
      MarkerIndicesAppend(Blocks(report, init), [Marker(n - 1)]);
      assert MarkerIndices([Marker(n - 1)]) == [n - 1];
    }
  }

  /** Where the block of configuration i starts. */
  function BlockStart(report: Config -> seq<Line>, configs: seq<Config>, i: nat): nat
    requires i <= |configs|
  {
    |Blocks(report, configs[..i])|
  }

  lemma {:induction false} BlocksPrefix(report: Config -> seq<Line>, configs: seq<Config>, i: nat)
    requires i <= |configs|
    ensures Blocks(report, configs[..i]) <= Blocks(report, configs)
  {
    if i < |configs| {
      var init := configs[..|configs| - 1];
      assert configs[..i] == init[..i];
      BlocksPrefix(report, init, i);
    } else {
      assert configs[..i] == configs;
    }
  }

  /** Extending the handles by one appends one marker and one block. */
  lemma BlocksStep(report: Config -> seq<Line>, configs: seq<Config>, i: nat)
    requires i < |configs|
    ensures Blocks(report, configs[..i + 1]) == Blocks(report, configs[..i]) + [Marker(i)] + report(configs[i])
  {
    assert configs[..i + 1][..i] == configs[..i];
  }

  /** Block i ends where block i + 1 starts, inside the output. */
  lemma BlockBounds(report: Config -> seq<Line>, configs: seq<Config>, i: nat)
    requires i < |configs|
    ensures BlockStart(report, configs, i) + 1 + |report(configs[i])| == BlockStart(report, configs, i + 1)
    ensures BlockStart(report, configs, i + 1) <= |Blocks(report, configs)|
  {
    BlocksStep(report, configs, i);
    BlocksPrefix(report, configs, i + 1);
  }

  /** Block i opens with marker i. */
  lemma MarkerAtBlockStart(report: Config -> seq<Line>, configs: seq<Config>, i: nat)
    requires i < |configs|
    ensures BlockStart(report, configs, i) < |Blocks(report, configs)|
    ensures Blocks(report, configs)[BlockStart(report, configs, i)] == Marker(i)
  {
    var p := Blocks(report, configs[..i]);
    var q := Blocks(report, configs[..i + 1]);
    BlocksStep(report, configs, i);
    BlocksPrefix(report, configs, i + 1);
    assert q[|p|] == Marker(i);
  }

  /** Right after marker i comes exactly the report of configuration i, up to
      where block i + 1 starts. */
  lemma ReportAfterMarker(report: Config -> seq<Line>, configs: seq<Config>, i: nat)
    requires i < |configs|
    ensures BlockStart(report, configs, i) + 1 <= BlockStart(report, configs, i + 1) <= |Blocks(report, configs)|
    ensures Blocks(report, configs)[BlockStart(report, configs, i) + 1..BlockStart(report, configs, i + 1)]
              == report(configs[i])
  {
    var p := Blocks(report, configs[..i]);
    var r := report(configs[i]);
    var q := Blocks(report, configs[..i + 1]);
    BlocksStep(report, configs, i);
    BlocksPrefix(report, configs, i + 1);
    assert q == (p + [Marker(i)]) + r;
    assert q[|p| + 1..] == r;
  }

  /** The block of the last configuration runs to the end of the output. */
  lemma LastBlockEnds(report: Config -> seq<Line>, configs: seq<Config>)
    ensures BlockStart(report, configs, |configs|) == |Blocks(report, configs)|
  {
    assert configs[..|configs|] == configs;
  }

  /** If the allocation fails, the enumerator reports failure after logging
      the count and the allocation message, and no configuration. */
  lemma AllocationFailure(drv: Driver, dpy: Display, numConfigs: int32, granted: bool)
    requires !granted || numConfigs < 0
    ensures Enumeration(drv, dpy, numConfigs, granted) == Outcome(false, [ConfigCount(numConfigs), AllocFailed])
    ensures MarkerIndices(Enumeration(drv, dpy, numConfigs, granted).lines) == []
  {
    NoMarkers([ConfigCount(numConfigs), AllocFailed]);
  }

  /** The enumerator succeeds exactly when the allocation is granted and
      eglGetConfigs returns a nonzero EGLBoolean; a failed fill logs no
      configuration. */
  lemma {:induction false} EnumerationOutcome(drv: Driver, dpy: Display, numConfigs: int32, granted: bool)
    ensures var o := Enumeration(drv, dpy, numConfigs, granted);
            o.ok <==> granted && numConfigs >= 0 && drv.getConfigs(dpy, numConfigs).returnVal != EGL_FALSE
    ensures var o := Enumeration(drv, dpy, numConfigs, granted);
            !o.ok ==> MarkerIndices(o.lines) == []
  {
    var o := Enumeration(drv, dpy, numConfigs, granted);
    if !o.ok {
      NoMarkers(o.lines);
    }
  }

  /** On success the markers are 0 .. n' - 1 in order, where n' is the count
      the driver wrote back (not the count requested), and the output is the
      count line, the diagnostic of a not-quite-true EGLBoolean, and then
      marker i and the block of configuration i for each i. */
  lemma EnumerationSuccess(drv: Driver, dpy: Display, numConfigs: int32, granted: bool)
    requires granted && numConfigs >= 0
    requires drv.getConfigs(dpy, numConfigs).returnVal != EGL_FALSE
    ensures var o := Enumeration(drv, dpy, numConfigs, granted);
            var reply := drv.getConfigs(dpy, numConfigs);
            o.ok
            && MarkerIndices(o.lines) == Range(|reply.configs|)
            && o.lines == [ConfigCount(numConfigs)]
                          + (if reply.returnVal != EGL_TRUE then [CallFailed("eglGetConfigs", reply.returnVal)] else [])
                          + Blocks(ReportOf(drv, dpy), reply.configs)
  {
    var reply := drv.getConfigs(dpy, numConfigs);
    var diagnostic := if reply.returnVal != EGL_TRUE then [CallFailed("eglGetConfigs", reply.returnVal)] else [];
    var header := [ConfigCount(numConfigs)] + diagnostic;
    var report := ReportOf(drv, dpy);
    forall c
      ensures MarkerIndices(report(c)) == []
    {
      ReportHasNoMarkers(drv, dpy, c);
    }
    NoMarkers(header);
    MarkerIndicesAppend(header, Blocks(report, reply.configs));
    BlocksMarkers(report, reply.configs);
  }
}
