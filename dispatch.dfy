/** The opcode loop of `ApplyOpcodes`: every enabled opcode whose kind has a pixel
    routine is applied to the destination image, in list order; disabled opcodes and
    opcodes of any other kind are skipped. The pixel routines themselves
    (`OpcodesImplementation`) are parameters of the model. */
module Dispatch {
  import opened Opcodes
  import opened Imaging

  /** The four pixel routines of `OpcodesImplementation`, each taking the image and
      the opcode it applies. */
  datatype Routines = Routines(
    warpRectilinear: (Raster, OpcodeRecord) -> Raster,
    fixVignetteRadial: (Raster, OpcodeRecord) -> Raster,
    trimBounds: (Raster, OpcodeRecord) -> Raster,
    gainMap: (Raster, OpcodeRecord) -> Raster)

  /** The identifiers the `switch` of `ApplyOpcodes` has a case for. */
  predicate IsImplemented(id: nat)
  {
    id == WarpRectilinear || id == FixVignetteRadial || id == TrimBounds || id == GainMap
  }

  /** An opcode the loop hands to a pixel routine. */
  predicate IsDispatched(op: OpcodeRecord)
  {
    op.enabled && IsImplemented(op.id)
  }

  /** The routine run for an implemented opcode. */
  function Invoke(impl: Routines, r: Raster, op: OpcodeRecord): Raster
    requires IsImplemented(op.id)
  {
    if op.id == WarpRectilinear then impl.warpRectilinear(r, op)
    else if op.id == FixVignetteRadial then impl.fixVignetteRadial(r, op)
    else if op.id == TrimBounds then impl.trimBounds(r, op)
    else impl.gainMap(r, op)
  }

  /** One pass of the loop body: `continue` for a disabled opcode and for the
      `default` case, otherwise the routine of the opcode's kind. */
  function Step(impl: Routines, r: Raster, op: OpcodeRecord): (s: Raster)
    ensures !IsDispatched(op) ==> s == r
    ensures IsDispatched(op) ==> s == Invoke(impl, r, op)
  {
    if !op.enabled then r
    else if op.id == WarpRectilinear then impl.warpRectilinear(r, op)
    else if op.id == FixVignetteRadial then impl.fixVignetteRadial(r, op)
    else if op.id == TrimBounds then impl.trimBounds(r, op)
    else if op.id == GainMap then impl.gainMap(r, op)
    else r
  }

  /** The image after the loop has gone over `ops`. */
  function ApplyAll(impl: Routines, r: Raster, ops: seq<OpcodeRecord>): Raster
    decreases |ops|
  {
    if |ops| == 0 then r
    else Step(impl, ApplyAll(impl, r, ops[..|ops| - 1]), ops[|ops| - 1])
  }

  /** The opcodes handed to a routine, in list order. */
  function Dispatched(ops: seq<OpcodeRecord>): (d: seq<OpcodeRecord>)
    ensures forall k :: 0 <= k < |d| ==> IsDispatched(d[k])
    ensures forall k :: 0 <= k < |ops| && IsDispatched(ops[k]) ==> ops[k] in d
    ensures forall x :: x in d ==> x in ops
    ensures |d| <= |ops|
    decreases |ops|
  {
    if |ops| == 0 then []
    else Dispatched(ops[..|ops| - 1]) + (if IsDispatched(ops[|ops| - 1]) then [ops[|ops| - 1]] else [])
  }

  /** The routines run one after another, unconditionally. */
  function RunTrace(impl: Routines, r: Raster, trace: seq<OpcodeRecord>): Raster
    requires forall k :: 0 <= k < |trace| ==> IsImplemented(trace[k].id)
    decreases |trace|
  {
    if |trace| == 0 then r
    else Invoke(impl, RunTrace(impl, r, trace[..|trace| - 1]), trace[|trace| - 1])
  }

  /** Running the loop over the list is running exactly the dispatched opcodes, in
      list order. */
  lemma {:induction false} ApplyAllRunsDispatched(impl: Routines, r: Raster, ops: seq<OpcodeRecord>)
    ensures ApplyAll(impl, r, ops) == RunTrace(impl, r, Dispatched(ops))
    decreases |ops|
  {
    if |ops| > 0 {
      var init := ops[..|ops| - 1];
      var last := ops[|ops| - 1];
      ApplyAllRunsDispatched(impl, r, init);
      if IsDispatched(last) {
        var d := Dispatched(init) + [last];
        assert d[..|d| - 1] == Dispatched(init);
      } else {
        assert Dispatched(ops) == Dispatched(init);
      }
    }
  }

  /** Appending an opcode that is disabled or of an unimplemented kind leaves the
      result unchanged. */
  lemma SkippedHasNoEffect(impl: Routines, r: Raster, ops: seq<OpcodeRecord>, op: OpcodeRecord)
    requires !IsDispatched(op)
    ensures ApplyAll(impl, r, ops + [op]) == ApplyAll(impl, r, ops)
  {
    assert (ops + [op])[..|ops|] == ops;
  }

  /** A list none of whose opcodes is dispatched leaves the image as it was. */
  lemma {:induction false} NothingDispatchedIsIdentity(impl: Routines, r: Raster, ops: seq<OpcodeRecord>)
    requires forall k :: 0 <= k < |ops| ==> !IsDispatched(ops[k])
    ensures ApplyAll(impl, r, ops) == r
    decreases |ops|
  {
    if |ops| > 0 {
      NothingDispatchedIsIdentity(impl, r, ops[..|ops| - 1]);
    }
  }

  /** The whole of `ApplyOpcodes` on the pixels: optional gamma decoding, the opcode
      loop, optional gamma encoding. */
  function Render(src: Raster, ops: seq<OpcodeRecord>, decodeGamma: bool, encodeGamma: bool,
                  impl: Routines, decodeCurve: nat -> nat, encodeCurve: nat -> nat): (out: Raster)
    ensures out == (var d := if decodeGamma then MapSamples(src, decodeCurve) else src;
                    var o := RunTrace(impl, d, Dispatched(ops));
                    if encodeGamma then MapSamples(o, encodeCurve) else o)
  {
    var d := if decodeGamma then MapSamples(src, decodeCurve) else src;
    ApplyAllRunsDispatched(impl, d, ops);
    var o := ApplyAll(impl, d, ops);
    if encodeGamma then MapSamples(o, encodeCurve) else o
  }

  /** With no opcode dispatched and both gamma steps on, `ApplyOpcodes` maps every
      sample through the decode curve followed by the encode curve. */
  lemma RenderNothingDispatched(src: Raster, ops: seq<OpcodeRecord>, impl: Routines,
                                decodeCurve: nat -> nat, encodeCurve: nat -> nat)
    requires forall k :: 0 <= k < |ops| ==> !IsDispatched(ops[k])
    ensures Render(src, ops, true, true, impl, decodeCurve, encodeCurve) ==
            MapSamples(src, x => encodeCurve(decodeCurve(x)))
  {
    var d := MapSamples(src, decodeCurve);
    NothingDispatchedIsIdentity(impl, d, ops);
    ApplyAllRunsDispatched(impl, d, ops);
    MapSamplesCompose(src, decodeCurve, encodeCurve);
  }
}
