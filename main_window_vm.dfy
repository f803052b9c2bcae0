/** The view model of the editor window: the opcode collection with its selected
    opcode, the source and destination images, the gamma flags and the gain-map
    correction flags, and the operations on them. */
module ViewModel {
  import opened Gains
  import opened Opcodes
  import opened GainMaps
  import opened OpcodeLists
  import opened Imaging
  import opened Dispatch

  /** What `AddOpcode(id)` appends: an opcode of kind `id` for the three kinds with
      a `case`, and a plain `new Opcode()`, whose identifier is unset, for every other
      value, GainMap included. */
  function NewOpcodeRecord(id: nat): (r: OpcodeRecord)
    ensures id == WarpRectilinear || id == FixVignetteRadial || id == TrimBounds ==> r.id == id
    ensures !(id == WarpRectilinear || id == FixVignetteRadial || id == TrimBounds) ==> r.id == UnsetId
    ensures r.id != GainMap && r.gains == []
    ensures r.listIndex == DefaultListIndex && r.enabled == DefaultEnabled
  {
    var kind := if id == WarpRectilinear || id == FixVignetteRadial || id == TrimBounds then id else UnsetId;
    OpcodeRecord(kind, DefaultListIndex, DefaultEnabled, [])
  }

  /** Some list before `listIndex` had a non-empty blob, so `Opcodes.Last()` was
      selected for it. */
  predicate BlobBefore(blobs: int -> seq<bv8>, listIndex: int)
  {
    (listIndex > 2 && |blobs(2)| > 0) || (listIndex > 3 && |blobs(3)| > 0)
  }

  /** Four distinct opcode objects. */
  ghost predicate DistinctOps(maps: seq<Opcode>)
  {
    |maps| == 4 && forall t, u :: 0 <= t < u < 4 ==> maps[t] != maps[u]
  }

  /** The body of the inner loop of `StripVigLum` on one opcode: its gain at `i`
      is divided by the local minimum `m` and, when `globalMinGain < minGain`,
      multiplied by `minGain` and divided by `globalMinGain`. */
  method StripGainAt(o: Opcode, i: nat, m: real, minGain: real, globalMinGain: real)
    requires i < |o.mapGains|
    modifies o`mapGains
    ensures o.mapGains == old(o.mapGains)[i := StripGain(old(o.mapGains[i]), m, minGain, globalMinGain)]
  {
    var v := Quot(o.mapGains[i], m);
    if globalMinGain < minGain {
      v := v * minGain;
      v := Quot(v, globalMinGain);
    }
    assert v == StripGain(o.mapGains[i], m, minGain, globalMinGain);
    o.mapGains := o.mapGains[i := v];
  }

  /** The inner `for (int j = 0; j < 4; j++)` of `StripVigLum` at index `i`, on
      the four opcodes `maps` = `[a0, a1, a2, a3]` holding `q` with the first
      `|before|` indices stripped. */
  method StripIndex(a0: Opcode, a1: Opcode, a2: Opcode, a3: Opcode, ghost maps: seq<Opcode>,
                    i: nat, m: real, minGain: real, globalMinGain: real,
                    ghost q: seq<seq<real>>, ghost before: seq<real>)
    requires maps == [a0, a1, a2, a3] && DistinctOps(maps) && |q| == 4 && |before| == i
    requires forall t :: 0 <= t < 4 ==> i < |q[t]| && maps[t].mapGains == StripMap(q[t], before, minGain, globalMinGain)
    modifies a0`mapGains, a1`mapGains, a2`mapGains, a3`mapGains
    ensures forall t :: 0 <= t < 4 ==> maps[t].mapGains == StripMap(q[t], before + [m], minGain, globalMinGain)
  {
    for j := 0 to 4
      invariant forall t :: 0 <= t < j ==> maps[t].mapGains == StripMap(q[t], before + [m], minGain, globalMinGain)
      invariant forall t :: j <= t < 4 ==> maps[t].mapGains == StripMap(q[t], before, minGain, globalMinGain)
    {
      StripMapExtend(q[j], before, m, minGain, globalMinGain);
      var o := [a0, a1, a2, a3][j];
      StripGainAt(o, i, m, minGain, globalMinGain);
    }
  }

  /** The index loop of `StripVigLum` over four distinct opcodes holding `q`, with
      `minGain` the frame minimum. Reading a map shorter than the first raises
      `IndexOutOfRangeException`; the model returns `ok == false` at that point and
      keeps the indices already done. */
  method StripMaps(a0: Opcode, a1: Opcode, a2: Opcode, a3: Opcode,
                   minGain: real, globalMinGain: real, ghost q: seq<seq<real>>)
    returns (ok: bool)
    requires DistinctOps([a0, a1, a2, a3]) && |q| == 4
    requires a0.mapGains == q[0] && a1.mapGains == q[1] && a2.mapGains == q[2] && a3.mapGains == q[3]
    modifies a0`mapGains, a1`mapGains, a2`mapGains, a3`mapGains
    ensures ok == StripCompletes(q)
    ensures var s := Stripped(q, minGain, globalMinGain);
            a0.mapGains == s[0] && a1.mapGains == s[1] && a2.mapGains == s[2] && a3.mapGains == s[3]
  {
    ghost var maps := [a0, a1, a2, a3];
    ok := true;
    var minGains: seq<real> := [];
    var i := 0;
    while i < |a0.mapGains|
      invariant 0 <= i <= |q[0]| && i <= |q[1]| && i <= |q[2]| && i <= |q[3]|
      invariant minGains == LocalMinima(q, i)
      invariant forall t :: 0 <= t < 4 ==> maps[t].mapGains == StripMap(q[t], minGains, minGain, globalMinGain)
      invariant ok
    {
      if i >= |a1.mapGains| || i >= |a2.mapGains| || i >= |a3.mapGains| {
        ok := false;
        break;
      }
      LocalMinimaExtend(q, i);
      ghost var before := minGains;
      minGains := minGains + [MinF(MinF(a0.mapGains[i], a1.mapGains[i]), MinF(a2.mapGains[i], a3.mapGains[i]))];
      StripIndex(a0, a1, a2, a3, maps, i, minGains[i], minGain, globalMinGain, q, before);
      i := i + 1;
    }
    assert i == Processed(q) && ok == StripCompletes(q);
    StrippedAt(q, minGain, globalMinGain, minGains);
    assert forall t :: 0 <= t < 4 ==> maps[t].mapGains == Stripped(q, minGain, globalMinGain)[t];
  }

  /** The `foreach` over `Opcodes` in `ApplyOpcodes`: `continue` for a disabled
      opcode and for the `default` case, otherwise the routine of the opcode's kind
      applied to `dst` in place. */
  method RunOpcodes(dst: Image, list: seq<Opcode>, impl: Routines, ghost ops: seq<OpcodeRecord>)
    requires |list| == |ops| && forall k :: 0 <= k < |list| ==> list[k].Record() == ops[k]
    modifies dst
    ensures dst.raster == ApplyAll(impl, old(dst.raster), ops)
  {
    ghost var start := dst.raster;
    for k := 0 to |list|
      invariant dst.raster == ApplyAll(impl, start, ops[..k])
    {
      assert ops[..k + 1][..k] == ops[..k];
      var op := list[k];
      if !op.enabled {
        continue;
      }
      if op.id == WarpRectilinear {
        dst.raster := impl.warpRectilinear(dst.raster, op.Record());
      } else if op.id == FixVignetteRadial {
        dst.raster := impl.fixVignetteRadial(dst.raster, op.Record());
      } else if op.id == TrimBounds {
        dst.raster := impl.trimBounds(dst.raster, op.Record());
      } else if op.id == GainMap {
        dst.raster := impl.gainMap(dst.raster, op.Record());
      } else {
        continue;
      }
    }
    assert ops[..|list|] == ops;
  }

  class MainWindowVM {
    var opcodes: seq<Opcode>
    var selectedOpcode: Opcode?
    var imgSrc: Image?
    var imgDst: Image?
    var encodeGamma: bool
    var decodeGamma: bool
    var stripLum: bool
    var bggrFix: bool
    var grbgFix: bool

    /** No opcode object occurs twice in the collection: the reader and
        `AddOpcode` always add a fresh one. */
    ghost predicate Valid()
      reads this
    {
      forall i, j :: 0 <= i < j < |opcodes| ==> opcodes[i] != opcodes[j]
    }

    /** The value of the collection. */
    ghost function Snapshot(): (s: seq<OpcodeRecord>)
      reads this, opcodes
      ensures |s| == |opcodes|
      ensures forall k :: 0 <= k < |opcodes| ==> s[k] == opcodes[k].Record()
    {
      seq(|opcodes|, k requires 0 <= k < |opcodes| reads this, opcodes => opcodes[k].Record())
    }

    /** The opcode objects `gm` are those at positions `sel` of the collection. */
    ghost predicate Picks(gm: seq<Opcode>, sel: seq<nat>)
      reads this
    {
      |gm| == |sel| && forall t :: 0 <= t < |gm| ==> sel[t] < |opcodes| && gm[t] == opcodes[sel[t]]
    }

    /** `SelectedOpcode` is an opcode of the collection, or the collection is empty
        and nothing is selected. */
    ghost predicate SelectionConsistent()
      reads this
    {
      selectedOpcode in opcodes || (|opcodes| == 0 && selectedOpcode == null)
    }

    constructor ()
      ensures Valid() && SelectionConsistent()
      ensures opcodes == [] && selectedOpcode == null && imgSrc == null && imgDst == null
      ensures encodeGamma && !decodeGamma && stripLum && !bggrFix && !grbgFix
    {
      opcodes := [];
      selectedOpcode := null;
      imgSrc := null;
      imgDst := null;
      encodeGamma := true;
      decodeGamma := false;
      stripLum := true;
      bggrFix := false;
      grbgFix := false;
    }

    /** The `CollectionChanged` handler: when the selected opcode has left the
        collection, select its last opcode, or nothing when it is empty. */
    method OnCollectionChanged()
      modifies this`selectedOpcode
      ensures SelectionConsistent()
      ensures old(selectedOpcode) in opcodes ==> selectedOpcode == old(selectedOpcode)
      ensures old(selectedOpcode) !in opcodes ==>
                selectedOpcode == (if |opcodes| == 0 then null else opcodes[|opcodes| - 1])
    {
      if selectedOpcode !in opcodes {
        selectedOpcode := if |opcodes| == 0 then null else opcodes[|opcodes| - 1];
      }
    }

    /** `Opcodes.Add(o)` for an opcode object not yet in the collection, followed by
        the `CollectionChanged` handler. */
    method Add(o: Opcode)
      requires Valid() && o !in opcodes
      modifies this`opcodes, this`selectedOpcode
      ensures Valid() && SelectionConsistent()
      ensures opcodes == old(opcodes) + [o]
      ensures Snapshot() == old(Snapshot()) + [o.Record()]
      ensures old(selectedOpcode) in opcodes ==> selectedOpcode == old(selectedOpcode)
      ensures old(selectedOpcode) !in opcodes ==> selectedOpcode == o
    {
      opcodes := opcodes + [o];
      OnCollectionChanged();
      assert forall k :: 0 <= k < |opcodes| - 1 ==> opcodes[k] == old(opcodes[k]);
    }

    /** `AddOpcode(id)`: one new opcode at the end of the collection. */
    method AddOpcode(id: nat)
      requires Valid()
      modifies this`opcodes, this`selectedOpcode
      ensures Valid() && SelectionConsistent()
      ensures Snapshot() == old(Snapshot()) + [NewOpcodeRecord(id)]
      ensures |opcodes| == |old(opcodes)| + 1 && opcodes[..|old(opcodes)|] == old(opcodes)
      ensures old(selectedOpcode) in opcodes ==> selectedOpcode == old(selectedOpcode)
      ensures old(selectedOpcode) !in opcodes ==> selectedOpcode == opcodes[|opcodes| - 1]
    {
      var o := new Opcode(NewOpcodeRecord(id));
      Add(o);
    }

    /** `Opcodes.Clear()`: the collection becomes empty and, through the handler,
        nothing is selected. */
    method ClearOpcodes()
      modifies this`opcodes, this`selectedOpcode
      ensures Valid() && SelectionConsistent()
      ensures opcodes == [] && selectedOpcode == null
    {
      opcodes := [];
      OnCollectionChanged();
    }

    /** `OpenImage(filename)`: the source image is the file's pixels `r`, gamma
        decoding is switched on for images of at most 32 bits per pixel (`bpp`, as
        `Image.Open` reports it), and the destination is a clone of the source. */
    method OpenImage(r: Raster, bpp: int)
      modifies this`imgSrc, this`imgDst, this`decodeGamma
      ensures fresh(imgSrc) && imgSrc.raster == r
      ensures decodeGamma <==> bpp <= 32
      ensures fresh(imgDst) && imgDst != imgSrc && imgDst.raster == r
    {
      imgSrc := new Image(r);
      decodeGamma := bpp <= 32;
      imgDst := imgSrc.Clone();
    }

    /** `ApplyOpcodes()`: with a source image, the destination becomes a clone of
        it, optionally gamma-decoded with `decodeCurve`, then changed by the
        routine of every enabled opcode of a known kind in collection order, then
        optionally gamma-encoded with `encodeCurve`. Without a source nothing
        changes. */
    method ApplyOpcodes(impl: Routines, decodeCurve: nat -> nat, encodeCurve: nat -> nat)
      modifies this`imgDst
      ensures old(imgSrc) == null ==> imgDst == old(imgDst)
      ensures imgSrc != null ==>
                fresh(imgDst) && imgDst != imgSrc &&
                imgDst.raster == Render(imgSrc.raster, Snapshot(), decodeGamma, encodeGamma,
                                        impl, decodeCurve, encodeCurve)
    {
      if imgSrc == null {
        return;
      }
      var dst := imgSrc.Clone();
      imgDst := dst;
      if decodeGamma {
        dst.ChangeSamples(decodeCurve);
      }
      ghost var ops := Snapshot();
      ghost var decoded := dst.raster;
      RunOpcodes(dst, opcodes, impl, ops);
      ApplyAllRunsDispatched(impl, decoded, ops);
      if encodeGamma {
        dst.ChangeSamples(encodeCurve);
      }
      assert Snapshot() == ops;
      assert dst.raster == (if encodeGamma then MapSamples(RunTrace(impl, decoded, Dispatched(ops)), encodeCurve)
                            else RunTrace(impl, decoded, Dispatched(ops)));
    }

    /** `Opcodes.Last()` assigned to `SelectedOpcode`; `ok == false` stands for
        the `InvalidOperationException` it throws on an empty collection. */
    method SelectLast() returns (ok: bool)
      modifies this`selectedOpcode
      ensures ok <==> |opcodes| > 0
      ensures ok ==> selectedOpcode == opcodes[|opcodes| - 1]
      ensures !ok ==> selectedOpcode == old(selectedOpcode)
    {
      if |opcodes| == 0 {
        return false;
      }
      selectedOpcode := opcodes[|opcodes| - 1];
      ok := true;
    }

    /** One decoded opcode of a list blob: a new object tagged with the list and
        added to the collection. */
    method AddTagged(r: OpcodeRecord, list: int)
      requires Valid()
      modifies this`opcodes, this`selectedOpcode
      ensures Valid() && SelectionConsistent()
      ensures Snapshot() == old(Snapshot()) + [r.(listIndex := list)]
      ensures |opcodes| == |old(opcodes)| + 1 && opcodes[..|old(opcodes)|] == old(opcodes)
      ensures old(selectedOpcode) in opcodes ==> selectedOpcode == old(selectedOpcode)
      ensures old(selectedOpcode) !in opcodes ==> selectedOpcode == opcodes[|opcodes| - 1]
    {
      var o := new Opcode(r);
      o.listIndex := list;
      Add(o);
    }

    /** The `foreach` of one list in `ImportDng(filename)`: each opcode the reader
        made is tagged with the list and added. */
    method AddAllTagged(recs: seq<OpcodeRecord>, list: int)
      requires Valid()
      modifies this`opcodes, this`selectedOpcode
      ensures Valid()
      ensures Snapshot() == old(Snapshot()) + Tagged(recs, list)
      ensures SelectionConsistent() || (opcodes == old(opcodes) && selectedOpcode == old(selectedOpcode))
    {
      ghost var ops := Snapshot();
      for k := 0 to |recs|
        invariant Valid()
        invariant Snapshot() == ops + Tagged(recs[..k], list)
        invariant SelectionConsistent() || (opcodes == old(opcodes) && selectedOpcode == old(selectedOpcode))
      {
        AddTagged(recs[k], list);
        assert Tagged(recs[..k + 1], list) == Tagged(recs[..k], list) + [recs[k].(listIndex := list)];
      }
      assert recs[..|recs|] == recs;
    }

    /** One pass of the list loop of `ImportDng(filename)` on the blob `bytes` of
        list `list`: each opcode the reader `decode` makes is tagged with the list
        and added, and the last opcode is selected. An empty blob adds nothing. */
    method ImportListBlob(bytes: seq<bv8>, list: int, decode: seq<bv8> -> seq<OpcodeRecord>)
      returns (ok: bool)
      requires Valid()
      modifies this`opcodes, this`selectedOpcode
      ensures Valid()
      ensures ImportOutcome(Snapshot(), ok) == ImportList(old(Snapshot()), bytes, list, decode)
      ensures ok && |bytes| > 0 ==> selectedOpcode == opcodes[|opcodes| - 1]
      ensures |bytes| == 0 ==> opcodes == old(opcodes) && selectedOpcode == old(selectedOpcode)
      ensures old(SelectionConsistent()) ==> SelectionConsistent()
    {
      ok := true;
      if |bytes| > 0 {
        AddAllTagged(decode(bytes), list);
        ok := SelectLast();
      }
    }

    /** `ImportDng(filename)`: the blobs of OpcodeList2 and OpcodeList3, as
        `exiftool` prints them, are `blobs(2)` and `blobs(3)`; a failure ends the
        import. */
    method ImportDng(blobs: int -> seq<bv8>, decode: seq<bv8> -> seq<OpcodeRecord>) returns (ok: bool)
      requires Valid()
      modifies this`opcodes, this`selectedOpcode
      ensures Valid()
      ensures ImportOutcome(Snapshot(), ok) == ImportDngSpec(old(Snapshot()), blobs, decode)
      ensures ok && BlobBefore(blobs, 4) ==> |opcodes| > 0 && selectedOpcode == opcodes[|opcodes| - 1]
      ensures old(SelectionConsistent()) ==> SelectionConsistent()
    {
      ghost var ops := Snapshot();
      ok := true;
      for listIndex := 2 to 4
        invariant Valid() && ok
        invariant old(SelectionConsistent()) ==> SelectionConsistent()
        invariant BlobBefore(blobs, listIndex) ==> |opcodes| > 0 && selectedOpcode == opcodes[|opcodes| - 1]
        invariant listIndex == 2 ==> Snapshot() == ops
        invariant listIndex == 3 ==> ImportOutcome(Snapshot(), true) == ImportList(ops, blobs(2), 2, decode)
        invariant listIndex == 4 ==> ImportOutcome(Snapshot(), true) == ImportDngSpec(ops, blobs, decode)
      {
        ok := ImportListBlob(blobs(listIndex), listIndex, decode);
        if !ok {
          return;
        }
      }
    }

    /** The `foreach` of `ImportBin(filename)`: every opcode the reader made is
        added as it is. */
    method AddAll(recs: seq<OpcodeRecord>)
      requires Valid()
      modifies this`opcodes, this`selectedOpcode
      ensures Valid()
      ensures Snapshot() == old(Snapshot()) + recs
      ensures |recs| == 0 ==> opcodes == old(opcodes) && selectedOpcode == old(selectedOpcode)
      ensures SelectionConsistent() || (opcodes == old(opcodes) && selectedOpcode == old(selectedOpcode))
    {
      ghost var ops := Snapshot();
      for k := 0 to |recs|
        invariant Valid()
        invariant Snapshot() == ops + recs[..k]
        invariant k == 0 ==> opcodes == old(opcodes) && selectedOpcode == old(selectedOpcode)
        invariant SelectionConsistent() || (opcodes == old(opcodes) && selectedOpcode == old(selectedOpcode))
      {
        var o := new Opcode(recs[k]);
        Add(o);
        assert recs[..k + 1] == recs[..k] + [recs[k]];
      }
      assert recs[..|recs|] == recs;
    }

    /** `ImportBin(filename)` on the file's bytes: every opcode the reader `decode`
        makes is added as it is, then the last opcode is selected. */
    method ImportBin(bytes: seq<bv8>, decode: seq<bv8> -> seq<OpcodeRecord>) returns (ok: bool)
      requires Valid()
      modifies this`opcodes, this`selectedOpcode
      ensures Valid()
      ensures ImportOutcome(Snapshot(), ok) == ImportBinSpec(old(Snapshot()), bytes, decode)
      ensures ok ==> selectedOpcode == opcodes[|opcodes| - 1]
      ensures !ok ==> selectedOpcode == old(selectedOpcode)
      ensures old(SelectionConsistent()) ==> SelectionConsistent()
    {
      AddAll(decode(bytes));
      ok := SelectLast();
    }

    /** The `foreach` that fills `gainMapOpcodes`: the GainMap opcodes of the
        collection, with `listTwoOnly` only those tagged for OpcodeList2, in
        collection order. */
    method CollectGainMaps(listTwoOnly: bool) returns (gm: seq<Opcode>, ghost sel: seq<nat>)
      ensures sel == Positions(Snapshot(), |opcodes|, listTwoOnly)
      ensures Picks(gm, sel)
    {
      ghost var ops := Snapshot();
      gm, sel := [], [];
      for k := 0 to |opcodes|
        invariant sel == Positions(ops, k, listTwoOnly)
        invariant |gm| == |sel| && forall t :: 0 <= t < |gm| ==> gm[t] == opcodes[sel[t]]
      {
        if opcodes[k].id == GainMap && (!listTwoOnly || opcodes[k].listIndex == 2) {
          gm, sel := gm + [opcodes[k]], sel + [k];
        }
      }
    }

    /** The two nested `foreach` loops that run `if (mapGain < minGain) minGain =
        mapGain` from 10 over every gain of the opcodes `gm`, which sit at positions
        `sel`. */
    method MinimumGain(gm: seq<Opcode>, ghost sel: seq<nat>) returns (m: real)
      requires Picks(gm, sel)
      ensures m == MinMaps(10.0, GainsAt(Snapshot(), sel))
    {
      ghost var q := GainsAt(Snapshot(), sel);
      m := 10.0;
      for t := 0 to |gm|
        invariant m == MinMaps(10.0, q[..t])
      {
        var a := gm[t].mapGains;
        ghost var before := m;
        for i := 0 to |a|
          invariant m == MinSeq(before, a[..i])
        {
          assert a[..i + 1][..i] == a[..i];
          if a[i] < m {
            m := a[i];
          }
        }
        assert a[..|a|] == q[t];
        assert q[..t + 1][..t] == q[..t];
      }
      assert q[..|gm|] == q;
    }

    /** `MinValueBatch()`. */
    method MinValueBatch() returns (r: real)
      ensures r == MinValueBatchSpec(Snapshot())
    {
      ghost var ops := Snapshot();
      var gm, sel := CollectGainMaps(false);
      assert Snapshot() == ops;
      if |gm| > 0 {
        r := MinimumGain(gm, sel);
        assert Snapshot() == ops;
        assert r == MinValueBatchSpec(ops);
      } else {
        r := 1.0;
        assert r == MinValueBatchSpec(ops);
      }
    }

    /** `tmp = a.mapGains; a.mapGains = b.mapGains; b.mapGains = tmp` for the opcodes
        `a` and `b` at positions `i` and `j`. */
    method SwapGains(a: Opcode, b: Opcode, ghost i: nat, ghost j: nat)
      requires Valid() && i < |opcodes| && j < |opcodes| && i != j
      requires a == opcodes[i] && b == opcodes[j]
      modifies a`mapGains, b`mapGains
      ensures Snapshot() == SwapGainsAt(old(Snapshot()), i, j)
    {
      ghost var ops := Snapshot();
      var tmp := a.mapGains;
      a.mapGains := b.mapGains;
      b.mapGains := tmp;
      forall k | 0 <= k < |opcodes| && k != i && k != j
        ensures opcodes[k].Record() == ops[k]
      {
        assert opcodes[k] != a && opcodes[k] != b;
      }
    }

    /** The swap blocks shared by `FixMismatch` and `StripVigLum`, on the four
        selected opcodes `gm`, which sit at positions `sel`. */
    method SwapBlocksOn(gm: seq<Opcode>, ghost sel: seq<nat>)
      requires Valid() && IsQuad(Snapshot(), sel) && Picks(gm, sel)
      modifies gm[0], gm[1], gm[2], gm[3]
      ensures Snapshot() == SwapBlocks(old(Snapshot()), sel, bggrFix, grbgFix)
    {
      if bggrFix {
        SwapGains(gm[0], gm[3], sel[0], sel[3]);
      }
      if grbgFix {
        SwapGains(gm[0], gm[1], sel[0], sel[1]);
        SwapGains(gm[2], gm[3], sel[2], sel[3]);
      }
    }

    /** `FixMismatch()`. */
    method FixMismatch()
      requires Valid()
      modifies opcodes
      ensures Snapshot() == FixMismatchSpec(old(Snapshot()), bggrFix, grbgFix)
    {
      ghost var ops := Snapshot();
      var gm, sel := CollectGainMaps(true);
      assert Snapshot() == ops;
      if |gm| == 4 {
        FixMismatchIsSwapBlocks(ops, bggrFix, grbgFix);
        SwapBlocksOn(gm, sel);
      }
    }

    /** The index loop of `StripVigLum` run on the selected opcodes `gm`, which sit
        at positions `sel`, with `minGain` the frame minimum. */
    method StripSelected(gm: seq<Opcode>, ghost sel: seq<nat>, minGain: real, globalMinGain: real)
      returns (ok: bool)
      requires Valid() && IsQuad(Snapshot(), sel) && Picks(gm, sel)
      modifies gm[0], gm[1], gm[2], gm[3]
      ensures ok == StripCompletes(GainsAt(old(Snapshot()), sel))
      ensures Snapshot() == SetGains(old(Snapshot()), sel, Stripped(GainsAt(old(Snapshot()), sel), minGain, globalMinGain))
    {
      ghost var ops := Snapshot();
      ghost var q := GainsAt(ops, sel);
      ok := StripMaps(gm[0], gm[1], gm[2], gm[3], minGain, globalMinGain, q);
      ghost var s := Stripped(q, minGain, globalMinGain);
      forall k | 0 <= k < |opcodes| && k != sel[0] && k != sel[1] && k != sel[2] && k != sel[3]
        ensures Snapshot()[k] == ops[k]
      {
        assert forall t :: 0 <= t < 4 ==> opcodes[k] != gm[t];
      }
      SetGainsExactly(ops, sel, s, Snapshot());
    }

    /** `StripVigLum` once its four maps `gm`, at positions `sel`, and their
        minimum gain `minGain` are found: the index loop and, when it completes,
        the swap blocks. */
    method StripQuad(gm: seq<Opcode>, ghost sel: seq<nat>, minGain: real, globalMinGain: real)
      returns (ok: bool)
      requires Valid() && sel == Selected(Snapshot()) && |sel| == 4 && Picks(gm, sel)
      requires minGain == MinMaps(10.0, GainsAt(Snapshot(), sel))
      modifies gm[0], gm[1], gm[2], gm[3]
      ensures StripOutcome(Snapshot(), ok) == StripVigLumSpec(old(Snapshot()), globalMinGain, bggrFix, grbgFix)
    {
      ghost var ops := Snapshot();
      SelectedIsQuad(ops);
      ok := StripSelected(gm, sel, minGain, globalMinGain);
      StripVigLumInSteps(ops, globalMinGain, bggrFix, grbgFix);
      if ok {
        SwapBlocksOn(gm, sel);
      }
    }

    /** `StripVigLum(globalMinGain)`; `ok == false` stands for the
        `IndexOutOfRangeException` of a selected map shorter than the first, which
        skips the swap blocks. */
    method StripVigLum(globalMinGain: real) returns (ok: bool)
      requires Valid()
      modifies opcodes
      ensures StripOutcome(Snapshot(), ok) == StripVigLumSpec(old(Snapshot()), globalMinGain, bggrFix, grbgFix)
    {
      ghost var ops := Snapshot();
      var gm, sel := CollectGainMaps(true);
      assert Snapshot() == ops;
      ok := true;
      if |gm| == 4 {
        var minGain := MinimumGain(gm, sel);
        assert Snapshot() == ops;
        ok := StripQuad(gm, sel, minGain, globalMinGain);
      }
    }
  }
}
