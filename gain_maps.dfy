/** The gain-map channel corrections of the view model, stated on the value view of
    the opcode collection: which GainMap opcodes are selected, how their gain arrays
    are permuted (`FixMismatch`), how luminance is stripped from them
    (`StripVigLum`) and the global minimum gain of a batch (`MinValueBatch`). The
    methods of the view model are proved to compute exactly these functions. */
module GainMaps {
  import opened Gains
  import opened Opcodes

  /** Positions, among the first `n` opcodes, of the ones the correction selects,
      in list order: the `foreach` that fills `gainMapOpcodes`. */
  function Positions(ops: seq<OpcodeRecord>, n: nat, listTwoOnly: bool): (r: seq<nat>)
    requires n <= |ops|
    ensures forall t :: 0 <= t < |r| ==> r[t] < n && Chosen(ops[r[t]], listTwoOnly)
    ensures forall t, u :: 0 <= t < u < |r| ==> r[t] < r[u]
    decreases n
  {
    if n == 0 then []
    else Positions(ops, n - 1, listTwoOnly) + (if Chosen(ops[n - 1], listTwoOnly) then [n - 1] else [])
  }

  /** No selected opcode is missed. */
  lemma {:induction false} PositionsComplete(ops: seq<OpcodeRecord>, n: nat, listTwoOnly: bool)
    requires n <= |ops|
    ensures forall k :: 0 <= k < n && Chosen(ops[k], listTwoOnly) ==> k in Positions(ops, n, listTwoOnly)
    decreases n
  {
    if n > 0 {
      PositionsComplete(ops, n - 1, listTwoOnly);
    }
  }

  /** The GainMap opcodes tagged for OpcodeList2, which `FixMismatch` and
      `StripVigLum` act on. */
  function Selected(ops: seq<OpcodeRecord>): seq<nat>
  {
    Positions(ops, |ops|, true)
  }

  /** Four strictly increasing positions inside the list. */
  predicate IsQuad(ops: seq<OpcodeRecord>, sel: seq<nat>)
  {
    |sel| == 4 && (forall t :: 0 <= t < 4 ==> sel[t] < |ops|) &&
    sel[0] < sel[1] < sel[2] < sel[3]
  }

  /** The gain arrays held at the positions `sel`, in that order. */
  function GainsAt(ops: seq<OpcodeRecord>, sel: seq<nat>): seq<seq<real>>
    requires forall t :: 0 <= t < |sel| ==> sel[t] < |ops|
  {
    seq(|sel|, t requires 0 <= t < |sel| => ops[sel[t]].gains)
  }

  /** The list after the opcodes at the four positions `sel` were given the gain
      arrays `q`, in order. */
  function SetGains(ops: seq<OpcodeRecord>, sel: seq<nat>, q: seq<seq<real>>): seq<OpcodeRecord>
    requires IsQuad(ops, sel) && |q| == 4
  {
    seq(|ops|, k requires 0 <= k < |ops| =>
      if k == sel[0] then ops[k].(gains := q[0])
      else if k == sel[1] then ops[k].(gains := q[1])
      else if k == sel[2] then ops[k].(gains := q[2])
      else if k == sel[3] then ops[k].(gains := q[3])
      else ops[k])
  }

  /** Swap performed by the BGGR fix: the first and the fourth map exchange gains. */
  function SwapBGGR<T>(q: seq<T>): seq<T>
    requires |q| == 4
  {
    [q[3], q[1], q[2], q[0]]
  }

  /** Swap performed by the GRBG fix: the first two and the last two maps exchange
      gains pairwise. */
  function SwapGRBG<T>(q: seq<T>): seq<T>
    requires |q| == 4
  {
    [q[1], q[0], q[3], q[2]]
  }

  /** The two fixes as the source runs them: BGGR first, then GRBG. */
  function ChannelFix<T>(q: seq<T>, bggr: bool, grbg: bool): seq<T>
    requires |q| == 4
  {
    var b := if bggr then SwapBGGR(q) else q;
    if grbg then SwapGRBG(b) else b
  }

  /** The channel fix only moves the four gain arrays around. */
  lemma ChannelFixPermutes<T>(q: seq<T>, bggr: bool, grbg: bool)
    requires |q| == 4
    ensures |ChannelFix(q, bggr, grbg)| == 4
    ensures multiset(ChannelFix(q, bggr, grbg)) == multiset(q)
  {
    var b := if bggr then SwapBGGR(q) else q;
    if bggr { SwapBGGRPermutes(q); }
    if grbg { SwapGRBGPermutes(b); }
  }

  lemma SwapBGGRPermutes<T>(q: seq<T>)
    requires |q| == 4
    ensures multiset(SwapBGGR(q)) == multiset(q)
  {
    FourElements(q);
    FourElements(SwapBGGR(q));
  }

  lemma SwapGRBGPermutes<T>(q: seq<T>)
    requires |q| == 4
    ensures multiset(SwapGRBG(q)) == multiset(q)
  {
    FourElements(q);
    FourElements(SwapGRBG(q));
  }

  lemma FourElements<T>(q: seq<T>)
    requires |q| == 4
    ensures multiset(q) == multiset{q[0], q[1], q[2], q[3]}
  {
    assert q == [q[0], q[1], q[2], q[3]];
  }

  /** With no flag set the channel fix is the identity; with exactly one it undoes
      itself. */
  lemma ChannelFixInvolution<T>(q: seq<T>, bggr: bool, grbg: bool)
    requires |q| == 4 && !(bggr && grbg)
    ensures ChannelFix(ChannelFix(q, bggr, grbg), bggr, grbg) == q
  {
  }

  /** With both flags set the fix is not its own inverse, which is why
      `BatchDNG()` refuses that combination. */
  lemma BothFixesAreNoInvolution()
    ensures ChannelFix(ChannelFix([0, 1, 2, 3], true, true), true, true) != [0, 1, 2, 3]
  {
    assert ChannelFix([0, 1, 2, 3], true, true) == [1, 3, 0, 2];
    assert ChannelFix([1, 3, 0, 2], true, true) == [3, 2, 1, 0];
  }

  /** `FixMismatch`: when exactly four OpcodeList2 GainMaps are present, permute
      their gain arrays by the channel fix; otherwise change nothing. Whatever
      happens, only the gain arrays of the selected opcodes can change. */
  function FixMismatchSpec(ops: seq<OpcodeRecord>, bggr: bool, grbg: bool): (r: seq<OpcodeRecord>)
    ensures |r| == |ops|
    ensures forall k :: 0 <= k < |ops| ==>
              r[k].id == ops[k].id && r[k].listIndex == ops[k].listIndex && r[k].enabled == ops[k].enabled
    ensures forall k :: 0 <= k < |ops| && !Chosen(ops[k], true) ==> r[k] == ops[k]
    ensures |Selected(ops)| != 4 ==> r == ops
  {
    var sel := Selected(ops);
    if |sel| != 4 then ops
    else
      var q := ChannelFix(GainsAt(ops, sel), bggr, grbg);
      SetGainsFrame(ops, sel, q);
      SetGains(ops, sel, q)
  }

  /** The selection looks only at identifiers and list tags. */
  lemma {:induction false} PositionsFollowHeaders(ops: seq<OpcodeRecord>, ops': seq<OpcodeRecord>, n: nat, listTwoOnly: bool)
    requires n <= |ops| == |ops'|
    requires forall k :: 0 <= k < |ops| ==> ops'[k].id == ops[k].id && ops'[k].listIndex == ops[k].listIndex
    ensures Positions(ops', n, listTwoOnly) == Positions(ops, n, listTwoOnly)
  {
    if n > 0 {
      PositionsFollowHeaders(ops, ops', n - 1, listTwoOnly);
    }
  }

  /** The selected positions are four strictly increasing positions of the list. */
  lemma SelectedIsQuad(ops: seq<OpcodeRecord>)
    requires |Selected(ops)| == 4
    ensures IsQuad(ops, Selected(ops))
  {
  }

  /** After `FixMismatch` the same opcodes are selected, and they hold the gain
      arrays they held before, permuted by the channel fix. */
  lemma FixMismatchMovesGains(ops: seq<OpcodeRecord>, bggr: bool, grbg: bool)
    requires |Selected(ops)| == 4
    ensures Selected(FixMismatchSpec(ops, bggr, grbg)) == Selected(ops)
    ensures GainsAt(FixMismatchSpec(ops, bggr, grbg), Selected(ops))
            == ChannelFix(GainsAt(ops, Selected(ops)), bggr, grbg)
    ensures multiset(GainsAt(FixMismatchSpec(ops, bggr, grbg), Selected(ops)))
            == multiset(GainsAt(ops, Selected(ops)))
  {
    var sel := Selected(ops);
    var r := FixMismatchSpec(ops, bggr, grbg);
    PositionsFollowHeaders(ops, r, |ops|, true);
    var f := ChannelFix(GainsAt(ops, sel), bggr, grbg);
    ChannelFixPermutes(GainsAt(ops, sel), bggr, grbg);
    SetGainsAt(ops, sel, f);
    assert GainsAt(r, sel) == f;
  }

  /** Only the four opcodes at `sel` change, and only in their gains. */
  lemma SetGainsFrame(ops: seq<OpcodeRecord>, sel: seq<nat>, q: seq<seq<real>>)
    requires IsQuad(ops, sel) && |q| == 4
    requires forall t :: 0 <= t < 4 ==> Chosen(ops[sel[t]], true)
    ensures |SetGains(ops, sel, q)| == |ops|
    ensures forall k :: 0 <= k < |ops| ==>
              SetGains(ops, sel, q)[k].id == ops[k].id &&
              SetGains(ops, sel, q)[k].listIndex == ops[k].listIndex &&
              SetGains(ops, sel, q)[k].enabled == ops[k].enabled
    ensures forall k :: 0 <= k < |ops| && !Chosen(ops[k], true) ==> SetGains(ops, sel, q)[k] == ops[k]
  {
  }

  /** The four updated opcodes hold the new gains and keep their headers. */
  lemma SetGainsAt(ops: seq<OpcodeRecord>, sel: seq<nat>, q: seq<seq<real>>)
    requires IsQuad(ops, sel) && |q| == 4
    ensures |SetGains(ops, sel, q)| == |ops|
    ensures forall t :: 0 <= t < 4 ==> SetGains(ops, sel, q)[sel[t]] == ops[sel[t]].(gains := q[t])
    ensures GainsAt(SetGains(ops, sel, q), sel) == q
  {
    var r := SetGains(ops, sel, q);
    assert r[sel[0]] == ops[sel[0]].(gains := q[0]);
    assert r[sel[1]] == ops[sel[1]].(gains := q[1]);
    assert r[sel[2]] == ops[sel[2]].(gains := q[2]);
    assert r[sel[3]] == ops[sel[3]].(gains := q[3]);
  }

  /** A list that holds `ops` everywhere except at the four positions `sel`, which
      hold the opcodes of `ops` with the gains `q`, is `SetGains(ops, sel, q)`. */
  lemma SetGainsExactly(ops: seq<OpcodeRecord>, sel: seq<nat>, q: seq<seq<real>>, r: seq<OpcodeRecord>)
    requires IsQuad(ops, sel) && |q| == 4 && |r| == |ops|
    requires forall t :: 0 <= t < 4 ==> r[sel[t]] == ops[sel[t]].(gains := q[t])
    requires forall k :: 0 <= k < |ops| && k != sel[0] && k != sel[1] && k != sel[2] && k != sel[3] ==> r[k] == ops[k]
    ensures r == SetGains(ops, sel, q)
  {
  }

  /** Setting the four selected opcodes to the gains they already hold changes
      nothing. */
  lemma SetGainsOwn(ops: seq<OpcodeRecord>, sel: seq<nat>)
    requires IsQuad(ops, sel)
    ensures SetGains(ops, sel, GainsAt(ops, sel)) == ops
  {
  }

  /** Setting the same four opcodes twice keeps only the second setting. */
  lemma SetGainsTwice(ops: seq<OpcodeRecord>, sel: seq<nat>, f: seq<seq<real>>, q: seq<seq<real>>)
    requires IsQuad(ops, sel) && |f| == 4 && |q| == 4
    ensures IsQuad(SetGains(ops, sel, f), sel)
    ensures SetGains(SetGains(ops, sel, f), sel, q) == SetGains(ops, sel, q)
  {
  }

  /** With at most one of the two flags set, running `FixMismatch` twice restores
      the list. */
  lemma FixMismatchInvolution(ops: seq<OpcodeRecord>, bggr: bool, grbg: bool)
    requires !(bggr && grbg)
    ensures FixMismatchSpec(FixMismatchSpec(ops, bggr, grbg), bggr, grbg) == ops
  {
    var sel := Selected(ops);
    if |sel| == 4 {
      var q := GainsAt(ops, sel);
      var f := ChannelFix(q, bggr, grbg);
      var r := FixMismatchSpec(ops, bggr, grbg);
      assert r == SetGains(ops, sel, f);
      FixMismatchMovesGains(ops, bggr, grbg);
      ChannelFixInvolution(q, bggr, grbg);
      assert FixMismatchSpec(r, bggr, grbg) == SetGains(r, sel, q);
      SetGainsTwice(ops, sel, f, q);
      SetGainsOwn(ops, sel);
    }
  }

  /** Both flags set: the BGGR fix followed by the GRBG fix. */
  lemma FixMismatchBothFlags(ops: seq<OpcodeRecord>)
    ensures FixMismatchSpec(ops, true, true)
            == FixMismatchSpec(FixMismatchSpec(ops, true, false), false, true)
  {
    var sel := Selected(ops);
    if |sel| == 4 {
      var q := GainsAt(ops, sel);
      var f := ChannelFix(q, true, false);
      var r := FixMismatchSpec(ops, true, false);
      assert r == SetGains(ops, sel, f);
      FixMismatchMovesGains(ops, true, false);
      assert FixMismatchSpec(r, false, true) == SetGains(r, sel, ChannelFix(f, false, true));
      SetGainsTwice(ops, sel, f, ChannelFix(f, false, true));
      assert ChannelFix(f, false, true) == ChannelFix(q, true, true);
    }
  }

  /** The statements `tmp = a.mapGains; a.mapGains = b.mapGains; b.mapGains = tmp`
      on the opcodes at positions `i` and `j`. */
  function SwapGainsAt(ops: seq<OpcodeRecord>, i: nat, j: nat): (r: seq<OpcodeRecord>)
    requires i < |ops| && j < |ops| && i != j
    ensures |r| == |ops|
    ensures r[i] == ops[i].(gains := ops[j].gains) && r[j] == ops[j].(gains := ops[i].gains)
    ensures forall k :: 0 <= k < |ops| && k != i && k != j ==> r[k] == ops[k]
  {
    ops[i := ops[i].(gains := ops[j].gains)][j := ops[j].(gains := ops[i].gains)]
  }

  /** The two swap blocks as the source writes them, on the four positions `sel`:
      with `BGGRFix`, swap the first and the fourth; then with `GRBGFix`, swap the
      first with the second and the third with the fourth. */
  function SwapBlocks(ops: seq<OpcodeRecord>, sel: seq<nat>, bggr: bool, grbg: bool): seq<OpcodeRecord>
    requires IsQuad(ops, sel)
  {
    var b := if bggr then SwapGainsAt(ops, sel[0], sel[3]) else ops;
    if grbg then SwapGainsAt(SwapGainsAt(b, sel[0], sel[1]), sel[2], sel[3]) else b
  }

  /** The swap blocks give the four opcodes at `sel` their gains permuted by the
      channel fix. */
  lemma SwapBlocksAreChannelFix(ops: seq<OpcodeRecord>, sel: seq<nat>, bggr: bool, grbg: bool)
    requires IsQuad(ops, sel)
    ensures SwapBlocks(ops, sel, bggr, grbg) == SetGains(ops, sel, ChannelFix(GainsAt(ops, sel), bggr, grbg))
  {
    var q := GainsAt(ops, sel);
    var b := if bggr then SwapGainsAt(ops, sel[0], sel[3]) else ops;
    var qb := if bggr then SwapBGGR(q) else q;
    SetGainsOwn(ops, sel);
    assert b == SetGains(ops, sel, qb);
    if grbg {
      var g := SwapGainsAt(SwapGainsAt(b, sel[0], sel[1]), sel[2], sel[3]);
      assert g == SetGains(ops, sel, SwapGRBG(qb));
    }
  }

  /** `FixMismatch` is the two swap blocks run on the selected opcodes. */
  lemma FixMismatchIsSwapBlocks(ops: seq<OpcodeRecord>, bggr: bool, grbg: bool)
    requires |Selected(ops)| == 4
    ensures IsQuad(ops, Selected(ops))
    ensures FixMismatchSpec(ops, bggr, grbg) == SwapBlocks(ops, Selected(ops), bggr, grbg)
  {
    SwapBlocksAreChannelFix(ops, Selected(ops), bggr, grbg);
  }

  /** `BatchDNG()` starts a batch only when some correction is requested and the two
      channel fixes are not both requested. */
  predicate BatchDngAllowed(stripLum: bool, bggr: bool, grbg: bool)
  {
    (stripLum || bggr || grbg) && !(bggr && grbg)
  }

  /** Every batch `BatchDNG()` lets through applies a channel fix that undoes
      itself. */
  lemma BatchDngFixIsInvolution(ops: seq<OpcodeRecord>, stripLum: bool, bggr: bool, grbg: bool)
    requires BatchDngAllowed(stripLum, bggr, grbg)
    ensures FixMismatchSpec(FixMismatchSpec(ops, bggr, grbg), bggr, grbg) == ops
  {
    FixMismatchInvolution(ops, bggr, grbg);
  }

  // ---------------------------------------------------------------------------
  // Luminance stripping

  /** `minGains`: for each of the first `n` indices, the smallest of the four gains
      at that index, taken from the gains as they were before any was changed. */
  function LocalMinima(q: seq<seq<real>>, n: nat): (m: seq<real>)
    requires |q| == 4 && forall t :: 0 <= t < 4 ==> n <= |q[t]|
    ensures |m| == n
    ensures forall i, t :: 0 <= i < n && 0 <= t < 4 ==> m[i] <= q[t][i]
    ensures forall i :: 0 <= i < n ==>
              m[i] == q[0][i] || m[i] == q[1][i] || m[i] == q[2][i] || m[i] == q[3][i]
  {
    seq(n, i requires 0 <= i < n => Min4(q[0][i], q[1][i], q[2][i], q[3][i]))
  }

  /** One gain after stripping: divided by the local minimum `m`, and, when the
      batch minimum `globalMin` is below the frame minimum `frameMin`, multiplied
      by `frameMin` and divided by `globalMin`. */
  function StripGain(g: real, m: real, frameMin: real, globalMin: real): real
  {
    var s := Quot(g, m);
    if globalMin < frameMin then Quot(s * frameMin, globalMin) else s
  }

  /** A gain map whose first `|mins|` entries were stripped, the rest untouched. */
  function StripMap(g: seq<real>, mins: seq<real>, frameMin: real, globalMin: real): seq<real>
    requires |mins| <= |g|
  {
    seq(|g|, i requires 0 <= i < |g| =>
      if i < |mins| then StripGain(g[i], mins[i], frameMin, globalMin) else g[i])
  }

  /** The index loop runs to the length of the first map; when another map is
      shorter, reading it at its length raises `IndexOutOfRangeException`, so the
      loop completes only the indices every map has. */
  predicate StripCompletes(q: seq<seq<real>>)
    requires |q| == 4
  {
    |q[0]| <= |q[1]| && |q[0]| <= |q[2]| && |q[0]| <= |q[3]|
  }

  function Processed(q: seq<seq<real>>): (n: nat)
    requires |q| == 4
    ensures forall t :: 0 <= t < 4 ==> n <= |q[t]|
    ensures StripCompletes(q) <==> n == |q[0]|
  {
    if StripCompletes(q) then |q[0]|
    else MinI(MinI(|q[1]|, |q[2]|), |q[3]|)
  }

  function MinI(a: nat, b: nat): nat
  {
    if a <= b then a else b
  }

  /** The four selected maps after the index loop of `StripVigLum`, with `frameMin`
      the minimum gain of the four maps. */
  function Stripped(q: seq<seq<real>>, frameMin: real, globalMin: real): (s: seq<seq<real>>)
    requires |q| == 4
    ensures |s| == 4
  {
    var mins := LocalMinima(q, Processed(q));
    seq(4, t requires 0 <= t < 4 => StripMap(q[t], mins, frameMin, globalMin))
  }

  /** Each map of `Stripped` is `StripMap` with the local minima and the frame
      minimum of the four maps. */
  lemma StrippedAt(q: seq<seq<real>>, frameMin: real, globalMin: real, mins: seq<real>)
    requires |q| == 4 && mins == LocalMinima(q, Processed(q))
    ensures forall t :: 0 <= t < 4 ==> Stripped(q, frameMin, globalMin)[t] == StripMap(q[t], mins, frameMin, globalMin)
  {
  }

  /** Index `i` of map `t` after the index loop: a processed index holds its gain
      divided by the minimum of the four gains there (and rescaled when the batch
      minimum is lower than the frame minimum); an index the loop did not reach
      keeps its gain. */
  lemma StrippedAtIndex(q: seq<seq<real>>, frameMin: real, globalMin: real, t: nat, i: nat)
    requires |q| == 4 && t < 4 && i < |q[t]|
    ensures |Stripped(q, frameMin, globalMin)[t]| == |q[t]|
    ensures i < Processed(q) ==>
              Stripped(q, frameMin, globalMin)[t][i] ==
              StripGain(q[t][i], Min4(q[0][i], q[1][i], q[2][i], q[3][i]), frameMin, globalMin)
    ensures Processed(q) <= i ==> Stripped(q, frameMin, globalMin)[t][i] == q[t][i]
  {
    StrippedAt(q, frameMin, globalMin, LocalMinima(q, Processed(q)));
  }

  /** One more local minimum strips one more index. */
  lemma StripMapExtend(g: seq<real>, mins: seq<real>, m: real, frameMin: real, globalMin: real)
    requires |mins| < |g|
    ensures StripMap(g, mins + [m], frameMin, globalMin)
            == StripMap(g, mins, frameMin, globalMin)[|mins| := StripGain(g[|mins|], m, frameMin, globalMin)]
  {
  }

  /** The local minima of one more index. */
  lemma LocalMinimaExtend(q: seq<seq<real>>, n: nat)
    requires |q| == 4 && forall t :: 0 <= t < 4 ==> n < |q[t]|
    ensures LocalMinima(q, n + 1) == LocalMinima(q, n) + [Min4(q[0][n], q[1][n], q[2][n], q[3][n])]
  {
  }

  /** The result of `StripVigLum`: the new list and whether it ran to the end
      (`ok`) or stopped with an `IndexOutOfRangeException`. */
  datatype StripOutcome = StripOutcome(ops: seq<OpcodeRecord>, ok: bool)

  /** `StripVigLum(globalMinGain)`: with exactly four OpcodeList2 GainMaps, strip
      luminance from their gains index by index and then apply the channel fix;
      otherwise change nothing. An exception leaves the indices already done
      stripped and skips the channel fix. */
  function StripVigLumSpec(ops: seq<OpcodeRecord>, globalMin: real, bggr: bool, grbg: bool): (res: StripOutcome)
    ensures |res.ops| == |ops|
    ensures forall k :: 0 <= k < |ops| ==>
              res.ops[k].id == ops[k].id && res.ops[k].listIndex == ops[k].listIndex &&
              res.ops[k].enabled == ops[k].enabled
    ensures forall k :: 0 <= k < |ops| && !Chosen(ops[k], true) ==> res.ops[k] == ops[k]
    ensures |Selected(ops)| != 4 ==> res == StripOutcome(ops, true)
    ensures !res.ok <==> |Selected(ops)| == 4 && !StripCompletes(GainsAt(ops, Selected(ops)))
  {
    var sel := Selected(ops);
    if |sel| != 4 then StripOutcome(ops, true)
    else
      var q := GainsAt(ops, sel);
      var s := Stripped(q, MinMaps(10.0, q), globalMin);
      var ok := StripCompletes(q);
      var g := if ok then ChannelFix(s, bggr, grbg) else s;
      SetGainsFrame(ops, sel, g);
      StripOutcome(SetGains(ops, sel, g), ok)
  }

  /** `StripVigLum` as the source runs it: the index loop leaves the stripped maps
      in the selected opcodes, which stay selected; when it completes, the swap
      blocks follow. */
  lemma StripVigLumInSteps(ops: seq<OpcodeRecord>, globalMin: real, bggr: bool, grbg: bool)
    requires |Selected(ops)| == 4
    ensures var sel := Selected(ops);
            var q := GainsAt(ops, sel);
            var mid := SetGains(ops, sel, Stripped(q, MinMaps(10.0, q), globalMin));
            var res := StripVigLumSpec(ops, globalMin, bggr, grbg);
            IsQuad(ops, sel) && Selected(mid) == sel &&
            res.ok == StripCompletes(q) &&
            res.ops == if res.ok then SwapBlocks(mid, sel, bggr, grbg) else mid
  {
    var sel := Selected(ops);
    var q := GainsAt(ops, sel);
    var s := Stripped(q, MinMaps(10.0, q), globalMin);
    var mid := SetGains(ops, sel, s);
    SetGainsFrame(ops, sel, s);
    PositionsFollowHeaders(ops, mid, |ops|, true);
    if StripCompletes(q) {
      SwapBlocksAreChannelFix(mid, sel, bggr, grbg);
      SetGainsAt(ops, sel, s);
      SetGainsTwice(ops, sel, s, ChannelFix(s, bggr, grbg));
    }
  }

  /** The selected opcodes keep gain arrays of the lengths they had (permuted by
      the channel fix), and the same opcodes remain selected. */
  lemma StripVigLumKeepsShape(ops: seq<OpcodeRecord>, globalMin: real, bggr: bool, grbg: bool)
    requires |Selected(ops)| == 4
    ensures var res := StripVigLumSpec(ops, globalMin, bggr, grbg);
            Selected(res.ops) == Selected(ops) &&
            forall t :: 0 <= t < 4 ==>
              |res.ops[Selected(ops)[t]].gains|
              == |(if res.ok then ChannelFix(GainsAt(ops, Selected(ops)), bggr, grbg)
                   else GainsAt(ops, Selected(ops)))[t]|
  {
    var sel := Selected(ops);
    var q := GainsAt(ops, sel);
    var s := Stripped(q, MinMaps(10.0, q), globalMin);
    var g := if StripCompletes(q) then ChannelFix(s, bggr, grbg) else s;
    var res := StripVigLumSpec(ops, globalMin, bggr, grbg);
    assert res.ops == SetGains(ops, sel, g);
    SetGainsAt(ops, sel, g);
    PositionsFollowHeaders(ops, res.ops, |ops|, true);
    StrippedKeepsLengths(q, globalMin);
    if StripCompletes(q) {
      ChannelFixLengths(s, q, bggr, grbg);
    }
  }

  /** Stripping changes gains, never the lengths of the maps. */
  lemma StrippedKeepsLengths(q: seq<seq<real>>, globalMin: real)
    requires |q| == 4
    ensures forall t :: 0 <= t < 4 ==> |Stripped(q, MinMaps(10.0, q), globalMin)[t]| == |q[t]|
  {
  }

  /** Maps of equal lengths stay of equal lengths under the channel fix. */
  lemma ChannelFixLengths(s: seq<seq<real>>, q: seq<seq<real>>, bggr: bool, grbg: bool)
    requires |s| == 4 && |q| == 4 && forall t :: 0 <= t < 4 ==> |s[t]| == |q[t]|
    ensures forall t :: 0 <= t < 4 ==> |ChannelFix(s, bggr, grbg)[t]| == |ChannelFix(q, bggr, grbg)[t]|
  {
  }

  /** At index `i` the four maps hold gains of at least 1 whose minimum is exactly
      1: the luminance component of that Bayer cell has been removed. */
  predicate LuminanceStripped(g: seq<seq<real>>, i: nat)
  {
    |g| == 4 && (forall t :: 0 <= t < 4 ==> i < |g[t]| && 1.0 <= g[t][i]) &&
    Min4(g[0][i], g[1][i], g[2][i], g[3][i]) == 1.0
  }

  /** After a complete run without global rescaling, wherever the four gains at an
      index were positive, the selected opcodes hold stripped gains there. */
  lemma StripVigLumStripsLuminance(ops: seq<OpcodeRecord>, globalMin: real, bggr: bool, grbg: bool, i: nat)
    requires |Selected(ops)| == 4
    requires var q := GainsAt(ops, Selected(ops));
             StripCompletes(q) && MinMaps(10.0, q) <= globalMin &&
             i < |q[0]| && forall t :: 0 <= t < 4 ==> 0.0 < q[t][i]
    ensures var res := StripVigLumSpec(ops, globalMin, bggr, grbg);
            res.ok && LuminanceStripped(GainsAt(res.ops, Selected(ops)), i)
  {
    var sel := Selected(ops);
    var q := GainsAt(ops, sel);
    var s := Stripped(q, MinMaps(10.0, q), globalMin);
    StrippedCell(q, globalMin, i);
    var f := ChannelFix(s, bggr, grbg);
    ChannelFixKeepsStripped(s, i, bggr, grbg);
    var res := StripVigLumSpec(ops, globalMin, bggr, grbg);
    assert res.ops == SetGains(ops, sel, f);
    SetGainsAt(ops, sel, f);
  }

  /** Stripping divides each positive cell by its own minimum. */
  lemma StrippedCell(q: seq<seq<real>>, globalMin: real, i: nat)
    requires |q| == 4 && StripCompletes(q) && MinMaps(10.0, q) <= globalMin
    requires i < |q[0]| && forall t :: 0 <= t < 4 ==> 0.0 < q[t][i]
    ensures LuminanceStripped(Stripped(q, MinMaps(10.0, q), globalMin), i)
  {
    var s := Stripped(q, MinMaps(10.0, q), globalMin);
    var mins := LocalMinima(q, Processed(q));
    var frameMin := MinMaps(10.0, q);
    var m := Min4(q[0][i], q[1][i], q[2][i], q[3][i]);
    assert mins[i] == m;
    assert 0.0 < m;
    forall t | 0 <= t < 4
      ensures i < |s[t]| && s[t][i] == Quot(q[t][i], m) && 1.0 <= s[t][i]
    {
      assert s[t] == StripMap(q[t], mins, frameMin, globalMin);
      assert s[t][i] == StripGain(q[t][i], m, frameMin, globalMin);
      QuotAtLeastOne(q[t][i], m);
    }
    StrippedCellMinimumIsOne(q[0][i], q[1][i], q[2][i], q[3][i]);
    assert Min4(s[0][i], s[1][i], s[2][i], s[3][i])
           == Min4(Quot(q[0][i], m), Quot(q[1][i], m), Quot(q[2][i], m), Quot(q[3][i], m));
  }

  /** The channel fix only reorders the four maps, so a stripped cell stays
      stripped. */
  lemma ChannelFixKeepsStripped(s: seq<seq<real>>, i: nat, bggr: bool, grbg: bool)
    requires LuminanceStripped(s, i)
    ensures LuminanceStripped(ChannelFix(s, bggr, grbg), i)
  {
    Min4Permuted(s[0][i], s[1][i], s[2][i], s[3][i], bggr, grbg);
  }

  /** The minimum of a cell does not depend on how the channel fix ordered it. */
  lemma Min4Permuted(a: real, b: real, c: real, d: real, bggr: bool, grbg: bool)
    ensures var f := ChannelFix([a, b, c, d], bggr, grbg);
            Min4(f[0], f[1], f[2], f[3]) == Min4(a, b, c, d)
  {
  }

  /** When a selected map is shorter than the first, `StripVigLum` stops at the
      length of the shortest: later indices keep their gains and no channel fix is
      applied. */
  lemma StripVigLumStopsEarly(ops: seq<OpcodeRecord>, globalMin: real, bggr: bool, grbg: bool, t: nat, i: nat)
    requires |Selected(ops)| == 4 && t < 4
    requires var q := GainsAt(ops, Selected(ops));
             !StripCompletes(q) && Processed(q) <= i < |q[t]|
    ensures var res := StripVigLumSpec(ops, globalMin, bggr, grbg);
            var sel := Selected(ops);
            !res.ok && i < |res.ops[sel[t]].gains| && res.ops[sel[t]].gains[i] == ops[sel[t]].gains[i]
  {
  }

  // ---------------------------------------------------------------------------
  // Minimum gain of a batch

  /** `MinValueBatch`: 1.0 when the list holds no GainMap; otherwise the running
      minimum, started at 10.0, over every gain of every GainMap of any list. */
  function MinValueBatchSpec(ops: seq<OpcodeRecord>): real
  {
    var sel := Positions(ops, |ops|, false);
    if |sel| > 0 then MinMaps(10.0, GainsAt(ops, sel)) else 1.0
  }

  /** The batch minimum is 1 without GainMaps; otherwise it is at most 10, at most
      every gain of every GainMap, and either 10 or one of those gains. */
  lemma MinValueBatchBounds(ops: seq<OpcodeRecord>)
    ensures var r := MinValueBatchSpec(ops);
            ((forall k :: 0 <= k < |ops| ==> ops[k].id != GainMap) ==> r == 1.0) &&
            r <= 10.0 &&
            (forall k, i :: 0 <= k < |ops| && ops[k].id == GainMap && 0 <= i < |ops[k].gains| ==>
               r <= ops[k].gains[i]) &&
            ((exists k :: 0 <= k < |ops| && ops[k].id == GainMap) ==>
               r == 10.0 || exists k, i :: 0 <= k < |ops| && ops[k].id == GainMap &&
                                            0 <= i < |ops[k].gains| && r == ops[k].gains[i])
  {
    var sel := Positions(ops, |ops|, false);
    PositionsComplete(ops, |ops|, false);
    if |sel| > 0 {
      MinValueBatchBelowGains(ops);
      MinValueBatchAttained(ops);
    } else {
      forall k | 0 <= k < |ops| ensures ops[k].id != GainMap {
        assert k !in sel;
      }
    }
  }

  /** The batch minimum is at most every gain of every GainMap. */
  lemma MinValueBatchBelowGains(ops: seq<OpcodeRecord>)
    ensures forall k, i :: 0 <= k < |ops| && ops[k].id == GainMap && 0 <= i < |ops[k].gains| ==>
              MinValueBatchSpec(ops) <= ops[k].gains[i]
  {
    var sel := Positions(ops, |ops|, false);
    var maps := GainsAt(ops, sel);
    PositionsComplete(ops, |ops|, false);
    forall k, i | 0 <= k < |ops| && ops[k].id == GainMap && 0 <= i < |ops[k].gains|
      ensures MinValueBatchSpec(ops) <= ops[k].gains[i]
    {
      assert Chosen(ops[k], false);
      var t :| 0 <= t < |sel| && sel[t] == k;
      assert maps[t] == ops[k].gains;
    }
  }

  /** With a GainMap present the batch minimum is 10 or a gain of some GainMap. */
  lemma MinValueBatchAttained(ops: seq<OpcodeRecord>)
    requires |Positions(ops, |ops|, false)| > 0
    ensures var r := MinValueBatchSpec(ops);
            r == 10.0 || exists k, i :: 0 <= k < |ops| && ops[k].id == GainMap &&
                                        0 <= i < |ops[k].gains| && r == ops[k].gains[i]
  {
    var sel := Positions(ops, |ops|, false);
    var maps := GainsAt(ops, sel);
    var r := MinValueBatchSpec(ops);
    if r != 10.0 {
      var t :| 0 <= t < |maps| && r in maps[t];
      var i :| 0 <= i < |maps[t]| && maps[t][i] == r;
      assert ops[sel[t]].id == GainMap && ops[sel[t]].gains[i] == r;
    }
  }
}
