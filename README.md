# DngOpcodesEditor view model, in Dafny

This project models the opcode-list logic of `MainWindowVM`, the view model of
DngOpcodesEditor. DngOpcodesEditor edits the opcode lists of DNG raw images: the
OpcodeList1/2/3 tags of the Adobe DNG Specification (chapter 7, "Opcode List
Processing"). The view model holds one collection of opcode objects, each tagged
with the list it came from. It offers these operations:

- it adds opcodes one at a time, or imports them from the list blobs of a DNG
  file or from a `.bin` file;
- it keeps `SelectedOpcode` inside the collection;
- it applies the enabled opcodes to an image;
- it corrects the four OpcodeList2 GainMaps of a flat-field shot:
  - it swaps their gain arrays between channels (`FixMismatch`, the BGGR and
    GRBG fixes);
  - it strips the luminance component from them (`StripVigLum`);
  - it takes the minimum gain over a batch (`MinValueBatch`);
- it does the Bayer-lattice bookkeeping of `ImportFlatField`.

The model follows the source's form:

- `Opcodes.Opcode` and `ViewModel.MainWindowVM` are classes whose fields the
  methods update in place.
- Each method is proved against a function on the value view of the collection,
  `MainWindowVM.Snapshot()`, a sequence of `OpcodeRecord`s. Those functions live
  in `GainMaps`, `OpcodeLists` and `Dispatch`, and their properties are proved as
  lemmas there.
- Operations that can throw are modelled with an `ok` result. `Opcodes.Last()` on
  an empty collection gives `ok == false`, and so does an index past the end of a
  shorter gain map. In both cases the state the source leaves behind is kept.
- The opcode-list reader, the exiftool blob source, the per-opcode pixel routines
  and the gamma curves are function-typed parameters.
- Gains are `real`. Division is `Gains.Quot`, which gives `0` for a zero divisor.

Modules and files:

- `gains.dfy` (`Gains`): minima and the division.
- `opcodes.dfy` (`Opcodes`): identifiers, `OpcodeRecord`, the class `Opcode`.
- `gain_maps.dfy` (`GainMaps`): selection, channel fixes, luminance stripping,
  batch minimum.
- `opcode_lists.dfy` (`OpcodeLists`): importing.
- `imaging.dfy` (`Imaging`): rasters and the class `Image`.
- `dispatch.dfy` (`Dispatch`): the opcode loop of `ApplyOpcodes`.
- `main_window_vm.dfy` (`ViewModel`): the class `MainWindowVM`.
- `flat_field.dfy` (`FlatField`): the lattice loops of `ImportFlatField`.

## Model

| member | source | states |
|---|---|---|
| Gains.MinF | MainWindowVM.cs:618-619 | `MathF.Min` gives one of its arguments, and it is at most both |
| Gains.Min4 | MainWindowVM.cs:618-619 | the nested minimum of four gains is one of them and at most each |
| Gains.Quot | MainWindowVM.cs:623 | the quotient times a non-zero divisor gives back the dividend |
| Gains.MinSeq | MainWindowVM.cs:609-612 | the running minimum over one map is at most its start and every gain, and is the start or one of the gains |
| Gains.MinMaps | MainWindowVM.cs:606-613 | the running minimum from 10.0 over several maps bounds every gain of every map, and is 10.0 or a gain of some map |
| Gains.StrippedCellMinimumIsOne | MainWindowVM.cs:618-623 | four positive gains divided by their minimum have minimum exactly 1 |
| Gains.QuotAtLeastOne | MainWindowVM.cs:623 | a gain divided by a positive minimum no larger than it is at least 1 |
| Opcodes.Opcode.constructor | MainWindowVM.cs:733-736 | a fresh opcode object holds exactly the record the reader decoded |
| GainMaps.Selected | MainWindowVM.cs:657-661 | definition: the positions of the GainMap opcodes tagged for OpcodeList2, in collection order |
| GainMaps.Positions | MainWindowVM.cs:600-603 | the collected positions are strictly increasing and each holds a selected opcode |
| GainMaps.PositionsComplete | MainWindowVM.cs:600-603 | no selected opcode is missed by the collecting `foreach` |
| GainMaps.SwapBGGR | MainWindowVM.cs:639-643 | definition: the first and fourth gain arrays are exchanged |
| GainMaps.SwapGRBG | MainWindowVM.cs:644-651 | definition: the first array is exchanged with the second and the third with the fourth |
| GainMaps.ChannelFix | MainWindowVM.cs:639-651 | definition: the BGGR swap when `BGGRFix` is set, then the GRBG swap when `GRBGFix` is set |
| GainMaps.ChannelFixPermutes | MainWindowVM.cs:639-651 | the two swap blocks only permute the four gain arrays (multiset equality) |
| GainMaps.SwapBGGRPermutes | MainWindowVM.cs:639-643 | the BGGR swap (maps 0 and 3 exchanged) is a permutation |
| GainMaps.SwapGRBGPermutes | MainWindowVM.cs:644-651 | the GRBG swap (0 with 1, 2 with 3) is a permutation |
| GainMaps.FourElements | MainWindowVM.cs:639-651 | proof helper: a four-map sequence has exactly its four maps as its multiset |
| GainMaps.ChannelFixInvolution | MainWindowVM.cs:664-676 | with at most one flag set the channel fix undone by itself is the identity |
| GainMaps.BothFixesAreNoInvolution | MainWindowVM.cs:515 | with both flags set the fix is not its own inverse, which is the combination `BatchDNG()` refuses |
| GainMaps.FixMismatchSpec | MainWindowVM.cs:655-678 | the list keeps its length and every header; unselected opcodes are unchanged; nothing changes unless exactly four list-2 GainMaps are present |
| GainMaps.PositionsFollowHeaders | MainWindowVM.cs:657-661 | the selection depends only on identifiers and list tags, not on gains |
| GainMaps.SelectedIsQuad | MainWindowVM.cs:657-662 | four selected opcodes sit at four strictly increasing positions |
| GainMaps.FixMismatchMovesGains | MainWindowVM.cs:662-676 | after `FixMismatch` the same opcodes are selected and hold the channel-fixed gain arrays, a permutation of the old ones |
| GainMaps.SetGainsFrame | MainWindowVM.cs:664-676 | writing gains at the four positions keeps the length, all headers and every other opcode |
| GainMaps.SetGainsAt | MainWindowVM.cs:664-676 | the four written opcodes hold the new gains and keep their headers |
| GainMaps.SetGainsExactly | MainWindowVM.cs:639-651 | a list that differs from the old one only in the gains at the four positions is that gain update |
| GainMaps.SetGainsOwn | MainWindowVM.cs:664-676 | writing back the gains already held changes nothing |
| GainMaps.SetGainsTwice | MainWindowVM.cs:664-676 | of two gain writes at the same positions only the second remains |
| GainMaps.FixMismatchInvolution | MainWindowVM.cs:655-678 | with at most one flag set, running `FixMismatch` twice restores the list |
| GainMaps.FixMismatchBothFlags | MainWindowVM.cs:664-676 | with both flags set, `FixMismatch` is the BGGR fix followed by the GRBG fix |
| GainMaps.SwapGainsAt | MainWindowVM.cs:665-667 | the `tmp` swap exchanges the gains of two opcodes and leaves their headers and all other opcodes alone |
| GainMaps.SwapBlocks | MainWindowVM.cs:664-676 | definition: the two `if` blocks of `tmp` swaps on the collection, at the four selected positions |
| GainMaps.SwapBlocksAreChannelFix | MainWindowVM.cs:664-676 | the swap statements as written equal the channel fix applied to the four gain arrays |
| GainMaps.FixMismatchIsSwapBlocks | MainWindowVM.cs:655-678 | with four selected maps `FixMismatch` is exactly its two swap blocks on the selection |
| GainMaps.BatchDngAllowed | MainWindowVM.cs:515 | definition: at least one of `StripLum`, `BGGRFix`, `GRBGFix` is set, and not both fixes |
| GainMaps.BatchDngFixIsInvolution | MainWindowVM.cs:513-527 | every flag combination `BatchDNG()` lets through makes `FixMismatch` its own inverse |
| GainMaps.StripGain | MainWindowVM.cs:623-627 | definition: a gain divided by the local minimum and, when `globalMinGain < minGain`, multiplied by `minGain` and divided by `globalMinGain` |
| GainMaps.StripMap | MainWindowVM.cs:621-627 | definition: a map whose first indices are stripped with their local minima and whose other indices are untouched |
| GainMaps.LocalMinima | MainWindowVM.cs:615-619 | `minGains[i]` is at most each of the four gains at index i and equals their nested minimum |
| GainMaps.Processed | MainWindowVM.cs:616-619 | the index loop gets no further than any map's length, and it processes all of map 0 exactly when it completes |
| GainMaps.Stripped | MainWindowVM.cs:616-630 | the loop yields four maps |
| GainMaps.StrippedAtIndex | MainWindowVM.cs:616-630 | a processed index of each map holds its gain divided by the minimum of the four gains there, rescaled by `minGain / globalMinGain` when the batch minimum is lower; an index the loop did not reach keeps its gain; the length is kept |
| GainMaps.StripMapExtend | MainWindowVM.cs:621-630 | step i rewrites only index i of a map |
| GainMaps.LocalMinimaExtend | MainWindowVM.cs:618-619 | one more step appends the minimum of the four gains at that index |
| GainMaps.StripVigLumSpec | MainWindowVM.cs:595-654 | only selected opcodes change, and only in gains; without exactly four list-2 GainMaps nothing changes; the run fails exactly when a selected map is shorter than map 0 |
| GainMaps.StripVigLumInSteps | MainWindowVM.cs:604-651 | `StripVigLum` is the index loop followed, on completion, by the swap blocks on the still-selected opcodes |
| GainMaps.StripVigLumKeepsShape | MainWindowVM.cs:616-651 | the same opcodes stay selected, and their maps keep the lengths of the (channel-fixed) originals |
| GainMaps.StrippedKeepsLengths | MainWindowVM.cs:616-630 | proof helper: stripping never changes a map's length |
| GainMaps.ChannelFixLengths | MainWindowVM.cs:639-651 | proof helper: the channel fix moves lengths together with the maps |
| GainMaps.StripVigLumStripsLuminance | MainWindowVM.cs:616-651 | after a complete run without global rescaling, at every index with positive gains the four maps hold gains ≥ 1 with minimum exactly 1 |
| GainMaps.StrippedCell | MainWindowVM.cs:618-623 | the index loop divides each positive cell by its own minimum |
| GainMaps.ChannelFixKeepsStripped | MainWindowVM.cs:639-651 | the channel fix keeps a stripped cell stripped |
| GainMaps.Min4Permuted | MainWindowVM.cs:639-651 | the cell minimum does not depend on the channel order |
| GainMaps.StripVigLumStopsEarly | MainWindowVM.cs:616-619 | when a map is shorter than map 0, indices past the shortest keep their gains and no swap is made |
| GainMaps.MinValueBatchSpec | MainWindowVM.cs:570-593 | definition: 1.0 when no opcode is a GainMap; otherwise the running minimum from 10.0 over the gains of every GainMap, of any list, in collection order |
| GainMaps.MinValueBatchBounds | MainWindowVM.cs:570-593 | the batch minimum is 1.0 without GainMaps; otherwise it is ≤ 10, ≤ every gain of every GainMap of any list, and is 10 or one of those gains |
| GainMaps.MinValueBatchBelowGains | MainWindowVM.cs:584-587 | the batch minimum is at most every gain of every GainMap |
| GainMaps.MinValueBatchAttained | MainWindowVM.cs:582-590 | with a GainMap present the batch minimum is 10 or a gain of some GainMap |
| OpcodeLists.ImportList | MainWindowVM.cs:139-146 | definition: an empty blob adds nothing; otherwise the decoded opcodes are appended with the list tag, and the step fails exactly when the collection is then empty (`Last()` throws) |
| OpcodeLists.ImportDngSpec | MainWindowVM.cs:127-147 | definition: the OpcodeList2 step, then, unless it failed, the OpcodeList3 step |
| OpcodeLists.ImportBinSpec | MainWindowVM.cs:504-511 | definition: the decoded opcodes are appended untouched, and the import fails exactly when the collection is then empty |
| OpcodeLists.Tagged | MainWindowVM.cs:141-145 | every imported opcode keeps its identifier, flag and gains and gets the list index |
| OpcodeLists.ImportListIsTaggedBin | MainWindowVM.cs:139-147 | a non-empty list blob is imported like a `.bin` file whose opcodes are re-tagged |
| OpcodeLists.ImportBinAppends | MainWindowVM.cs:504-511 | `ImportBin` keeps the old opcodes, appends exactly the decoded ones, and fails only when the collection stays empty |
| OpcodeLists.ImportDngAppends | MainWindowVM.cs:127-147 | a successful import keeps the old opcodes and appends the list-2 opcodes before the list-3 opcodes, each tagged with its list; an empty blob adds nothing |
| OpcodeLists.ImportDngKeepsPrefix | MainWindowVM.cs:127-147 | whatever happens, the existing opcodes stay in place |
| OpcodeLists.ImportDngFails | MainWindowVM.cs:139-146 | the import fails exactly when a non-empty blob leaves the collection empty |
| Imaging.MapSamples | MainWindowVM.cs:751-757 | mapping keeps the size and applies the curve to every sample |
| Imaging.MapSamplesCompose | MainWindowVM.cs:747-794 | decoding then encoding is mapping with the composed curve |
| Imaging.Image.Clone | MainWindowVM.cs:746 | the clone is a new object with the same pixels |
| Imaging.Image.ChangeSamples | MainWindowVM.cs:751-757 | the image's pixels become the mapped pixels |
| Dispatch.ApplyAll | MainWindowVM.cs:760-781 | definition: `Step` folded over the opcodes from first to last |
| Dispatch.RunTrace | MainWindowVM.cs:765-777 | definition: the routines of the given implemented opcodes run in order, with no skipping |
| Dispatch.Step | MainWindowVM.cs:760-781 | one iteration leaves the image alone for a disabled or unknown opcode and otherwise runs that opcode's routine |
| Dispatch.Dispatched | MainWindowVM.cs:760-781 | the opcodes handed to a routine are enabled and implemented, none is missed, and all come from the list |
| Dispatch.ApplyAllRunsDispatched | MainWindowVM.cs:760-782 | the loop runs exactly the dispatched opcodes, in list order |
| Dispatch.SkippedHasNoEffect | MainWindowVM.cs:762-763 | appending a disabled or unknown opcode does not change the result |
| Dispatch.NothingDispatchedIsIdentity | MainWindowVM.cs:760-782 | a list with no dispatched opcode leaves the image as it was |
| Dispatch.Render | MainWindowVM.cs:746-794 | the output is the optional decode, then the dispatched routines in order, then the optional encode |
| Dispatch.RenderNothingDispatched | MainWindowVM.cs:747-794 | with no opcode dispatched and both gamma steps on, the output maps every sample through the decode curve and then the encode curve |
| ViewModel.NewOpcodeRecord | MainWindowVM.cs:91-109 | the three known kinds get their identifier, every other id gives an unset one, and none is a GainMap |
| ViewModel.StripGainAt | MainWindowVM.cs:623-627 | one write strips index i of one map and changes nothing else of it |
| ViewModel.StripIndex | MainWindowVM.cs:621-630 | the inner loop strips index i of all four maps |
| ViewModel.StripMaps | MainWindowVM.cs:616-638 | the index loop leaves exactly the stripped maps and reports whether it ran to the end |
| ViewModel.RunOpcodes | MainWindowVM.cs:760-782 | the destination holds the loop's result over the collection |
| ViewModel.MainWindowVM.Snapshot | MainWindowVM.cs:20 | the value view has one record per opcode object, in order |
| ViewModel.MainWindowVM.constructor | MainWindowVM.cs:19-54 | an empty collection, nothing selected, `EncodeGamma` set and the flags at their initial values |
| ViewModel.MainWindowVM.OnCollectionChanged | MainWindowVM.cs:49-52 | the selection is kept if still present, else becomes the last opcode or null, so it is always consistent |
| ViewModel.MainWindowVM.Add | MainWindowVM.cs:49-52 | the opcode is appended, opcodes stay distinct, and the selection is fixed up |
| ViewModel.MainWindowVM.AddOpcode | MainWindowVM.cs:91-109 | the collection grows by exactly the new opcode, the old opcodes keep their places, and the selection is kept when still present and otherwise becomes the new opcode |
| ViewModel.MainWindowVM.ClearOpcodes | MainWindowVM.cs:531 | the collection is empty and nothing is selected |
| ViewModel.MainWindowVM.OpenImage | MainWindowVM.cs:73-79 | source and destination are new images with the file's pixels, and gamma decoding is on exactly for ≤ 32 bits per pixel |
| ViewModel.MainWindowVM.ApplyOpcodes | MainWindowVM.cs:737-799 | without a source nothing changes; otherwise the destination is a new image holding `Render` of the source and the collection |
| ViewModel.MainWindowVM.SelectLast | MainWindowVM.cs:146 | `Last()` succeeds exactly on a non-empty collection and selects its last opcode |
| ViewModel.MainWindowVM.AddTagged | MainWindowVM.cs:141-145 | one decoded opcode is appended with the list's index, the old opcodes keep their places, opcodes stay distinct, and the selection is kept when still present and otherwise becomes the new opcode |
| ViewModel.MainWindowVM.AddAllTagged | MainWindowVM.cs:141-145 | the decoded opcodes are appended in order, each tagged with the list, and the selection is consistent unless nothing was added |
| ViewModel.MainWindowVM.ImportListBlob | MainWindowVM.cs:139-147 | the collection becomes what `ImportList` states for that blob; on success with a non-empty blob the last opcode is selected; an empty blob changes nothing; a consistent selection stays consistent |
| ViewModel.MainWindowVM.ImportDng | MainWindowVM.cs:123-150 | the collection and outcome are those of `ImportDngSpec`; after a successful import with a non-empty OpcodeList2 or OpcodeList3 blob the collection's last opcode is selected, and a consistent selection stays consistent |
| ViewModel.MainWindowVM.AddAll | MainWindowVM.cs:506-509 | the decoded opcodes are appended in order as the reader made them; nothing changes when there are none, and otherwise the selection is consistent |
| ViewModel.MainWindowVM.ImportBin | MainWindowVM.cs:504-511 | the collection and outcome are those of `ImportBinSpec`; on success the last opcode is selected, on failure (`Last()` throws) the selection is left as it was, and a consistent selection stays consistent |
| ViewModel.MainWindowVM.CollectGainMaps | MainWindowVM.cs:599-603 | the collected objects are those at the selected positions, in order |
| ViewModel.MainWindowVM.MinimumGain | MainWindowVM.cs:606-613 | the nested loops compute the running minimum from 10.0 over the collected maps |
| ViewModel.MainWindowVM.MinValueBatch | MainWindowVM.cs:570-593 | the result is `MinValueBatchSpec` of the collection |
| ViewModel.MainWindowVM.SwapGains | MainWindowVM.cs:640-642 | the `tmp` swap on two opcode objects is `SwapGainsAt` on the collection |
| ViewModel.MainWindowVM.SwapBlocksOn | MainWindowVM.cs:664-676 | the two swap blocks on the collected objects are `SwapBlocks` on the collection |
| ViewModel.MainWindowVM.FixMismatch | MainWindowVM.cs:655-678 | the collection becomes `FixMismatchSpec` of the old one |
| ViewModel.MainWindowVM.StripSelected | MainWindowVM.cs:615-638 | the selected opcodes hold their stripped maps, nothing else changes, and `ok` says whether the loop completed |
| ViewModel.MainWindowVM.StripQuad | MainWindowVM.cs:615-651 | the index loop and swap blocks give `StripVigLumSpec` |
| ViewModel.MainWindowVM.StripVigLum | MainWindowVM.cs:595-654 | the collection and outcome are those of `StripVigLumSpec` |
| FlatField.FoundAttains | MainWindowVM.cs:181-184 | proof helper: a sample found in a visited cell is attained on its lattice |
| FlatField.Max | MainWindowVM.cs:217 | `Math.Max` is at least both and one of them |
| FlatField.MaxStep | MainWindowVM.cs:193-208 | one comparison keeps the running maximum a lattice maximum of the cells visited so far |
| FlatField.VisitCell | MainWindowVM.cs:193-208 | each running maximum becomes the larger of itself and its sample in the cell |
| FlatField.CfaMaxima | MainWindowVM.cs:181-211 | each of `maxValueB/G1/G2/R` is the maximum of its CFA sub-lattice over the visited W/2 × H/2 cells |
| FlatField.RowDone | MainWindowVM.cs:188-211 | proof helper: a finished row carries the running maximum into the next row |
| FlatField.FlatFieldMaxima | MainWindowVM.cs:181-217 | B, G2 and R are their lattice maxima; G1 becomes the larger green maximum, bounding and attained on one of the green lattices |
| FlatField.MulMono | MainWindowVM.cs:276-279 | proof helper: multiplying by a natural keeps the order |
| FlatField.DivModUnique | MainWindowVM.cs:276-279 | proof helper: a row-major index has a unique row and column |
| FlatField.DivBound | MainWindowVM.cs:249-279 | proof helper: an index below H·W lies in one of the H rows |
| FlatField.GainIndex | MainWindowVM.cs:276-279 | definition: the row-major index `x + y * Width` of pixel (x, y) in `gains` |
| FlatField.LumIndex | MainWindowVM.cs:281 | definition: the index `i + j * Width / 2` of cell (i, j) in `lumGains`, with C#'s left-to-right evaluation |
| FlatField.GainIndexInBounds | MainWindowVM.cs:249-279 | every `gains` index written is inside the `H * W` array |
| FlatField.GainIndexInjective | MainWindowVM.cs:276-279 | different pixels have different `gains` indices |
| FlatField.GainIndexCovers | MainWindowVM.cs:249-279 | every index is one pixel's, and for even W and H that pixel lies in a visited cell, so the array is covered |
| FlatField.CellPixelInRow | MainWindowVM.cs:276-279 | proof helper: every written pixel lies inside the width |
| FlatField.PixelOutsideCell | MainWindowVM.cs:276-279 | the four indices of a cell are distinct from those of every other pixel |
| FlatField.LumIndexRowOrder | MainWindowVM.cs:281 | cells of later rows have larger `lumGains` indices |
| FlatField.LumIndexInjective | MainWindowVM.cs:281 | different cells have different `lumGains` indices |
| FlatField.LumIndexInBounds | MainWindowVM.cs:250-281 | every `lumGains` index is inside the `H * W / 4` array, for any W and H |
| FlatField.LumIndexCovers | MainWindowVM.cs:250-281 | for even W and H every `lumGains` index is a visited cell's |
| FlatField.MaxAt | MainWindowVM.cs:276-279 | each position divides by one of the four maxima |
| FlatField.RawGain | MainWindowVM.cs:276-279 | definition: the lattice maximum of a cell position divided by its sample |
| FlatField.LumGain | MainWindowVM.cs:281-284 | definition: the nested minimum of a cell's four raw gains |
| FlatField.FinalGain | MainWindowVM.cs:276-292 | definition: the raw gain, divided by the cell's luminance gain when `StripLum` is set |
| FlatField.StrippedCellIsColourOnly | MainWindowVM.cs:276-292 | with `StripLum` and non-zero samples each cell's four final gains have minimum exactly 1 |
| FlatField.QuotPositive | MainWindowVM.cs:276-279 | proof helper: a quotient of positive values is positive |
| FlatField.CellIndices | MainWindowVM.cs:276-291 | the source's index expressions are the pixel and cell indices, one apart within a row and W apart across rows, in bounds |
| FlatField.RawCell | MainWindowVM.cs:276-284 | the four raw gains and the cell minimum are written, nothing else |
| FlatField.StripCell | MainWindowVM.cs:286-292 | the four gains are divided by the cell minimum, nothing else changes |
| FlatField.FillCell | MainWindowVM.cs:276-292 | one iteration leaves cell (i, j) complete and every other index unchanged |
| FlatField.FillKeepsOthers | MainWindowVM.cs:252-299 | writing one cell keeps every other cell in place |
| FlatField.FlatFieldGains | MainWindowVM.cs:249-299 | new arrays of sizes H·W and H·W/4, holding every visited cell's gains and luminance gain |
| FlatField.FlatFieldPasses | MainWindowVM.cs:181-299 | the two passes together: the lattice maxima and then the filled gain arrays |

## Left out

- `mapGains` is a `seq<real>` field of `Opcode` rather than a shared `float[]`. The model therefore has no aliasing between gain arrays, and an element write `mapGains[i] = …` becomes a reassignment of the field with the updated sequence.
- Floating point: gains are exact reals. The float32 rounding of every division and multiplication (the `StripVigLum` divisions and rescaling, the `(float)max / sample` gains of `ImportFlatField`) is not modelled, nor are NaN and infinities in `MathF.Min` and in the `<` and `>` comparisons. `Gains.Quot(x, 0)` is `0` where IEEE division gives an infinity or NaN.
- The gamma formulas (`MathF.Pow(pixel / 65535, 2.2)` and its inverse) and their `Parallel.For` loops: the curves are parameters `decodeCurve` and `encodeCurve`, applied to every sample.
- The opcode-list reader and writer (`OpcodesReader`, `OpcodesWriter`), the per-opcode pixel routines (`OpcodesImplementation`) and the pixel store (`Image`, Magick.NET). These are only called from the view model; they are the parameters `decode` and `Routines`, and a raster value.
- File dialogs, `File.*`, `Mouse.OverrideCursor`, `SetWindowTitle`, `Console`/`Debug` output, and the `exiftool`, `dng_validate` and `dcraw` processes. The list blobs are a function from list index to bytes, and the file's bytes and pixels are parameters.
- `ExportBin`, `ExportDNG` and `SaveImage`: file output only.
- `BatchDNG(string[] files)`: it loops over files with import, strip or fix, and export. It is built from the modelled `ClearOpcodes`, `ImportDng`, `MinValueBatch`, `StripVigLum` and `FixMismatch`; the file loop itself and its I/O are not modelled. `BatchDNG()` is modelled only by its guard, `GainMaps.BatchDngAllowed`.
- `ImportDng()` (the dialog wrapper) passes `dialog.FileName` rather than the loop's file name for every selected file. It belongs to the dialog layer and has no model.
- The per-item `PropertyChanged → ApplyOpcodes` subscription: an event mechanism.
- `ImportFlatField`: the pixel write-back with its `(ushort)` casts is not modelled. No gain depends on it, because each cell's samples are read before they are overwritten. Also left out are the `_chroma`/`_luma` file output and the batch loop over further files that it starts.
- `FlatField.CfaMaxima`: requires a raw image of at least 2 × 2. The source reads the four pixels of cell (0, 0) unconditionally, so a smaller image makes it fail in the pixel store.
- `FlatField.FlatFieldGains`: the arrays are allocated without a stated initial value. For an odd width or height the last column or row of `gains`, and the `lumGains` entries no cell reaches, keep C#'s initial `0.0f`; the contract says nothing about those entries and describes every entry only for even sizes.
- The initial `Enabled` and `ListIndex` of a fresh opcode, and the payload fields of each opcode kind: the opcode classes are not part of this model, so these are unspecified constants or are not represented.
- `AddOpcode` with an identifier other than the three known kinds creates a plain `Opcode` whose identifier is the enumeration's zero value (`Opcodes.UnsetId`), as the `default` case does.
