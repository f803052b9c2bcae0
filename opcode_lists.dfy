/** Importing opcode lists, on the value view of the collection. The bytes of a
    list (what exiftool prints for an OpcodeList tag, or the contents of a `.bin`
    file) and the binary decoder (`OpcodesReader.ReadOpcodeList`) are parameters:
    neither the process nor the reader is part of this model. */
module OpcodeLists {
  import opened Opcodes

  /** The opcodes of one decoded list, each tagged with the list it came from. */
  function Tagged(recs: seq<OpcodeRecord>, list: int): (r: seq<OpcodeRecord>)
    ensures |r| == |recs|
    ensures forall k :: 0 <= k < |r| ==> r[k].listIndex == list
    ensures forall k :: 0 <= k < |r| ==>
              r[k].id == recs[k].id && r[k].enabled == recs[k].enabled && r[k].gains == recs[k].gains
  {
    seq(|recs|, k requires 0 <= k < |recs| => recs[k].(listIndex := list))
  }

  /** The collection after an import and whether the import returned normally. It
      fails where the source calls `Opcodes.Last()` on an empty collection, which
      throws `InvalidOperationException`. */
  datatype ImportOutcome = ImportOutcome(ops: seq<OpcodeRecord>, ok: bool)

  /** One iteration of the list loop of `ImportDng(filename)`: an empty blob adds
      nothing; otherwise the decoded opcodes are appended with their list tag and
      the last opcode of the collection is selected. */
  function ImportList(ops: seq<OpcodeRecord>, bytes: seq<bv8>, list: int,
                      decode: seq<bv8> -> seq<OpcodeRecord>): ImportOutcome
  {
    if |bytes| == 0 then ImportOutcome(ops, true)
    else
      var r := ops + Tagged(decode(bytes), list);
      ImportOutcome(r, |r| > 0)
  }

  /** `ImportDng(filename)`: OpcodeList2, then OpcodeList3; a failure ends the
      import. */
  function ImportDngSpec(ops: seq<OpcodeRecord>, blobs: int -> seq<bv8>,
                         decode: seq<bv8> -> seq<OpcodeRecord>): ImportOutcome
  {
    var two := ImportList(ops, blobs(2), 2, decode);
    if !two.ok then two else ImportList(two.ops, blobs(3), 3, decode)
  }

  /** `ImportBin(filename)`: every decoded opcode is appended as the reader made
      it, and the last opcode of the collection is selected, which fails on an
      empty collection. */
  function ImportBinSpec(ops: seq<OpcodeRecord>, bytes: seq<bv8>,
                         decode: seq<bv8> -> seq<OpcodeRecord>): ImportOutcome
  {
    var r := ops + decode(bytes);
    ImportOutcome(r, |r| > 0)
  }

  /** A non-empty list blob is imported as `ImportBin` would import it with a
      decoder that tags every opcode with the list. */
  lemma ImportListIsTaggedBin(ops: seq<OpcodeRecord>, bytes: seq<bv8>, list: int,
                              decode: seq<bv8> -> seq<OpcodeRecord>)
    requires |bytes| > 0
    ensures ImportList(ops, bytes, list, decode) == ImportBinSpec(ops, bytes, b => Tagged(decode(b), list))
  {
  }

  /** `ImportBin` keeps the existing opcodes, appends exactly the decoded ones and
      fails only when both are empty. */
  lemma ImportBinAppends(ops: seq<OpcodeRecord>, bytes: seq<bv8>, decode: seq<bv8> -> seq<OpcodeRecord>)
    ensures var res := ImportBinSpec(ops, bytes, decode);
            |res.ops| == |ops| + |decode(bytes)| && res.ops[..|ops|] == ops &&
            res.ops[|ops|..] == decode(bytes) &&
            (!res.ok <==> |ops| == 0 && |decode(bytes)| == 0)
  {
  }

  /** The decoded opcodes of a list, or none at all when the blob is empty. */
  function Decoded(bytes: seq<bv8>, list: int, decode: seq<bv8> -> seq<OpcodeRecord>): seq<OpcodeRecord>
  {
    if |bytes| == 0 then [] else Tagged(decode(bytes), list)
  }

  /** A successful import keeps the existing opcodes and appends the list-2 opcodes
      before the list-3 opcodes, each tagged with its list; an empty blob adds
      nothing. */
  lemma ImportDngAppends(ops: seq<OpcodeRecord>, blobs: int -> seq<bv8>,
                         decode: seq<bv8> -> seq<OpcodeRecord>)
    ensures var res := ImportDngSpec(ops, blobs, decode);
            res.ok ==> res.ops == ops + Decoded(blobs(2), 2, decode) + Decoded(blobs(3), 3, decode)
  {
    var res := ImportDngSpec(ops, blobs, decode);
    if res.ok {
      var d2, d3 := Decoded(blobs(2), 2, decode), Decoded(blobs(3), 3, decode);
      assert ops + d2 + d3 == (ops + d2) + d3;
    }
  }

  /** Whatever happens, the existing opcodes stay where they were. */
  lemma ImportDngKeepsPrefix(ops: seq<OpcodeRecord>, blobs: int -> seq<bv8>,
                             decode: seq<bv8> -> seq<OpcodeRecord>)
    ensures var res := ImportDngSpec(ops, blobs, decode);
            |ops| <= |res.ops| && res.ops[..|ops|] == ops
  {
    var two := ImportList(ops, blobs(2), 2, decode);
    assert two.ops[..|ops|] == ops;
    var res := ImportDngSpec(ops, blobs, decode);
    assert res.ops[..|two.ops|] == two.ops;
    assert res.ops[..|ops|] == two.ops[..|ops|];
  }

  /** The import fails exactly when the collection is still empty after a non-empty
      blob was decoded. */
  lemma ImportDngFails(ops: seq<OpcodeRecord>, blobs: int -> seq<bv8>,
                       decode: seq<bv8> -> seq<OpcodeRecord>)
    ensures !ImportDngSpec(ops, blobs, decode).ok <==>
            |ops| == 0 && |Decoded(blobs(2), 2, decode)| == 0 &&
            (|blobs(2)| > 0 || (|blobs(3)| > 0 && |Decoded(blobs(3), 3, decode)| == 0))
  {
  }
}
