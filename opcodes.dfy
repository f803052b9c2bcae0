/** The opcode entities the editor's view model works on. An opcode list is one of
    the OpcodeList1/2/3 tags of the Adobe DNG Specification (chapter 7, "Opcode List
    Processing"); the view model keeps the opcodes of several lists in one
    collection and tags each with the list it belongs to. */
module Opcodes {

  /** Opcode identifiers, as numbered by the DNG specification. */
  const WarpRectilinear: nat := 1
  const FixVignetteRadial: nat := 3
  const TrimBounds: nat := 6
  const GainMap: nat := 9

  /** The identifier a plain `new Opcode()` carries: the zero value of the identifier
      enumeration, which names no opcode. */
  const UnsetId: nat := 0

  /** `ListIndex` and `Enabled` of a freshly constructed opcode. The opcode classes
      are not part of this model, so their initial values are left unspecified. */
  const DefaultListIndex: int
  const DefaultEnabled: bool

  /** The value view of one opcode: its identifier, the list it is tagged with, its
      enabled flag and, for a GainMap, its `mapGains` (empty
      for every other kind). The other payload fields are only read by the
      per-opcode pixel routines and are not modelled. */
  datatype OpcodeRecord = OpcodeRecord(id: nat, listIndex: int, enabled: bool, gains: seq<real>)

  /** The selection test of the gain-map corrections: a GainMap opcode, and with
      `listTwoOnly` one tagged for OpcodeList2. */
  predicate Chosen(r: OpcodeRecord, listTwoOnly: bool)
  {
    r.id == GainMap && (!listTwoOnly || r.listIndex == 2)
  }

  /** An opcode object as the collection holds it. Its fields are updated in place:
      the channel swaps exchange the `mapGains` of two opcodes and the luminance
      stripping rewrites it index by index. */
  class Opcode {
    var id: nat
    var listIndex: int
    var enabled: bool
    var mapGains: seq<real>

    /** A fresh opcode object holding `r`; this is what the opcode-list reader and
        `AddOpcode` allocate. */
    constructor (r: OpcodeRecord)
      ensures Record() == r
    {
      id := r.id;
      listIndex := r.listIndex;
      enabled := r.enabled;
      mapGains := r.gains;
    }

    /** The current value of this opcode. */
    function Record(): OpcodeRecord
      reads this
    {
      OpcodeRecord(id, listIndex, enabled, mapGains)
    }
  }
}
