/** The packed API version the module reports to the host. The source
    packs with `uint` shifts, so bits shifted past bit 31 are lost; bv32
    arithmetic has exactly that behaviour. */
module Version {

  /** Field widths of the layout: major in bits 25..31, minor in bits
      15..24, patch in bits 0..14. */
  const MAJOR_SHIFT: bv32 := 25
  const MINOR_SHIFT: bv32 := 15
  const MINOR_MASK: bv32 := 0x3FF
  const PATCH_MASK: bv32 := 0x7FFF

  /** The three fields fit their bit ranges. */
  predicate FieldsInRange(major: bv32, minor: bv32, patch: bv32) {
    major < 0x80 && minor < 0x400 && patch < 0x8000
  }

  function Major(v: bv32): bv32 { v >> MAJOR_SHIFT }
  function Minor(v: bv32): bv32 { (v >> MINOR_SHIFT) & MINOR_MASK }
  function Patch(v: bv32): bv32 { v & PATCH_MASK }

  /** `MakeApiVersion`: when the fields fit their ranges, unpacking the
      word recovers each of them. */
  function MakeApiVersion(major: bv32, minor: bv32, patch: bv32): (v: bv32)
    ensures FieldsInRange(major, minor, patch) ==>
              Major(v) == major && Minor(v) == minor && Patch(v) == patch
  {
    (major << 25) | (minor << 15) | patch
  }

  /** Within the ranges the shifted fields share no bit, so the OR in
      `MakeApiVersion` is the plain sum of the shifted fields. */
  lemma FieldsDisjoint(major: bv32, minor: bv32, patch: bv32)
    requires FieldsInRange(major, minor, patch)
    ensures (major << 25) & (minor << 15) == 0
    ensures (major << 25) & patch == 0
    ensures (minor << 15) & patch == 0
    ensures MakeApiVersion(major, minor, patch) == (major << 25) + (minor << 15) + patch
  {
  }

  /** Unpacking is the inverse on well-ranged words too: every word is the
      packing of its own fields. */
  lemma PackUnpack(v: bv32)
    ensures FieldsInRange(Major(v), Minor(v), Patch(v))
    ensures MakeApiVersion(Major(v), Minor(v), Patch(v)) == v
  {
  }

  /** Bits of `major` above its seven-bit field are discarded. */
  lemma MajorTruncated(major: bv32, minor: bv32, patch: bv32)
    ensures MakeApiVersion(major, minor, patch) == MakeApiVersion(major & 0x7F, minor, patch)
  {
  }

  /** Outside the ranges the fields collide: a patch of 2^15 reads as
      minor version 1. */
  lemma FieldsCollideOutOfRange()
    ensures MakeApiVersion(0, 1, 0) == MakeApiVersion(0, 0, 0x8000)
    ensures !FieldsInRange(0, 0, 0x8000)
  {
  }

  /** `EngineVersion`, the version `void_target_version` reports: 0.0.3. */
  function EngineVersion(): (v: bv32)
    ensures v == 3
    ensures Major(v) == 0 && Minor(v) == 0 && Patch(v) == 3
  {
    MakeApiVersion(0, 0, 3)
  }
}
