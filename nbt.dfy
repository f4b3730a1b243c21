/**
  The NBT tags the converter builds: a small tagged tree of compounds
  (string-keyed maps), lists, 32-bit integers and single-precision floats.
  Float payloads are coordinates, kept as an opaque value type.
 */
module Nbt {

  /** A coordinate value; its floating-point nature is not modelled. */
  type Coord(==)

  newtype Int32 = x: int | -0x8000_0000 <= x < 0x8000_0000

  datatype Tag =
    | Int(n: Int32)
    | Float(f: Coord)
    | List(items: seq<Tag>)
    | Compound(entries: map<string, Tag>)
}
