/**
  Nearest-colour palette matching: each point's colour is mapped to the id of
  the palette block whose rgb colour is nearest in Euclidean distance. The
  spatial tree of the original is specified by what its query returns: an
  index of a nearest colour, with no promise about which one among ties.
 */
module Palette {
  import opened Wrappers

  /** An rgb colour with integer channels. */
  datatype Color = Color(r: int, g: int, b: int)

  /** One palette record: a block id and its average colour. */
  datatype BlockEntry = BlockEntry(id: string, rgb: Color)

  datatype PaletteError = EmptyPalette

  /** The colour array the tree is built over: the palette's colours, in palette order. */
  function Colors(blockData: seq<BlockEntry>): (colors: seq<Color>)
    ensures |colors| == |blockData|
    ensures forall k :: 0 <= k < |blockData| ==> colors[k] == blockData[k].rgb
  {
    seq(|blockData|, k requires 0 <= k < |blockData| => blockData[k].rgb)
  }

  function Square(x: int): (s: nat)
    ensures s == 0 <==> x == 0
  {
    x * x
  }

  /** Squared Euclidean distance; it orders colours as the distance itself does. */
  function SqDist(c: Color, d: Color): (n: nat)
    ensures n == 0 <==> c == d
  {
    Square(c.r - d.r) + Square(c.g - d.g) + Square(c.b - d.b)
  }

  /** colors[k] is at least as near to query as every colour in colors. */
  predicate IsNearest(colors: seq<Color>, query: Color, k: int) {
    0 <= k < |colors| &&
    forall j :: 0 <= j < |colors| ==> SqDist(query, colors[k]) <= SqDist(query, colors[j])
  }

  /** The index a nearest-neighbour query over colors returns. */
  function NearestIndex(colors: seq<Color>, query: Color): (k: nat)
    requires |colors| > 0
    ensures IsNearest(colors, query, k)
  {
    if |colors| == 1 then 0
    else
      var last := |colors| - 1;
      var best := NearestIndex(colors[..last], query);
      if SqDist(query, colors[last]) < SqDist(query, colors[best]) then last else best
  }

  /**
    find_closest_block: the id of the palette entry nearest to color, or
    EmptyPalette when there is no entry to return.
   */
  function FindClosestBlock(color: Color, blockData: seq<BlockEntry>): (r: Result<string, PaletteError>)
    ensures r.Failure? <==> |blockData| == 0
    ensures r.Success? ==>
      exists k :: IsNearest(Colors(blockData), color, k) && blockData[k].id == r.value
  {
    if |blockData| == 0 then Failure(EmptyPalette)
    else
      var k := NearestIndex(Colors(blockData), color);
      Success(blockData[k].id)
  }

  /** When one entry is strictly nearer than all others, its id is the answer. */
  lemma UniqueNearest(color: Color, blockData: seq<BlockEntry>, k: nat)
    requires k < |blockData|
    requires forall j :: 0 <= j < |blockData| && j != k ==>
      SqDist(color, blockData[k].rgb) < SqDist(color, blockData[j].rgb)
    ensures FindClosestBlock(color, blockData) == Success(blockData[k].id)
  {
    var i := NearestIndex(Colors(blockData), color);
    assert SqDist(color, blockData[i].rgb) <= SqDist(color, blockData[k].rgb);
  }

  /** A colour that is in the palette maps to a block of exactly that colour. */
  lemma ExactMatch(color: Color, blockData: seq<BlockEntry>, k: nat)
    requires k < |blockData| && blockData[k].rgb == color
    ensures FindClosestBlock(color, blockData).Success?
    ensures exists i ::
      (0 <= i < |blockData| && blockData[i].rgb == color &&
       blockData[i].id == FindClosestBlock(color, blockData).value)
  {
    var i := NearestIndex(Colors(blockData), color);
    assert SqDist(color, blockData[i].rgb) <= SqDist(color, blockData[k].rgb) == 0;
  }

  /** Two palette blocks, stone (128,128,128) and snow (255,255,255): (200,200,200) maps to snow. */
  lemma GreyMapsToSnow()
    ensures FindClosestBlock(Color(200, 200, 200),
      [BlockEntry("stone", Color(128, 128, 128)), BlockEntry("snow", Color(255, 255, 255))])
      == Success("snow")
  {
    var palette := [BlockEntry("stone", Color(128, 128, 128)), BlockEntry("snow", Color(255, 255, 255))];
    UniqueNearest(Color(200, 200, 200), palette, 1);
  }
}
