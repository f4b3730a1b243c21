/**
  create_animation_data: the per-frame position table, one compound per
  frame whose flat keys "{i}x", "{i}y", "{i}z" hold point i's coordinates,
  wrapped in the fixed envelope the command storage file needs.
 */
module Animation {
  import opened Wrappers
  import opened Decimal
  import opened Nbt
  import Palette

  datatype Axis = X | Y | Z

  datatype Position = Position(x: Coord, y: Coord, z: Coord)

  datatype Point = Point(color: Palette.Color)

  /** One animation frame: a position for every point. */
  datatype Frame = Frame(positions: seq<Position>)

  /** The loaded point cloud: points in a fixed order and the frames over them. */
  datatype PointFrames = PointFrames(points: seq<Point>, frames: seq<Frame>) {

    /** Every frame positions every point. */
    predicate Valid() {
      forall k :: 0 <= k < |frames| ==> |frames[k].positions| == |points|
    }

    function GetPosition(pointIndex: nat, frameIndex: nat): Position
      requires Valid() && pointIndex < |points| && frameIndex < |frames|
    {
      frames[frameIndex].positions[pointIndex]
    }
  }

  function AxisLetter(a: Axis): char {
    match a
    case X => 'x'
    case Y => 'y'
    case Z => 'z'
  }

  function LetterAxis(c: char): Option<Axis> {
    if c == 'x' then Some(X) else if c == 'y' then Some(Y) else if c == 'z' then Some(Z) else None
  }

  /** position[0], position[1], position[2]. */
  function Component(p: Position, a: Axis): Coord {
    match a
    case X => p.x
    case Y => p.y
    case Z => p.z
  }

  /** The flat storage key f'{i}x' (or y, z) of one coordinate of point i. */
  function Key(i: nat, a: Axis): string {
    NatToString(i) + [AxisLetter(a)]
  }

  /** Reads a storage key back into its point index and axis. */
  function ParseKey(key: string): Option<(nat, Axis)> {
    if |key| < 2 || !AllDigits(key[..|key| - 1]) then None
    else
      match LetterAxis(key[|key| - 1])
      case None => None
      case Some(a) => Some((DigitsValue(key[..|key| - 1]), a))
  }

  /** A storage key reads back as its point and axis. */
  lemma ParseKeyOfKey(i: nat, a: Axis)
    ensures ParseKey(Key(i, a)) == Some((i, a))
  {
    var key := Key(i, a);
    assert key[..|key| - 1] == NatToString(i);
    DigitsValueOfNatToString(i);
  }

  /** The keys of points 0 .. n-1, three per point. */
  ghost function KeySet(n: nat): set<string> {
    set i: nat, a: Axis | i < n :: Key(i, a)
  }

  lemma KeySetStep(n: nat)
    ensures KeySet(n + 1) == KeySet(n) + {Key(n, X), Key(n, Y), Key(n, Z)}
  {
    forall key | key in KeySet(n + 1) ensures key in KeySet(n) + {Key(n, X), Key(n, Y), Key(n, Z)} {
      var i: nat, a: Axis :| i < n + 1 && key == Key(i, a);
      if i < n {
        assert key in KeySet(n);
      }
    }
  }

  /** Keys are pairwise distinct: digits followed by one axis letter. */
  lemma KeyInjective(i: nat, a: Axis, j: nat, b: Axis)
    ensures Key(i, a) == Key(j, b) ==> i == j && a == b
  {
    ParseKeyOfKey(i, a);
    ParseKeyOfKey(j, b);
  }

  /** The dict passed to position_data.update for point i of frame k. */
  function PointEntries(pf: PointFrames, k: nat, i: nat): map<string, Tag>
    requires pf.Valid() && i < |pf.points| && k < |pf.frames|
  {
    var p := pf.GetPosition(i, k);
    map[Key(i, X) := Float(p.x), Key(i, Y) := Float(p.y), Key(i, Z) := Float(p.z)]
  }

  /** position_data after the updates for points 0 .. n-1 of frame k. */
  function FrameRecord(pf: PointFrames, k: nat, n: nat): map<string, Tag>
    requires pf.Valid() && n <= |pf.points| && k < |pf.frames|
  {
    if n == 0 then map[] else FrameRecord(pf, k, n - 1) + PointEntries(pf, k, n - 1)
  }

  /** The keys of a record for n points are exactly the keys of points 0 .. n-1. */
  lemma {:induction false} FrameRecordKeys(pf: PointFrames, k: nat, n: nat)
    requires pf.Valid() && n <= |pf.points| && k < |pf.frames|
    ensures FrameRecord(pf, k, n).Keys == KeySet(n)
  {
    if n > 0 {
      FrameRecordKeys(pf, k, n - 1);
      KeySetStep(n - 1);
    }
  }

  /** Every frame record of pf has the key set of all its points. */
  lemma AllFrameRecordKeys(pf: PointFrames)
    requires pf.Valid()
    ensures forall k :: 0 <= k < |pf.frames| ==>
      FrameRecords(pf)[k].Compound? && FrameRecords(pf)[k].entries.Keys == KeySet(|pf.points|)
  {
    forall k | 0 <= k < |pf.frames|
      ensures FrameRecords(pf)[k].Compound? && FrameRecords(pf)[k].entries.Keys == KeySet(|pf.points|)
    {
      FrameRecordKeys(pf, k, |pf.points|);
    }
  }

  /** The per-frame compounds, in frame order. */
  function FrameRecords(pf: PointFrames): seq<Tag>
    requires pf.Valid()
  {
    seq(|pf.frames|, k requires 0 <= k < |pf.frames| => Compound(FrameRecord(pf, k, |pf.points|)))
  }

  /** {DataVersion: 3700, contents: {data: {frames: frames}}}. */
  function Envelope(frames: seq<Tag>): (t: Tag)
    ensures t.Compound? && t.entries.Keys == {"DataVersion", "contents"}
    ensures t.entries["DataVersion"] == Int(3700)
    ensures FramesOf(t) == Some(frames)
  {
    Compound(map[
      "DataVersion" := Int(3700),
      "contents" := Compound(map["data" := Compound(map["frames" := List(frames)])])
    ])
  }

  /** The frame list at path contents.data.frames, if there is one. */
  function FramesOf(t: Tag): Option<seq<Tag>> {
    if t.Compound? && "contents" in t.entries then
      var contents := t.entries["contents"];
      if contents.Compound? && "data" in contents.entries then
        var data := contents.entries["data"];
        if data.Compound? && "frames" in data.entries && data.entries["frames"].List? then
          Some(data.entries["frames"].items)
        else None
      else None
    else None
  }

  /**
    What create_animation_data returns for pf: the envelope around one
    compound per frame, each keyed by exactly the storage keys of all points.
   */
  function AnimationData(pf: PointFrames): (t: Tag)
    requires pf.Valid()
    ensures t.Compound? && "DataVersion" in t.entries && t.entries["DataVersion"] == Int(3700)
    ensures FramesOf(t).Some? && |FramesOf(t).value| == |pf.frames|
    ensures forall k :: 0 <= k < |pf.frames| ==>
      FramesOf(t).value[k].Compound? && FramesOf(t).value[k].entries.Keys == KeySet(|pf.points|)
  {
    AllFrameRecordKeys(pf);
    Envelope(FrameRecords(pf))
  }

  /** create_animation_data: frames outer, points inner, one update per point. */
  method CreateAnimationData(pf: PointFrames) returns (data: Tag)
    requires pf.Valid()
    ensures data == AnimationData(pf)
  {
    var frames: seq<Tag> := [];
    for frameIndex := 0 to |pf.frames|
      invariant frames == FrameRecords(pf)[..frameIndex]
    {
      var positionData: map<string, Tag> := map[];
      for pointIndex := 0 to |pf.points|
        invariant positionData == FrameRecord(pf, frameIndex, pointIndex)
      {
        var position := pf.GetPosition(pointIndex, frameIndex);
        positionData := positionData + map[
          Key(pointIndex, X) := Float(position.x),
          Key(pointIndex, Y) := Float(position.y),
          Key(pointIndex, Z) := Float(position.z)
        ];
      }
      frames := frames + [Compound(positionData)];
    }
    assert frames == FrameRecords(pf);
    data := Envelope(frames);
  }

  /** The keys of a partial record belong to the points already written. */
  lemma {:induction false} FrameRecordKeyBound(pf: PointFrames, k: nat, n: nat, j: nat, b: Axis)
    requires pf.Valid() && n <= |pf.points| && k < |pf.frames|
    ensures Key(j, b) in FrameRecord(pf, k, n) ==> j < n
  {
    if n > 0 && Key(j, b) in FrameRecord(pf, k, n) {
      if Key(j, b) in FrameRecord(pf, k, n - 1) {
        FrameRecordKeyBound(pf, k, n - 1, j, b);
      } else {
        var c :| Key(j, b) == Key(n - 1, c);
        KeyInjective(j, b, n - 1, c);
      }
    }
  }

  /** The three keys written for one point are distinct. */
  lemma PointEntriesKeys(pf: PointFrames, k: nat, i: nat)
    requires pf.Valid() && i < |pf.points| && k < |pf.frames|
    ensures PointEntries(pf, k, i).Keys == {Key(i, X), Key(i, Y), Key(i, Z)}
    ensures |PointEntries(pf, k, i)| == 3
  {
    KeyInjective(i, X, i, Y);
    KeyInjective(i, X, i, Z);
    KeyInjective(i, Y, i, Z);
  }

  /** A record for n points has exactly 3n keys. */
  lemma {:induction false} FrameRecordSize(pf: PointFrames, k: nat, n: nat)
    requires pf.Valid() && n <= |pf.points| && k < |pf.frames|
    ensures |FrameRecord(pf, k, n)| == 3 * n
  {
    if n > 0 {
      var m := n - 1;
      FrameRecordSize(pf, k, m);
      FrameRecordGrows(pf, k, m);
      assert |FrameRecord(pf, k, m + 1)| == 3 * m + 3;
    }
  }

  /** The updates for one more point add three new keys. */
  lemma FrameRecordGrows(pf: PointFrames, k: nat, m: nat)
    requires pf.Valid() && m < |pf.points| && k < |pf.frames|
    ensures |FrameRecord(pf, k, m + 1)| == |FrameRecord(pf, k, m)| + 3
  {
    PointEntriesKeys(pf, k, m);
    FrameRecordKeyBound(pf, k, m, m, X);
    FrameRecordKeyBound(pf, k, m, m, Y);
    FrameRecordKeyBound(pf, k, m, m, Z);
    AddThreeFreshKeys(FrameRecord(pf, k, m), PointEntries(pf, k, m), Key(m, X), Key(m, Y), Key(m, Z));
  }

  /** Adding three keys that are not there yet grows a map by three. */
  lemma AddThreeFreshKeys(m: map<string, Tag>, entries: map<string, Tag>, k1: string, k2: string, k3: string)
    requires entries.Keys == {k1, k2, k3} && |entries| == 3
    requires k1 !in m && k2 !in m && k3 !in m
    ensures |m + entries| == |m| + 3
  {
    assert (m + entries).Keys == m.Keys + entries.Keys;
    assert m.Keys !! entries.Keys;
  }

  /**
    In a record for n points, key "{i}x" / "{i}y" / "{i}z" of a point i < n
    holds component 0 / 1 / 2 of point i's position in frame k: no later
    update overwrites an earlier point's entries.
   */
  lemma {:induction false} FrameRecordAt(pf: PointFrames, k: nat, n: nat, i: nat, a: Axis)
    requires pf.Valid() && n <= |pf.points| && k < |pf.frames| && i < n
    ensures Key(i, a) in FrameRecord(pf, k, n)
    ensures FrameRecord(pf, k, n)[Key(i, a)] == Float(Component(pf.GetPosition(i, k), a))
  {
    var prev, last := FrameRecord(pf, k, n - 1), PointEntries(pf, k, n - 1);
    assert FrameRecord(pf, k, n) == prev + last;
    if i < n - 1 {
      FrameRecordAt(pf, k, n - 1, i, a);
      PointEntriesOther(pf, k, n - 1, i, a);
    } else {
      PointEntriesAt(pf, k, i, a);
    }
  }

  /** The entries written for point i hold its coordinates under its keys. */
  lemma PointEntriesAt(pf: PointFrames, k: nat, i: nat, a: Axis)
    requires pf.Valid() && i < |pf.points| && k < |pf.frames|
    ensures Key(i, a) in PointEntries(pf, k, i)
    ensures PointEntries(pf, k, i)[Key(i, a)] == Float(Component(pf.GetPosition(i, k), a))
  {
    KeyInjective(i, X, i, Y);
    KeyInjective(i, X, i, Z);
    KeyInjective(i, Y, i, Z);
  }

  /** The entries written for point m hold no key of another point. */
  lemma PointEntriesOther(pf: PointFrames, k: nat, m: nat, i: nat, a: Axis)
    requires pf.Valid() && m < |pf.points| && k < |pf.frames| && i != m
    ensures Key(i, a) !in PointEntries(pf, k, m)
  {
    KeyInjective(i, a, m, X);
    KeyInjective(i, a, m, Y);
    KeyInjective(i, a, m, Z);
  }

  /**
    The result of create_animation_data, whatever the input: DataVersion 3700,
    one frame record per frame in frame order, and record k holding exactly
    the 3N coordinates of frame k.
   */
  lemma AnimationDataShape(pf: PointFrames)
    requires pf.Valid()
    ensures AnimationData(pf).Compound?
    ensures AnimationData(pf).entries["DataVersion"] == Int(3700)
    ensures FramesOf(AnimationData(pf)).Some?
    ensures |FramesOf(AnimationData(pf)).value| == |pf.frames|
    ensures forall k :: 0 <= k < |pf.frames| ==>
      var record := FramesOf(AnimationData(pf)).value[k];
      record.Compound? && |record.entries| == 3 * |pf.points| &&
      forall i, a :: 0 <= i < |pf.points| ==>
        Key(i, a) in record.entries &&
        record.entries[Key(i, a)] == Float(Component(pf.GetPosition(i, k), a))
  {
    forall k | 0 <= k < |pf.frames|
      ensures FrameRecords(pf)[k] == Compound(FrameRecord(pf, k, |pf.points|))
      ensures |FrameRecord(pf, k, |pf.points|)| == 3 * |pf.points|
      ensures forall i, a :: 0 <= i < |pf.points| ==>
        Key(i, a) in FrameRecord(pf, k, |pf.points|) &&
        FrameRecord(pf, k, |pf.points|)[Key(i, a)] == Float(Component(pf.GetPosition(i, k), a))
    {
      FrameRecordSize(pf, k, |pf.points|);
      forall i, a | 0 <= i < |pf.points|
        ensures Key(i, a) in FrameRecord(pf, k, |pf.points|)
        ensures FrameRecord(pf, k, |pf.points|)[Key(i, a)] == Float(Component(pf.GetPosition(i, k), a))
      {
        FrameRecordAt(pf, k, |pf.points|, i, a);
      }
    }
  }
}
