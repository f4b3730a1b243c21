/**
  The command scripts written by create_functions: two fixed macros
  (create, move) and three generated texts (initialize, render,
  render_frame), each a '\n'.join of one templated line per point or frame.
 */
module Scripts {
  import opened Wrappers
  import opened Decimal
  import opened Text
  import opened Palette
  import opened Animation
  import Nbt

  // Names the generated commands share: the display entity type, the data
  // pack's function namespace and the command storage they read.

  const DisplayEntity: string := "minecraft:block_display"

  const FunctionNamespace: string := "block_animator"

  const StorageName: string := "animator_storage"

  /** What a macro line writes for its parameter `name`: $(name). */
  function Ref(name: string): string {
    "$(" + name + ")"
  }

  // Pieces longer than a few dozen characters are written as several
  // literals, split after a comma or a space inside the command text.

  /** First line of the create macro; the holes are $(v) and $(id). */
  const SummonPieces: seq<string> :=
    ["$summon " + DisplayEntity + " ~ ~2 ~ {Tags:[\"",
     "\",\"animation\"]," + "block_state:{Name:\"minecraft:",
     "\"}}"]

  /** The part of a data merge command that both macros share. */
  const MergeTransformation: string := "] run data merge entity @s " + "{transformation:{translation:"

  /** Second line of the create macro; the holes are $(v) and three times $(s). */
  const ScalePieces: seq<string> :=
    ["$execute as @e[type=" + DisplayEntity + ",tag=",
     MergeTransformation + "[0.0f,0.0f,0.0f],scale:[",
     "f,", "f,", "f]}}"]

  /** The move macro; the holes are $(v), $(x), $(y) and $(z). */
  const TranslatePieces: seq<string> :=
    ["$execute as @e[tag=",
     MergeTransformation + "[",
     ",", ",",
     "]}," + "interpolation_duration:2," + "start_interpolation:0}"]

  /** The create macro's summon line: tag $(v), block $(id). */
  const SummonLine: string := Fill(SummonPieces, [Ref("v"), Ref("id")])

  /** The create macro's scale line: tag $(v), scale $(s) on every axis. */
  const ScaleLine: string := Fill(ScalePieces, [Ref("v"), Ref("s"), Ref("s"), Ref("s")])

  /** The create macro: the summon line, then the scale line. */
  const CreateText: string := Join([SummonLine, ScaleLine])

  /** The move macro: one translate line. */
  const MoveText: string := Fill(TranslatePieces, [Ref("v"), Ref("x"), Ref("y"), Ref("z")])

  /** A macro line: one line, starting with `$`, whose holes read back. */
  predicate MacroLine(line: string, pieces: seq<string>, holes: seq<string>)
    requires |pieces| >= 1
  {
    NoNewline(line) && line != "" && line[0] == '$' && Unfill(pieces, line) == Some(holes)
  }

  /** $(name) holds only the name's characters and `$`, `(`, `)`. */
  lemma RefAvoids(name: string, c: char)
    requires c !in name && c != '$' && c != '(' && c != ')'
    ensures c !in Ref(name)
  {
  }

  /** The shared names hold no digit and no newline. */
  lemma NamesPlain()
    ensures Plain(DisplayEntity) && Plain(FunctionNamespace) && Plain(StorageName)
  {
  }

  lemma MergeTransformationPlain()
    ensures NoNewline(MergeTransformation) && MergeTransformation[0] == ']'
  {
    NewlineConcat("] run data merge entity @s ", "{transformation:{translation:");
  }

  lemma SummonPiecesPlain()
    ensures forall k :: 0 <= k < |SummonPieces| ==> NoNewline(SummonPieces[k])
    ensures SummonPieces[0][0] == '$' && SummonPieces[1][0] == '"'
  {
    NamesPlain();
    NewlineConcat("$summon " + DisplayEntity, " ~ ~2 ~ {Tags:[\"");
    NewlineConcat("\",\"animation\"],", "block_state:{Name:\"minecraft:");
  }

  lemma ScalePiecesPlain()
    ensures forall k :: 0 <= k < |ScalePieces| ==> NoNewline(ScalePieces[k])
    ensures ScalePieces[0][0] == '$' && ScalePieces[1][0] == ']'
    ensures ScalePieces[2] == ScalePieces[3] == "f,"
  {
    NamesPlain();
    MergeTransformationPlain();
    NewlineConcat("$execute as @e[type=" + DisplayEntity, ",tag=");
    NewlineConcat(MergeTransformation, "[0.0f,0.0f,0.0f],scale:[");
  }

  lemma TranslatePiecesPlain()
    ensures forall k :: 0 <= k < |TranslatePieces| ==> NoNewline(TranslatePieces[k])
    ensures TranslatePieces[0][0] == '$' && TranslatePieces[1][0] == ']'
    ensures TranslatePieces[2] == TranslatePieces[3] == ","
  {
    MergeTransformationPlain();
    NewlineConcat(MergeTransformation, "[");
    NewlineConcat("]}," + "interpolation_duration:2,", "start_interpolation:0}");
  }

  lemma SummonLineShape()
    ensures MacroLine(SummonLine, SummonPieces, [Ref("v"), Ref("id")])
  {
    var holes := [Ref("v"), Ref("id")];
    SummonPiecesPlain();
    RefAvoids("v", '\n');
    RefAvoids("id", '\n');
    RefAvoids("v", '"');
    assert Separable(SummonPieces, holes);
    FillLine(SummonPieces, holes);
  }

  lemma ScaleLineShape()
    ensures MacroLine(ScaleLine, ScalePieces, [Ref("v"), Ref("s"), Ref("s"), Ref("s")])
  {
    var holes := [Ref("v"), Ref("s"), Ref("s"), Ref("s")];
    ScalePiecesPlain();
    RefAvoids("v", '\n');
    RefAvoids("s", '\n');
    RefAvoids("v", ']');
    RefAvoids("s", 'f');
    assert forall k :: 0 <= k < |holes| ==> NoNewline(holes[k]);
    assert Separable(ScalePieces, holes);
    FillLine(ScalePieces, holes);
  }

  /**
    The create macro has two lines, each starting with `$` so that the game
    substitutes its parameters; the first summons a display of block $(id)
    tagged $(v), the second scales the display tagged $(v) by $(s).
   */
  lemma CreateMacroLines()
    ensures SplitLines(CreateText) == [SummonLine, ScaleLine]
    ensures MacroLine(SplitLines(CreateText)[0], SummonPieces, [Ref("v"), Ref("id")])
    ensures MacroLine(SplitLines(CreateText)[1], ScalePieces, [Ref("v"), Ref("s"), Ref("s"), Ref("s")])
  {
    SummonLineShape();
    ScaleLineShape();
    SplitJoin([SummonLine, ScaleLine]);
  }

  /**
    The move macro is one line, starting with `$`, that moves the display
    tagged $(v) to translation $(x), $(y), $(z).
   */
  lemma MoveMacroLine()
    ensures MacroLine(MoveText, TranslatePieces, [Ref("v"), Ref("x"), Ref("y"), Ref("z")])
  {
    var holes := [Ref("v"), Ref("x"), Ref("y"), Ref("z")];
    TranslatePiecesPlain();
    RefAvoids("v", '\n');
    RefAvoids("x", '\n');
    RefAvoids("y", '\n');
    RefAvoids("z", '\n');
    RefAvoids("v", ']');
    RefAvoids("x", ',');
    RefAvoids("y", ',');
    assert forall k :: 0 <= k < |holes| ==> NoNewline(holes[k]);
    assert Separable(TranslatePieces, holes);
    FillLine(TranslatePieces, holes);
  }

  /** First line of initialize: remove every block display spawned before. */
  const KillLine: string := "kill @e[type=" + DisplayEntity + "]"

  /** Literal pieces of an initialize line; the holes are the tag, the block id and the scale. */
  const CreateCallPieces: seq<string> :=
    ["function " + FunctionNamespace + ":create {v:\"", "\",id:\"", "\",s:", "f}"]

  /** Literal pieces of a render line; the holes are the tag and the three storage keys. */
  const MoveCallPieces: seq<string> :=
    ["$function " + FunctionNamespace + ":move {v:\"", "\",x:$(", ")f,y:$(", ")f,z:$(", ")f}"]

  /** Literal pieces of a render_frame line; both holes are the frame index. */
  const RenderFramePieces: seq<string> :=
    [ScoreMatches, RunRender + WithStorageFrames, "]"]

  const ScoreMatches: string := "execute if score @p Frame matches "

  const RunRender: string := " run function " + FunctionNamespace + ":render"

  const WithStorageFrames: string := " with storage " + StorageName + ":data frames["

  predicate NoDigits(s: string) {
    forall k :: 0 <= k < |s| ==> !IsDigit(s[k])
  }

  /**
    Line i of initialize after the kill line. It is one line exactly when the
    id and the scale hold no newline, and when the id holds no `"` its holes
    read back as the tag "{i}", the id and the scale.
   */
  function CreateLine(i: nat, id: string, scale: string): (line: string)
    ensures NoNewline(line) <==> NoNewline(id) && NoNewline(scale)
    ensures IsPrefix(CreateCallPieces[0], line)
    ensures '"' !in id ==> Unfill(CreateCallPieces, line) == Some([NatToString(i), id, scale])
  {
    CreateCallFill(NatToString(i), id, scale);
    Fill(CreateCallPieces, [NatToString(i), id, scale])
  }

  /** The create call filled with a numeric tag, an id and a scale. */
  lemma CreateCallFill(tag: string, id: string, scale: string)
    requires AllDigits(tag)
    ensures var line := Fill(CreateCallPieces, [tag, id, scale]);
      (NoNewline(line) <==> NoNewline(id) && NoNewline(scale)) &&
      IsPrefix(CreateCallPieces[0], line) &&
      ('"' !in id ==> Unfill(CreateCallPieces, line) == Some([tag, id, scale]))
  {
    var holes := [tag, id, scale];
    CreateCallPiecesPlain();
    DigitsAvoid(tag, '"');
    DigitsAvoid(tag, '\n');
    FillNewlines(CreateCallPieces, holes);
    assert holes[0] == tag && holes[1] == id && holes[2] == scale;
    FillStartsWith(CreateCallPieces, holes);
    if '"' !in id {
      UnfillFill(CreateCallPieces, holes);
    }
  }

  /** Line i of render: one line whose holes read back as "{i}", "{i}x", "{i}y" and "{i}z". */
  function RenderLine(i: nat): (line: string)
    ensures NoNewline(line) && IsPrefix(MoveCallPieces[0], line)
    ensures Unfill(MoveCallPieces, line) == Some([NatToString(i), Key(i, X), Key(i, Y), Key(i, Z)])
  {
    var holes := [NatToString(i), Key(i, X), Key(i, Y), Key(i, Z)];
    MoveCallPiecesPlain();
    DigitsAvoid(NatToString(i), '"');
    KeyAvoids(i, X, ')');
    KeyAvoids(i, Y, ')');
    KeyAvoids(i, X, '\n');
    KeyAvoids(i, Y, '\n');
    KeyAvoids(i, Z, '\n');
    DigitsAvoid(NatToString(i), '\n');
    FillLine(MoveCallPieces, holes);
    Fill(MoveCallPieces, holes)
  }

  /** Line i of render_frame: one line whose two holes both read back as "{i}". */
  function RenderFrameLine(i: nat): (line: string)
    ensures NoNewline(line) && IsPrefix(RenderFramePieces[0], line)
    ensures Unfill(RenderFramePieces, line) == Some([NatToString(i), NatToString(i)])
  {
    var holes := [NatToString(i), NatToString(i)];
    RenderFramePiecesPlain();
    DigitsAvoid(NatToString(i), ' ');
    DigitsAvoid(NatToString(i), '\n');
    FillLine(RenderFramePieces, holes);
    Fill(RenderFramePieces, holes)
  }

  function CreateLines(ids: seq<string>, scale: string): seq<string> {
    seq(|ids|, i requires 0 <= i < |ids| => CreateLine(i, ids[i], scale))
  }

  function RenderLines(n: nat): seq<string> {
    seq(n, i requires 0 <= i => RenderLine(i))
  }

  function RenderFrameLines(f: nat): seq<string> {
    seq(f, i requires 0 <= i => RenderFrameLine(i))
  }

  /**
    The initialize text: it starts with the kill line and a newline, and is
    nothing more exactly when there are no points.
   */
  function InitializeText(ids: seq<string>, scale: string): (t: string)
    ensures IsPrefix(KillLine + "\n", t)
    ensures |ids| == 0 <==> t == KillLine + "\n"
  {
    var lines := CreateLines(ids, scale);
    HeadThenJoin(KillLine + "\n", lines);
    KillLine + "\n" + Join(lines)
  }

  /**
    The render text: empty exactly when there are no points, and a single
    line exactly when there is at most one.
   */
  function RenderText(n: nat): (t: string)
    ensures t == "" <==> n == 0
    ensures NoNewline(t) <==> n <= 1
  {
    Join(RenderLines(n))
  }

  /**
    The render_frame text: empty exactly when there are no frames, and a
    single line exactly when there is at most one.
   */
  function RenderFrameText(f: nat): (t: string)
    ensures t == "" <==> f == 0
    ensures NoNewline(t) <==> f <= 1
  {
    Join(RenderFrameLines(f))
  }

  /** The palette id of every point, in point order, as the initialize generator asks for them. */
  function ResolveIds(points: seq<Point>, blockData: seq<BlockEntry>): (r: Result<seq<string>, PaletteError>)
    ensures r.Failure? <==> |points| > 0 && |blockData| == 0
    ensures r.Success? ==> |r.value| == |points|
    ensures r.Success? ==>
      forall i :: 0 <= i < |points| ==> FindClosestBlock(points[i].color, blockData) == Success(r.value[i])
  {
    if |points| > 0 && |blockData| == 0 then Failure(EmptyPalette)
    else Success(seq(|points|, i requires 0 <= i < |points| => FindClosestBlock(points[i].color, blockData).value))
  }

  /** The functions dictionary of create_functions, by script name. */
  function CreateFunctions(pf: PointFrames, blockData: seq<BlockEntry>, scale: string)
    : (r: Result<map<string, string>, PaletteError>)
    ensures r.Failure? <==> |pf.points| > 0 && |blockData| == 0
    ensures r.Success? ==> r.value.Keys == {"create", "initialize", "move", "render", "render_frame"}
    ensures r.Success? ==> r.value["create"] == CreateText && r.value["move"] == MoveText
    ensures r.Success? ==> r.value["render"] == RenderText(|pf.points|)
    ensures r.Success? ==> r.value["render_frame"] == RenderFrameText(|pf.frames|)
    ensures r.Success? ==>
      ResolveIds(pf.points, blockData).Success? &&
      r.value["initialize"] == InitializeText(ResolveIds(pf.points, blockData).value, scale)
  {
    match ResolveIds(pf.points, blockData)
    case Failure(e) => Failure(e)
    case Success(ids) =>
      Success(Dictionary(CreateText, InitializeText(ids, scale), MoveText,
                         RenderText(|pf.points|), RenderFrameText(|pf.frames|)))
  }

  /** The five scripts under their names. */
  function Dictionary(create: string, initialize: string, move: string, render: string, renderFrame: string)
    : (d: map<string, string>)
    ensures d.Keys == {"create", "initialize", "move", "render", "render_frame"}
    ensures d["create"] == create && d["initialize"] == initialize && d["move"] == move
    ensures d["render"] == render && d["render_frame"] == renderFrame
  {
    map["create" := create, "initialize" := initialize, "move" := move,
        "render" := render, "render_frame" := renderFrame]
  }

  // Facts about the pieces and holes.

  /** No digit and no newline: nothing that could be mistaken for an index or a line break. */
  predicate Plain(s: string) {
    NoDigits(s) && NoNewline(s)
  }

  /** No literal piece of an initialize line holds a digit or a newline. */
  lemma CreateCallPiecesPlain()
    ensures forall k :: 0 <= k < |CreateCallPieces| ==> Plain(CreateCallPieces[k])
  {
    NamesPlain();
    PlainConcat("function " + FunctionNamespace, ":create {v:\"");
  }

  /** No literal piece of a render line holds a digit or a newline. */
  lemma MoveCallPiecesPlain()
    ensures forall k :: 0 <= k < |MoveCallPieces| ==> Plain(MoveCallPieces[k])
  {
    NamesPlain();
    PlainConcat("$function " + FunctionNamespace, ":move {v:\"");
  }

  /** No literal piece of a render_frame line holds a digit or a newline. */
  lemma RenderFramePiecesPlain()
    ensures forall k :: 0 <= k < |RenderFramePieces| ==> Plain(RenderFramePieces[k])
  {
    ScoreMatchesPlain();
    RunRenderPlain();
    WithStorageFramesPlain();
    PlainConcat(RunRender, WithStorageFrames);
  }

  lemma ScoreMatchesPlain()
    ensures Plain(ScoreMatches)
  {
  }

  lemma RunRenderPlain()
    ensures Plain(RunRender)
  {
    NamesPlain();
    PlainConcat(" run function ", FunctionNamespace);
    PlainConcat(" run function " + FunctionNamespace, ":render");
  }

  lemma WithStorageFramesPlain()
    ensures Plain(WithStorageFrames)
  {
    NamesPlain();
    PlainConcat(" with storage ", StorageName);
    PlainConcat(" with storage " + StorageName, ":data frames[");
  }

  lemma PlainConcat(a: string, b: string)
    requires Plain(a) && Plain(b)
    ensures Plain(a + b)
  {
  }

  lemma NewlineConcat(a: string, b: string)
    requires NoNewline(a) && NoNewline(b)
    ensures NoNewline(a + b)
  {
  }

  lemma DigitsAvoid(s: string, c: char)
    requires AllDigits(s) && !IsDigit(c)
    ensures c !in s
  {
    assert forall k :: 0 <= k < |s| ==> s[k] != c;
  }

  lemma KeyAvoids(i: nat, a: Axis, c: char)
    requires !IsDigit(c) && c != AxisLetter(a)
    ensures c !in Key(i, a)
  {
    DigitsAvoid(NatToString(i), c);
  }

  // render_frame.

  /**
    render_frame has exactly one line per frame (none when there are no
    frames), and line i is the template filled with "{i}" and "{i}": it is
    guarded by `matches {i}` and renders `frames[{i}]`, and the literal
    pieces around them hold no other digits.
   */
  lemma RenderFrameTextLines(f: nat)
    ensures f == 0 ==> RenderFrameText(f) == ""
    ensures f > 0 ==> |SplitLines(RenderFrameText(f))| == f
    ensures f > 0 ==> forall i :: 0 <= i < f ==>
      Unfill(RenderFramePieces, SplitLines(RenderFrameText(f))[i]) == Some([NatToString(i), NatToString(i)]) &&
      SplitLines(RenderFrameText(f))[i] == Fill(RenderFramePieces, [NatToString(i), NatToString(i)])
  {
    var lines := RenderFrameLines(f);
    if f > 0 {
      SplitJoin(lines);
    }
  }

  // render.

  /**
    render has exactly one line per point, and line i is exactly the move
    call for tag "{i}" that reads the storage keys "{i}x", "{i}y" and "{i}z".
   */
  lemma RenderTextLines(n: nat)
    ensures n == 0 ==> RenderText(n) == ""
    ensures n > 0 ==> |SplitLines(RenderText(n))| == n
    ensures n > 0 ==> forall i :: 0 <= i < n ==>
      Unfill(MoveCallPieces, SplitLines(RenderText(n))[i]) == Some([NatToString(i), Key(i, X), Key(i, Y), Key(i, Z)]) &&
      SplitLines(RenderText(n))[i] == Fill(MoveCallPieces, [NatToString(i), Key(i, X), Key(i, Y), Key(i, Z)])
  {
    var lines := RenderLines(n);
    if n > 0 {
      SplitJoin(lines);
    }
  }

  // initialize.

  /**
    initialize is the kill line followed by exactly one create line per
    point, and line i + 1 is create line i for the id of point i; it reads
    back as tag "{i}", that id and the scale whenever the id holds no `"`.
    With no points the text is the kill line and a trailing newline.
   */
  lemma InitializeTextLines(ids: seq<string>, scale: string)
    requires forall k :: 0 <= k < |ids| ==> NoNewline(ids[k])
    requires NoNewline(scale)
    ensures |ids| == 0 ==> InitializeText(ids, scale) == KillLine + "\n"
    ensures |ids| > 0 ==> |SplitLines(InitializeText(ids, scale))| == |ids| + 1
    ensures |ids| > 0 ==> SplitLines(InitializeText(ids, scale))[0] == KillLine
    ensures |ids| > 0 ==> forall i :: 0 <= i < |ids| ==>
      SplitLines(InitializeText(ids, scale))[i + 1] == CreateLine(i, ids[i], scale)
    ensures |ids| > 0 ==> forall i :: 0 <= i < |ids| && '"' !in ids[i] ==>
      Unfill(CreateCallPieces, SplitLines(InitializeText(ids, scale))[i + 1]) == Some([NatToString(i), ids[i], scale])
  {
    var lines := CreateLines(ids, scale);
    if |ids| > 0 {
      CreateLinesRead(ids, scale);
      InitializeSplit(ids, scale);
      var all := SplitLines(InitializeText(ids, scale));
      forall i | 0 <= i < |ids|
        ensures all[i + 1] == CreateLine(i, ids[i], scale)
      {
        assert all[i + 1] == lines[i];
      }
    }
  }

  /** With at least one point, initialize splits into the kill line and the create lines. */
  lemma InitializeSplit(ids: seq<string>, scale: string)
    requires forall k :: 0 <= k < |ids| ==> NoNewline(CreateLines(ids, scale)[k])
    requires |ids| > 0
    ensures SplitLines(InitializeText(ids, scale)) == [KillLine] + CreateLines(ids, scale)
  {
    KillLinePlain();
    HeadSplit(KillLine, CreateLines(ids, scale));
  }

  /** Each create line is newline-free and, when its id holds no `"`, reads back as its holes. */
  lemma CreateLinesRead(ids: seq<string>, scale: string)
    requires forall k :: 0 <= k < |ids| ==> NoNewline(ids[k])
    requires NoNewline(scale)
    ensures forall k :: 0 <= k < |ids| ==> NoNewline(CreateLines(ids, scale)[k])
    ensures forall i :: 0 <= i < |ids| && '"' !in ids[i] ==>
      Unfill(CreateCallPieces, CreateLines(ids, scale)[i]) == Some([NatToString(i), ids[i], scale])
  {
    var lines := CreateLines(ids, scale);
    forall i | 0 <= i < |ids|
      ensures NoNewline(lines[i])
      ensures '"' !in ids[i] ==> Unfill(CreateCallPieces, lines[i]) == Some([NatToString(i), ids[i], scale])
    {
      assert lines[i] == CreateLine(i, ids[i], scale);
    }
  }

  lemma KillLinePlain()
    ensures NoNewline(KillLine)
  {
    NamesPlain();
    NewlineConcat("kill @e[type=", DisplayEntity);
    NewlineConcat("kill @e[type=" + DisplayEntity, "]");
  }

  // The dictionary as a whole.

  /** Resolved ids are ids of the palette, so they share its freedom from newlines. */
  lemma ResolvedIdsPlain(points: seq<Point>, blockData: seq<BlockEntry>)
    requires forall k :: 0 <= k < |blockData| ==> NoNewline(blockData[k].id)
    requires |blockData| > 0
    ensures forall k :: 0 <= k < |points| ==> NoNewline(ResolveIds(points, blockData).value[k])
  {
    var ids := ResolveIds(points, blockData).value;
    forall k | 0 <= k < |points| ensures NoNewline(ids[k]) {
      var r := FindClosestBlock(points[k].color, blockData);
      var j :| IsNearest(Colors(blockData), points[k].color, j) && blockData[j].id == r.value;
    }
  }

  /**
    Each create line of initialize names the block nearest to its point's
    colour: line i + 1 is create line i for the id of a palette entry whose
    colour is at least as near to point i's colour as every other palette
    colour, and when that id holds no `"` the line reads back as "{i}", the
    id and the scale.
   */
  lemma InitializeUsesNearestBlocks(pf: PointFrames, blockData: seq<BlockEntry>, scale: string, i: nat)
    requires forall k :: 0 <= k < |blockData| ==> NoNewline(blockData[k].id)
    requires NoNewline(scale)
    requires i < |pf.points| && |blockData| > 0
    ensures CreateFunctions(pf, blockData, scale).Success?
    ensures var text := CreateFunctions(pf, blockData, scale).value["initialize"];
      |SplitLines(text)| == |pf.points| + 1 &&
      exists k :: 0 <= k < |blockData| && IsNearest(Colors(blockData), pf.points[i].color, k) &&
        SplitLines(text)[i + 1] == CreateLine(i, blockData[k].id, scale) &&
        ('"' !in blockData[k].id ==>
           Unfill(CreateCallPieces, SplitLines(text)[i + 1]) == Some([NatToString(i), blockData[k].id, scale]))
  {
    var ids := ResolveIds(pf.points, blockData).value;
    ResolvedIdsPlain(pf.points, blockData);
    InitializeTextLines(ids, scale);
    var text := CreateFunctions(pf, blockData, scale).value["initialize"];
    var r := FindClosestBlock(pf.points[i].color, blockData);
    assert r == Success(ids[i]);
    var k :| 0 <= k < |blockData| && IsNearest(Colors(blockData), pf.points[i].color, k) && blockData[k].id == ids[i];
    assert SplitLines(text)[i + 1] == CreateLine(i, blockData[k].id, scale);
  }

  /**
    The render line for point i reads keys "{i}x", "{i}y", "{i}z", and every
    frame record of the animation data holds each of them; the render_frame
    line for frame k selects frames[{k}], which exists.
   */
  lemma ScriptsReadStoredData(pf: PointFrames, k: nat, i: nat)
    requires pf.Valid() && k < |pf.frames| && i < |pf.points|
    ensures var frames := FramesOf(AnimationData(pf));
      var renderLines := SplitLines(RenderText(|pf.points|));
      var frameLines := SplitLines(RenderFrameText(|pf.frames|));
      frames.Some? && k < |frames.value| && frames.value[k].Compound? &&
      i < |renderLines| && k < |frameLines| &&
      var moveHoles := Unfill(MoveCallPieces, renderLines[i]);
      var frameHoles := Unfill(RenderFramePieces, frameLines[k]);
      moveHoles.Some? && |moveHoles.value| == 4 &&
      (forall h :: h in moveHoles.value[1..] ==> h in frames.value[k].entries) &&
      frameHoles.Some? && |frameHoles.value| == 2 &&
      AllDigits(frameHoles.value[1]) && DigitsValue(frameHoles.value[1]) == k
  {
    var records := FrameRecords(pf);
    assert FramesOf(AnimationData(pf)) == Some(records);
    assert records[k] == Nbt.Compound(FrameRecord(pf, k, |pf.points|));
    FrameRecordAt(pf, k, |pf.points|, i, X);
    FrameRecordAt(pf, k, |pf.points|, i, Y);
    FrameRecordAt(pf, k, |pf.points|, i, Z);
    RenderTextLines(|pf.points|);
    RenderFrameTextLines(|pf.frames|);
    DigitsValueOfNatToString(k);
    var moveHoles := [NatToString(i), Key(i, X), Key(i, Y), Key(i, Z)];
    assert moveHoles[1..] == [Key(i, X), Key(i, Y), Key(i, Z)];
  }

  /**
    Only render_frame depends on the frames: two point clouds with the same
    points give the same scripts except render_frame.
   */
  lemma OnlyRenderFrameDependsOnFrames(pf1: PointFrames, pf2: PointFrames, blockData: seq<BlockEntry>, scale: string)
    requires pf1.points == pf2.points
    ensures CreateFunctions(pf1, blockData, scale).Success? <==> CreateFunctions(pf2, blockData, scale).Success?
    ensures CreateFunctions(pf1, blockData, scale).Success? ==>
      forall name :: name in CreateFunctions(pf1, blockData, scale).value && name != "render_frame" ==>
        CreateFunctions(pf1, blockData, scale).value[name] == CreateFunctions(pf2, blockData, scale).value[name]
  {
  }
}
