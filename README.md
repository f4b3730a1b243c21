# minecraft3cpf converter core, modelled in Dafny

The converter turns a point-cloud animation into two things. The first is a
command-storage table: for every frame, a compound that maps the flat keys
`"{i}x"`, `"{i}y"` and `"{i}z"` to point `i`'s coordinates. The second is a
set of command scripts. The `render_frame` script picks the current frame's
slice of the table. `render` moves each spawned block display to its stored
coordinates. `initialize` removes the old displays and spawns one per point,
with the palette block nearest to that point's colour.

This project models the three pieces of `minecraft_3cpf_converter.py` that
compute something:

- `palette.dfy` (module `Palette`) covers nearest-colour matching
  (`find_closest_block` and the `colors` array built in `load_block_data`).
  The spatial tree is replaced by what its query promises: an index of a
  palette colour at minimal squared Euclidean distance.
- `animation.dfy` (module `Animation`) covers `create_animation_data`. It is
  an imperative method with the source's two nested loops. It grows a frame
  list and merges three entries per point into a dictionary, and it is proved
  equal to the pure function `AnimationData`. The lemmas about that function give the
  number of records, the exact key set of each record, distinct keys and which cell each
  value comes from.
- `scripts.dfy` (module `Scripts`) covers the `functions` dictionary of
  `create_functions`. The `initialize`, `render` and `render_frame` texts are
  `'\n'.join`s of templated lines. The model splits them back into lines and
  reads the holes back out of each line.

Supporting modules:

- `decimal.dfy`: `f'{i}'` for a natural number, with its parse-back.
- `text.dfy`: `'\n'.join` and `str.split('\n')`; template fill and unfill.
- `nbt.dfy`: the `Compound`/`List`/`Int`/`Float` tag tree.
- `wrappers.dfy`: `Option` and `Result`.

Coordinates are an opaque type (`Nbt.Coord`). The block scale is an opaque
string token: the text Python's `str` gives for the float.

Decisions the code makes that the model keeps:

- Ties between equidistant palette colours: the code takes whatever the
  KD-tree query returns, and that query promises a nearest entry and no
  tie-break. So no contract fixes which equidistant entry wins;
  `Palette.UniqueNearest` pins the answer only when the nearest entry is
  unique.
- The code builds the tag tree in one pass from the point cloud, hands it to
  `nbtlib` and never reads it back, so there is no round trip to state. There
  is no frame table with set/get operations and no table-level error.
- An empty palette: the only failure the model represents is
  `EmptyPalette`, raised by a nearest-colour query. `create_functions`
  queries once per point, so it fails only when there is at least one point.

## Model

| member | source | states |
|---|---|---|
| `Palette.Colors` | minecraft_3cpf_converter.py:13 | the colour array has one entry per palette record, in palette order, so a tree index is a palette index |
| `Palette.SqDist` | minecraft_3cpf_converter.py:14 | squared Euclidean distance between two colours is zero exactly when they are equal |
| `Palette.NearestIndex` | minecraft_3cpf_converter.py:19 | the query returns a valid index whose colour is at least as near to the query colour as every palette colour |
| `Palette.FindClosestBlock` | minecraft_3cpf_converter.py:18-20 | fails exactly on an empty palette; otherwise returns the id of some palette entry at minimal distance, with no tie-break promised |
| `Palette.UniqueNearest` | minecraft_3cpf_converter.py:18-20 | when one entry is strictly nearer than all others, its id is the result |
| `Palette.ExactMatch` | minecraft_3cpf_converter.py:18-20 | a colour present in the palette maps to an entry of exactly that colour |
| `Palette.GreyMapsToSnow` | minecraft_3cpf_converter.py:18-20 | with stone (128,128,128) and snow (255,255,255), colour (200,200,200) maps to snow |
| `Decimal.NatToString` | minecraft_3cpf_converter.py:43-45 | `f'{i}'` is a non-empty string of decimal digits with no leading zero |
| `Decimal.DigitsValueOfNatToString` | minecraft_3cpf_converter.py:43-45 | reading the rendered index back as a decimal number gives the index |
| `Decimal.NatToStringInjective` | minecraft_3cpf_converter.py:43-45 | distinct indices render to distinct strings |
| `Animation.ParseKeyOfKey` | minecraft_3cpf_converter.py:43-45 | the key `"{i}x"` (or y, z) parses back to point i and its axis |
| `Animation.KeyInjective` | minecraft_3cpf_converter.py:42-46 | two storage keys are equal only for the same point and axis |
| `Animation.Envelope` | minecraft_3cpf_converter.py:49-54 | the result has exactly the keys DataVersion and contents, DataVersion is Int 3700, and contents.data.frames is the given frame list |
| `Animation.CreateAnimationData` | minecraft_3cpf_converter.py:36-54 | the nested loops build exactly the specified tree: the envelope around one record per frame, where record k holds every point's entries for frame k |
| `Animation.PointEntriesKeys` | minecraft_3cpf_converter.py:42-46 | each update writes three distinct keys, `"{i}x"`, `"{i}y"`, `"{i}z"` |
| `Animation.PointEntriesAt` | minecraft_3cpf_converter.py:41-45 | each update stores component 0/1/2 of `get_position(i, k)` under the x/y/z key |
| `Animation.PointEntriesOther` | minecraft_3cpf_converter.py:42-46 | the update for point m writes no key of any other point |
| `Animation.FrameRecordKeyBound` | minecraft_3cpf_converter.py:40-46 | after the updates for points 0..n-1, every key present belongs to a point below n |
| `Animation.FrameRecordGrows` | minecraft_3cpf_converter.py:42-46 | each point's update adds three new keys and overwrites none |
| `Animation.FrameRecordSize` | minecraft_3cpf_converter.py:39-46 | a frame record for N points has exactly 3N keys |
| `Animation.FrameRecordAt` | minecraft_3cpf_converter.py:41-45 | in record k, the key `"{i}x"`/`"{i}y"`/`"{i}z"` is present and holds component 0/1/2 of point i's position in frame k |
| `Animation.FrameRecordKeys` | minecraft_3cpf_converter.py:39-46 | the record built for frame k by the updates for points 0..n-1 has exactly the keys `"{i}x"`, `"{i}y"`, `"{i}z"` for i below n, and no other key |
| `Animation.AnimationData` | minecraft_3cpf_converter.py:36-54 | the returned tree is a compound with DataVersion Int 3700 whose contents.data.frames list has one entry per frame, and entry k is a compound whose keys are exactly the storage keys of all points |
| `Animation.AnimationDataShape` | minecraft_3cpf_converter.py:37-54 | for any input: DataVersion 3700, exactly one record per frame in frame order, and record k has exactly 3N keys, each holding the coordinate from its (point, frame) cell |
| `Text.SplitJoin` | minecraft_3cpf_converter.py:65 | splitting a `'\n'.join` of newline-free lines on newlines gives the lines back |
| `Text.UnfillFill` | minecraft_3cpf_converter.py:65 | a templated line's holes can be read back from the text when no hole holds the character that opens the next literal piece |
| `Text.Join` | minecraft_3cpf_converter.py:63 | `'\n'.join`: empty for no lines, starts with the first line and ends with the last, and holds a newline once there are two lines or more |
| `Text.FillUnfill` | minecraft_3cpf_converter.py:65 | whatever is read back from a line is exact: one hole per gap, and filling the template with those holes gives the line again |
| `Text.FillLine` | minecraft_3cpf_converter.py:65 | a template filled from newline-free pieces and separable holes is one line, starts with its first literal piece and reads back as exactly those holes |
| `Text.HeadThenJoin` | minecraft_3cpf_converter.py:63 | a fixed head in front of a join of non-empty lines starts with the head, is the head alone exactly when there are no lines, and ends with the last line |
| `Text.HeadSplit` | minecraft_3cpf_converter.py:63 | the kill line, a newline and the joined create lines split back into the head followed by exactly those lines |
| `Scripts.CreateMacroLines` | minecraft_3cpf_converter.py:62 | the create macro is exactly two lines, each starting with `$`: the first summons a block display tagged `$(v)` showing block `$(id)`, the second scales the display tagged `$(v)` by `$(s)` on every axis, and each reads back as exactly those parameters |
| `Scripts.MoveMacroLine` | minecraft_3cpf_converter.py:64 | the move macro is one line starting with `$` that moves the display tagged `$(v)` to translation `$(x)`, `$(y)`, `$(z)`, and it reads back as exactly those parameters |
| `Scripts.CreateLine` | minecraft_3cpf_converter.py:63 | create line i is one line exactly when the id and the scale are; it starts with the `function block_animator:create` call, and when the id has no `"` its holes read back as tag `"{i}"`, the id and the scale |
| `Scripts.InitializeText` | minecraft_3cpf_converter.py:63 | the initialize text starts with the kill line and a newline, and is nothing more exactly when there are no points |
| `Scripts.RenderLine` | minecraft_3cpf_converter.py:65 | render line i is one line starting with the `$function block_animator:move` call whose holes read back as tag `"{i}"` and the storage keys `"{i}x"`, `"{i}y"`, `"{i}z"` |
| `Scripts.RenderText` | minecraft_3cpf_converter.py:65 | the render text is empty exactly when there are no points, and is a single line exactly when there is at most one |
| `Scripts.RenderFrameLine` | minecraft_3cpf_converter.py:66 | render_frame line i is one line starting with `execute if score @p Frame matches` whose two holes both read back as `"{i}"` |
| `Scripts.RenderFrameText` | minecraft_3cpf_converter.py:66 | the render_frame text is empty exactly when there are no frames, and is a single line exactly when there is at most one |
| `Scripts.ResolveIds` | minecraft_3cpf_converter.py:63 | the palette ids of all points, in point order, each one the nearest-colour query for that point; fails exactly when there are points and the palette is empty |
| `Scripts.CreateFunctions` | minecraft_3cpf_converter.py:60-67 | fails exactly when there are points and the palette is empty; otherwise produces exactly the five scripts create, initialize, move, render and render_frame, each entry being the create macro, the initialize text for the resolved ids, the move macro, the render text for N points and the render_frame text for F frames |
| `Scripts.CreateCallPiecesPlain` | minecraft_3cpf_converter.py:63 | the literal text of a create line holds no digit and no newline |
| `Scripts.MoveCallPiecesPlain` | minecraft_3cpf_converter.py:65 | the literal text of a render line holds no digit and no newline |
| `Scripts.RenderFramePiecesPlain` | minecraft_3cpf_converter.py:66 | the literal text of a render_frame line holds no digit and no newline |
| `Scripts.RenderFrameTextLines` | minecraft_3cpf_converter.py:66 | render_frame has exactly F lines (empty text when F is 0), and line i is exactly the template filled with `"{i}"` and `"{i}"`: guarded by `matches {i}`, selecting `frames[{i}]` |
| `Scripts.RenderTextLines` | minecraft_3cpf_converter.py:65 | render has exactly N lines (empty text when N is 0), and line i is exactly the move call for tag `"{i}"` reading `$({i}x)`, `$({i}y)`, `$({i}z)` |
| `Scripts.InitializeTextLines` | minecraft_3cpf_converter.py:63 | for newline-free ids and scale: initialize is the kill line followed by exactly N lines, line i+1 is exactly create line i for point i's id, and it reads back as `"{i}"`, the id and the scale whenever the id holds no `"`; with no points it is the kill line and a trailing newline |
| `Scripts.InitializeUsesNearestBlocks` | minecraft_3cpf_converter.py:63 | for a palette of newline-free ids and a newline-free scale: initialize has N+1 lines, and line i+1 is exactly the create line tagged `"{i}"` with the given scale for the id of a palette entry whose colour is nearest to point i's colour; when that id holds no `"` the line reads back as exactly those holes |
| `Scripts.ScriptsReadStoredData` | minecraft_3cpf_converter.py:65-66 | the keys render line i reads are present in every frame record of the animation data, and render_frame line k selects `frames[k]`, which exists |
| `Scripts.OnlyRenderFrameDependsOnFrames` | minecraft_3cpf_converter.py:61-67 | two point clouds with the same points give the same scripts except for render_frame |

## Left out

- `cli.py` as a whole is not part of this model. That covers argument parsing, console output, the `cpf3d` loader and its rotation, scale and offset transforms, which are floating-point geometry in an external library.
- File and disk I/O is not modelled: reading the palette JSON (minecraft_3cpf_converter.py:9-10), `create_directories`, `create_metadata`, `write_nbt_data` and the loop that writes the script files (minecraft_3cpf_converter.py:69-71). None of these compute anything beyond what is modelled.
- The KD-tree's construction and search order are not modelled. The query is specified by its result, so the model does not say which of several equidistant palette entries is chosen.
- Floating point is not modelled. Coordinates are an opaque type, `Float(...)` is only a tag, and the block scale is the string Python prints for it.
- The NBT binary encoding and gzip compression are not modelled. They belong to `nbtlib`; the model stops at the tag tree.
- Whether an empty palette already fails when the KD-tree is built is not modelled. The model reports it at the first query.
- `Animation.PointFrames.GetPosition` requires that every frame holds a position for every point. That is what the point-cloud loader provides.
- `Scripts.InitializeTextLines`: the line count and the exact lines are stated only for ids and a scale without newlines, because a newline inside them would split a create line in two. The read-back of a line's holes is stated only for ids without `"`, because such an id makes the create line ambiguous.
- `Scripts.InitializeUsesNearestBlocks`: stated only for palettes whose ids hold no newline and a scale without newlines, for the same reason. The read-back of the id from the line is stated only when the chosen id holds no `"`.
- `Scripts.CreateLine`: reads its holes back only when the id holds no `"`. The function itself accepts any id and scale.
