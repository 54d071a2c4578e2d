# SEFTRAFANALYSE viewer core, in Dafny

SEFTRAFANALYSE is a React and three.js viewer for 3D models and point clouds.
This project models the parts of it that decide something:

- **`LoadModel` in `src/App.js`.** It takes the extension from the file name, picks the read mode, and dispatches to one of five branches: obj, glb/gltf, ply, las, or the "Format non supporté" alert. It gives every mesh its own material with the same parameters, either the shared texture or the colour.
- **The LAS decoder in the `las` branch.** It reads the Public Header Block of ASPRS LAS 1.2 at fixed little-endian offsets. It then walks Point Data Record Format 2 records, pushing three positions and three colours per point.
- **`handleFile` and `addPin` in `src/App.js`.** `handleFile` keeps at most ten files. `addPin` is a per-file, append-only store of pins.
- **The measurement tool of `src/AA/Edit.js`.** It holds at most one buffered point. The second accepted click emits one record, with the unit looked up in a six-row table that falls back to metres.
- **The transform gizmo of `src/TransformControlsComponent.jsx`.**
  - The `g`/`r`/`s` keys set the mode and the `x` key toggles snap.
  - The snap increments are derived from the snap flag.
  - Orbiting is switched off while the gizmo is dragged.
- **The loader components `src/components/ModelLoader.js` and `src/components/ModelCard.js`.**
  - Both dispatch on obj/glb/gltf/fbx.
  - The first has a `!file` guard. It alerts on errors thrown by the OBJ and FBX parsers and on errors handed to the glTF error callback, but an error thrown by the glTF `parse` call itself escapes unreported.
  - The second has no guard, no `try` and no glTF error callback, so every parse error escapes.
  - In both, the read mode is chosen by a case-sensitive `endsWith(".obj")` while the branch uses the lower-cased extension.

Modules:

| Module | Contents |
|---|---|
| `Wrappers` | `Option`. |
| `LittleEndian` | `DataView` reads as partial functions over bytes, plus the encoders that invert them. |
| `FileNames` | `split(".").pop().toLowerCase()` and `endsWith`. |
| `Scene` | Scene values and the three.js parsers, as function-valued parameters. Also the `ObjectSlot` class that holds a component's `object` state. |
| `Las` | The header and the record loop: `Decode` is the loop, `Decoded` its specification. |
| `Chunks`, `LasFile` | An encoder for well-formed LAS files and the round trip through the decoder. |
| `App`, `Edit`, `TransformControls`, `ModelLoader`, `ModelCard` | One module per source file. |

Floating-point values stay symbolic. A LAS position is the triple (raw i32, scale bits, offset bits) that the source turns into `raw * scale + offset`. A colour channel is the raw u16 that the source divides by 256 and then by 255.

`DataView` raises a RangeError on a read past the end of the buffer. Such a read aborts the whole `las` branch, and the model gives it as `Unhandled("RangeError")`.

Record offsets are computed as `pointDataOffset + i * pointSize`. That value is at most 2^32 + 2^32 · 2^16, below 2^53, so a JavaScript number computes it exactly and the model's unbounded integers agree with it. The arrays are bounded, however: a JavaScript array holds at most 2^32 - 1 entries, and `push` past that raises a RangeError. So a file whose reads all stay in range still fails when 3 · pointCount exceeds that bound, for example 2^32 - 1 points with a record length of 0.

## Model

| member | source | states |
|---|---|---|
| LittleEndian.U16 | src/App.js:82 | `getUint16(off, true)` needs two bytes in range and gives a value below 2^16 |
| LittleEndian.U32 | src/App.js:80-81 | `getUint32(off, true)` needs four bytes in range and gives a value below 2^32 |
| LittleEndian.I32 | src/App.js:96-98 | `getInt32(off, true)` gives a value in the i32 range, negative exactly when the top bit of the last byte is set |
| LittleEndian.F64Bits | src/App.js:84-89 | `getFloat64(off, true)` needs eight bytes in range; the model keeps the 64 bits it reads |
| LittleEndian.U16Decodes | src/App.js:101-103 | reading a u16 gives back the value that was encoded little-endian |
| LittleEndian.U32Decodes | src/App.js:80-81 | reading a u32 gives back the value that was encoded little-endian |
| LittleEndian.I32Decodes | src/App.js:96-98 | reading an i32 gives back the two's-complement value that was encoded |
| LittleEndian.F64BitsDecode | src/App.js:84-89 | reading 8 bytes gives back the 64-bit pattern that was encoded |
| LittleEndian.U32Encodes | src/App.js:80-81 | encoding what was read gives back the four bytes: u32 reading is injective |
| FileNames.Split | src/App.js:36 | `split(".")` gives at least one piece, none holds the separator, and joining them gives the name back |
| FileNames.SplitJoin | src/App.js:36 | splitting a join of separator-free pieces gives the pieces back |
| FileNames.ToLower | src/App.js:36 | `toLowerCase()` keeps the length and lower-cases each ASCII letter in place |
| FileNames.ToLowerIdempotent | src/App.js:36 | lower-casing twice is lower-casing once |
| FileNames.Extension | src/App.js:36 | the extension holds no dot and no upper-case ASCII letter |
| FileNames.ExtensionAfterLastDot | src/App.js:36 | the extension of `base.ext` is `ext` lower-cased, however many dots `base` holds |
| FileNames.ExtensionOfUndotted | src/App.js:36 | a name with no dot is its own extension, lower-cased |
| FileNames.EndsWith | src/components/ModelLoader.js:48 | `endsWith` holds exactly when the string is something followed by the suffix |
| FileNames.EndsWithConcat | src/components/ModelLoader.js:48 | every string ends with its own tail |
| FileNames.ObjSuffixGivesObjExtension | src/components/ModelLoader.js:17-20 | a name ending in ".obj" has the extension "obj" |
| FileNames.UpperCaseObjName | src/components/ModelLoader.js:48 | "A.OBJ" has the extension "obj" but does not end with ".obj" |
| Las.ReadHeader | src/App.js:80-89 | the header fields read at 96, 105, 107, 131/139/147 and 155/163/171 fit their widths |
| Las.CloudUpTo | src/App.js:94-105 | after n iterations both arrays hold exactly 3n entries |
| Las.Decoded | src/App.js:77-105 | a decoded cloud comes from a complete header with every record in range, and has 3·pointCount positions and as many colours, within the array-length bound |
| Las.Decode | src/App.js:77-113 | the loop returns exactly `Decoded(buf)`: the arrays when every read and push succeeds, None at the first read past the end or push past the array-length bound |
| Las.DecodeSucceedsIff | src/App.js:80-105 | decoding succeeds iff the header is complete, the last record (if any) fits, and 3·pointCount is within the array-length bound, since there is no earlier check |
| Las.DecodedLockStep | src/App.js:91-105 | both arrays hold 3·pointCount entries, and both are empty when pointCount is 0 |
| Las.PointLayout | src/App.js:94-104 | entry 3i+c holds raw X/Y/Z as i32 at base+4c, and R/G/B as u16 at base+20+2c, where base = pointDataOffset + i·pointSize |
| Las.RecordBaseMonotone | src/App.js:95 | a later point's record never starts before an earlier one's |
| Las.SamePoint | src/App.js:94-104 | a point depends only on the bytes from the point-data offset on |
| Las.PointFormatIgnored | src/App.js:80-89 | the point data format byte at offset 104 does not affect the result |
| Las.ChannelRange | src/App.js:101-104 | a channel `raw / 256 / 255` lies in [0, 65535/65280] and exceeds 1 exactly when raw > 65280 |
| Chunks.ChunkAt | src/App.js:95 | in a concatenation of equal-size records, record i sits at i·size |
| LasFile.RecordBytes | src/App.js:94-104 | an encoded point record has exactly the declared record length |
| LasFile.HeaderBytes | src/App.js:80-89 | an encoded header covers exactly the bytes the decoder reads |
| LasFile.HeaderReadsBack | src/App.js:80-89 | reading an encoded header gives back the header |
| LasFile.FieldsReadBack | src/App.js:96-103 | the coordinate and colour fields of an encoded record read back as written |
| LasFile.RecordInFile | src/App.js:95 | record i of an encoded file lies at pointDataOffset + i·pointSize |
| LasFile.TooManyPointsFail | src/App.js:91-105 | with record length 0 and 2^32 - 1 points every read is in range, yet decoding fails on the array-length bound |
| LasFile.RoundTrip | src/App.js:77-105 | decoding an encoded file gives back every point's coordinates and colours, in order |
| App.ReadModeFor | src/App.js:119-123 | the file is read as text exactly when the extension is "obj" |
| App.TextureFor | src/App.js:39-43 | a texture is loaded exactly when the URL is non-empty |
| App.MeshMaterial | src/App.js:51-53 | the textured material when there is a texture, the colour material otherwise |
| App.ApplyMaterial | src/App.js:49-55 | `traverse` gives every mesh the material and leaves the rest of the tree as it was |
| App.OnLoad | src/App.js:45-117 | `onload` alerts exactly when the extension is none of obj, glb, gltf, ply and las |
| App.LoadModel | src/App.js:35-124 | the effect alerts exactly for an unsupported extension, and only a .las file yields a LAS point cloud |
| App.Effect | src/App.js:35-124 | the `object` state becomes the loaded object when one is set, and is unchanged otherwise |
| App.UnsupportedAlerts | src/App.js:46-116 | only obj, glb, gltf, ply and las set an object; any other extension gives the "Format non supporté" alert |
| App.ReadModeAgreesWithBranch | src/App.js:45-123 | the OBJ branch receives text and the other supported branches receive bytes |
| App.MaterialIsUniform | src/App.js:40-66 | every mesh of a loaded tree gets its own material with the same parameters: the shared texture when a URL was given, the colour otherwise |
| App.LasBranch | src/App.js:76-113 | a .las file becomes points with size 0.05 and vertex colours over the decoded cloud, or a RangeError |
| App.LasFileLoads | src/App.js:76-113 | an encoded LAS file loads as a point cloud of exactly its points |
| App.TruncatedLasSetsNothing | src/App.js:80-105 | a LAS file whose header or last record is cut short sets no object |
| App.SelectFiles | src/App.js:289-292 | the first ten files, or all of them when there are fewer, in order |
| App.PinsFor | src/App.js:298 | the file's list when it has one, the empty list otherwise |
| App.PinCount | src/App.js:371 | the displayed count is the length of the file's own list; with none it is the `length` of the `Object.prototype` member of that name, which is 0 for any other name |
| App.ConstructorShowsOne | src/App.js:371 | a file named "constructor" with no pins shows 1, the length of the inherited `Object` |
| App.AddPin | src/App.js:296-301 | the point is appended to that file's list (which is created if absent); other files' lists are unchanged |
| App.PinsInClickOrder | src/App.js:296-301 | pins accumulate in click order; after the first click the displayed count (line 371) is the number of pins, so for any name that is not an inherited member it grows by one per click; other files are untouched |
| Edit.Find | src/AA/Edit.js:30 | `find` returns an index whose row has the key |
| Edit.FindFirst | src/AA/Edit.js:30 | the row found is the first with the key, and nothing is found only when no row has it |
| Edit.UnitIn | src/AA/Edit.js:30 | the unit is a row of the table: the row for the key, or the third row |
| Edit.UnitFor | src/AA/Edit.js:30 | the unit is a row of the component's table: the row for the key, or metres |
| Edit.Units | src/AA/Edit.js:10-17 | the six-row table has no key twice, so a lookup is unambiguous, and its third row is metres, the fallback |
| Edit.UnitTable | src/AA/Edit.js:10-30 | the factors are mm 1000, cm 100, m 1, km 0.001, in 39.3701, ft 3.28084; any other key gets the metres row |
| Edit.RecordedUnit | src/AA/Edit.js:30-38 | the recorded unit is the key when it is in the table, and "m" otherwise |
| Edit.Step | src/AA/Edit.js:20-48 | a click never removes a measurement, keeps the buffer at one point or fewer, and changes nothing unless it is accepted |
| Edit.IgnoredClick | src/AA/Edit.js:21-24 | a click with the stylus off or no object changes neither array |
| Edit.BufferAtMostOne | src/AA/Edit.js:27-47 | the buffer holds at most one point; an accepted click leaves one exactly when the buffer was empty |
| Edit.AppendOnly | src/AA/Edit.js:32-42 | measurements keep their earlier entries and grow by one exactly when an accepted click completes a pair |
| Edit.PairMakesRecord | src/AA/Edit.js:27-47 | two accepted clicks from an empty buffer add one record, from first to second, and leave the buffer empty |
| Edit.ClicksPairInOrder | src/AA/Edit.js:27-47 | accepted clicks pair up in order (0 with 1, 2 with 3, …), and an odd last click waits in the buffer |
| Edit.StyleOf | src/AA/Edit.js:53-76 | a record is drawn dashed exactly when its type is "dashed", in its own colour, at width 2 |
| Edit.MeasureTool.constructor | src/AA/Edit.js:6-7 | both arrays start empty |
| Edit.MeasureTool.HandleClick | src/AA/Edit.js:20-48 | the new `points`/`measurements` are one `Step` of the old ones, and at most one point stays buffered |
| TransformControls.OnKey | src/TransformControlsComponent.jsx:27-32 | snap changes exactly on "x", and the mode changes only on "g", "r" or "s" |
| TransformControls.KeyEffects | src/TransformControlsComponent.jsx:27-32 | g/r/s set the mode and keep snap; x flips snap and keeps the mode; other keys change nothing |
| TransformControls.UpperCaseIgnored | src/TransformControlsComponent.jsx:27-32 | "G", "R", "S" and "X" change nothing |
| TransformControls.RepeatedKeys | src/TransformControlsComponent.jsx:28-31 | pressing x twice restores snap; a mode key pressed twice acts as once |
| TransformControls.PressesSpec | src/TransformControlsComponent.jsx:27-32 | after any key sequence the mode is that of the last mode key, and snap has flipped once per "x" |
| TransformControls.SnapsFor | src/TransformControlsComponent.jsx:47-50 | with snap off all three snaps are null; with snap on they are 0.5, 15° in radians and 0.1 |
| TransformControls.Render | src/TransformControlsComponent.jsx:37-52 | controls exist exactly when there is an object, with the current mode and the derived snaps |
| TransformControls.SnapToggleRestoresControls | src/TransformControlsComponent.jsx:31-50 | two x presses render the same controls again |
| TransformControls.OnDragChange | src/TransformControlsComponent.jsx:15-19 | the orbit controls are enabled exactly when not dragging; without them nothing is written |
| TransformControls.DragEvent | src/TransformControlsComponent.jsx:11-21 | a drag event reaches the orbit controls only while there is an object and mounted controls |
| TransformControls.TransformControlsComponent.constructor | src/TransformControlsComponent.jsx:7-8 | the gizmo starts in translate mode with snap off |
| TransformControls.TransformControlsComponent.HandleKey | src/TransformControlsComponent.jsx:27-32 | the four sequential tests leave mode and snap as `OnKey` of the old state |
| Scene.ObjectSlot.constructor | src/components/ModelLoader.js:9 | a component's `object` state starts as null, as `useState(null)` does here and in `src/components/ModelCard.js` and `src/App.js` |
| Scene.ObjectSlot.Apply | src/components/ModelLoader.js:24-39 | only a `setObject` outcome changes the `object` state |
| ModelLoader.BranchOf | src/components/ModelLoader.js:20-45 | "obj", "glb"/"gltf" and "fbx" each select their own branch, and only they do |
| ModelLoader.ReadModeOf | src/components/ModelLoader.js:48-52 | the file is read as text exactly when the name ends with ".obj" |
| ModelLoader.OnLoad | src/components/ModelLoader.js:16-46 | `onload` never leaves the component unread, sets an object only in a supported branch, and lets an error escape only from the glTF branch |
| ModelLoader.Load | src/components/ModelLoader.js:11-53 | nothing is read exactly when there is no file |
| ModelLoader.Selected | src/components/ModelLoader.js:20-45 | only a supported extension runs a parser, and only the glTF branch has an error callback |
| ModelLoader.OnLoadBySelected | src/components/ModelLoader.js:16-46 | the outcome depends only on the selected parse: its object is set, a caught error (OBJ or FBX throw, glTF error callback) is alerted with the branch's prefix, and an error thrown by the glTF parse escapes |
| ModelLoader.OnlySelectedParserRuns | src/components/ModelLoader.js:20-42 | parsers that agree on the selected branch give the same outcome |
| ModelLoader.NoFileNoRead | src/components/ModelLoader.js:12 | with no file nothing is read |
| ModelLoader.UnsupportedIff | src/components/ModelLoader.js:43-45 | the "Extension non supportée" alert is given exactly when no branch matches |
| ModelLoader.ParseErrorAlerts | src/components/ModelLoader.js:22-41 | a parse error sets nothing: a caught one is alerted with the branch's prefix, one thrown by the glTF parse escapes |
| ModelLoader.GltfThrowEscapes | src/components/ModelLoader.js:28-34 | an error thrown by the glTF `parse` call, outside any `try`, escapes with no alert |
| ModelLoader.SetOnlyByParsedBranch | src/components/ModelLoader.js:20-42 | an object is set only by the selected branch's successful parse, and it is that parse's result |
| ModelLoader.TextModeMeansObjBranch | src/components/ModelLoader.js:17-49 | text mode always goes with the OBJ branch |
| ModelLoader.UpperCaseObjReadAsBytes | src/components/ModelLoader.js:17-52 | "A.OBJ" is handed to the OBJ parser as bytes |
| ModelLoader.Effect | src/components/ModelLoader.js:11-53 | the `object` state changes only when a parse succeeds |
| ModelCard.OnLoad | src/components/ModelCard.js:13-30 | `onload` alerts exactly when no branch matches |
| ModelCard.Load | src/components/ModelCard.js:11-37 | without a file the effect throws; it never does nothing |
| ModelCard.OnLoadBySelected | src/components/ModelCard.js:13-30 | at most one branch runs: its object is set or its error escapes, and an unknown extension alerts |
| ModelCard.UnsupportedIff | src/components/ModelCard.js:27-29 | an alert is given exactly when no branch matches, and it is the unsupported-extension alert |
| ModelCard.SetOnlyByParsedBranch | src/components/ModelCard.js:16-26 | only the selected branch's successful parse sets the object |
| ModelCard.SameObjectAsModelLoader | src/components/ModelCard.js:13-36 | for a present file both components set the same object or none; the card lets escape every parse error the loader alerts, and both let an error thrown by the glTF parse escape |
| ModelCard.MissingFile | src/components/ModelCard.js:14-32 | without a file the card throws on `file.name`, where the loader does nothing |
| ModelCard.Effect | src/components/ModelCard.js:11-37 | the `object` state changes only when a parse succeeds |

## Left out

- Floating-point arithmetic is left symbolic: the f64 decoding of the scales and offsets, `raw * scale + offset`, the colour scaling `/ 256 / 255`, the conversion to Float32, `distanceTo`, `toFixed(2)` and `degToRad(15)`. The model keeps the operands that these would combine.
- Edit.Step: a record stores the unit factor in place of the formatted distance `(distanceTo * factor).toFixed(2)`, which is floating point.
- Edit.MeasureTool.HandleClick: it looks the unit up in the component's own six-row table. Step and the lemmas beside it take the table as a parameter, so that they hold for any table of at least three rows.
- FileNames.ToLower: lower-cases ASCII letters only. The full Unicode case mapping of `toLowerCase` is not modelled.
- `FileReader` asynchrony is not modelled. Each load runs to completion, and a later file cannot overtake an earlier one.
- `alert`, `console.log` and the texture fetch are I/O. An alert is an `Alert` outcome, and a texture is the URL it was loaded from.
- The three.js loaders are parameters. OBJLoader, GLTFLoader, PLYLoader and FBXLoader are each a function that returns a parse result or an error message.
  - `computeVertexNormals` is a flag on the PLY geometry.
  - `traverse` is a recursion over a tree of nodes.
- The glTF parser has two error channels: `parse` may throw, or it may later call the error callback. `App.js` and `ModelCard.js` give no error callback, so an error on that channel reaches nobody. It is modelled as `Unhandled`, the same as an exception thrown in `onload`.
- Rendering is not modelled:
  - the JSX, lights, environment, orbit controls and progress text;
  - the measurement lines and their Html labels;
  - the toolbar, preset textures and fullscreen handling of the `ModelCard` in `src/App.js` (lines 142-279).
- The click handler of `LoadModel` (`onClickPin(file.name, point)`, lines 126-130) is not modelled; `App.AddPin` models the store it feeds.
- `src/Scene.js`, `src/components/Viewer.js` and `src/App.jsx` only wire components together and are not part of this model.
- React's scheduling is not modelled. State updaters are applied one at a time in event order, and effects are not run twice as in strict mode.
- App.Effect: the model describes one run of the effect. In `src/App.js` the effect also lists `material` among its dependencies (line 124), and `material` is a new object on every render of App (line 294). The effect therefore runs again on every App render, including each pin click, dark-mode toggle and colour change. Each run reads and parses every file again, replaces every object, and raises the "Format non supporté" alert again for every unsupported file.
- App.AddPin: a file named after an inherited `Object.prototype` member with a non-zero `length` (such as "constructor") has no own list, so `prev[filename] || []` gives the inherited function and the spread throws. The model appends to an empty list instead. Only a loaded file can be clicked, and every such name has an unsupported extension.
- Las.Decode: memory exhaustion is not modelled. A browser runs out of memory for `positions` and `colors` long before the 2^32 - 1 entry bound of a JavaScript array; only that bound is modelled.
- The decoder has no header bound check and ignores the point format byte. No undo/redo history exists in these files. The model does not add any of these.

