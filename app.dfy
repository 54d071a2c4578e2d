/**
 * `src/App.js`: the `LoadModel` effect (extension, read mode, texture,
 * dispatch on the extension, material choice, LAS decoding), the
 * ten-file cap of `handleFile`, and the per-file pin store `addPin`.
 */
module App {
  import opened Wrappers
  import opened FileNames
  import opened Scene
  import Las
  import LasFile

  /** The extensions `LoadModel` has a branch for. */
  const Supported: set<string> := {"obj", "glb", "gltf", "ply", "las"}

  /** `["obj"].includes(ext) ? readAsText : readAsArrayBuffer`. */
  function ReadModeFor(ext: string): (m: ReadMode)
    ensures m == AsText <==> ext == "obj"
  {
    if ext in ["obj"] then AsText else AsArrayBuffer
  }

  /** `if (textureURL) texture = loader.load(textureURL)`: only a non-empty URL is truthy. */
  function TextureFor(textureURL: string): (t: Option<Texture>)
    ensures t.Some? <==> textureURL != ""
  {
    if textureURL != "" then Some(Texture(textureURL)) else None
  }

  /** The material every mesh receives: textured when a texture exists, plain colour otherwise. */
  function MeshMaterial(texture: Option<Texture>, color: Color): (m: Material)
    ensures m.StandardMap? <==> texture.Some?
    ensures texture.Some? ==> m == StandardMap(texture.value)
    ensures texture.None? ==> m == StandardColor(color)
  {
    match texture
    case Some(t) => StandardMap(t)
    case None => StandardColor(color)
  }

  /** Every mesh in the tree carries `m`. */
  predicate EveryMeshHas(n: Node, m: Material)
  {
    && (n.isMesh ==> n.material == m)
    && forall i :: 0 <= i < |n.children| ==> EveryMeshHas(n.children[i], m)
  }

  /** `r` is `n` with only mesh materials possibly changed: same nodes, same kinds, same other materials. */
  predicate SameTree(n: Node, r: Node)
  {
    && n.isMesh == r.isMesh
    && (!n.isMesh ==> n.material == r.material)
    && |n.children| == |r.children|
    && forall i :: 0 <= i < |n.children| ==> SameTree(n.children[i], r.children[i])
  }

  /** `result.traverse(child => { if (child instanceof Mesh) child.material = m })`. */
  function ApplyMaterial(n: Node, m: Material): (r: Node)
    ensures EveryMeshHas(r, m)
    ensures SameTree(n, r)
    decreases n
  {
    var children := seq(|n.children|, i requires 0 <= i < |n.children| => ApplyMaterial(n.children[i], m));
    Node(n.isMesh, if n.isMesh then m else n.material, children)
  }

  /** `reader.onload`: one branch per extension, else the "Format non supporté" alert. */
  function OnLoad(ext: string, payload: Payload, texture: Option<Texture>, color: Color, parsers: Parsers): (r: Outcome)
    ensures r.Alert? <==> ext !in Supported
    ensures !r.NoRead?
  {
    if ext == "obj" then
      match parsers.obj(payload)
      case Parsed(root) => SetObject(Group(ApplyMaterial(root, MeshMaterial(texture, color))))
      case ParseError(msg) => Unhandled(msg)
    else if ext == "glb" || ext == "gltf" then
      match parsers.gltf(payload)
      case Parsed(GltfLoaded(scene)) => SetObject(Group(ApplyMaterial(scene, MeshMaterial(texture, color))))
      case Parsed(GltfFailed(msg)) => Unhandled(msg)  // parse() is given no error callback
      case ParseError(msg) => Unhandled(msg)
    else if ext == "ply" then
      match parsers.ply(payload)
      case Parsed(geometry) => SetObject(Points(PlyGeometry(geometry, true), PointsMaterial(0.01, Some(color), false)))
      case ParseError(msg) => Unhandled(msg)
    else if ext == "las" then
      match Las.Decoded(payload.bytes)
      case Some(cloud) => SetObject(Points(LasGeometry(cloud), PointsMaterial(0.05, None, true)))
      case None => Unhandled("RangeError")  // a DataView read past the end of the buffer
    else
      Alert("Format non supporté : " + ext)
  }

  /** The `LoadModel` effect for one file: extension, texture, read mode, then `onload` on what was read. */
  function LoadModel(file: File, textureURL: string, color: Color, parsers: Parsers): (r: Outcome)
    ensures r.Alert? <==> Extension(file.name) !in Supported
    ensures r.SetObject? && r.model.Points? && r.model.geometry.LasGeometry? ==> Extension(file.name) == "las"
  {
    var ext := Extension(file.name);
    OnLoad(ext, Payload(ReadModeFor(ext), file.bytes), TextureFor(textureURL), color, parsers)
  }

  /** The component's `object` state after the effect has run for `file`. */
  method Effect(slot: ObjectSlot, file: File, textureURL: string, color: Color, parsers: Parsers)
    modifies slot
    ensures LoadModel(file, textureURL, color, parsers).SetObject? ==> slot.model == Some(LoadModel(file, textureURL, color, parsers).model)
    ensures !LoadModel(file, textureURL, color, parsers).SetObject? ==> slot.model == old(slot.model)
  {
    slot.Apply(LoadModel(file, textureURL, color, parsers));
  }

  /** Only the five known extensions can set an object; every other one alerts and sets nothing. */
  lemma UnsupportedAlerts(file: File, textureURL: string, color: Color, parsers: Parsers)
    ensures var ext := Extension(file.name);
      ext !in Supported <==> LoadModel(file, textureURL, color, parsers) == Alert("Format non supporté : " + ext)
    ensures LoadModel(file, textureURL, color, parsers).SetObject? ==> Extension(file.name) in Supported
  {
  }

  /** The OBJ parser is given text and every other parser bytes, and the choice agrees with the branch taken. */
  lemma ReadModeAgreesWithBranch(file: File, textureURL: string, color: Color, parsers: Parsers)
    ensures var ext := Extension(file.name);
      var payload := Payload(ReadModeFor(ext), file.bytes);
      && (ext == "obj" ==> payload.mode == AsText)
      && (ext in Supported - {"obj"} ==> payload.mode == AsArrayBuffer)
  {
  }

  /** Every mesh of a loaded tree gets a material with the same parameters: the texture when a URL was given, the colour otherwise. */
  lemma MaterialIsUniform(file: File, textureURL: string, color: Color, parsers: Parsers)
    requires LoadModel(file, textureURL, color, parsers).SetObject?
    requires LoadModel(file, textureURL, color, parsers).model.Group?
    ensures var root := LoadModel(file, textureURL, color, parsers).model.root;
      && (textureURL != "" ==> EveryMeshHas(root, StandardMap(Texture(textureURL))))
      && (textureURL == "" ==> EveryMeshHas(root, StandardColor(color)))
  {
  }

  /** A LAS file built from a header and records loads as a point cloud of exactly those points. */
  lemma LasFileLoads(name: string, h: Las.Header, ps: seq<LasFile.PointRecord>, textureURL: string, color: Color, parsers: Parsers)
    requires Extension(name) == "las" && LasFile.Encodable(h, ps)
    ensures LoadModel(File(name, LasFile.FileBytes(h, ps)), textureURL, color, parsers)
         == SetObject(Points(LasGeometry(LasFile.Expected(h, ps)), PointsMaterial(0.05, None, true)))
  {
    LasFile.RoundTrip(h, ps);
    LasBranch(File(name, LasFile.FileBytes(h, ps)), textureURL, color, parsers);
  }

  /** A `.las` file loads as the decoded cloud with vertex colours, or raises RangeError when decoding fails. */
  lemma LasBranch(file: File, textureURL: string, color: Color, parsers: Parsers)
    requires Extension(file.name) == "las"
    ensures Las.Decoded(file.bytes).Some? ==>
      LoadModel(file, textureURL, color, parsers) == SetObject(Points(LasGeometry(Las.Decoded(file.bytes).value), PointsMaterial(0.05, None, true)))
    ensures Las.Decoded(file.bytes).None? ==> LoadModel(file, textureURL, color, parsers) == Unhandled("RangeError")
  {
  }

  /** A LAS file whose header or last record is cut short sets no object. */
  lemma TruncatedLasSetsNothing(file: File, textureURL: string, color: Color, parsers: Parsers)
    requires Extension(file.name) == "las"
    requires |file.bytes| < Las.HeaderExtent
          || (var h := Las.ReadHeader(file.bytes);
              h.pointCount > 0 && !Las.RecordFits(file.bytes, h, h.pointCount - 1))
    ensures LoadModel(file, textureURL, color, parsers) == Unhandled("RangeError")
  {
    Las.DecodeSucceedsIff(file.bytes);
    LasBranch(file, textureURL, color, parsers);
  }

  // ---- handleFile

  const MaxFiles: nat := 10

  /** `Array.from(files).slice(0, 10)`: the first ten files, in order. */
  function SelectFiles<F>(files: seq<F>): (r: seq<F>)
    ensures |r| == if |files| < MaxFiles then |files| else MaxFiles
    ensures r <= files
  {
    if |files| <= MaxFiles then files else files[..MaxFiles]
  }

  // ---- addPin

  /** `prev[filename] || []`. */
  function PinsFor<P>(pins: map<string, seq<P>>, filename: string): (r: seq<P>)
    ensures filename !in pins ==> r == []
    ensures filename in pins ==> r == pins[filename]
  {
    if filename in pins then pins[filename] else []
  }

  /**
   * `pins` is a plain object, so a name it has no own list for still reads
   * what `Object.prototype` has under that name. These are the inherited
   * members whose `length` is not 0; the others (`toString`, `valueOf`,
   * `toLocaleString`, `__proto__`) read as 0 or nothing, and `|| 0` makes
   * both 0.
   */
  const InheritedLengths: map<string, nat> := map[
    "constructor" := 1,
    "hasOwnProperty" := 1,
    "isPrototypeOf" := 1,
    "propertyIsEnumerable" := 1,
    "__defineGetter__" := 2,
    "__defineSetter__" := 2,
    "__lookupGetter__" := 1,
    "__lookupSetter__" := 1
  ]

  /** `pins[file.name]?.length || 0`: the count shown under each card. */
  function PinCount<P>(pins: map<string, seq<P>>, filename: string): (n: nat)
    ensures filename in pins ==> n == |pins[filename]|
    ensures filename !in pins && filename !in InheritedLengths ==> n == 0
    ensures filename !in pins && filename in InheritedLengths ==> n == InheritedLengths[filename] > 0
  {
    if filename in pins then |pins[filename]|
    else if filename in InheritedLengths then InheritedLengths[filename]
    else 0
  }

  /** A file called "constructor" with no pins shows `Object.length`, which is 1. */
  lemma ConstructorShowsOne<P>(pins: map<string, seq<P>>)
    requires "constructor" !in pins
    ensures PinCount(pins, "constructor") == 1
  {
  }

  /** `{ ...prev, [filename]: [...pinsForFile, point] }`. */
  function AddPin<P>(pins: map<string, seq<P>>, filename: string, point: P): (r: map<string, seq<P>>)
    ensures r.Keys == pins.Keys + {filename}
    ensures PinsFor(r, filename) == PinsFor(pins, filename) + [point]
    ensures forall f :: f != filename ==> PinsFor(r, f) == PinsFor(pins, f)
  {
    pins[filename := PinsFor(pins, filename) + [point]]
  }

  /** Clicking `points` in turn on one file. */
  function AddPins<P>(pins: map<string, seq<P>>, filename: string, points: seq<P>): map<string, seq<P>>
    decreases |points|
  {
    if points == [] then pins
    else AddPins(AddPin(pins, filename, points[0]), filename, points[1..])
  }

  /** Pins accumulate in click order, one per click, and other files' pins never change. */
  lemma {:induction false} PinsInClickOrder<P>(pins: map<string, seq<P>>, filename: string, points: seq<P>)
    ensures PinsFor(AddPins(pins, filename, points), filename) == PinsFor(pins, filename) + points
    ensures points != [] ==> filename in AddPins(pins, filename, points)
    ensures points != [] ==> PinCount(AddPins(pins, filename, points), filename) == |PinsFor(pins, filename)| + |points|
    ensures filename !in InheritedLengths ==>
      PinCount(AddPins(pins, filename, points), filename) == PinCount(pins, filename) + |points|
    ensures forall f :: f != filename ==> PinsFor(AddPins(pins, filename, points), f) == PinsFor(pins, f)
    decreases |points|
  {
    if points != [] {
      var next := AddPin(pins, filename, points[0]);
      PinsInClickOrder(next, filename, points[1..]);
      assert PinsFor(pins, filename) + [points[0]] + points[1..] == PinsFor(pins, filename) + points;
      assert filename in next;
    }
  }
}
