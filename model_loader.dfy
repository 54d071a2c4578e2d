/**
 * `src/components/ModelLoader.js`: a loader component for OBJ, glTF and
 * FBX files. Its effect does nothing without a file; otherwise it reads the
 * file (as text when the name ends with ".obj", as bytes otherwise) and
 * `onload` dispatches on the lower-cased extension. Unknown extensions,
 * errors thrown by the OBJ and FBX parsers and errors the glTF parser hands
 * to its error callback are reported with `alert` and leave the object as it
 * was. The glTF `parse` call itself is not inside a `try`, so an error it
 * throws escapes `onload` with no alert.
 *
 * The read mode and the branch are decided by two different tests: the
 * branch by the lower-cased extension, the read mode by a case-sensitive
 * suffix test. A name such as "A.OBJ" is therefore read as bytes and then
 * handed to the OBJ parser.
 */
module ModelLoader {
  import opened Wrappers
  import opened FileNames
  import opened LittleEndian
  import opened Scene

  /** The arm of the `if`/`else if` chain an extension selects. */
  datatype Branch = ObjBranch | GltfBranch | FbxBranch | NoBranch

  function BranchOf(ext: string): (b: Branch)
    ensures b == ObjBranch <==> ext == "obj"
    ensures b == GltfBranch <==> ext == "glb" || ext == "gltf"
    ensures b == FbxBranch <==> ext == "fbx"
  {
    if ext == "obj" then ObjBranch
    else if ext == "glb" || ext == "gltf" then GltfBranch
    else if ext == "fbx" then FbxBranch
    else NoBranch
  }

  /** `file.name.endsWith(".obj") ? readAsText : readAsArrayBuffer`. */
  function ReadModeOf(name: string): (m: ReadMode)
    ensures m == AsText <==> EndsWith(name, ".obj")
  {
    if EndsWith(name, ".obj") then AsText else AsArrayBuffer
  }

  /**
   * `reader.onload`: one parser per branch. An unknown extension, an error
   * caught around the OBJ or FBX parse and an error handed to the glTF error
   * callback are alerted; an error thrown by the glTF parse escapes.
   */
  function OnLoad(ext: string, payload: Payload, parsers: Parsers): (r: Outcome)
    ensures !r.NoRead?
    ensures r.SetObject? ==> BranchOf(ext) != NoBranch
    ensures r.Unhandled? ==> BranchOf(ext) == GltfBranch
  {
    match BranchOf(ext)
    case ObjBranch =>
      (match parsers.obj(payload)
       case Parsed(root) => SetObject(Group(root))
       case ParseError(msg) => Alert("Erreur OBJ : " + msg))  // caught
    case GltfBranch =>
      (match parsers.gltf(payload)
       case Parsed(GltfLoaded(scene)) => SetObject(Group(scene))
       case Parsed(GltfFailed(msg)) => Alert("Erreur GLTF : " + msg)  // the error callback
       case ParseError(msg) => Unhandled(msg))  // parse() is outside any try
    case FbxBranch =>
      (match parsers.fbx(payload)
       case Parsed(root) => SetObject(Group(root))
       case ParseError(msg) => Alert("Erreur FBX : " + msg))  // caught
    case NoBranch => Alert("Extension non supportée : " + ext)
  }

  /** The effect for the `file` prop: nothing without a file, otherwise read it and run `onload`. */
  function Load(file: Option<File>, parsers: Parsers): (r: Outcome)
    ensures r.NoRead? <==> file.None?
  {
    match file
    case None => NoRead
    case Some(f) =>
      var ext := Extension(f.name);
      OnLoad(ext, Payload(ReadModeOf(f.name), f.bytes), parsers)
  }

  /**
   * How a parse ended: with a parsed object, with an error handed to an
   * error callback, or with an error thrown by `parse`.
   */
  datatype Ending = Loaded(root: Node) | Reported(message: string) | Threw(message: string)

  /** A synchronous parse returns its object or throws. */
  function SyncEnding(p: Parsed<Node>): (e: Ending)
    ensures !e.Reported?
  {
    match p
    case Parsed(root) => Loaded(root)
    case ParseError(msg) => Threw(msg)
  }

  /** The glTF parse throws, or calls `onLoad` or `onError` later. */
  function GltfEnding(p: Parsed<GltfCallback>): Ending
  {
    match p
    case Parsed(GltfLoaded(scene)) => Loaded(scene)
    case Parsed(GltfFailed(msg)) => Reported(msg)
    case ParseError(msg) => Threw(msg)
  }

  /** How the selected branch's parse ended; the parsers of the other branches are never called. */
  function Selected(b: Branch, payload: Payload, parsers: Parsers): (r: Option<Ending>)
    ensures r.None? <==> b == NoBranch
    ensures r.Some? && r.value.Reported? ==> b == GltfBranch
  {
    match b
    case ObjBranch => Some(SyncEnding(parsers.obj(payload)))
    case GltfBranch => Some(GltfEnding(parsers.gltf(payload)))
    case FbxBranch => Some(SyncEnding(parsers.fbx(payload)))
    case NoBranch => None
  }

  /** Whether an error that ends branch `b` this way is caught, by a `try` or by the error callback. */
  predicate Caught(b: Branch, e: Ending)
  {
    !(b == GltfBranch && e.Threw?)
  }

  /** The alert prefix of each branch. */
  function ErrorPrefix(b: Branch): string
  {
    match b
    case ObjBranch => "Erreur OBJ : "
    case GltfBranch => "Erreur GLTF : "
    case FbxBranch => "Erreur FBX : "
    case NoBranch => "Extension non supportée : "
  }

  /**
   * `onload` in terms of the selected branch alone: its parsed object is
   * set, a caught error is alerted with the branch's prefix, an uncaught one
   * escapes, and an unknown extension is alerted as unsupported.
   */
  lemma OnLoadBySelected(ext: string, payload: Payload, parsers: Parsers)
    ensures var b := BranchOf(ext);
      OnLoad(ext, payload, parsers) ==
        match Selected(b, payload, parsers)
        case None => Alert(ErrorPrefix(NoBranch) + ext)
        case Some(Loaded(root)) => SetObject(Group(root))
        case Some(e) => if Caught(b, e) then Alert(ErrorPrefix(b) + e.message) else Unhandled(e.message)
  {
  }

  /** Only the selected parser matters: parsers that agree on it give the same outcome. */
  lemma OnlySelectedParserRuns(file: File, p1: Parsers, p2: Parsers)
    requires var ext := Extension(file.name);
      var payload := Payload(ReadModeOf(file.name), file.bytes);
      Selected(BranchOf(ext), payload, p1) == Selected(BranchOf(ext), payload, p2)
    ensures Load(Some(file), p1) == Load(Some(file), p2)
  {
    var ext := Extension(file.name);
    var payload := Payload(ReadModeOf(file.name), file.bytes);
    OnLoadBySelected(ext, payload, p1);
    OnLoadBySelected(ext, payload, p2);
  }

  /** With no file nothing is read and nothing changes. */
  lemma NoFileNoRead(parsers: Parsers)
    ensures Load(None, parsers) == NoRead
  {
  }

  /** An extension other than obj, glb, gltf and fbx is alerted as unsupported, and only such an extension is. */
  lemma UnsupportedIff(ext: string, payload: Payload, parsers: Parsers)
    ensures BranchOf(ext) == NoBranch <==> OnLoad(ext, payload, parsers) == Alert("Extension non supportée : " + ext)
  {
    OnLoadBySelected(ext, payload, parsers);
    var b := BranchOf(ext);
    var r := Selected(b, payload, parsers);
    if b != NoBranch && !r.value.Loaded? {
      PrefixesDiffer(b, r.value.message, ext);
    }
  }

  /** A parse-error alert never reads as the unsupported-extension alert. */
  lemma PrefixesDiffer(b: Branch, msg: string, ext: string)
    requires b != NoBranch
    ensures ErrorPrefix(b) + msg != ErrorPrefix(NoBranch) + ext
  {
    assert (ErrorPrefix(b) + msg)[1] == 'r';
    assert (ErrorPrefix(NoBranch) + ext)[1] == 'x';
  }

  /**
   * A parse error sets no object. It is alerted with its branch's prefix,
   * except an error thrown by the glTF parse, which escapes unreported.
   */
  lemma ParseErrorAlerts(file: File, parsers: Parsers)
    requires var ext := Extension(file.name);
      var r := Selected(BranchOf(ext), Payload(ReadModeOf(file.name), file.bytes), parsers);
      r.Some? && !r.value.Loaded?
    ensures var ext := Extension(file.name);
      var r := Selected(BranchOf(ext), Payload(ReadModeOf(file.name), file.bytes), parsers);
      && (Caught(BranchOf(ext), r.value) ==> Load(Some(file), parsers) == Alert(ErrorPrefix(BranchOf(ext)) + r.value.message))
      && (!Caught(BranchOf(ext), r.value) ==> Load(Some(file), parsers) == Unhandled(r.value.message))
  {
    OnLoadBySelected(Extension(file.name), Payload(ReadModeOf(file.name), file.bytes), parsers);
  }

  /** A glTF file whose parse throws (bytes that are not glTF, say) gets no alert: the error escapes `onload`. */
  lemma GltfThrowEscapes(file: File, parsers: Parsers)
    requires Extension(file.name) == "gltf" || Extension(file.name) == "glb"
    requires parsers.gltf(Payload(ReadModeOf(file.name), file.bytes)).ParseError?
    ensures Load(Some(file), parsers) == Unhandled(parsers.gltf(Payload(ReadModeOf(file.name), file.bytes)).message)
  {
  }

  /** An object is set only by a supported branch whose parser succeeded, and it is exactly what that parser returned. */
  lemma SetOnlyByParsedBranch(file: File, parsers: Parsers)
    requires Load(Some(file), parsers).SetObject?
    ensures var ext := Extension(file.name);
      var r := Selected(BranchOf(ext), Payload(ReadModeOf(file.name), file.bytes), parsers);
      r.Some? && r.value.Loaded? && Load(Some(file), parsers).model == Group(r.value.root)
  {
    OnLoadBySelected(Extension(file.name), Payload(ReadModeOf(file.name), file.bytes), parsers);
  }

  /** Text mode always goes with the OBJ branch: a name ending in ".obj" has the extension "obj". */
  lemma TextModeMeansObjBranch(name: string)
    requires ReadModeOf(name) == AsText
    ensures BranchOf(Extension(name)) == ObjBranch
  {
    ObjSuffixGivesObjExtension(name);
  }

  /** The converse fails: "A.OBJ" is handed to the OBJ parser as bytes. */
  lemma UpperCaseObjReadAsBytes(bytes: seq<Byte>, parsers: Parsers)
    ensures BranchOf(Extension("A.OBJ")) == ObjBranch
    ensures ReadModeOf("A.OBJ") == AsArrayBuffer
    ensures Selected(BranchOf(Extension("A.OBJ")), Payload(ReadModeOf("A.OBJ"), bytes), parsers)
         == Some(SyncEnding(parsers.obj(Payload(AsArrayBuffer, bytes))))
  {
    UpperCaseObjName();
  }

  /** The component's `object` state and its effect. */
  method Effect(slot: ObjectSlot, file: Option<File>, parsers: Parsers)
    modifies slot
    ensures Load(file, parsers).SetObject? ==> slot.model == Some(Load(file, parsers).model)
    ensures !Load(file, parsers).SetObject? ==> slot.model == old(slot.model)
  {
    slot.Apply(Load(file, parsers));
  }
}
