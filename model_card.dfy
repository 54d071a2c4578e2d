/**
 * `src/components/ModelCard.js`: the same extension dispatch and read-mode
 * choice as `ModelLoader.js`, without its safeguards. There is no `!file`
 * guard, so a missing file makes the effect itself throw on `file.name`; a
 * parse error is not caught and escapes `onload`; and the glTF parser is given
 * no error callback.
 */
module ModelCard {
  import opened Wrappers
  import opened FileNames
  import opened Scene
  import opened ModelLoader

  /** `reader.onload`: the selected parser's result becomes the object; its errors are not handled. */
  function OnLoad(ext: string, payload: Payload, parsers: Parsers): (r: Outcome)
    ensures r.Alert? <==> BranchOf(ext) == NoBranch
    ensures !r.NoRead?
  {
    match BranchOf(ext)
    case ObjBranch =>
      (match parsers.obj(payload)
       case Parsed(root) => SetObject(Group(root))
       case ParseError(msg) => Unhandled(msg))
    case GltfBranch =>
      (match parsers.gltf(payload)
       case Parsed(GltfLoaded(scene)) => SetObject(Group(scene))
       case Parsed(GltfFailed(msg)) => Unhandled(msg)  // no onError callback
       case ParseError(msg) => Unhandled(msg))
    case FbxBranch =>
      (match parsers.fbx(payload)
       case Parsed(root) => SetObject(Group(root))
       case ParseError(msg) => Unhandled(msg))
    case NoBranch => Alert("Extension non supportée : " + ext)
  }

  /** The effect: `file.name` is read unguarded, so a missing file throws a TypeError before anything is read. */
  function Load(file: Option<File>, parsers: Parsers): (r: Outcome)
    ensures file.None? ==> r.Unhandled?
    ensures !r.NoRead?
  {
    match file
    case None => Unhandled("TypeError")
    case Some(f) =>
      var ext := Extension(f.name);
      OnLoad(ext, Payload(ReadModeOf(f.name), f.bytes), parsers)
  }

  /**
   * At most one branch runs: the outcome is that branch's parse result, set
   * as the object or escaping as an error, and an unknown extension alerts.
   */
  lemma OnLoadBySelected(ext: string, payload: Payload, parsers: Parsers)
    ensures OnLoad(ext, payload, parsers) ==
      match Selected(BranchOf(ext), payload, parsers)
      case None => Alert("Extension non supportée : " + ext)
      case Some(Loaded(root)) => SetObject(Group(root))
      case Some(e) => Unhandled(e.message)
  {
  }

  /** Any extension other than obj, glb, gltf and fbx alerts and sets nothing; a supported one never alerts. */
  lemma UnsupportedIff(ext: string, payload: Payload, parsers: Parsers)
    ensures BranchOf(ext) == NoBranch <==> OnLoad(ext, payload, parsers).Alert?
    ensures OnLoad(ext, payload, parsers).Alert? ==> OnLoad(ext, payload, parsers) == Alert("Extension non supportée : " + ext)
  {
    OnLoadBySelected(ext, payload, parsers);
  }

  /** Only the selected branch can set the object, and it sets exactly what its parser returned. */
  lemma SetOnlyByParsedBranch(ext: string, payload: Payload, parsers: Parsers)
    requires OnLoad(ext, payload, parsers).SetObject?
    ensures var r := Selected(BranchOf(ext), payload, parsers);
      r.Some? && r.value.Loaded? && OnLoad(ext, payload, parsers).model == Group(r.value.root)
  {
    OnLoadBySelected(ext, payload, parsers);
  }

  /**
   * For a file that is present, both components set the same object or
   * none. They differ only in how a parse error is reported: where the
   * loader catches it and alerts, it escapes here; an error thrown by the
   * glTF parse escapes from both.
   */
  lemma SameObjectAsModelLoader(file: File, parsers: Parsers)
    ensures Load(Some(file), parsers).SetObject? <==> ModelLoader.Load(Some(file), parsers).SetObject?
    ensures Load(Some(file), parsers).SetObject? ==> Load(Some(file), parsers) == ModelLoader.Load(Some(file), parsers)
    ensures Load(Some(file), parsers).Unhandled? <==>
      (ModelLoader.Load(Some(file), parsers).Alert? && BranchOf(Extension(file.name)) != NoBranch)
      || ModelLoader.Load(Some(file), parsers).Unhandled?
    ensures ModelLoader.Load(Some(file), parsers).Unhandled? ==> Load(Some(file), parsers) == ModelLoader.Load(Some(file), parsers)
  {
    var ext := Extension(file.name);
    var payload := Payload(ReadModeOf(file.name), file.bytes);
    OnLoadBySelected(ext, payload, parsers);
    ModelLoader.OnLoadBySelected(ext, payload, parsers);
  }

  /** Without a file the card throws where the loader does nothing. */
  lemma MissingFile(parsers: Parsers)
    ensures Load(None, parsers) == Unhandled("TypeError")
    ensures ModelLoader.Load(None, parsers) == NoRead
  {
  }

  /** The component's `object` state and its effect. */
  method Effect(slot: ObjectSlot, file: Option<File>, parsers: Parsers)
    modifies slot
    ensures Load(file, parsers).SetObject? ==> slot.model == Some(Load(file, parsers).model)
    ensures !Load(file, parsers).SetObject? ==> slot.model == old(slot.model)
  {
    slot.Apply(Load(file, parsers));
  }
}
