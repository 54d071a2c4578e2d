/**
 * The values the loaders produce and the collaborators they call.
 * The three.js loaders are foreign code: each is a function from what the
 * `FileReader` delivered to either a parsed value or an error message.
 * A parsed mesh is a tree of nodes, as `traverse` visits it.
 */
module Scene {
  import opened Wrappers
  import opened LittleEndian
  import Las

  /** A CSS colour string from a colour picker, such as "#aaaaaa". */
  type Color = string

  /** A world-space point (`THREE.Vector3`). */
  datatype Vec3 = Vec3(x: real, y: real, z: real)

  /** The handle `TextureLoader.load(url)` returns at once; the image arrives later over the network. */
  datatype Texture = Texture(url: string)

  datatype Material =
    | AsParsed                     // whatever the parser attached
    | StandardMap(texture: Texture) // MeshStandardMaterial({ map: texture })
    | StandardColor(color: Color)  // MeshStandardMaterial({ color })

  /** A scene-graph node: whether it is a `THREE.Mesh`, its material, its children. */
  datatype Node = Node(isMesh: bool, material: Material, children: seq<Node>)

  datatype Geometry =
    | PlyGeometry(id: nat, normalsComputed: bool)  // what PLYLoader returned
    | LasGeometry(cloud: Las.Cloud)                // the two arrays the LAS branch built

  /** PointsMaterial({ size, color }) or PointsMaterial({ size, vertexColors: true }). */
  datatype PointsMaterial = PointsMaterial(size: real, color: Option<Color>, vertexColors: bool)

  datatype SceneObject =
    | Group(root: Node)
    | Points(geometry: Geometry, material: PointsMaterial)

  datatype ReadMode = AsText | AsArrayBuffer

  /** A file picked by the user. */
  datatype File = File(name: string, bytes: seq<Byte>)

  /** What `reader.result` holds in `onload`: the file's bytes, read as text or as an ArrayBuffer. */
  datatype Payload = Payload(mode: ReadMode, bytes: seq<Byte>)

  /** What a call to `parse` does: it returns a value or throws an error. */
  datatype Parsed<T> = Parsed(value: T) | ParseError(message: string)

  /**
   * What `GLTFLoader.parse` does when it does not throw: later it calls
   * `onLoad` with the glTF's scene or `onError` with an error.
   */
  datatype GltfCallback = GltfLoaded(scene: Node) | GltfFailed(message: string)

  /** OBJLoader, GLTFLoader, PLYLoader and FBXLoader, as functions of their input. */
  datatype Parsers = Parsers(
    obj: Payload -> Parsed<Node>,
    gltf: Payload -> Parsed<GltfCallback>,
    ply: Payload -> Parsed<nat>,
    fbx: Payload -> Parsed<Node>)

  /** What one load does to the component. */
  datatype Outcome =
    | SetObject(model: SceneObject)   // setObject(...) was called
    | Alert(message: string)          // alert(...) was called; the object is left as it was
    | Unhandled(message: string)      // an exception left onload, or an error reached no callback
    | NoRead                          // no file, so nothing was read

  /** The `object` state of a loader component (named `model` here), written by `setObject`. */
  class ObjectSlot {
    var model: Option<SceneObject>

    constructor ()
      ensures model == None
    {
      model := None;
    }

    /** Records what one load did: only a `setObject` call changes the state. */
    method Apply(o: Outcome)
      modifies this
      ensures o.SetObject? ==> model == Some(o.model)
      ensures !o.SetObject? ==> model == old(model)
    {
      if o.SetObject? {
        model := Some(o.model);
      }
    }
  }
}
