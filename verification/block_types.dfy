/** The block definition record and its texture forms. */
module BlockTypes {
  import opened Common

  /** The six faces of a cube that can carry their own texture. */
  datatype Face = Top | Bottom | Left | Right | Front | Back

  const AllFaces: seq<Face> := [Top, Bottom, Left, Right, Front, Back]

  /** A key of a per-face texture record: one of the six faces, or the `side`
      shorthand that only the input form admits. */
  datatype TextureKey = FaceKey(face: Face) | SideKey

  /** Textures are either one image path for the whole cube or a partial
      record from keys to image paths. */
  datatype Textures = Whole(path: string) | PerFace(faces: map<TextureKey, string>)

  /** The stored form (`BlockTextures`): a single string, or a per-face record
      without the `side` shorthand. Every `Textures` value is an instance of
      the input form (`BlockTexturesInput`). */
  predicate IsStoredForm(t: Textures) {
    t.Whole? || SideKey !in t.faces
  }

  /** An RGB colour tuple. */
  datatype Color = Color(r: real, g: real, b: real)

  /** A block definition: `id`, `textures` and `collider` are required, the
      other fields are optional. */
  datatype BlockDefinition = BlockDefinition(
    id: string,
    name: Option<string>,
    textures: Textures,
    collider: bool,
    transparent: Option<bool>,
    color: Option<Color>)

  /** `Face` lists exactly six distinct values. */
  lemma FacesAreSix()
    ensures |AllFaces| == 6
    ensures forall f: Face :: f in AllFaces
    ensures forall i, j :: 0 <= i < j < |AllFaces| ==> AllFaces[i] != AllFaces[j]
  {
    forall f: Face
      ensures f in AllFaces
    {
      match f
      case Top => assert AllFaces[0] == f;
      case Bottom => assert AllFaces[1] == f;
      case Left => assert AllFaces[2] == f;
      case Right => assert AllFaces[3] == f;
      case Front => assert AllFaces[4] == f;
      case Back => assert AllFaces[5] == f;
    }
  }
}
