/** The string-keyed block catalogue: registration with texture normalisation,
    lookup that fails on a missing id, and the collision flag of a created
    mesh. */
module BlockLibrary {
  import opened Common
  import opened BlockTypes

  /** The catalogue: symbolic block id to its normalised definition. */
  type Library = map<string, BlockDefinition>

  /** The faces that the `side` shorthand stands for, in expansion order. */
  const SideFaces: seq<Face> := [Left, Right, Front, Back]

  /** JavaScript truthiness of an optional string entry: present and non-empty. */
  predicate Truthy(m: map<TextureKey, string>, k: TextureKey) {
    k in m && m[k] != ""
  }

  /** The expansion loop: each listed face that is missing or empty gets the
      `side` texture; faces already given keep theirs. */
  function FillFaces(m: map<TextureKey, string>, faces: seq<Face>, side: string): (r: map<TextureKey, string>)
    ensures forall k :: k in r <==> k in m || (k.FaceKey? && k.face in faces)
    ensures forall k :: k in m && (k.SideKey? || k.face !in faces || m[k] != "") ==> r[k] == m[k]
    ensures forall f :: f in faces && !Truthy(m, FaceKey(f)) ==> r[FaceKey(f)] == side
    decreases |faces|
  {
    if faces == [] then m
    else
      var f := faces[0];
      var m1 := if !Truthy(m, FaceKey(f)) then m[FaceKey(f) := side] else m;
      FillFaces(m1, faces[1..], side)
  }

  /** The `side` expansion of a per-face record whose `side` is truthy: `side`
      disappears; each of left/right/front/back is present and keeps its own
      non-empty texture or else takes `side`'s; top and bottom are carried
      over unchanged; no other key is added. */
  function ExpandSide(m: map<TextureKey, string>): (n: map<TextureKey, string>)
    requires Truthy(m, SideKey)
    ensures forall k :: k in n <==> (k in m && k != SideKey) || (k.FaceKey? && k.face in SideFaces)
    ensures forall f :: f in SideFaces ==>
      n[FaceKey(f)] == if Truthy(m, FaceKey(f)) then m[FaceKey(f)] else m[SideKey]
    ensures forall k :: k in m && k.FaceKey? && k.face !in SideFaces ==> n[k] == m[k]
  {
    var filled := FillFaces(m, SideFaces, m[SideKey]);
    var n := filled - {SideKey};
    assert forall k :: k in n <==> k in filled && k != SideKey;
    assert forall k :: k in n ==> n[k] == filled[k];
    n
  }

  /** `normalizeTextures`: a per-face record with a truthy `side` has it
      expanded; a string, or a record whose `side` is absent or empty, is
      returned as is (a `side: ""` entry stays). Non-texture fields are always
      carried over. */
  function NormalizeTextures(def: BlockDefinition): (r: BlockDefinition)
    ensures r.id == def.id && r.name == def.name && r.collider == def.collider
    ensures r.transparent == def.transparent && r.color == def.color
    ensures def.textures.Whole? ==> r == def
    ensures def.textures.PerFace? && !Truthy(def.textures.faces, SideKey) ==> r == def
    ensures def.textures.PerFace? && Truthy(def.textures.faces, SideKey) ==>
      r.textures == PerFace(ExpandSide(def.textures.faces))
  {
    match def.textures
    case Whole(_) => def
    case PerFace(m) =>
      if Truthy(m, SideKey) then def.(textures := PerFace(ExpandSide(m))) else def
  }

  /** After normalisation a per-face record never holds a truthy `side`; it is
      in the stored form whenever the input `side` was truthy or absent. */
  lemma NormalizedIsStored(def: BlockDefinition)
    requires def.textures.PerFace? ==>
      SideKey !in def.textures.faces || def.textures.faces[SideKey] != ""
    ensures IsStoredForm(NormalizeTextures(def).textures)
  {
  }

  /** `register`: stores the normalised definition under its id, replacing any
      earlier one; other ids are untouched. */
  function Register(lib: Library, def: BlockDefinition): (r: Library)
    ensures def.id in r && r[def.id] == NormalizeTextures(def)
    ensures forall k :: k != def.id ==> (k in r <==> k in lib)
    ensures forall k :: k != def.id && k in lib ==> r[k] == lib[k]
  {
    lib[def.id := NormalizeTextures(def)]
  }

  /** `get`: the stored definition, or the "not registered" error. */
  function Get(lib: Library, id: string): (r: Result<BlockDefinition>)
    ensures r.Ok? <==> id in lib
    ensures r.Ok? ==> r.value == lib[id]
    ensures r.Err? ==> r.message == "Block '" + id + "' not registered"
  {
    if id in lib then Ok(lib[id]) else Err("Block '" + id + "' not registered")
  }

  /** Registering then getting the same id yields the normalised definition;
      getting any other id is unaffected by the registration. */
  lemma GetAfterRegister(lib: Library, def: BlockDefinition, id: string)
    ensures id == def.id ==> Get(Register(lib, def), id) == Ok(NormalizeTextures(def))
    ensures id != def.id ==> Get(Register(lib, def), id) == Get(lib, id)
  {
  }

  /** Registering the same id twice keeps only the second definition. */
  lemma RegisterOverwrites(lib: Library, d1: BlockDefinition, d2: BlockDefinition)
    requires d1.id == d2.id
    ensures Register(Register(lib, d1), d2) == Register(lib, d2)
  {
  }

  /** The collision flag of the mesh `createMesh` builds: fails like `get` for
      an unregistered id, is switched off for a definition whose `collider` is
      false, and otherwise keeps the freshly created box's default. */
  function CreateMeshChecksCollisions(lib: Library, id: string, boxDefault: bool): (r: Result<bool>)
    ensures r.Err? <==> id !in lib
    ensures r.Ok? ==> (r.value <==> boxDefault && lib[id].collider)
  {
    match Get(lib, id)
    case Err(msg) => Err(msg)
    case Ok(block) => Ok(if !block.collider then false else boxDefault)
  }
}
