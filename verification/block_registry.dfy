/** The initial block catalogue: the four blocks `registerAllBlocks` registers,
    in order. */
module BlockRegistry {
  import opened Common
  import opened BlockTypes
  import opened BlockLibrary

  const Air: BlockDefinition :=
    BlockDefinition("air", None, Whole(""), false, Some(true), None)
  const Base: BlockDefinition :=
    BlockDefinition("base", None, Whole(""), true, None, Some(Color(0.5, 0.5, 0.5)))
  const Base2: BlockDefinition :=
    BlockDefinition("base2", None, Whole(""), true, None, Some(Color(1.0, 0.0, 0.0)))
  const Stone: BlockDefinition :=
    BlockDefinition("stone", None, Whole("/textures/Brick.png"), true, None, None)

  /** The registration order. */
  const RegistrationOrder: seq<BlockDefinition> := [Air, Base, Base2, Stone]

  /** `registerAllBlocks`: registers air, base, base2 and stone, in that order. */
  function RegisterAllBlocks(lib: Library): (r: Library)
    ensures forall k :: k in r <==> k in lib || k in {"air", "base", "base2", "stone"}
    ensures forall k :: k in lib && k !in {"air", "base", "base2", "stone"} ==> r[k] == lib[k]
  {
    Register(Register(Register(Register(lib, Air), Base), Base2), Stone)
  }

  /** The catalogue after `registerAllBlocks` on an empty library. */
  function InitialCatalogue(): Library {
    RegisterAllBlocks(map[])
  }

  /** The initial catalogue holds exactly air, base, base2 and stone, each
      stored exactly as written (string textures are left alone by
      normalisation), and air is the only block without a collider. */
  lemma InitialCatalogueContents()
    ensures InitialCatalogue().Keys == {"air", "base", "base2", "stone"}
    ensures InitialCatalogue()["air"] == Air
    ensures InitialCatalogue()["base"] == Base
    ensures InitialCatalogue()["base2"] == Base2
    ensures InitialCatalogue()["stone"] == Stone
    ensures forall k :: k in InitialCatalogue() ==> (!InitialCatalogue()[k].collider <==> k == "air")
  {
    assert InitialCatalogue() == map["air" := Air, "base" := Base, "base2" := Base2, "stone" := Stone];
  }

  /** The numeric ids the registry's comments describe: the position in the
      registration order. */
  function CommentedNumericIds(): (index: map<int, BlockDefinition>)
    ensures index.Keys == {0, 1, 2, 3}
    ensures index[0].id == "air" && index[1].id == "base"
    ensures forall n :: n in index ==> (!index[n].collider <==> n == 0)
  {
    map n | 0 <= n < |RegistrationOrder| :: RegistrationOrder[n]
  }
}
