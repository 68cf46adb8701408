/** The newer search box of `src/components/search/SearchInput.tsx`. Its ball
    animation and its panel rules are those of the older box (`SearchInput`);
    what it adds is the caught badge on each card. */
module SearchPanel {
  import opened Text
  import opened PokemonStore
  import opened Selectors

  /** `caughtSet.has(p.name.toLowerCase())`. */
  predicate CaughtFlag(caughtSet: set<string>, name: string) {
    Lower(name) in caughtSet
  }

  /** A card is marked caught exactly when some caught entry has the same
      name up to ASCII case. */
  lemma CaughtFlagIff(caught: Collection, name: string)
    ensures CaughtFlag(CaughtSet(caught), name) <==>
      exists i :: 0 <= i < |caught| && Lower(caught[i].pokemon.name) == Lower(name)
  {
  }

  /** Catching a new Pokémon marks its card, whatever the case of its name. */
  lemma CatchMarksCard(caught: Collection, p: Pokemon, stage: int)
    requires !HasId(caught, p.id)
    ensures CaughtFlag(CaughtSet(AddPokemon(caught, p, stage)), p.name)
  {
    var after := AddPokemon(caught, p, stage);
    assert after[|caught|].pokemon == p;
  }

  /** Catching another copy changes no card: the names are those of the
      entries already held. */
  lemma CatchAgainKeepsFlags(caught: Collection, p: Pokemon, stage: int)
    requires HasId(caught, p.id)
    ensures CaughtSet(AddPokemon(caught, p, stage)) == CaughtSet(caught)
  {
    assert AddPokemon(caught, p, stage) == AdjustCount(caught, p.id, 1);
    CaughtSetOfSameNames(AddPokemon(caught, p, stage), caught);
  }
}
