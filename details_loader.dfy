/** `loadPokemonDetails` of `src/hooks/useLoadPokemonDetails.ts`: given the
    three responses it waits for, the update it hands to `updatePokemon`. */
module DetailsLoader {
  import opened Common
  import opened Text
  import opened Evolution
  import opened Urls
  import opened ListStore
  import PokemonStore
  import opened CatchChance

  /** `data.pokemon` of the by-name query: the `sprites` and `species`
      objects are `None` when the API sends `null` for them. */
  datatype PokemonData = PokemonData(id: int, name: string, sprites: Option<PokemonStore.Sprites>, species: Option<PokemonStore.Species>) {
    /** `data.pokemon.species?.url`. */
    function SpeciesUrl(): Option<string> {
      if species.Some? then species.value.url else None
    }
  }

  /** What the three requests deliver. `pokemon` is `None` when the query
      throws or yields no pokemon; `Failed` is a thrown request or a response
      that is not `ok`; `Fetched(None)` is a reply without the URL or chain. */
  datatype DetailsResponses = DetailsResponses(
    pokemon: Option<PokemonData>,
    species: Fetch<Option<string>>,
    evolution: Fetch<Option<EvoNode>>)

  /** The link recorded for one chain node: the id parsed from the species URL
      and the sprite built from that number. */
  function LinkOf(node: EvoNode): (l: ChainLink)
    ensures l.name == node.speciesName
    ensures l.id == ParseSpeciesId(node.speciesUrl)
    ensures l.sprite == SpriteUrl(NatToString(l.id))
  {
    var id := ParseSpeciesId(node.speciesUrl);
    ChainLink(id, node.speciesName, SpriteUrl(NatToString(id)))
  }

  /** The `while (node)` loop: follows `evolves_to?.[0]` from the chain root
      and records one link per node. */
  method WalkChain(start: Option<EvoNode>) returns (chain: seq<ChainLink>)
    ensures start.None? ==> chain == []
    ensures start.Some? ==> (|chain| == |Spine(start.value)| &&
      forall i :: 0 <= i < |chain| ==> chain[i] == LinkOf(Spine(start.value)[i]))
  {
    chain := [];
    if start.None? {
      return;
    }
    ghost var spine := Spine(start.value);
    ghost var k := 0;
    var node := start;
    while node.Some?
      invariant 0 <= k <= |spine|
      invariant node == if k < |spine| then Some(spine[k]) else None
      invariant |chain| == k && forall i :: 0 <= i < k ==> chain[i] == LinkOf(spine[i])
      decreases |spine| - k
    {
      var n := node.value;
      chain := chain + [LinkOf(n)];
      node := if |n.evolvesTo| > 0 then Some(n.evolvesTo[0]) else None;
      k := k + 1;
    }
  }

  /** `CATCH_CHANCES[stage]` as an integer percent; `undefined` beyond the table. */
  function ChanceAt(stage: int): (c: Option<int>)
    ensures 0 <= stage < 3 ==> c == Some(CHANCE_PERCENT[stage])
    ensures (stage < 0 || stage >= 3) ==> c == None
  {
    if 0 <= stage < |CHANCE_PERCENT| then Some(CHANCE_PERCENT[stage]) else None
  }

  /** The properties `...data.pokemon` spreads into every successful update. */
  function DataPatch(pd: PokemonData): (p: Patch)
    ensures p.id == Put(pd.id) && p.name == Put(pd.name)
    ensures p.sprites == Put(pd.sprites) && p.species == Put(pd.species)
    ensures p.image.Keep? && p.evolutionChain.Keep? && p.stage.Keep? && p.isLoaded.Keep? && p.catchChance.Keep?
  {
    EmptyPatch.(id := Put(pd.id), name := Put(pd.name), sprites := Put(pd.sprites), species := Put(pd.species))
  }

  /** The update without a chain (no species URL, or no evolution-chain URL). */
  function BasicPatch(pd: PokemonData): (p: Patch)
    ensures p.id == Put(pd.id) && p.name == Put(pd.name) && p.sprites == Put(pd.sprites) && p.species == Put(pd.species)
    ensures p.stage == Put(Some(0)) && p.catchChance == Put(Some(CHANCE_PERCENT[0])) && p.isLoaded == Put(Some(true))
    ensures p.image.Keep? && p.evolutionChain.Keep?
  {
    DataPatch(pd).(stage := Put(Some(0)), catchChance := Put(ChanceAt(0)), isLoaded := Put(Some(true)))
  }

  /** The update with the loaded chain and the stage found in it. */
  function FullPatch(pd: PokemonData, chain: seq<ChainLink>, stage: int): (p: Patch)
    ensures p.id == Put(pd.id) && p.name == Put(pd.name) && p.sprites == Put(pd.sprites) && p.species == Put(pd.species)
    ensures p.evolutionChain == Put(Some(chain)) && p.stage == Put(Some(stage)) && p.isLoaded == Put(Some(true))
    ensures p.catchChance == Put(ChanceAt(stage)) && p.image.Keep?
  {
    DataPatch(pd).(evolutionChain := Put(Some(chain)), stage := Put(Some(stage)),
      catchChance := Put(ChanceAt(stage)), isLoaded := Put(Some(true)))
  }

  /** A property of the item itself in `...pokemon`: present only when the item has it. */
  function Own<T>(v: Option<T>): (u: Upd<Option<T>>)
    ensures v.Some? ==> u == Put(v)
    ensures v.None? ==> u.Keep?
  {
    if v.Some? then Put(v) else Keep
  }

  /** The `catch` update: the item as it was, loaded, at stage 0. */
  function ErrorPatch(item: PokemonListItem): (p: Patch)
    ensures p.id == Put(item.id) && p.name == Put(item.name) && p.image == Put(item.image)
    ensures p.sprites == Own(item.sprites) && p.species == Own(item.species) && p.evolutionChain == Own(item.evolutionChain)
    ensures p.isLoaded == Put(Some(true)) && p.stage == Put(Some(0)) && p.catchChance == Put(Some(CHANCE_PERCENT[0]))
  {
    Patch(Put(item.id), Put(item.name), Put(item.image), Own(item.sprites), Own(item.species),
      Own(item.evolutionChain), Put(Some(0)), Put(Some(true)), Put(ChanceAt(0)))
  }

  /** The stage of the item in the tree: `findStage(chain, name.toLowerCase()) || 0`. */
  function StageIn(root: EvoNode, name: string): (s: int)
    ensures s >= 0
    ensures FindStage(root, Lower(name), 0).None? ==> s == 0
    ensures FindStage(root, Lower(name), 0).Some? ==> s == FindStage(root, Lower(name), 0).value
  {
    FindStage(root, Lower(name), 0).GetOr(0)
  }

  /** `loadPokemonDetails(item)`: `None` when no update is made. */
  method LoadPokemonDetails(item: PokemonListItem, r: DetailsResponses) returns (update: Option<Patch>)
    ensures item.isLoaded == Some(true) <==> update.None?
    ensures update.Some? ==> update.value.isLoaded == Put(Some(true))
    ensures item.isLoaded != Some(true) && r.pokemon.None? ==> update == Some(ErrorPatch(item))
    ensures item.isLoaded != Some(true) && r.pokemon.Some? && !Truthy(r.pokemon.value.SpeciesUrl())
      ==> update == Some(BasicPatch(r.pokemon.value))
    ensures item.isLoaded != Some(true) && r.pokemon.Some? && Truthy(r.pokemon.value.SpeciesUrl()) ==>
      match r.species
      case Failed => update == Some(ErrorPatch(item))
      case Fetched(evoUrl) =>
        if !Truthy(evoUrl) then update == Some(BasicPatch(r.pokemon.value))
        else match r.evolution
          case Fetched(Some(root)) =>
            update.Some? && update.value.evolutionChain.Put? && update.value.evolutionChain.value.Some?
            && var chain := update.value.evolutionChain.value.value;
            && |chain| == |Spine(root)|
            && (forall i :: 0 <= i < |chain| ==> chain[i] == LinkOf(Spine(root)[i]))
            && update == Some(FullPatch(r.pokemon.value, chain, StageIn(root, item.name)))
          case _ => update == Some(ErrorPatch(item))
  {
    if item.isLoaded == Some(true) {
      return None;
    }
    if r.pokemon.None? {
      return Some(ErrorPatch(item));
    }
    var pd := r.pokemon.value;
    if !Truthy(pd.SpeciesUrl()) {
      return Some(BasicPatch(pd));
    }
    if r.species.Failed? {
      return Some(ErrorPatch(item));
    }
    var evoUrl := r.species.value;
    if !Truthy(evoUrl) {
      return Some(BasicPatch(pd));
    }
    if r.evolution.Failed? {
      return Some(ErrorPatch(item));
    }
    var chain := WalkChain(r.evolution.value);
    if r.evolution.value.None? {
      // `findStage(undefined, ...)` throws and the `catch` runs.
      return Some(ErrorPatch(item));
    }
    var stage := StageIn(r.evolution.value.value, item.name);
    return Some(FullPatch(pd, chain, stage));
  }

  /** After `updatePokemon` with any update the loader makes, the item with
      the id the patch sets reports itself loaded, so loading it again makes
      no further update. */
  lemma UpdatedItemIsLoaded(s: ListState, id: int, data: Patch, i: int)
    requires data.isLoaded == Put(Some(true))
    requires 0 <= i < |s.pokemons| && s.pokemons[i].id == id
    ensures UpdatePokemon(s, id, data).pokemons[i].isLoaded == Some(true)
  {
  }

  /** The chance stored with the stage: the table entry for stages 0 to 2,
      and no chance at all for a deeper stage (the table is not clamped). */
  lemma FullPatchChance(pd: PokemonData, chain: seq<ChainLink>, stage: int)
    requires stage >= 0
    ensures stage < 3 ==> FullPatch(pd, chain, stage).catchChance == Put(Some(CHANCE_PERCENT[stage]))
    ensures stage >= 3 ==> FullPatch(pd, chain, stage).catchChance == Put(None)
  {
  }

  /** On an unbranched chain whose spine holds the lower-cased name, the stage
      is that name's position in the stored chain. */
  lemma StageIsChainPosition(root: EvoNode, name: string)
    requires Linear(root)
    requires SpineIndexOf(Spine(root), Lower(name)) >= 0
    ensures StageIn(root, name) == SpineIndexOf(Spine(root), Lower(name))
    ensures LinkOf(Spine(root)[StageIn(root, name)]).name == Lower(name)
  {
    LinearStageIsSpineIndex(root, Lower(name), 0);
  }
}
