/** The newer chain view of `src/components/pokemon/EvolutionModal.tsx`: it
    reads the chain the details loader stored in the catalogue, shows how many
    of each stage are caught, and evolves three caught copies into the next
    stage. */
module EvolutionPanel {
  import opened Common
  import opened PokemonStore
  import opened ListStore

  /** `pokemonList.find(p => p.name === name)?.evolutionChain || []`. */
  function CurrentChain(list: seq<PokemonListItem>, name: string): (chain: seq<ChainLink>)
    ensures (forall i :: 0 <= i < |list| ==> list[i].name != name) ==> chain == []
    ensures forall k :: 0 <= k < |list| && list[k].name == name && (forall j :: 0 <= j < k ==> list[j].name != name) ==>
      chain == list[k].evolutionChain.GetOr([])
  {
    match Find(list, (p: PokemonListItem) => p.name == name)
    case None => []
    case Some(p) => p.evolutionChain.GetOr([])
  }

  /** `caught.find(c => c.id === p.id)?.count || 0`. */
  function PokemonCount(caught: Collection, id: int): (n: int)
    ensures !HasId(caught, id) ==> n == 0
    ensures forall k :: 0 <= k < |caught| && caught[k].Id() == id && UniqueIds(caught) ==> n == caught[k].count
  {
    match FindEntry(caught, id)
    case None => 0
    case Some(e) => e.count
  }

  /** On a valid collection the count shown is positive exactly for caught ids. */
  lemma PokemonCountPositiveIffCaught(caught: Collection, id: int)
    requires Valid(caught)
    ensures PokemonCount(caught, id) >= 1 <==> HasId(caught, id)
  {
  }

  /** `Boolean(pokemonCount >= 3 && evolutionChain[i + 1])`. */
  function CanEvolve(caught: Collection, chain: seq<ChainLink>, i: int): bool
    requires 0 <= i < |chain|
  {
    PokemonCount(caught, chain[i].id) >= 3 && i + 1 < |chain|
  }

  /** A stage can evolve exactly when at least three copies of it are caught
      and the chain has a further stage. */
  lemma CanEvolveIff(caught: Collection, chain: seq<ChainLink>, i: int)
    requires Valid(caught) && 0 <= i < |chain|
    ensures CanEvolve(caught, chain, i) <==>
      (exists k :: 0 <= k < |caught| && caught[k].Id() == chain[i].id && caught[k].count >= 3) && i + 1 < |chain|
  {
    if HasId(caught, chain[i].id) {
      UniqueAt(caught, IndexOf(caught, chain[i].id));
    }
  }

  /** `nextPokemon?.id || null`: id 0 (a species URL without `/digits/`) is falsy. */
  function NextPokemonId(chain: seq<ChainLink>, i: int): (r: Option<int>)
    requires 0 <= i < |chain|
    ensures r.Some? <==> i + 1 < |chain| && chain[i + 1].id != 0
    ensures r.Some? ==> r.value == chain[i + 1].id
  {
    if i + 1 < |chain| && chain[i + 1].id != 0 then Some(chain[i + 1].id) else None
  }

  /** The last stage can never evolve, however many copies are caught. */
  lemma LastStageCannotEvolve(caught: Collection, chain: seq<ChainLink>)
    requires |chain| > 0
    ensures !CanEvolve(caught, chain, |chain| - 1) && NextPokemonId(chain, |chain| - 1) == None
  {
  }

  /** `evolutionChain.findIndex(p => p.id === toId)`. */
  function ChainIndexOf(chain: seq<ChainLink>, id: int): (k: int)
    ensures -1 <= k < |chain|
    ensures k == -1 <==> forall i :: 0 <= i < |chain| ==> chain[i].id != id
    ensures 0 <= k ==> chain[k].id == id && forall j :: 0 <= j < k ==> chain[j].id != id
  {
    FindIndex(chain, (l: ChainLink) => l.id == id)
  }

  /** The record passed to `addPokemon`: the catalogue item's `sprites`
      object, or one holding its image when it has none; its `species`
      object, or one with the URL `""`. An object that is present wins even
      when its field is `null`. */
  function EvolvedRecord(to: PokemonListItem): (p: Pokemon)
    ensures p.id == to.id && p.name == to.name
    ensures to.sprites.Some? ==> p.sprites == to.sprites.value
    ensures to.sprites.None? ==> p.sprites.frontDefault == Some(to.image)
    ensures to.species.Some? ==> p.species == to.species.value
    ensures to.species.None? ==> p.species.url == Some("")
  {
    Pokemon(to.id, to.name, to.sprites.GetOr(Sprites(Some(to.image))), to.species.GetOr(Species(Some(""))))
  }

  /** One call into the collection store. `setEvolutionTarget` and
      `removeThree` are not defined in the store's source and stay opaque. */
  datatype StoreCall =
    | SetEvolutionTarget(target: Option<int>)
    | AddPokemonCall(pokemon: Pokemon, stage: int)
    | RemoveThree(fromId: int, toId: int)

  /** `handleEvolution(fromId, toId)`: the store calls it makes, in order. */
  method HandleEvolution(list: seq<PokemonListItem>, chain: seq<ChainLink>, fromId: int, toId: int)
    returns (calls: seq<StoreCall>)
    ensures (forall i :: 0 <= i < |list| ==> list[i].id != toId) ==> calls == []
    ensures forall k :: 0 <= k < |list| && list[k].id == toId && (forall j :: 0 <= j < k ==> list[j].id != toId) ==>
      calls == [SetEvolutionTarget(Some(toId)), AddPokemonCall(EvolvedRecord(list[k]), ChainIndexOf(chain, toId)),
                RemoveThree(fromId, toId), SetEvolutionTarget(None)]
  {
    calls := [];
    var toPokemon := Find(list, (p: PokemonListItem) => p.id == toId);
    if toPokemon.Some? {
      var pokemon := EvolvedRecord(toPokemon.value);
      calls := calls + [SetEvolutionTarget(Some(toId))];
      calls := calls + [AddPokemonCall(pokemon, ChainIndexOf(chain, toId))];
      calls := calls + [RemoveThree(fromId, toId)];
      calls := calls + [SetEvolutionTarget(None)];
    }
  }

  /** The collection after the one call whose effect the store source defines. */
  function AfterAdd(caught: Collection, call: StoreCall): Collection {
    match call
    case AddPokemonCall(p, stage) => AddPokemon(caught, p, stage)
    case _ => caught
  }

  /** An evolution into a species the collection does not hold stores it at
      its chain position, and at stage -1 when the target is not in the chain. */
  lemma EvolvedIntoNewSpecies(caught: Collection, to: PokemonListItem, chain: seq<ChainLink>)
    requires !HasId(caught, to.id)
    ensures var r := AfterAdd(caught, AddPokemonCall(EvolvedRecord(to), ChainIndexOf(chain, to.id)));
      |r| == |caught| + 1 && r[..|caught|] == caught && r[|caught|].count == 1
      && r[|caught|].stage == ChainIndexOf(chain, to.id)
      && ((forall i :: 0 <= i < |chain| ==> chain[i].id != to.id) ==> r[|caught|].stage == -1)
  {
    AddAbsent(caught, EvolvedRecord(to), ChainIndexOf(chain, to.id));
  }
}
