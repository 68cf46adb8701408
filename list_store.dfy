/** The catalogue store of `src/store/pokemonListStore.ts`: the list of
    catalogue items with their lazily loaded details, the loading flags,
    and the partial-record merge `updatePokemon`. */
module ListStore {
  import opened Common
  import opened PokemonStore

  /** `EvolutionChain`: one link of a loaded evolution chain. */
  datatype ChainLink = ChainLink(id: int, name: string, sprite: string)

  /** `PokemonListItem`. Optional properties are `Option`s (`None` is an
      absent, `undefined` or `null` property); `catchChance` is an integer percent. */
  datatype PokemonListItem = PokemonListItem(
    id: int,
    name: string,
    image: string,
    sprites: Option<Sprites>,
    species: Option<Species>,
    evolutionChain: Option<seq<ChainLink>>,
    stage: Option<int>,
    isLoaded: Option<bool>,
    catchChance: Option<int>)

  /** One property of a `Partial<PokemonListItem>`: absent (`Keep`) or
      present with a value (`Put`); a present property overrides in a spread
      even when its value is `undefined`. */
  datatype Upd<T> = Keep | Put(value: T) {
    function Over(prior: T): T {
      match this
      case Keep => prior
      case Put(v) => v
    }
  }

  /** `Partial<PokemonListItem>`. */
  datatype Patch = Patch(
    id: Upd<int>,
    name: Upd<string>,
    image: Upd<string>,
    sprites: Upd<Option<Sprites>>,
    species: Upd<Option<Species>>,
    evolutionChain: Upd<Option<seq<ChainLink>>>,
    stage: Upd<Option<int>>,
    isLoaded: Upd<Option<bool>>,
    catchChance: Upd<Option<int>>)

  /** The patch with no property. */
  const EmptyPatch := Patch(Keep, Keep, Keep, Keep, Keep, Keep, Keep, Keep, Keep)

  /** `{ ...item, ...data }`: every property present in `data` wins, every
      other property of `item` is kept. */
  function Merge(item: PokemonListItem, data: Patch): PokemonListItem {
    PokemonListItem(
      data.id.Over(item.id),
      data.name.Over(item.name),
      data.image.Over(item.image),
      data.sprites.Over(item.sprites),
      data.species.Over(item.species),
      data.evolutionChain.Over(item.evolutionChain),
      data.stage.Over(item.stage),
      data.isLoaded.Over(item.isLoaded),
      data.catchChance.Over(item.catchChance))
  }

  /** Every property the patch carries ends up in the merged item, and every
      property it does not carry is the item's own. */
  lemma MergeTakesPatch(item: PokemonListItem, data: Patch)
    ensures var m := Merge(item, data);
      && (data.id.Put? ==> m.id == data.id.value) && (data.id.Keep? ==> m.id == item.id)
      && (data.name.Put? ==> m.name == data.name.value) && (data.name.Keep? ==> m.name == item.name)
      && (data.image.Put? ==> m.image == data.image.value) && (data.image.Keep? ==> m.image == item.image)
      && (data.sprites.Put? ==> m.sprites == data.sprites.value) && (data.sprites.Keep? ==> m.sprites == item.sprites)
      && (data.species.Put? ==> m.species == data.species.value) && (data.species.Keep? ==> m.species == item.species)
      && (data.evolutionChain.Put? ==> m.evolutionChain == data.evolutionChain.value)
      && (data.evolutionChain.Keep? ==> m.evolutionChain == item.evolutionChain)
      && (data.stage.Put? ==> m.stage == data.stage.value) && (data.stage.Keep? ==> m.stage == item.stage)
      && (data.isLoaded.Put? ==> m.isLoaded == data.isLoaded.value) && (data.isLoaded.Keep? ==> m.isLoaded == item.isLoaded)
      && (data.catchChance.Put? ==> m.catchChance == data.catchChance.value)
      && (data.catchChance.Keep? ==> m.catchChance == item.catchChance)
  {
  }

  /** An empty patch changes nothing; merging a patch twice is merging it once. */
  lemma MergeLaws(item: PokemonListItem, data: Patch)
    ensures Merge(item, EmptyPatch) == item
    ensures Merge(Merge(item, data), data) == Merge(item, data)
  {
  }

  /** `pokemons.map(p => p.id === id ? { ...p, ...data } : p)` */
  function UpdateItems(pokemons: seq<PokemonListItem>, id: int, data: Patch): (r: seq<PokemonListItem>)
    ensures |r| == |pokemons|
    ensures forall i :: 0 <= i < |pokemons| ==> r[i] == if pokemons[i].id == id then Merge(pokemons[i], data) else pokemons[i]
  {
    seq(|pokemons|, i requires 0 <= i < |pokemons| =>
      if pokemons[i].id == id then Merge(pokemons[i], data) else pokemons[i])
  }

  /** Updating an id the list does not hold leaves the list as it is. */
  lemma UpdateAbsentId(pokemons: seq<PokemonListItem>, id: int, data: Patch)
    requires forall i :: 0 <= i < |pokemons| ==> pokemons[i].id != id
    ensures UpdateItems(pokemons, id, data) == pokemons
  {
  }

  /** Applying the same update twice equals applying it once, also when the
      patch itself changes the id. */
  lemma {:induction false} UpdateIdempotent(pokemons: seq<PokemonListItem>, id: int, data: Patch)
    ensures UpdateItems(UpdateItems(pokemons, id, data), id, data) == UpdateItems(pokemons, id, data)
  {
    var once := UpdateItems(pokemons, id, data);
    var twice := UpdateItems(once, id, data);
    forall i | 0 <= i < |pokemons| ensures twice[i] == once[i] {
      MergeLaws(pokemons[i], data);
    }
  }

  /** The loading flags and the list, as the store holds them. */
  datatype ListState = ListState(
    pokemons: seq<PokemonListItem>,
    isLoading: bool,
    isFullyLoaded: bool,
    error: Option<string>)

  /** The initial store: empty list, nothing loading, not fully loaded, no error. */
  const InitialState := ListState([], false, false, None)

  /** `setPokemons` */
  function SetPokemons(s: ListState, pokemons: seq<PokemonListItem>): ListState {
    s.(pokemons := pokemons)
  }

  /** `setLoading` */
  function SetLoading(s: ListState, isLoading: bool): ListState {
    s.(isLoading := isLoading)
  }

  /** `setFullyLoaded` */
  function SetFullyLoaded(s: ListState, isFullyLoaded: bool): ListState {
    s.(isFullyLoaded := isFullyLoaded)
  }

  /** `setError` */
  function SetError(s: ListState, error: Option<string>): ListState {
    s.(error := error)
  }

  /** `updatePokemon(id, data)` */
  function UpdatePokemon(s: ListState, id: int, data: Patch): (r: ListState)
    ensures r.isLoading == s.isLoading && r.isFullyLoaded == s.isFullyLoaded && r.error == s.error
    ensures |r.pokemons| == |s.pokemons|
    ensures forall i :: 0 <= i < |s.pokemons| && s.pokemons[i].id != id ==> r.pokemons[i] == s.pokemons[i]
  {
    s.(pokemons := UpdateItems(s.pokemons, id, data))
  }

  /** Each setter touches only its own field: setters of different fields
      commute, and a second call of the same setter overrides the first. */
  lemma SettersIndependent(s: ListState, ps: seq<PokemonListItem>, loading: bool, full: bool, err: Option<string>)
    ensures SetLoading(SetPokemons(s, ps), loading) == SetPokemons(SetLoading(s, loading), ps)
    ensures SetFullyLoaded(SetLoading(s, loading), full) == SetLoading(SetFullyLoaded(s, full), loading)
    ensures SetError(SetFullyLoaded(s, full), err) == SetFullyLoaded(SetError(s, err), full)
    ensures SetPokemons(s, ps).pokemons == ps && SetPokemons(SetPokemons(s, []), ps) == SetPokemons(s, ps)
    ensures SetLoading(s, loading).(isLoading := s.isLoading) == s
    ensures SetFullyLoaded(s, full).(isFullyLoaded := s.isFullyLoaded) == s
    ensures SetError(s, err).(error := s.error) == s
  {
  }
}
