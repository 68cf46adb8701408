/** `useLoadPokemonList` of `src/hooks/useLoadPokemonList.ts`: it fills the
    catalogue store from the list query, loads every item's details, and
    reports progress through `pokemon-loading-progress` events. */
module ListLoader {
  import opened Common
  import opened ListStore
  import DetailsLoader

  /** One entry of `data.pokemons.results`. */
  datatype ListResult = ListResult(id: int, name: string, image: string)

  /** `results.map(p => ({ ...p, isLoaded: false }))`. */
  function InitialItems(results: seq<ListResult>): (items: seq<PokemonListItem>)
    ensures |items| == |results|
    ensures forall i :: 0 <= i < |results| ==>
      items[i].id == results[i].id && items[i].name == results[i].name && items[i].image == results[i].image
      && items[i].isLoaded == Some(false)
      && items[i].sprites.None? && items[i].species.None? && items[i].evolutionChain.None?
      && items[i].stage.None? && items[i].catchChance.None?
  {
    seq(|results|, i requires 0 <= i < |results| =>
      PokemonListItem(results[i].id, results[i].name, results[i].image, None, None, None, None, Some(false), None))
  }

  /** `Math.min(90, Math.round((loaded / total) * 90))`, on exact rationals:
      `Math.round(x)` is `floor(x + 1/2)`, and `floor((180 * loaded + total) / (2 * total))`
      is that for `x = 90 * loaded / total`. */
  function Progress(loaded: nat, total: nat): (p: int)
    requires total > 0
    ensures 0 <= p <= 90
    ensures loaded >= total ==> p == 90
    ensures p * 2 * total <= 180 * loaded + total
    ensures p < 90 ==> 180 * loaded + total < (p + 1) * 2 * total
  {
    var q := (180 * loaded + total) / (2 * total);
    RoundedShare(loaded, total, q);
    Min(90, q)
  }

  /** `q` is the rounded share; capped at 90 it keeps both rounding bounds. */
  lemma RoundedShare(loaded: nat, total: nat, q: int)
    requires total > 0 && q == (180 * loaded + total) / (2 * total)
    ensures 0 <= Min(90, q) <= 90
    ensures loaded >= total ==> Min(90, q) == 90
    ensures Min(90, q) * 2 * total <= 180 * loaded + total
    ensures Min(90, q) < 90 ==> 180 * loaded + total < (Min(90, q) + 1) * 2 * total
  {
    var x, d := 180 * loaded + total, 2 * total;
    var p := Min(90, q);
    DivBounds(x, d);
    assert loaded >= total ==> x >= 90 * d;
    MulCancel(90, q + 1, d);
    MulMono(p, q, d);
    assert p * 2 * total == p * d;
    assert (p + 1) * 2 * total == (p + 1) * d;
  }

  /** The quotient brackets the dividend. */
  lemma DivBounds(x: nat, d: nat)
    requires d > 0
    ensures (x / d) * d <= x < (x / d + 1) * d
  {
  }

  lemma MulCancel(a: int, b: int, d: nat)
    requires d > 0
    ensures a * d < b * d ==> a < b
  {
    assert a >= b ==> (a - b) * d >= 0;
  }

  lemma MulMono(a: int, b: int, d: nat)
    requires a <= b
    ensures a * d <= b * d
  {
    assert (b - a) * d >= 0;
  }

  /** The reported progress never goes down as completions come in. */
  lemma ProgressMonotone(a: nat, b: nat, total: nat)
    requires total > 0 && a <= b
    ensures Progress(a, total) <= Progress(b, total)
  {
    DivMonotone(180 * a + total, 180 * b + total, 2 * total);
  }

  lemma DivMonotone(x: nat, y: nat, d: nat)
    requires d > 0 && x <= y
    ensures x / d <= y / d
  {
    var qx, qy := x / d, y / d;
    assert qx * d <= x;
    assert y < (qy + 1) * d;
    assert qx * d < (qy + 1) * d;
  }

  /** Progress of a half-way list, for 251 items (the query's `limit`). */
  lemma ProgressExamples()
    ensures Progress(0, 251) == 0 && Progress(1, 251) == 0 && Progress(2, 251) == 1 && Progress(3, 251) == 1
    ensures Progress(125, 251) == 45 && Progress(251, 251) == 90
  {
  }

  /** The progress events the first `m` mounted completions dispatch. */
  function Progresses(m: nat, total: nat): (ps: seq<int>)
    requires m == 0 || total > 0
    ensures |ps| == m
    ensures forall i :: 0 <= i < m ==> ps[i] == Progress(i + 1, total)
  {
    seq(m, i requires 0 <= i < m => Progress(i + 1, total))
  }

  /** One more mounted completion dispatches one more event. */
  lemma ProgressesSnoc(m: nat, total: nat)
    requires total > 0
    ensures Progresses(m + 1, total) == Progresses(m, total) + [Progress(m + 1, total)]
  {
  }

  /** The progress events are non-decreasing and end at 90 on a full run. */
  lemma ProgressesSorted(m: nat, total: nat)
    requires total > 0
    ensures forall i, j :: 0 <= i <= j < m ==> Progresses(m, total)[i] <= Progresses(m, total)[j]
    ensures m == total ==> Progresses(m, total)[m - 1] == 90
  {
    forall i, j | 0 <= i <= j < m ensures Progresses(m, total)[i] <= Progresses(m, total)[j] {
      ProgressMonotone(i + 1, j + 1, total);
    }
  }

  /** Every item not yet loaded is still the initial item, and no completed
      load had its id. */
  predicate UnloadedUntouched(ps: seq<PokemonListItem>, items: seq<PokemonListItem>, j: int)
    requires |ps| == |items| && 0 <= j <= |items|
  {
    forall t :: 0 <= t < |ps| && ps[t].isLoaded != Some(true) ==>
      ps[t] == items[t] && forall i :: 0 <= i < j ==> items[i].id != items[t].id
  }

  /** A loaded update for item `j` loads every item with its id and touches
      no other unloaded item. */
  lemma UpdateLoadsTarget(ps: seq<PokemonListItem>, items: seq<PokemonListItem>, j: int, data: Patch)
    requires |ps| == |items| && 0 <= j < |items|
    requires data.isLoaded == Put(Some(true))
    requires UnloadedUntouched(ps, items, j)
    ensures UnloadedUntouched(UpdateItems(ps, items[j].id, data), items, j + 1)
  {
    var qs := UpdateItems(ps, items[j].id, data);
    forall t | 0 <= t < |qs| && qs[t].isLoaded != Some(true)
      ensures qs[t] == items[t] && forall i :: 0 <= i < j + 1 ==> items[i].id != items[t].id
    {
      assert ps[t].id != items[j].id;
    }
  }

  /** Once every completion has run, no item is left unloaded. */
  lemma AllLoaded(ps: seq<PokemonListItem>, items: seq<PokemonListItem>)
    requires |ps| == |items| && UnloadedUntouched(ps, items, |items|)
    ensures forall t :: 0 <= t < |ps| ==> ps[t].isLoaded == Some(true)
  {
    forall t | 0 <= t < |ps| ensures ps[t].isLoaded == Some(true) {
      var id := items[t].id;
      assert ps[t].isLoaded != Some(true) ==> id != id;
    }
  }

  /** One `loadPokemonDetails(p)` of an item not yet loaded: it always
      produces an update, and the update marks the item loaded. */
  method LoadDetails(item: PokemonListItem, r: DetailsLoader.DetailsResponses) returns (data: Patch)
    requires item.isLoaded != Some(true)
    ensures data.isLoaded == Put(Some(true))
  {
    var update := DetailsLoader.LoadPokemonDetails(item, r);
    data := update.value;
  }

  /** The catalogue store and the events dispatched on `window`. */
  class Loader {
    var store: ListState
    var events: seq<int>

    constructor (initial: ListState)
      ensures store == initial && events == []
    {
      store := initial;
      events := [];
    }

    /** The first effect: `setLoading(true)`. */
    method MountEffect()
      modifies this
      ensures store == SetLoading(old(store), true) && events == old(events)
    {
      store := SetLoading(store, true);
    }

    /** The error effect: a query error is recorded and ends loading;
        no error clears the recorded one. */
    method ErrorEffect(error: Option<string>)
      modifies this
      ensures events == old(events)
      ensures error.Some? ==> store == SetFullyLoaded(SetError(old(store), error), true)
      ensures error.None? ==> store == SetError(old(store), None)
    {
      if error.Some? {
        store := SetError(store, error);
        store := SetFullyLoaded(store, true);
      } else {
        store := SetError(store, None);
      }
    }

    /** `loadAllData()`: `responses` gives what the requests of one item's
        detail load deliver, completions arrive in list order, and the
        component unmounts after `unmountAt` completions (never, when that
        exceeds the list length; for an empty list, `unmountAt = 0` is an
        unmount during `await Promise.all([])`). Details still land in the store after
        unmounting; progress, the final 100 and the flags do not. */
    method LoadAll(results: Option<seq<ListResult>>, responses: PokemonListItem -> DetailsLoader.DetailsResponses, unmountAt: nat)
      modifies this
      ensures results.None? ==> store == old(store) && events == old(events)
      ensures results.Some? ==> var total := |results.value|;
        && |store.pokemons| == total
        && (forall t :: 0 <= t < total ==> store.pokemons[t].isLoaded == Some(true))
        && events == old(events) + Progresses(Min(unmountAt, total), total) + (if unmountAt > total then [100] else [])
        && store.error == old(store.error)
        && (unmountAt > total ==> store.isFullyLoaded && !store.isLoading)
        && (unmountAt <= total ==> store.isFullyLoaded == old(store.isFullyLoaded) && store.isLoading == old(store.isLoading))
    {
      if results.None? {
        return;
      }
      var items := InitialItems(results.value);
      store := SetPokemons(store, items);
      var total := |items|;
      var loaded: nat := 0;
      var j := 0;
      while j < total
        invariant 0 <= j <= total && loaded == Min(j, unmountAt)
        invariant |store.pokemons| == total
        invariant store.error == old(store.error)
        invariant store.isFullyLoaded == old(store.isFullyLoaded) && store.isLoading == old(store.isLoading)
        invariant UnloadedUntouched(store.pokemons, items, j)
        invariant events == old(events) + Progresses(loaded, total)
      {
        var data := LoadDetails(items[j], responses(items[j]));
        UpdateLoadsTarget(store.pokemons, items, j, data);
        store := UpdatePokemon(store, items[j].id, data);
        if j + 1 <= unmountAt {
          ProgressesSnoc(loaded, total);
          events := events + [Progress(loaded + 1, total)];
          loaded := loaded + 1;
        }
        j := j + 1;
      }
      AllLoaded(store.pokemons, items);
      if unmountAt <= total {
        return;
      }
      events := events + [100];
      store := SetFullyLoaded(store, true);
      store := SetLoading(store, false);
    }
  }
}
