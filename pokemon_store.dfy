/** The caught collection of `src/store/pokemonStore.ts`: an ordered sequence
    of caught entries and the three reducers that replace it. */
module PokemonStore {
  import opened Common

  /** The `sprites` object: `front_default` is `None` when it is `null`. */
  datatype Sprites = Sprites(frontDefault: Option<string>)

  /** The `species` object: `url` is `None` when it is `null`. */
  datatype Species = Species(url: Option<string>)

  /** A Pokémon as the catalogue returns it: id, name, and the `sprites` and
      `species` objects. */
  datatype Pokemon = Pokemon(id: int, name: string, sprites: Sprites, species: Species)

  /** `CaughtEntry extends Pokemon`: the Pokémon plus how many copies were
      caught and the evolution stage stored with the first catch. */
  datatype CaughtEntry = CaughtEntry(pokemon: Pokemon, count: int, stage: int) {
    function Id(): int { pokemon.id }
  }

  type Collection = seq<CaughtEntry>

  predicate HasId(caught: Collection, id: int) {
    exists i :: 0 <= i < |caught| && caught[i].Id() == id
  }

  predicate UniqueIds(caught: Collection) {
    forall i, j :: 0 <= i < j < |caught| ==> caught[i].Id() != caught[j].Id()
  }

  predicate PositiveCounts(caught: Collection) {
    forall i :: 0 <= i < |caught| ==> caught[i].count >= 1
  }

  /** The collection invariant: no two entries share an id, every count is at least 1. */
  predicate Valid(caught: Collection) {
    UniqueIds(caught) && PositiveCounts(caught)
  }

  /** `caught.findIndex(c => c.id === id)` */
  function IndexOf(caught: Collection, id: int): (k: int)
    ensures -1 <= k < |caught|
    ensures k == -1 <==> !HasId(caught, id)
    ensures 0 <= k ==> caught[k].Id() == id && forall j :: 0 <= j < k ==> caught[j].Id() != id
  {
    FindIndex(caught, (c: CaughtEntry) => c.Id() == id)
  }

  /** `caught.find(c => c.id === id)` */
  function FindEntry(caught: Collection, id: int): (e: Option<CaughtEntry>)
    ensures e.None? <==> !HasId(caught, id)
    ensures e.Some? ==> e.value == caught[IndexOf(caught, id)]
  {
    var k := IndexOf(caught, id);
    if k == -1 then None else Some(caught[k])
  }

  /** `caught.map(c => c.id === id ? { ...c, count: c.count + delta } : c)` */
  function AdjustCount(caught: Collection, id: int, delta: int): (r: Collection)
    ensures |r| == |caught|
    ensures forall i :: 0 <= i < |caught| ==>
      r[i] == if caught[i].Id() == id then caught[i].(count := caught[i].count + delta) else caught[i]
  {
    seq(|caught|, i requires 0 <= i < |caught| =>
      if caught[i].Id() == id then caught[i].(count := caught[i].count + delta) else caught[i])
  }

  /** `caught.filter(c => c.id !== id)`: the entries with another id, in order. */
  function Without(caught: Collection, id: int): (r: Collection)
    ensures |r| <= |caught|
    ensures forall i :: 0 <= i < |r| ==> r[i].Id() != id
  {
    if |caught| == 0 then []
    else if caught[0].Id() == id then Without(caught[1..], id)
    else [caught[0]] + Without(caught[1..], id)
  }

  /** `addPokemon(p, stage)` (src/store/pokemonStore.ts:28-38). */
  function AddPokemon(caught: Collection, p: Pokemon, stage: int): (r: Collection)
    ensures HasId(r, p.id)
    ensures |r| == if HasId(caught, p.id) then |caught| else |caught| + 1
    ensures forall i :: 0 <= i < |caught| ==> r[i].pokemon == caught[i].pokemon && r[i].stage == caught[i].stage
  {
    match FindEntry(caught, p.id)
    case Some(_) =>
      var r := AdjustCount(caught, p.id, 1);
      assert r[IndexOf(caught, p.id)].Id() == p.id;
      r
    case None =>
      var r := caught + [CaughtEntry(p, 1, stage)];
      assert r[|caught|].Id() == p.id;
      r
  }

  /** `removeOne(id)` (src/store/pokemonStore.ts:39-50). */
  function RemoveOne(caught: Collection, id: int): (r: Collection)
    ensures |r| <= |caught|
    ensures !HasId(caught, id) ==> r == caught
    ensures forall e: CaughtEntry :: e.Id() != id ==> (e in r <==> e in caught)
  {
    match FindEntry(caught, id)
    case None => caught
    case Some(e) =>
      if e.count > 1 then AdjustCount(caught, id, -1)
      else
        WithoutMembers(caught, id);
        Without(caught, id)
  }

  /** `clearAll()` (src/store/pokemonStore.ts:51). */
  function ClearAll(): (r: Collection)
    ensures Valid(r) && !exists id :: HasId(r, id)
  {
    []
  }

  /** On a unique-id collection the entry at `k` is the only one with its id. */
  lemma UniqueAt(caught: Collection, k: int)
    requires UniqueIds(caught) && 0 <= k < |caught|
    ensures IndexOf(caught, caught[k].Id()) == k
    ensures forall i :: 0 <= i < |caught| && i != k ==> caught[i].Id() != caught[k].Id()
  {
    var id := caught[k].Id();
    var j := IndexOf(caught, id);
  }

  /** Catching a Pokémon already in the collection adds one to its count and
      to nothing else; its stored stage is kept and the new one ignored. */
  lemma {:induction false} AddExisting(caught: Collection, p: Pokemon, stage: int)
    requires UniqueIds(caught) && HasId(caught, p.id)
    ensures var k := IndexOf(caught, p.id);
      AddPokemon(caught, p, stage) == caught[k := caught[k].(count := caught[k].count + 1)]
  {
    var k := IndexOf(caught, p.id);
    UniqueAt(caught, k);
    var r := AddPokemon(caught, p, stage);
    assert r == AdjustCount(caught, p.id, 1);
    assert forall i :: 0 <= i < |r| ==> r[i] == caught[k := caught[k].(count := caught[k].count + 1)][i];
  }

  /** Catching a new Pokémon appends exactly one entry with count 1 and the
      given stage; the existing entries are unchanged. */
  lemma AddAbsent(caught: Collection, p: Pokemon, stage: int)
    requires !HasId(caught, p.id)
    ensures AddPokemon(caught, p, stage) == caught + [CaughtEntry(p, 1, stage)]
  {
  }

  /** `addPokemon` keeps the collection invariant. */
  lemma {:induction false} AddKeepsValid(caught: Collection, p: Pokemon, stage: int)
    requires Valid(caught)
    ensures Valid(AddPokemon(caught, p, stage))
  {
    var r := AddPokemon(caught, p, stage);
    if HasId(caught, p.id) {
      assert r == AdjustCount(caught, p.id, 1);
      assert forall i :: 0 <= i < |r| ==> r[i].Id() == caught[i].Id() && r[i].count >= caught[i].count;
    } else {
      assert r == caught + [CaughtEntry(p, 1, stage)];
      forall i, j | 0 <= i < j < |r| ensures r[i].Id() != r[j].Id() {
        if j == |caught| {
          assert r[i] == caught[i];
        }
      }
    }
  }

  /** Releasing a Pokémon the collection does not hold changes nothing. */
  lemma RemoveAbsent(caught: Collection, id: int)
    requires !HasId(caught, id)
    ensures RemoveOne(caught, id) == caught
  {
  }

  /** Releasing one of several copies lowers that entry's count by one;
      length, order and every other entry are unchanged. */
  lemma {:induction false} RemoveDecrements(caught: Collection, id: int)
    requires UniqueIds(caught) && HasId(caught, id)
    requires caught[IndexOf(caught, id)].count > 1
    ensures var k := IndexOf(caught, id);
      RemoveOne(caught, id) == caught[k := caught[k].(count := caught[k].count - 1)]
  {
    var k := IndexOf(caught, id);
    UniqueAt(caught, k);
    var r := RemoveOne(caught, id);
    assert r == AdjustCount(caught, id, -1);
    assert forall i :: 0 <= i < |r| ==> r[i] == caught[k := caught[k].(count := caught[k].count - 1)][i];
  }

  /** Filtering out an id that occurs only at `k` removes exactly position `k`. */
  lemma {:induction false} WithoutSingle(caught: Collection, k: int)
    requires 0 <= k < |caught|
    requires forall i :: 0 <= i < |caught| && i != k ==> caught[i].Id() != caught[k].Id()
    ensures Without(caught, caught[k].Id()) == caught[..k] + caught[k + 1..]
  {
    var id := caught[k].Id();
    var rest := caught[1..];
    if k == 0 {
      assert forall i :: 0 <= i < |rest| ==> rest[i] == caught[i + 1];
      WithoutNone(rest, id);
    } else {
      assert rest[k - 1] == caught[k];
      assert forall i :: 0 <= i < |rest| && i != k - 1 ==> rest[i] == caught[i + 1];
      WithoutSingle(rest, k - 1);
      assert [caught[0]] + (rest[..k - 1] + rest[k..]) == caught[..k] + caught[k + 1..];
    }
  }

  /** Filtering out an id that does not occur keeps the collection as it is. */
  lemma {:induction false} WithoutNone(caught: Collection, id: int)
    requires !HasId(caught, id)
    ensures Without(caught, id) == caught
  {
    if |caught| > 0 {
      var rest := caught[1..];
      assert forall i :: 0 <= i < |rest| ==> rest[i] == caught[i + 1];
      assert caught[0].Id() != id;
      WithoutNone(rest, id);
      assert [caught[0]] + rest == caught;
    }
  }

  /** The filter keeps exactly the entries with another id. */
  lemma {:induction false} WithoutMembers(caught: Collection, id: int)
    ensures forall e :: e in Without(caught, id) <==> e in caught && e.Id() != id
  {
    if |caught| > 0 {
      WithoutMembers(caught[1..], id);
      assert forall e :: e in caught <==> e == caught[0] || e in caught[1..];
    }
  }

  /** The filter keeps order: filtering a concatenation filters each part
      and concatenates the results. */
  lemma {:induction false} WithoutAppend(a: Collection, b: Collection, id: int)
    ensures Without(a + b, id) == Without(a, id) + Without(b, id)
  {
    if |a| > 0 {
      assert (a + b)[0] == a[0];
      assert (a + b)[1..] == a[1..] + b;
      WithoutAppend(a[1..], b, id);
    } else {
      assert a + b == b;
    }
  }

  /** Filtering the id of an appended entry that was absent before drops just that entry. */
  lemma {:induction false} WithoutLast(caught: Collection, e: CaughtEntry)
    requires !HasId(caught, e.Id())
    ensures Without(caught + [e], e.Id()) == caught
  {
    var added := caught + [e];
    var k := |caught|;
    assert added[k] == e;
    assert forall i :: 0 <= i < k ==> added[i] == caught[i];
    WithoutSingle(added, k);
    assert added[..k] + added[k + 1..] == caught;
  }

  /** Releasing the last copy deletes the entry and keeps the order of the rest. */
  lemma RemoveDeletes(caught: Collection, id: int)
    requires UniqueIds(caught) && HasId(caught, id)
    requires caught[IndexOf(caught, id)].count <= 1
    ensures var k := IndexOf(caught, id);
      RemoveOne(caught, id) == caught[..k] + caught[k + 1..]
  {
    var k := IndexOf(caught, id);
    UniqueAt(caught, k);
    WithoutSingle(caught, k);
  }

  /** `removeOne` keeps the collection invariant. */
  lemma {:induction false} RemoveKeepsValid(caught: Collection, id: int)
    requires Valid(caught)
    ensures Valid(RemoveOne(caught, id))
  {
    if HasId(caught, id) {
      var k := IndexOf(caught, id);
      UniqueAt(caught, k);
      var r := RemoveOne(caught, id);
      if caught[k].count > 1 {
        assert r == AdjustCount(caught, id, -1);
        assert forall i :: 0 <= i < |r| ==> r[i].Id() == caught[i].Id() && r[i].count >= 1;
      } else {
        RemoveDeletes(caught, id);
        DeleteAtKeepsValid(caught, k);
      }
    }
  }

  /** Deleting one entry keeps the collection invariant. */
  lemma DeleteAtKeepsValid(caught: Collection, k: int)
    requires Valid(caught) && 0 <= k < |caught|
    ensures Valid(caught[..k] + caught[k + 1..])
  {
    var r := caught[..k] + caught[k + 1..];
    assert forall i :: 0 <= i < |r| ==> r[i] == caught[if i < k then i else i + 1];
  }

  /** Catch then release: adding a Pokémon that was absent and removing it
      again restores the collection exactly. */
  lemma CatchThenRelease(caught: Collection, p: Pokemon, stage: int)
    requires !HasId(caught, p.id)
    ensures RemoveOne(AddPokemon(caught, p, stage), p.id) == caught
  {
    var added := caught + [CaughtEntry(p, 1, stage)];
    assert AddPokemon(caught, p, stage) == added;
    assert added[|caught|].Id() == p.id;
    assert forall i :: 0 <= i < |caught| ==> added[i] == caught[i];
    assert IndexOf(added, p.id) == |caught|;
    WithoutLast(caught, CaughtEntry(p, 1, stage));
  }

  /** The operations a caller can perform on the collection. */
  datatype Action = Add(p: Pokemon, stage: int) | Remove(id: int) | Clear

  function Apply(caught: Collection, a: Action): Collection {
    match a
    case Add(p, stage) => AddPokemon(caught, p, stage)
    case Remove(id) => RemoveOne(caught, id)
    case Clear => ClearAll()
  }

  function ApplyAll(caught: Collection, actions: seq<Action>): Collection
    decreases |actions|
  {
    if |actions| == 0 then caught else ApplyAll(Apply(caught, actions[0]), actions[1..])
  }

  /** Every sequence of catches, releases and clears, started from a valid
      collection, ends in a valid collection. */
  lemma {:induction false} ActionsKeepValid(caught: Collection, actions: seq<Action>)
    requires Valid(caught)
    ensures Valid(ApplyAll(caught, actions))
    decreases |actions|
  {
    if |actions| > 0 {
      match actions[0] {
        case Add(p, stage) => AddKeepsValid(caught, p, stage);
        case Remove(id) => RemoveKeepsValid(caught, id);
        case Clear =>
      }
      ActionsKeepValid(Apply(caught, actions[0]), actions[1..]);
    }
  }

  /** Catching the only held species once more raises its count by one. */
  lemma CatchSingleAgain(p: Pokemon, stage: int, k: int)
    ensures AddPokemon([CaughtEntry(p, k, stage)], p, stage) == [CaughtEntry(p, k + 1, stage)]
  {
    var one := [CaughtEntry(p, k, stage)];
    assert one[0].Id() == p.id;
    AddExisting(one, p, stage);
    assert IndexOf(one, p.id) == 0;
  }

  /** Three catches of one Pokémon into an empty collection give one entry with count 3. */
  lemma CatchThreeTimes(p: Pokemon, stage: int)
    ensures ApplyAll([], [Add(p, stage), Add(p, stage), Add(p, stage)]) == [CaughtEntry(p, 3, stage)]
  {
    var one, two, three := [CaughtEntry(p, 1, stage)], [CaughtEntry(p, 2, stage)], [CaughtEntry(p, 3, stage)];
    AddAbsent([], p, stage);
    assert [] + one == one;
    CatchSingleAgain(p, stage, 1);
    CatchSingleAgain(p, stage, 2);
    var acts := [Add(p, stage), Add(p, stage), Add(p, stage)];
    assert Apply([], acts[0]) == one && Apply(one, acts[1..][0]) == two && Apply(two, acts[1..][1..][0]) == three;
    assert acts[1..][1..] == [Add(p, stage)] && acts[1..][1..][1..] == [];
    assert ApplyAll([], acts) == ApplyAll(one, acts[1..]);
    assert ApplyAll(one, acts[1..]) == ApplyAll(two, acts[1..][1..]);
    assert ApplyAll(two, acts[1..][1..]) == ApplyAll(three, []);
  }

  /** Releasing from an empty collection leaves it empty. */
  lemma RemoveFromEmpty(id: int)
    ensures RemoveOne(ClearAll(), id) == []
  {
  }
}
