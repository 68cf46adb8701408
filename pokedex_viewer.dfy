/** The newer Pokédex viewer of `src/components/pokedex/PokedexViewer.tsx`:
    the focus effect that jumps to an evolved or just-caught entry, keeps the
    index on the list, and follows the shown entry when the list shrinks;
    and navigation that clears both markers. */
module PokedexViewer {
  import opened Common
  import opened PokemonStore
  import opened ClassicViewer

  /** `caught.findIndex(p => p.id === id && p.stage === stage)`. */
  function SameEntryIndex(caught: Collection, id: int, stage: int): (k: int)
    ensures -1 <= k < |caught|
    ensures k == -1 <==> forall i :: 0 <= i < |caught| ==> !(caught[i].Id() == id && caught[i].stage == stage)
    ensures 0 <= k ==> caught[k].Id() == id && caught[k].stage == stage
  {
    FindIndex(caught, (c: CaughtEntry) => c.Id() == id && c.stage == stage)
  }

  /** With unique ids, the entry at `k` is found at `k` again. */
  lemma SameEntryIsItself(caught: Collection, k: int)
    requires UniqueIds(caught) && 0 <= k < |caught|
    ensures SameEntryIndex(caught, caught[k].Id(), caught[k].stage) == k
  {
    UniqueAt(caught, k);
  }

  /** The viewer's state. `evolvedPokemonId` and `lastCaughtId` are the
      collection store's markers, which the viewer reads and clears. */
  class Viewer {
    var caught: Collection
    var idx: int
    var prevLen: nat
    var power: bool
    var evolvedPokemonId: Option<int>
    var lastCaughtId: Option<int>

    constructor (caught0: Collection, evolved0: Option<int>, lastCaught0: Option<int>)
      ensures caught == caught0 && idx == 0 && prevLen == 0 && !power
      ensures evolvedPokemonId == evolved0 && lastCaughtId == lastCaught0
    {
      caught := caught0;
      idx := 0;
      prevLen := 0;
      power := false;
      evolvedPokemonId := evolved0;
      lastCaughtId := lastCaught0;
    }

    /** The store changed elsewhere: a catch, an evolution, a release. */
    method StoreChanged(c: Collection, evolved: Option<int>, lastCaught: Option<int>)
      modifies this
      ensures caught == c && evolvedPokemonId == evolved && lastCaughtId == lastCaught
      ensures idx == old(idx) && prevLen == old(prevLen) && power == old(power)
    {
      caught := c;
      evolvedPokemonId := evolved;
      lastCaughtId := lastCaught;
    }

    method TogglePower()
      modifies this
      ensures power == !old(power)
      ensures caught == old(caught) && idx == old(idx) && prevLen == old(prevLen)
      ensures evolvedPokemonId == old(evolvedPokemonId) && lastCaughtId == old(lastCaughtId)
    {
      power := !power;
    }

    /** Whether the evolved marker names an entry of the list. */
    predicate EvolvedFound()
      reads this
    {
      evolvedPokemonId.Some? && IndexOf(caught, evolvedPokemonId.value) != -1
    }

    predicate LastCaughtFound()
      reads this
    {
      lastCaughtId.Some? && IndexOf(caught, lastCaughtId.value) != -1
    }

    /** The selection effect on `[caught, idx, evolvedPokemonId, lastCaughtId]`. */
    method FocusEffect()
      modifies this
      ensures caught == old(caught) && power == old(power)
      // empty list
      ensures |caught| == 0 ==> (idx == 0 && prevLen == 0 &&
        evolvedPokemonId == old(evolvedPokemonId) && lastCaughtId == old(lastCaughtId))
      // the evolved entry wins and both markers are cleared
      ensures |caught| > 0 && old(EvolvedFound()) ==>
        idx == IndexOf(caught, old(evolvedPokemonId).value) && evolvedPokemonId == None && lastCaughtId == None
        && prevLen == old(prevLen)
      // then the just-caught entry, clearing only its marker
      ensures |caught| > 0 && !old(EvolvedFound()) && old(LastCaughtFound()) ==>
        idx == IndexOf(caught, old(lastCaughtId).value) && lastCaughtId == None
        && evolvedPokemonId == old(evolvedPokemonId) && prevLen == old(prevLen)
      // otherwise the markers stay and the index is kept on the list
      ensures |caught| > 0 && !old(EvolvedFound()) && !old(LastCaughtFound()) ==>
        evolvedPokemonId == old(evolvedPokemonId) && lastCaughtId == old(lastCaughtId)
      ensures |caught| > 0 && !old(EvolvedFound()) && !old(LastCaughtFound()) && old(idx) >= |caught| ==>
        idx == |caught| - 1 && prevLen == |caught|
      ensures |caught| > 0 && !old(EvolvedFound()) && !old(LastCaughtFound()) && 0 <= old(idx) < |caught| ==>
        prevLen == |caught|
        && (|caught| >= old(prevLen) ==> idx == old(idx))
        && (|caught| < old(prevLen) ==>
             var k := SameEntryIndex(caught, caught[old(idx)].Id(), caught[old(idx)].stage);
             idx == if k != -1 then k else Min(old(idx), |caught| - 1))
      ensures |caught| > 0 && old(idx) >= 0 ==> 0 <= idx < |caught|
    {
      if |caught| == 0 {
        idx := 0;
        prevLen := 0;
        return;
      }
      if evolvedPokemonId.Some? {
        var evolvedIndex := IndexOf(caught, evolvedPokemonId.value);
        if evolvedIndex != -1 {
          idx := evolvedIndex;
          evolvedPokemonId := None;
          lastCaughtId := None;
          return;
        }
      }
      if lastCaughtId.Some? {
        var newIdx := IndexOf(caught, lastCaughtId.value);
        if newIdx != -1 {
          idx := newIdx;
          lastCaughtId := None;
          return;
        }
      }
      if idx >= |caught| {
        idx := |caught| - 1;
      } else if |caught| < prevLen {
        if !(0 <= idx < |caught|) {
          // `caught[idx]` is undefined
          idx := Min(idx, |caught| - 1);
          return;
        }
        var current := caught[idx];
        var samePokemonIndex := SameEntryIndex(caught, current.Id(), current.stage);
        if samePokemonIndex != -1 {
          idx := samePokemonIndex;
        } else {
          idx := Min(idx, |caught| - 1);
        }
      }
      prevLen := |caught|;
    }

    /** The previous button: wraps around and clears both markers. */
    method Prev()
      modifies this
      ensures power && |caught| > 0 ==> idx == PrevIndex(old(idx), |caught|) && evolvedPokemonId == None && lastCaughtId == None
      ensures !(power && |caught| > 0) ==> (idx == old(idx) &&
        evolvedPokemonId == old(evolvedPokemonId) && lastCaughtId == old(lastCaughtId))
      ensures caught == old(caught) && prevLen == old(prevLen) && power == old(power)
    {
      if power && |caught| > 0 {
        idx := PrevIndex(idx, |caught|);
        evolvedPokemonId := None;
        lastCaughtId := None;
      }
    }

    /** The next button: wraps around and clears both markers. */
    method Next()
      modifies this
      ensures power && |caught| > 0 ==> idx == NextIndex(old(idx), |caught|) && evolvedPokemonId == None && lastCaughtId == None
      ensures !(power && |caught| > 0) ==> (idx == old(idx) &&
        evolvedPokemonId == old(evolvedPokemonId) && lastCaughtId == old(lastCaughtId))
      ensures caught == old(caught) && prevLen == old(prevLen) && power == old(power)
    {
      if power && |caught| > 0 {
        idx := NextIndex(idx, |caught|);
        evolvedPokemonId := None;
        lastCaughtId := None;
      }
    }
  }

  /** With unique ids and the index on the list, the shrink branch keeps the
      index: the shown entry is found where it is, and the `Math.min`
      fallback is never taken. */
  method ShrinkKeepsIndex(v: Viewer)
    requires |v.caught| > 0 && UniqueIds(v.caught) && 0 <= v.idx < |v.caught| && |v.caught| < v.prevLen
    requires !v.EvolvedFound() && !v.LastCaughtFound()
    modifies v
    ensures v.idx == old(v.idx) && v.prevLen == |v.caught|
  {
    SameEntryIsItself(v.caught, v.idx);
    v.FocusEffect();
  }
}
