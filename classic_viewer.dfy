/** The older Pokédex viewer of `src/components/PokedexViewer.tsx`: cyclic
    navigation over the caught collection, the index-resync effect, and the
    power-gated delete. */
module ClassicViewer {
  import opened PokemonStore

  /** `i ? i - 1 : len - 1`. */
  function PrevIndex(i: int, len: int): (j: int)
    ensures i != 0 ==> j == i - 1
    ensures i == 0 ==> j == len - 1
  {
    if i != 0 then i - 1 else len - 1
  }

  /** `i === len - 1 ? 0 : i + 1`. */
  function NextIndex(i: int, len: int): (j: int)
    ensures i == len - 1 ==> j == 0
    ensures i != len - 1 ==> j == i + 1
  {
    if i == len - 1 then 0 else i + 1
  }

  /** Both steps stay in range and undo each other. */
  lemma PrevNextInverse(i: int, len: int)
    requires 0 <= i < len
    ensures 0 <= PrevIndex(i, len) < len && 0 <= NextIndex(i, len) < len
    ensures NextIndex(PrevIndex(i, len), len) == i
    ensures PrevIndex(NextIndex(i, len), len) == i
  {
  }

  /** `k` presses of next. */
  function NextTimes(i: int, len: int, k: nat): int {
    if k == 0 then i else NextIndex(NextTimes(i, len, k - 1), len)
  }

  /** The remainder is determined by any quotient-remainder split. */
  lemma ModUnique(x: int, len: int, q: int, r: int)
    requires len > 0 && x == q * len + r && 0 <= r < len
    ensures x % len == r
  {
    var q0, r0 := x / len, x % len;
    var d := q - q0;
    assert d * len == r0 - r;
    assert d >= 1 ==> d * len >= len;
    assert d <= -1 ==> d * len <= -len;
  }

  /** One press of next is one step forward modulo the length. */
  lemma NextIsModStep(x: int, len: int)
    requires x >= 0 && len > 0
    ensures NextIndex(x % len, len) == (x + 1) % len
  {
    var q, r := x / len, x % len;
    if r == len - 1 {
      ModUnique(x + 1, len, q + 1, 0);
    } else {
      ModUnique(x + 1, len, q, r + 1);
    }
  }

  /** `k` presses of next move `k` places forward, cyclically; `len` presses
      return to the start. */
  lemma {:induction false} NextTimesIsRotation(i: int, len: int, k: nat)
    requires 0 <= i < len
    ensures NextTimes(i, len, k) == (i + k) % len
  {
    if k == 0 {
      ModUnique(i, len, 0, i);
    } else {
      NextTimesIsRotation(i, len, k - 1);
      NextIsModStep(i + k - 1, len);
    }
  }

  lemma FullCycle(i: int, len: int)
    requires 0 <= i < len
    ensures NextTimes(i, len, len) == i
  {
    NextTimesIsRotation(i, len, len);
    ModUnique(i + len, len, 1, i);
  }

  /** The viewer's state, with the caught collection it shows. */
  class Viewer {
    var caught: Collection
    var idx: int
    var prevLen: nat
    var power: bool

    constructor (caught0: Collection)
      ensures caught == caught0 && idx == 0 && prevLen == 0 && !power
    {
      caught := caught0;
      idx := 0;
      prevLen := 0;
      power := false;
    }

    /** The collection changed elsewhere (a catch). */
    method StoreChanged(c: Collection)
      modifies this
      ensures caught == c && idx == old(idx) && prevLen == old(prevLen) && power == old(power)
    {
      caught := c;
    }

    method TogglePower()
      modifies this
      ensures power == !old(power) && caught == old(caught) && idx == old(idx) && prevLen == old(prevLen)
    {
      power := !power;
    }

    /** The effect on `[caught.length, idx]`: a grown list shows its last
        entry, an index past the end is clamped, an empty list resets to 0. */
    method Resync()
      modifies this
      ensures caught == old(caught) && power == old(power) && prevLen == |caught|
      ensures |caught| > old(prevLen) ==> idx == |caught| - 1
      ensures |caught| <= old(prevLen) && old(idx) >= |caught| > 0 ==> idx == |caught| - 1
      ensures |caught| == 0 ==> idx == 0
      ensures |caught| <= old(prevLen) && 0 <= old(idx) < |caught| ==> idx == old(idx)
      ensures old(idx) >= 0 && |caught| > 0 ==> 0 <= idx < |caught|
    {
      if |caught| > prevLen {
        idx := |caught| - 1;
      } else if idx >= |caught| && |caught| > 0 {
        idx := |caught| - 1;
      } else if |caught| == 0 {
        idx := 0;
      }
      prevLen := |caught|;
    }

    /** The previous button: only with the power on and something caught. */
    method Prev()
      modifies this
      ensures power && |caught| > 0 ==> idx == PrevIndex(old(idx), |caught|)
      ensures !(power && |caught| > 0) ==> idx == old(idx)
      ensures caught == old(caught) && prevLen == old(prevLen) && power == old(power)
    {
      if power && |caught| > 0 {
        idx := PrevIndex(idx, |caught|);
      }
    }

    /** The next button. */
    method Next()
      modifies this
      ensures power && |caught| > 0 ==> idx == NextIndex(old(idx), |caught|)
      ensures !(power && |caught| > 0) ==> idx == old(idx)
      ensures caught == old(caught) && prevLen == old(prevLen) && power == old(power)
    {
      if power && |caught| > 0 {
        idx := NextIndex(idx, |caught|);
      }
    }

    /** The delete button: `removeOne(cur.id)` for the shown entry. With no
        entry at `idx`, `cur!.id` throws before the store is called. */
    method Delete()
      modifies this
      ensures power && 0 <= old(idx) < |old(caught)| ==> caught == RemoveOne(old(caught), old(caught)[old(idx)].Id())
      ensures !(power && 0 <= old(idx) < |old(caught)|) ==> caught == old(caught)
      ensures idx == old(idx) && prevLen == old(prevLen) && power == old(power)
    {
      if power && |caught| > 0 && 0 <= idx < |caught| {
        caught := RemoveOne(caught, caught[idx].Id());
      }
    }
  }

  /** Deleting the last copy of the shown entry, then resyncing, keeps the
      index on the collection. */
  method DeleteThenResync(v: Viewer)
    requires v.power && Valid(v.caught) && 0 <= v.idx < |v.caught| && v.prevLen == |v.caught|
    modifies v
    ensures Valid(v.caught) && |v.caught| <= old(|v.caught|)
    ensures |v.caught| > 0 ==> 0 <= v.idx < |v.caught|
    ensures |v.caught| == 0 ==> v.idx == 0
  {
    RemoveKeepsValid(v.caught, v.caught[v.idx].Id());
    v.Delete();
    v.Resync();
  }
}
