/** The derived selector of `src/store/selectors.ts`. */
module Selectors {
  import opened Text
  import opened PokemonStore

  /** `useCaughtSet`: `new Set(caught.map(c => c.name.toLowerCase()))`. */
  function CaughtSet(caught: Collection): (r: set<string>)
    ensures forall n :: n in r <==> exists i :: 0 <= i < |caught| && Lower(caught[i].pokemon.name) == n
    ensures |r| <= |caught|
    ensures caught == [] ==> r == {}
  {
    if |caught| == 0 then {}
    else
      var init := caught[..|caught| - 1];
      var last := Lower(caught[|caught| - 1].pokemon.name);
      assert forall i :: 0 <= i < |init| ==> init[i] == caught[i];
      CaughtSet(init) + {last}
  }

  /** Every member of the set is already lower case. */
  lemma CaughtSetIsLowerCase(caught: Collection, n: string)
    requires n in CaughtSet(caught)
    ensures Lower(n) == n
  {
    var i :| 0 <= i < |caught| && Lower(caught[i].pokemon.name) == n;
    LowerIdempotent(caught[i].pokemon.name);
  }

  /** The set depends on the entries' names alone: counts and stages do not matter. */
  lemma CaughtSetOfSameNames(a: Collection, b: Collection)
    requires |a| == |b| && forall i :: 0 <= i < |a| ==> a[i].pokemon.name == b[i].pokemon.name
    ensures CaughtSet(a) == CaughtSet(b)
  {
    forall n ensures n in CaughtSet(a) <==> n in CaughtSet(b) {
      if n in CaughtSet(a) {
        var i :| 0 <= i < |a| && Lower(a[i].pokemon.name) == n;
        assert Lower(b[i].pokemon.name) == n;
      }
      if n in CaughtSet(b) {
        var i :| 0 <= i < |b| && Lower(b[i].pokemon.name) == n;
        assert Lower(a[i].pokemon.name) == n;
      }
    }
  }
}
