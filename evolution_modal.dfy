/** The older chain view of `src/components/EvolutionModal.tsx`: it loads the
    evolution chain of one species itself and shows name and sprite per stage. */
module EvolutionModal {
  import opened Common
  import opened Text
  import opened Evolution
  import opened Urls
  import opened PokemonStore
  import opened Selectors
  import DetailsLoader

  /** One shown stage: `{ name, sprite }`. */
  datatype ChainEntry = ChainEntry(name: string, sprite: string)

  /** The entry for one node: the sprite is built from the captured digit
      text as it stands, and is `""` when the URL has no `/digits/` suffix. */
  function EntryOf(node: EvoNode): (e: ChainEntry)
    ensures e.name == node.speciesName
    ensures (exists i :: SuffixMatchAt(node.speciesUrl, i)) ==> e.sprite == SpriteUrl(TrailingDigits(node.speciesUrl).value)
    ensures (forall i :: !SuffixMatchAt(node.speciesUrl, i)) ==> e.sprite == ""
  {
    match TrailingDigits(node.speciesUrl)
    case Some(ds) => ChainEntry(node.speciesName, SpriteUrl(ds))
    case None => ChainEntry(node.speciesName, "")
  }

  /** The `while (node)` loop over `evoRes.chain`. */
  method ExtractChain(start: Option<EvoNode>) returns (list: seq<ChainEntry>)
    ensures start.None? ==> list == []
    ensures start.Some? ==> (|list| == |Spine(start.value)| &&
      forall i :: 0 <= i < |list| ==> list[i] == EntryOf(Spine(start.value)[i]))
  {
    list := [];
    if start.None? {
      return;
    }
    ghost var spine := Spine(start.value);
    ghost var k := 0;
    var node := start;
    while node.Some?
      invariant 0 <= k <= |spine|
      invariant node == if k < |spine| then Some(spine[k]) else None
      invariant |list| == k && forall i :: 0 <= i < k ==> list[i] == EntryOf(spine[i])
      decreases |spine| - k
    {
      var n := node.value;
      list := list + [EntryOf(n)];
      node := if |n.evolvesTo| > 0 then Some(n.evolvesTo[0]) else None;
      k := k + 1;
    }
  }

  /** What the three requests deliver. `speciesUrl` is `None` when the query
      throws or the pokemon has no species URL; `Failed` is a request or a
      JSON parse that throws; `Fetched(None)` is a reply without the URL or chain. */
  datatype ModalResponses = ModalResponses(
    speciesUrl: Option<string>,
    species: Fetch<Option<string>>,
    evolution: Fetch<Option<EvoNode>>)

  /** The component state, with the effect's `mounted` flag. */
  class ChainView {
    var loading: bool
    var chain: seq<ChainEntry>
    var mounted: bool

    /** First render: loading, nothing to show, effect running. */
    constructor ()
      ensures loading && chain == [] && mounted
    {
      loading := true;
      chain := [];
      mounted := true;
    }

    /** The effect's cleanup. */
    method Unmount()
      modifies this
      ensures !mounted && loading == old(loading) && chain == old(chain)
    {
      mounted := false;
    }

    /** The effect's async body once its requests have settled: every path
      ends loading, the fallbacks with an empty chain, and nothing is set
      once the component is unmounted. */
    method Resolve(r: ModalResponses)
      modifies this
      ensures mounted == old(mounted)
      ensures !old(mounted) ==> loading == old(loading) && chain == old(chain)
      ensures old(mounted) ==> !loading
      ensures old(mounted) && (!Truthy(r.speciesUrl) || r.species.Failed? || r.evolution.Failed?) ==> chain == []
      ensures old(mounted) && r.species.Fetched? && !Truthy(r.species.value) ==> chain == []
      ensures (old(mounted) && Truthy(r.speciesUrl) && r.species.Fetched? && Truthy(r.species.value)
        && r.evolution.Fetched?) ==>
        match r.evolution.value
        case None => chain == []
        case Some(root) => |chain| == |Spine(root)| && forall i :: 0 <= i < |chain| ==> chain[i] == EntryOf(Spine(root)[i])
    {
      if !Truthy(r.speciesUrl) || r.species.Failed? {
        if mounted { chain := []; loading := false; }
        return;
      }
      if !Truthy(r.species.value) {
        if mounted { chain := []; loading := false; }
        return;
      }
      if r.evolution.Failed? {
        if mounted { chain := []; loading := false; }
        return;
      }
      var list := ExtractChain(r.evolution.value);
      if mounted {
        chain := list;
        loading := false;
      }
    }
  }

  /** Both chain loaders build the same sprite for a canonical id, but this
      view keeps leading zeros of the digit text, which `parseInt` drops. */
  lemma SpriteAgreesWithDetailsLoader(prefix: string, n: nat, name: string)
    ensures var node := EvoNode(name, prefix + "/" + NatToString(n) + "/", []);
      EntryOf(node).sprite == DetailsLoader.LinkOf(node).sprite
  {
    ParseSpeciesIdOfUrl(prefix, n);
  }

  lemma SpriteKeepsLeadingZeros(name: string)
    ensures var node := EvoNode(name, "/007/", []);
      EntryOf(node).sprite == SpriteUrl("007") && DetailsLoader.LinkOf(node).sprite == SpriteUrl("7")
  {
    var url := "/007/";
    assert SuffixMatchAt(url, 0);
    assert url[1..4] == "007";
    assert DigitsValue("007") == 7 by {
      assert "007"[..2] == "00" && "00"[..1] == "0" && "0"[..0] == "";
    }
    assert NatToString(7) == "7";
  }

  /** `caught.some(c => c.name === p.name)`: exact, case-sensitive. The newer
      evolution panel computes its `isCaught` with the same expression. */
  function IsCaught(caught: Collection, name: string): (b: bool)
    ensures b <==> exists i :: 0 <= i < |caught| && caught[i].pokemon.name == name
  {
    FindIndex(caught, (c: CaughtEntry) => c.pokemon.name == name) >= 0
  }

  /** The exact-name flag implies the lower-cased flag the newer search view
      uses; the converse fails when the cases differ. */
  lemma IsCaughtImpliesInCaughtSet(caught: Collection, name: string)
    requires IsCaught(caught, name)
    ensures Lower(name) in CaughtSet(caught)
  {
  }

  lemma CaughtSetDoesNotImplyIsCaught(p: Pokemon)
    requires p.name == "Pikachu"
    ensures !IsCaught([CaughtEntry(p, 1, 0)], "pikachu")
    ensures "pikachu" in CaughtSet([CaughtEntry(p, 1, 0)])
  {
    var c := [CaughtEntry(p, 1, 0)];
    assert Lower(c[0].pokemon.name) == "pikachu";
  }
}
