# Pokémon Catcher — a verified model of its game logic

Pokémon Catcher is a React single-page game. The player searches the
catalogue of species and throws a pokeball at the one they pick. The catch
succeeds with a chance that depends on the species' evolution stage. Caught
Pokémon land in a collection that keeps a count per species; the player
browses it in a Pokédex viewer and can evolve a species once three of it
are held.

This project models the parts of the game that decide things, and proves
what they promise:

- **The caught collection** (`PokemonStore`): `addPokemon`, `removeOne` and
  `clearAll` over a sequence of entries. They keep the collection free of
  duplicate ids with every count at least 1. Catching a new species and
  releasing it again restores the collection exactly.
- **Evolution stages** (`Evolution`, `CatchChance`, `Urls`): the recursive
  `findStage` search over an evolution tree, its preorder "first match wins"
  behaviour, and the first-successor spine that each chain is built from.
  `stageFromId` is written with JavaScript's truncated remainder, which is
  why id 0 maps to stage 2. The `/digits/` id suffix of species URLs is
  parsed by hand.
- **The catalogue store and its loaders** (`ListStore`, `DetailsLoader`,
  `ListLoader`): the partial-record merge `updatePokemon`; the decision tree
  of `loadPokemonDetails` with all of its fallbacks; the list loader's
  progress counter and final flags, including what an unmount in the middle
  of loading leaves dispatched.
- **The screens' state machines**:
  - the search page and its suggestion filter (`Home`);
  - both Pokédex viewers and their cyclic navigation (`ClassicViewer`,
    `PokedexViewer`);
  - both evolution modals (`EvolutionModal`, `EvolutionPanel`);
  - the catch modal's phase sequence (`CatchModal`);
  - both search inputs' pokeball animation and panels (`SearchInput`,
    `SearchPanel`).

The model treats the outside world as follows:

- Network responses are inputs:
  - `Fetch<T>` is either a failed request or a fetched body;
  - `Option` is a value that may be absent;
  - `EvoNode` is an evolution tree.
- `Math.random()` is the `draw` parameter.
- Each `await`, timer and animation frame is a separate step that the caller
  invokes, or a count of steps that run before an unmount.
- Where the source mutates component state or a ref, the model is a class
  whose methods change exactly the fields they name.
- Where the source computes a value, the model is a function.

Some facts the proofs establish that are easy to miss in the source:

- The stage stored on a catch comes from the id: `stageFromId` in
  `src/hooks/useCatchPokemon.ts`, reached through `Home`'s `onCaught` and the
  catch modal's button. It does not come from the evolution tree that the
  details loader searches (`CatchModal.CatchFlow`).
- For an id ≤ 0 the truncated remainder is 0, -1 or -2. The last two both
  give stage 2, so id 0 is stage 2 (`CatchChance.StageFromNonPositiveId`).
- The older evolution modal builds sprites from the raw digit text of the
  URL. The details loader builds them from the parsed number. The two differ
  on leading zeros (`EvolutionModal.SpriteKeepsLeadingZeros`).
- The older modal's `isCaught` compares names exactly, while the caught set
  compares lower-cased names (`EvolutionModal.CaughtSetDoesNotImplyIsCaught`).
- A failed list query marks the list fully loaded. With no items, the home
  page still shows the loading screen (`Home.QueryErrorKeepsLoadingScreen`).
- In the pokeball animation, a blur that arrives before the focus
  animation-frame callback runs is overridden by that callback. The ball ends
  inside the input (`SearchInput.BlurBeforeFrame`).
- An evolution target that is not in the current chain is stored at stage -1
  (`EvolutionPanel.EvolvedIntoNewSpecies`).
- A press anywhere outside the search input's container (the field and its
  suggestion panel) unfocuses it at once, even one inside the page's
  container. Only a press outside the page's container, while suggestions
  show, also requests the frame that hides them
  (`Home.SearchPage.DocumentMouseDown`).
- That frame is not cancelled by a later focus: refocusing the input before
  it runs still ends unfocused with the suggestions hidden
  (`Home.FocusBeforeFrame`).

## Model

| member | source | states |
|---|---|---|
| `Common.FindIndex` | src/components/pokemon/EvolutionModal.tsx:58 | the first index satisfying the predicate, -1 exactly when none does |
| `Text.Lower` | src/store/selectors.ts:24 | `toLowerCase` as ASCII case mapping, character by character, length kept |
| `Text.LowerIdempotent` | src/store/selectors.ts:24 | lower-casing twice is lower-casing once |
| `Text.Trim` | src/pages/Home.tsx:31 | the trimmed string has no white space at either end and is empty exactly when the input is all white space |
| `Text.TrimIsInfix` | src/pages/Home.tsx:31 | the trimmed string is the input with its leading and trailing white space cut off: an infix with only white space before and after it |
| `Text.TrimStart` | src/pages/Home.tsx:31 | removes exactly the leading white space, yielding a suffix of the input |
| `Text.TrimEnd` | src/pages/Home.tsx:31 | removes exactly the trailing white space, yielding a prefix of the input |
| `Text.NatToString` | src/hooks/useLoadPokemonDetails.ts:74 | the decimal text of a number is non-empty and all digits |
| `Text.DigitsValueOfNatToString` | src/hooks/useLoadPokemonDetails.ts:70-74 | parsing the printed number gives the number back |
| `PokemonStore.IndexOf` | src/store/pokemonStore.ts:30 | the first entry with the id, or -1 exactly when there is none |
| `PokemonStore.FindEntry` | src/store/pokemonStore.ts:41 | `find` gives nothing exactly when no entry has the id, otherwise the first entry with it |
| `PokemonStore.AdjustCount` | src/store/pokemonStore.ts:45-47 | the `map` changes the count of the entries with the id by the delta and leaves all others as they are |
| `PokemonStore.Without` | src/store/pokemonStore.ts:49 | no entry with the id survives the `filter`, and the result is no longer than the input |
| `PokemonStore.WithoutMembers` | src/store/pokemonStore.ts:49 | the `filter` keeps exactly the entries with another id: an entry is in the result iff it is in the input with a different id |
| `PokemonStore.WithoutAppend` | src/store/pokemonStore.ts:49 | the `filter` keeps order: filtering a concatenation is the concatenation of the filtered parts |
| `PokemonStore.AddPokemon` | src/store/pokemonStore.ts:28-38 | after `addPokemon` the id is held; the collection grows by one exactly when the id was new; every earlier entry keeps its Pokémon and stage |
| `PokemonStore.RemoveOne` | src/store/pokemonStore.ts:39-50 | `removeOne` never lengthens the collection, changes nothing for an id not held, and keeps exactly the entries with other ids |
| `PokemonStore.AddExisting` | src/store/pokemonStore.ts:30-36 | adding a held id raises only that entry's count by 1; its stored stage is kept and the stage argument ignored |
| `PokemonStore.AddAbsent` | src/store/pokemonStore.ts:37 | adding a new id appends exactly one entry with count 1 and the given stage |
| `PokemonStore.AddKeepsValid` | src/store/pokemonStore.ts:28-38 | adding keeps the ids distinct and every count at least 1 |
| `PokemonStore.RemoveAbsent` | src/store/pokemonStore.ts:41-42 | removing an id that is not held leaves the collection unchanged |
| `PokemonStore.RemoveDecrements` | src/store/pokemonStore.ts:43-48 | removing an id held more than once decrements that count only, keeping length and order |
| `PokemonStore.RemoveDeletes` | src/store/pokemonStore.ts:49 | removing an id held once deletes its entry and keeps the others in order |
| `PokemonStore.RemoveKeepsValid` | src/store/pokemonStore.ts:39-50 | removing keeps the ids distinct and every count at least 1 |
| `PokemonStore.CatchThenRelease` | src/store/pokemonStore.ts:37-49 | catching a species not held and releasing it restores the collection exactly |
| `PokemonStore.ClearAll` | src/store/pokemonStore.ts:51 | the cleared collection holds no id and is valid |
| `PokemonStore.ActionsKeepValid` | src/store/pokemonStore.ts:28-51 | any sequence of adds, removes and clears keeps the collection invariant |
| `PokemonStore.CatchSingleAgain` | src/store/pokemonStore.ts:30-36 | catching the only held species again raises its count by one |
| `PokemonStore.CatchThreeTimes` | src/store/pokemonStore.ts:28-37 | three catches of one species from empty give one entry with count 3 |
| `PokemonStore.RemoveFromEmpty` | src/store/pokemonStore.ts:42 | removing from a cleared collection leaves it empty |
| `PokemonStore.UniqueAt` | src/store/pokemonStore.ts:30 | under distinct ids, looking up an entry's id finds that entry |
| `PokemonStore.WithoutSingle` | src/store/pokemonStore.ts:49 | filtering out an id held by one entry removes just that entry |
| `PokemonStore.WithoutNone` | src/store/pokemonStore.ts:49 | filtering out an id not held removes nothing |
| `PokemonStore.WithoutLast` | src/store/pokemonStore.ts:37-49 | filtering out the id of a newly appended entry gives back the collection before the append |
| `Evolution.FindStage` | src/utils/evolution.ts:6-17 | any stage found is at least the starting depth |
| `Evolution.FindStageIn` | src/utils/evolution.ts:12-15 | the child loop's result is at least the depth |
| `Evolution.FindStageNoneIff` | src/utils/evolution.ts:11-16 | `null` exactly when no node of the tree carries the name |
| `Evolution.FindStageInNoneIff` | src/utils/evolution.ts:12-16 | the child loop gives `null` exactly when no child subtree carries the name |
| `Evolution.FindStageSound` | src/utils/evolution.ts:11-14 | a stage d means a node d − depth levels below the root carries the name |
| `Evolution.FindStageInSound` | src/utils/evolution.ts:12-14 | a child-loop result comes from some child whose subtree has the name at that distance |
| `Evolution.Preorder` | src/utils/evolution.ts:11-13 | the preorder visit list starts with the root at the given depth |
| `Evolution.FirstDepth` | src/utils/evolution.ts:12-15 | a first visit with the name exists exactly when some visit has it |
| `Evolution.FirstDepthAppend` | src/utils/evolution.ts:12-15 | the first match in a concatenation is the first match of the left part when it has one |
| `Evolution.FindStageIsFirstInPreorder` | src/utils/evolution.ts:12-15 | the stage is the depth of the first preorder node with the name: children left to right, first match wins |
| `Evolution.FindStageInIsFirstInPreorder` | src/utils/evolution.ts:12-14 | the mutual half of the preorder characterisation, for the child loop |
| `Evolution.FindStageIsCaseSensitive` | src/utils/evolution.ts:11 | the name comparison is exact: "pikachu" does not find "Pikachu" |
| `Evolution.Spine` | src/hooks/useLoadPokemonDetails.ts:66-76 | the chain walk visits the root, then each node's first successor, and ends at a node with none |
| `Evolution.SpineIndexOfStep` | src/hooks/useLoadPokemonDetails.ts:76 | past a node without the name, its spine position is one more than in the successor's spine |
| `Evolution.FindStageSingleChild` | src/utils/evolution.ts:12-14 | past a node without the name, a single successor continues the search one level deeper |
| `Evolution.LinearStageIsSpineIndex` | src/utils/evolution.ts:6-17 | on an unbranched tree the stage is the name's position along the spine |
| `CatchChance.JsRem` | src/hooks/useCatchPokemon.ts:8 | JavaScript's `%`: the remainder has the dividend's sign and is smaller than the divisor in magnitude |
| `CatchChance.StageFromId` | src/hooks/useCatchPokemon.ts:7-10 | the stage is always 0, 1 or 2 |
| `CatchChance.StageFromPositiveId` | src/hooks/useCatchPokemon.ts:8-9 | for ids from 1 the stage is (id − 1) mod 3 |
| `CatchChance.StageFromNonPositiveId` | src/hooks/useCatchPokemon.ts:8-9 | for ids up to 0 the truncated remainder makes the stage 0 or 2 only, so id 0 is stage 2 |
| `CatchChance.StageFromIdPeriodic` | src/hooks/useCatchPokemon.ts:8 | for ids from 1, the stage repeats every three ids (below 1 it does not: id -1 is stage 2, id 2 is stage 1) |
| `CatchChance.ChanceDecreasesWithStage` | src/hooks/useCatchPokemon.ts:5 | the chance table strictly decreases with stage |
| `CatchChance.Chance` | src/hooks/useCatchPokemon.ts:5 | every chance lies strictly between 0 and 1 |
| `CatchChance.AttemptCatch` | src/hooks/useCatchPokemon.ts:13-18 | the outcome's stage is a valid table index |
| `CatchChance.AttemptStageIgnoresDraw` | src/hooks/useCatchPokemon.ts:15-17 | the returned stage is `stageFromId(pokemon.id)` whatever the random draw |
| `CatchChance.AttemptMonotoneInDraw` | src/hooks/useCatchPokemon.ts:16 | a smaller draw never turns a success into a failure |
| `CatchChance.AttemptBoundaries` | src/hooks/useCatchPokemon.ts:16 | draws just below and above the stage-0 threshold succeed and fail; just above the stage-2 threshold fails |
| `Urls.DigitRunStart` | src/hooks/useLoadPokemonDetails.ts:70 | the start of the longest run of digits ending the string |
| `Urls.TrailingDigits` | src/hooks/useLoadPokemonDetails.ts:70 | `/\/(\d+)\/$/` matches exactly when the URL ends in `/digits/`, and the group is those digits |
| `Urls.ParseSpeciesId` | src/hooks/useLoadPokemonDetails.ts:70 | the id is 0 when the URL has no `/digits/` suffix |
| `Urls.ParseSpeciesIdOfUrl` | src/hooks/useLoadPokemonDetails.ts:70 | a URL ending in `/n/` parses to n |
| `Urls.ParseSpeciesIdExamples` | src/hooks/useLoadPokemonDetails.ts:70 | a species URL with its trailing slash gives its number; without it, or empty, gives 0 |
| `Urls.SpriteUrl` | src/hooks/useLoadPokemonDetails.ts:74 | the sprite address starts with the fixed base, ends with `.png`, and is as long as both plus the id text |
| `Urls.SpriteUrlInjective` | src/components/EvolutionModal.tsx:49-50 | different id texts give different sprite addresses |
| `ListStore.Merge` | src/store/pokemonListStore.ts:48 | `{ ...pokemon, ...data }` written field by field; what it takes and keeps is stated by `MergeTakesPatch` and `MergeLaws` |
| `ListStore.MergeTakesPatch` | src/store/pokemonListStore.ts:48 | the merged item takes every property present in the patch and keeps every other one |
| `ListStore.MergeLaws` | src/store/pokemonListStore.ts:48 | the empty patch changes nothing and merging a patch twice is merging it once |
| `ListStore.UpdateItems` | src/store/pokemonListStore.ts:47-49 | the `map` keeps length and order, merges the items with the id and leaves the others |
| `ListStore.UpdateAbsentId` | src/store/pokemonListStore.ts:47-49 | updating an id not in the list leaves the list unchanged |
| `ListStore.UpdateIdempotent` | src/store/pokemonListStore.ts:48 | the same update applied twice equals it applied once |
| `ListStore.UpdatePokemon` | src/store/pokemonListStore.ts:45-50 | the flags are untouched, the list keeps its length, items with another id are unchanged |
| `ListStore.SetPokemons` | src/store/pokemonListStore.ts:41 | `set({ pokemons })`; its independence from the other fields is stated by `SettersIndependent` |
| `ListStore.SetLoading` | src/store/pokemonListStore.ts:42 | `set({ isLoading })`; stated by `SettersIndependent` |
| `ListStore.SetFullyLoaded` | src/store/pokemonListStore.ts:43 | `set({ isFullyLoaded })`; stated by `SettersIndependent` |
| `ListStore.SetError` | src/store/pokemonListStore.ts:44 | `set({ error })`; stated by `SettersIndependent` |
| `ListStore.SettersIndependent` | src/store/pokemonListStore.ts:41-44 | each setter replaces only its own field, setters of different fields commute, a later call overrides |
| `Selectors.CaughtSet` | src/store/selectors.ts:22-25 | n is in the set exactly when some entry's lower-cased name is n; no more elements than entries; empty for no entries |
| `Selectors.CaughtSetOfSameNames` | src/store/selectors.ts:24 | the set depends on the entries' names alone, not on counts or stages |
| `Selectors.CaughtSetIsLowerCase` | src/store/selectors.ts:24 | every element is unchanged by lower-casing |
| `DetailsLoader.LinkOf` | src/hooks/useLoadPokemonDetails.ts:69-75 | a chain link has the species name, the id parsed from its URL, and the sprite built from that id |
| `DetailsLoader.WalkChain` | src/hooks/useLoadPokemonDetails.ts:65-77 | the `while (node)` loop yields one link per spine node, root first |
| `DetailsLoader.ChanceAt` | src/hooks/useLoadPokemonDetails.ts:81 | the table entry for stages 0 to 2, and `undefined` beyond (no clamping) |
| `DetailsLoader.DataPatch` | src/hooks/useLoadPokemonDetails.ts:31 | spreading the query's pokemon sets id, name, sprites and species only |
| `DetailsLoader.BasicPatch` | src/hooks/useLoadPokemonDetails.ts:28-36 | the no-chain fallback sets stage 0, the stage-0 chance and loaded, and leaves the chain alone |
| `DetailsLoader.FullPatch` | src/hooks/useLoadPokemonDetails.ts:84-90 | the full record carries the chain, the stage, that stage's chance and loaded |
| `DetailsLoader.Own` | src/hooks/useLoadPokemonDetails.ts:94 | a spread copies a property only when the item has it |
| `DetailsLoader.ErrorPatch` | src/hooks/useLoadPokemonDetails.ts:91-98 | a failure merges the item's own properties with loaded, stage 0 and the stage-0 chance |
| `DetailsLoader.StageIn` | src/hooks/useLoadPokemonDetails.ts:80 | the stage is `findStage` of the lower-cased name, with `null` mapped to 0 |
| `DetailsLoader.LoadPokemonDetails` | src/hooks/useLoadPokemonDetails.ts:13-99 | no update exactly for a loaded item; every update sets loaded; each missing URL, failed fetch and chain gives its own fallback record |
| `DetailsLoader.UpdatedItemIsLoaded` | src/hooks/useLoadPokemonDetails.ts:30-35 | after any update the target item is marked loaded |
| `DetailsLoader.FullPatchChance` | src/hooks/useLoadPokemonDetails.ts:7 | the stored chance is the table entry for stages 0 to 2 and absent for any larger stage |
| `DetailsLoader.StageIsChainPosition` | src/hooks/useLoadPokemonDetails.ts:80 | on an unbranched chain the stage is the position of the name in the stored chain |
| `ListLoader.InitialItems` | src/hooks/useLoadPokemonList.ts:37-40 | the items are the query results with `isLoaded` false and no details |
| `ListLoader.Progress` | src/hooks/useLoadPokemonList.ts:51-52 | the percentage lies in 0..90, is 90 once all are loaded, and below 90 it is `Math.round` of the share: at most x + 1/2 and more than x − 1/2 for x = 90 · loaded / total |
| `ListLoader.ProgressMonotone` | src/hooks/useLoadPokemonList.ts:50-53 | more completions never lower the percentage |
| `ListLoader.DivMonotone` | src/hooks/useLoadPokemonList.ts:52 | arithmetic helper of `ProgressMonotone`: integer division is monotone in the dividend |
| `ListLoader.ProgressExamples` | src/hooks/useLoadPokemonList.ts:52 | the percentages for 0, 1, 2, 3, 125 and 251 of 251; 2 of 251 gives 1, where truncation would give 0 |
| `ListLoader.Progresses` | src/hooks/useLoadPokemonList.ts:48-55 | the i-th dispatch is the percentage after i + 1 completions |
| `ListLoader.ProgressesSorted` | src/hooks/useLoadPokemonList.ts:50-53 | the dispatched percentages never decrease and the last of a full run is 90 |
| `ListLoader.UpdateLoadsTarget` | src/hooks/useLoadPokemonList.ts:48-49 | one completed detail load marks its item loaded and touches no other pending item |
| `ListLoader.AllLoaded` | src/hooks/useLoadPokemonList.ts:45-56 | once every item has completed, all are loaded |
| `ListLoader.Loader.MountEffect` | src/hooks/useLoadPokemonList.ts:16-18 | mounting sets loading |
| `ListLoader.Loader.ErrorEffect` | src/hooks/useLoadPokemonList.ts:21-28 | a query error is stored and marks the list fully loaded; no error clears it |
| `ListLoader.Loader.LoadAll` | src/hooks/useLoadPokemonList.ts:30-77 | every item ends loaded; progress is dispatched per completion while mounted; 100 and the final flags only if still mounted after `Promise.all`, also for an empty list |
| `Home.SearchKey` | src/pages/Home.tsx:31 | the filter key: `trim`, then `toLowerCase`; what each step yields is stated by `Text.Trim`, `Text.TrimIsInfix` and `Text.Lower` |
| `Home.Matches` | src/pages/Home.tsx:34-37 | the filter condition; `SuggestionsSingle`, `SuggestionsSound` and `SuggestionsComplete` state what it selects |
| `Home.Suggestions` | src/pages/Home.tsx:30-43 | every suggestion's lower-cased name contains the key and differs from it |
| `Home.SuggestionsSingle` | src/pages/Home.tsx:33-42 | one item is suggested, projected to id, name and image, exactly when it passes the filter |
| `Home.SuggestionsSound` | src/pages/Home.tsx:38-42 | every suggestion is the projection of some catalogue item |
| `Home.SuggestionsAppend` | src/pages/Home.tsx:32-42 | the filter keeps catalogue order: suggestions of a concatenation concatenate |
| `Home.SuggestionsComplete` | src/pages/Home.tsx:33-37 | every item that passes the filter is suggested |
| `Home.BlankTermSuggestsAll` | src/pages/Home.tsx:31 | a blank term suggests every item with a non-empty name |
| `Home.ExactNameIsNotSuggested` | src/pages/Home.tsx:36 | an item whose lower-cased name equals the key is not suggested |
| `Home.FirstNamed` | src/pages/Home.tsx:122 | `find` gives the first suggestion with exactly that name, or nothing exactly when there is none |
| `Home.ShowsLoadingScreen` | src/pages/Home.tsx:89-91 | the loading gate; `QueryErrorKeepsLoadingScreen` states its easy-to-miss case |
| `Home.QueryErrorKeepsLoadingScreen` | src/pages/Home.tsx:89-91 | fully loaded yet empty still shows the loading screen |
| `Home.SearchPage.constructor` | src/pages/Home.tsx:18-21 | empty term, not focused, no suggestions, nothing selected |
| `Home.SearchPage.HandleChange` | src/pages/Home.tsx:45-50 | stores the value; shows suggestions when its trim is non-empty and never hides them |
| `Home.SearchPage.HandleKeyDown` | src/pages/Home.tsx:52-58 | Enter on a non-blank term hides suggestions and unfocuses; anything else changes nothing |
| `Home.SearchPage.HandleSelect` | src/pages/Home.tsx:60-65 | selects, clears the term, hides suggestions and unfocuses |
| `Home.SearchPage.OnSelect` | src/pages/Home.tsx:121-124 | selects the first suggestion with the exact name, or changes nothing |
| `Home.SearchPage.OnFocus` | src/pages/Home.tsx:110-115 | focuses, and shows suggestions for a non-blank term |
| `Home.SearchPage.OnBlur` | src/pages/Home.tsx:116-118 | unfocuses only |
| `Home.SearchPage.MouseDown` | src/pages/Home.tsx:69-87 | the page's own listener: a press outside the container while suggestions show requests an animation frame and changes no state; otherwise this listener does nothing |
| `Home.SearchPage.AnimationFrame` | src/pages/Home.tsx:75-78 | the requested frame hides the suggestions and unfocuses, whatever came between; with no frame requested nothing changes |
| `Home.SearchPage.InputMouseDown` | src/components/SearchInput.tsx:116-124 | the search input's own listener: a press outside the input's container (field and suggestion panel) unfocuses at once and changes nothing else; a press inside changes nothing |
| `Home.SearchPage.DocumentMouseDown` | src/pages/Home.tsx:69-87 | one press seen by both listeners: anywhere outside the input's container it unfocuses at once, even inside the page's container; only outside the page's container, while suggestions show, is the hiding frame requested |
| `Home.FocusBeforeFrame` | src/pages/Home.tsx:69-87 | an outside press, then a focus before the frame, then the frame: the page ends unfocused, and hidden if the suggestions showed |
| `Home.SearchPage.CloseCatch` | src/pages/Home.tsx:131 | closing the catch modal clears the selection only |
| `ClassicViewer.PrevIndex` | src/components/PokedexViewer.tsx:64 | 0 goes to len − 1, any other index to the one before |
| `ClassicViewer.NextIndex` | src/components/PokedexViewer.tsx:70 | len − 1 goes to 0, any other index to the one after |
| `ClassicViewer.PrevNextInverse` | src/components/PokedexViewer.tsx:64-70 | prev and next stay in range and undo each other |
| `ClassicViewer.ModUnique` | src/components/PokedexViewer.tsx:70 | a remainder is fixed by any quotient–remainder split |
| `ClassicViewer.NextIsModStep` | src/components/PokedexViewer.tsx:70 | next is one step of addition modulo the length |
| `ClassicViewer.NextTimesIsRotation` | src/components/PokedexViewer.tsx:68-73 | k presses of next move the index by k modulo the length |
| `ClassicViewer.FullCycle` | src/components/PokedexViewer.tsx:68-73 | pressing next len times returns to the start |
| `ClassicViewer.Viewer.constructor` | src/components/PokedexViewer.tsx:16-17 | the index and the remembered length start at 0, power off |
| `ClassicViewer.Viewer.StoreChanged` | src/components/PokedexViewer.tsx:13 | a new collection from the store replaces the old one and nothing else |
| `ClassicViewer.Viewer.TogglePower` | src/components/PokedexViewer.tsx:87-94 | flips the power only |
| `ClassicViewer.Viewer.Resync` | src/components/PokedexViewer.tsx:48-57 | growth selects the last entry, an index past the end clamps to the last, an empty list resets to 0; the index ends in range |
| `ClassicViewer.Viewer.Prev` | src/components/PokedexViewer.tsx:62-67 | steps back cyclically when powered and non-empty, otherwise nothing |
| `ClassicViewer.Viewer.Next` | src/components/PokedexViewer.tsx:68-73 | steps forward cyclically when powered and non-empty, otherwise nothing |
| `ClassicViewer.Viewer.Delete` | src/components/PokedexViewer.tsx:227-231 | when powered with an entry shown, removes one of the shown entry's id; otherwise nothing |
| `ClassicViewer.DeleteThenResync` | src/components/PokedexViewer.tsx:48-57 | a delete followed by the effect keeps the collection valid and the index in range |
| `PokedexViewer.SameEntryIndex` | src/components/pokedex/PokedexViewer.tsx:136-139 | the first entry with the same id and stage, or -1 exactly when there is none |
| `PokedexViewer.SameEntryIsItself` | src/components/pokedex/PokedexViewer.tsx:136-139 | under distinct ids the shown entry is found at its own index |
| `PokedexViewer.Viewer.constructor` | src/components/pokedex/PokedexViewer.tsx:31-43 | index and remembered length 0, power off, the store's markers |
| `PokedexViewer.Viewer.StoreChanged` | src/components/pokedex/PokedexViewer.tsx:24-26 | the store's collection and markers replace the old ones |
| `PokedexViewer.Viewer.TogglePower` | src/components/pokedex/PokedexViewer.tsx:186-193 | flips the power only |
| `PokedexViewer.Viewer.EvolvedFound` | src/components/pokedex/PokedexViewer.tsx:94-98 | the evolved marker is set and its id is held; `FocusEffect` states what follows |
| `PokedexViewer.Viewer.LastCaughtFound` | src/components/pokedex/PokedexViewer.tsx:109-113 | the last-caught marker is set and its id is held; `FocusEffect` states what follows |
| `PokedexViewer.Viewer.FocusEffect` | src/components/pokedex/PokedexViewer.tsx:86-150 | the evolved marker wins and clears both, then the last-caught marker clears itself, otherwise clamp or follow the shown entry on shrink; the index ends in range |
| `PokedexViewer.Viewer.Prev` | src/components/pokedex/PokedexViewer.tsx:153-161 | steps back cyclically and clears both markers when powered and non-empty |
| `PokedexViewer.Viewer.Next` | src/components/pokedex/PokedexViewer.tsx:163-171 | steps forward cyclically and clears both markers when powered and non-empty |
| `PokedexViewer.ShrinkKeepsIndex` | src/components/pokedex/PokedexViewer.tsx:126-147 | when an entry after the shown one is removed, the shown entry stays selected |
| `EvolutionPanel.CurrentChain` | src/components/pokemon/EvolutionModal.tsx:33-34 | the chain of the first catalogue item with the name, or empty |
| `EvolutionPanel.PokemonCount` | src/components/pokemon/EvolutionModal.tsx:110 | the count of the caught entry with the id, 0 when none |
| `EvolutionPanel.PokemonCountPositiveIffCaught` | src/components/pokemon/EvolutionModal.tsx:110 | the count is positive exactly when the id is held |
| `EvolutionPanel.CanEvolve` | src/components/pokemon/EvolutionModal.tsx:111-112 | the `canEvolve` condition; `CanEvolveIff` states it in terms of the collection |
| `EvolutionPanel.CanEvolveIff` | src/components/pokemon/EvolutionModal.tsx:111-112 | a stage can evolve exactly when three are held and a next chain element exists |
| `EvolutionPanel.NextPokemonId` | src/components/pokemon/EvolutionModal.tsx:121 | the next element's id, absent at the end of the chain and for id 0 |
| `EvolutionPanel.LastStageCannotEvolve` | src/components/pokemon/EvolutionModal.tsx:111-121 | the last stage neither can evolve nor has a next id |
| `EvolutionPanel.ChainIndexOf` | src/components/pokemon/EvolutionModal.tsx:58 | the first chain position with the id, -1 exactly when absent |
| `EvolutionPanel.EvolvedRecord` | src/components/pokemon/EvolutionModal.tsx:49-54 | the evolved record keeps the item's `sprites` and `species` objects when present, even with a `null` field, and otherwise builds them from the image and from `""` |
| `EvolutionPanel.HandleEvolution` | src/components/pokemon/EvolutionModal.tsx:46-63 | nothing for an unknown target; otherwise set target, add at chain index, remove three, clear target, in that order |
| `EvolutionPanel.EvolvedIntoNewSpecies` | src/components/pokemon/EvolutionModal.tsx:56-58 | a new species is appended with count 1 at its chain index, which is -1 when it is not in the chain |
| `EvolutionModal.EntryOf` | src/components/EvolutionModal.tsx:48-50 | name, and the sprite for the URL's digit text, or "" without a `/digits/` suffix |
| `EvolutionModal.ExtractChain` | src/components/EvolutionModal.tsx:45-52 | the loop yields one entry per spine node, root first |
| `EvolutionModal.ChainView.constructor` | src/components/EvolutionModal.tsx:14-15 | loading, empty chain, mounted |
| `EvolutionModal.ChainView.Unmount` | src/components/EvolutionModal.tsx:66-68 | only clears the mounted flag |
| `EvolutionModal.ChainView.Resolve` | src/components/EvolutionModal.tsx:22-64 | nothing after unmount; otherwise loading ends and every missing URL or failure gives an empty chain |
| `EvolutionModal.SpriteAgreesWithDetailsLoader` | src/components/EvolutionModal.tsx:48-50 | for canonical digits both chain builders give the same sprite |
| `EvolutionModal.SpriteKeepsLeadingZeros` | src/components/EvolutionModal.tsx:49-50 | for `/007/` this modal's sprite keeps the zeros while the details loader's does not |
| `EvolutionModal.IsCaught` | src/components/EvolutionModal.tsx:112 | caught exactly when some entry has that exact name; the newer panel's `isCaught` (src/components/pokemon/EvolutionModal.tsx:109) is the same expression, so this member and its lemmas stand for both |
| `EvolutionModal.IsCaughtImpliesInCaughtSet` | src/components/EvolutionModal.tsx:112 | an exact match is also in the lower-cased caught set |
| `EvolutionModal.CaughtSetDoesNotImplyIsCaught` | src/components/EvolutionModal.tsx:112 | a case-only difference is in the caught set but not caught here |
| `CatchModal.Rank` | src/components/CatchModal.tsx:24 | each phase's position in the phase order |
| `CatchModal.Background` | src/components/CatchModal.tsx:79-85 | the phase-to-picture table; `BackgroundInjective` states that it tells the phases apart |
| `CatchModal.BackgroundInjective` | src/components/CatchModal.tsx:79-85 | the background map covers all five phases and tells them apart |
| `CatchModal.PhasesSet` | src/components/CatchModal.tsx:43-71 | how many phases are set: all five only with a fetched pokemon and every await mounted |
| `CatchModal.PhasesAdvance` | src/components/CatchModal.tsx:44-70 | the phases set start at initial and strictly advance |
| `CatchModal.Modal.constructor` | src/components/CatchModal.tsx:34-37 | initial phase, no pokemon, no outcome, outcome hidden |
| `CatchModal.Modal.SetPhase` | src/components/CatchModal.tsx:34 | sets the phase and records it |
| `CatchModal.Modal.Run` | src/components/CatchModal.tsx:39-77 | the phases set are a prefix of the order; pokemon and outcome are set only while mounted; the outcome shows only with the result phase |
| `CatchModal.Modal.Press` | src/components/CatchModal.tsx:101-105 | calls `onCaught` with the outcome's stage exactly on a success with a pokemon, and then always `onClose` |
| `CatchModal.CatchFlow` | src/components/CatchModal.tsx:102-105 | a success stores the pokemon at `stageFromId` of its id; a failure stores nothing |
| `SearchInput.StageById` | src/components/SearchInput.tsx:39-42 | the stage is 0, 1 or 2 |
| `SearchInput.StageByIdAgrees` | src/components/SearchInput.tsx:39-42 | this copy agrees with `stageFromId` on every id |
| `SearchInput.ChanceLabel` | src/components/SearchInput.tsx:38-49 | the card's label; `ChanceLabelMatchesTable` ties it to the catch chance |
| `SearchInput.ChanceLabelMatchesTable` | src/components/SearchInput.tsx:48-49 | the card label is the catch chance of the id's stage written as a percent |
| `SearchInput.BallX` | src/components/SearchInput.tsx:114 | 10 inside, 600 right, −70 left |
| `SearchInput.BallXInjective` | src/components/search/SearchInput.tsx:133-134 | each phase has its own position |
| `SearchInput.Pokeball.constructor` | src/components/SearchInput.tsx:85-87 | left, duration 0, transition off, no frame pending |
| `SearchInput.Pokeball.FocusEffect` | src/components/SearchInput.tsx:89-104 | focus resets to left and requests a frame; blur moves right with the exit duration |
| `SearchInput.Pokeball.AnimationFrame` | src/components/SearchInput.tsx:94-98 | the frame moves the ball inside with the entry duration and the transition on |
| `SearchInput.Pokeball.TransitionEnd` | src/components/SearchInput.tsx:106-112 | the end of a transition resets right to left, transition off; a no-op otherwise |
| `SearchInput.FocusBlurCycle` | src/components/search/SearchInput.tsx:91-123 | focus, frame, blur and transition end bring the ball back to its start |
| `SearchInput.BlurBeforeFrame` | src/components/search/SearchInput.tsx:91-114 | a blur before the pending frame is overridden and the ball ends inside |
| `SearchInput.ShowPanel` | src/components/SearchInput.tsx:212-215 | when the suggestion panel shows; `PanelsExclusive` relates it to the empty message |
| `SearchInput.ShowEmpty` | src/components/SearchInput.tsx:232-235 | when "No pokémon found" shows; `PanelsExclusive` relates it to the panel |
| `SearchInput.PanelsExclusive` | src/components/SearchInput.tsx:212-239 | the panel and the empty message never show together, neither for a blank term or while loading, and one shows otherwise |
| `SearchPanel.CaughtFlag` | src/components/search/SearchInput.tsx:191 | the card's caught mark; `CaughtFlagIff` states when it is set |
| `SearchPanel.CaughtFlagIff` | src/components/search/SearchInput.tsx:191 | a card is caught exactly when an entry has its name up to case |
| `SearchPanel.CatchMarksCard` | src/components/search/SearchInput.tsx:191 | catching a new species marks its card |
| `SearchPanel.CatchAgainKeepsFlags` | src/components/search/SearchInput.tsx:191 | catching another copy leaves all caught flags as they were |

## Left out

- Network: the GraphQL queries, the Apollo client and `fetch`. Their responses are inputs (`DetailsResponses`, `ModalResponses`, the catch modal's query). The query variables, such as the lower-cased name, do not affect the model.
- A query result whose `data` is missing or malformed is treated as a missing pokemon. Its console logging is left out.
- Randomness: `Math.random()` is the `draw` argument of `CatchChance.AttemptCatch` and `CatchModal.Modal.Run`.
- Floating point: chances are integer percents (`CHANCE_PERCENT`), and `catchChance` is stored as a percent, not as the fraction 0.9, 0.5 or 0.3. The progress counter's `Math.round` is computed on exact rationals. The new suggestion card's `Math.round(catchChance*100)` label is not modelled.
- Timers, `setTimeout` delays, `requestAnimationFrame` and async scheduling. Each becomes an explicit step (the pokeball's and the home page's animation frames are methods of their own), or a count of steps completed before an unmount. `Promise.all` becomes completions in list order.
- ListLoader.Loader.LoadAll: it states only each item's loaded flag, not the exact record the details loader merges into it. Completions arrive in list order, so other interleavings are not covered. The `catch` branch of `loadAllData` is not modelled, because no modelled step throws. A rerun of the effect while a previous run is in flight is not modelled.
- Persistence: the zustand `persist`/localStorage middleware.
- Presentation: sound (Howl), drag maths, CSS and Tailwind, and the presentational components. `EvolutionCard` is left out; its logic is to call `onEvolve` when a stage can evolve and has a next id, and to forward `onCatch(pokemon.name)` unconditionally.
- `removeThree` and `setEvolutionTarget`, and the `lastCaughtId`/`evolvedPokemonId` markers. The store source does not define them. The evolution modal emits them as opaque calls (`StoreCall`), and the newer viewer holds the markers as plain fields.
- Unicode: `trim` and `toLowerCase` act on ASCII only. The URL regex is written out by hand.
- Number precision: `parseInt` of a species id and the `${id}` template are exact here (`Text.DigitsValue`, `Text.NatToString`). JavaScript numbers lose precision from 16 digits on and print `1e+21` from 10^21; real species ids are far below that.
- The newer search input's `handleSelect` plays a sound and passes the name on unchanged to the same `onSelect` as the older input. It therefore has no member of its own.
- The newer search input's pokeball machine and panel rules are the same as the older input's. `SearchInput.Pokeball` and `SearchInput.PanelsExclusive` stand for both.
- The older evolution modal reruns its effect when the name changes, which is not modelled; `ChainView` models one run of the effect.
- The catch modal loading the pokemon by name is the `query` input. Its loading, error and success rendering is not modelled.
