/** The search page of `src/pages/Home.tsx`: the suggestion filter over the
    catalogue, the input handlers, the outside-click effect and the loading gate. */
module Home {
  import opened Common
  import opened Text
  import opened ListStore

  /** `Suggestion`: what a search card shows. */
  datatype Suggestion = Suggestion(id: int, name: string, image: string)

  /** `searchTerm?.trim()?.toLowerCase() || ""`. */
  function SearchKey(term: string): string {
    Lower(Trim(term))
  }

  /** The filter condition: the lower-cased name contains the key and is not the key itself. */
  predicate Matches(p: PokemonListItem, key: string) {
    Includes(Lower(p.name), key) && Lower(p.name) != key
  }

  function Project(p: PokemonListItem): Suggestion {
    Suggestion(p.id, p.name, p.image)
  }

  /** The `suggestions` memo: the matching catalogue items, in order, as suggestions. */
  function Suggestions(pokemons: seq<PokemonListItem>, term: string): (r: seq<Suggestion>)
    ensures |r| <= |pokemons|
    ensures forall i :: 0 <= i < |r| ==>
      Includes(Lower(r[i].name), SearchKey(term)) && Lower(r[i].name) != SearchKey(term)
  {
    if |pokemons| == 0 then []
    else (if Matches(pokemons[0], SearchKey(term)) then [Project(pokemons[0])] else []) + Suggestions(pokemons[1..], term)
  }

  /** One item is suggested, as `{ id, name, image }`, exactly when it matches. */
  lemma SuggestionsSingle(p: PokemonListItem, term: string)
    ensures Suggestions([p], term) == if Matches(p, SearchKey(term)) then [Project(p)] else []
  {
    assert [p][1..] == [];
  }

  /** Every suggestion is the projection of some catalogue item. */
  lemma {:induction false} SuggestionsSound(pokemons: seq<PokemonListItem>, term: string, i: int)
    requires 0 <= i < |Suggestions(pokemons, term)|
    ensures exists k :: 0 <= k < |pokemons| && Suggestions(pokemons, term)[i] == Project(pokemons[k])
  {
    var head := if Matches(pokemons[0], SearchKey(term)) then [Project(pokemons[0])] else [];
    if i >= |head| {
      SuggestionsSound(pokemons[1..], term, i - |head|);
      var k :| 0 <= k < |pokemons[1..]| && Suggestions(pokemons[1..], term)[i - |head|] == Project(pokemons[1..][k]);
      assert Suggestions(pokemons, term)[i] == Project(pokemons[k + 1]);
    }
  }

  /** The filter keeps order: the suggestions of a concatenation are the
      suggestions of each part, one after the other. */
  lemma {:induction false} SuggestionsAppend(a: seq<PokemonListItem>, b: seq<PokemonListItem>, term: string)
    ensures Suggestions(a + b, term) == Suggestions(a, term) + Suggestions(b, term)
  {
    if |a| == 0 {
      assert a + b == b;
    } else {
      var head := if Matches(a[0], SearchKey(term)) then [Project(a[0])] else [];
      assert (a + b)[0] == a[0] && (a + b)[1..] == a[1..] + b;
      assert Suggestions(a + b, term) == head + Suggestions(a[1..] + b, term);
      assert Suggestions(a, term) == head + Suggestions(a[1..], term);
      SuggestionsAppend(a[1..], b, term);
    }
  }

  /** Every matching catalogue item is suggested. */
  lemma SuggestionsComplete(pokemons: seq<PokemonListItem>, term: string, k: int)
    requires 0 <= k < |pokemons| && Matches(pokemons[k], SearchKey(term))
    ensures Project(pokemons[k]) in Suggestions(pokemons, term)
  {
    var before, rest := pokemons[..k], pokemons[k + 1..];
    assert pokemons == before + ([pokemons[k]] + rest);
    SuggestionsAppend(before, [pokemons[k]] + rest, term);
    SuggestionsAppend([pokemons[k]], rest, term);
    SuggestionsSingle(pokemons[k], term);
    assert Suggestions(pokemons, term) == Suggestions(before, term) + ([Project(pokemons[k])] + Suggestions(rest, term));
  }

  /** A blank term suggests every item whose name is not empty. */
  lemma {:induction false} BlankTermSuggestsAll(pokemons: seq<PokemonListItem>, term: string, k: int)
    requires Trim(term) == "" && 0 <= k < |pokemons| && pokemons[k].name != ""
    ensures Project(pokemons[k]) in Suggestions(pokemons, term)
  {
    assert SearchKey(term) == "";
    assert OccursAt(Lower(pokemons[k].name), "", 0);
    SuggestionsComplete(pokemons, term, k);
  }

  /** Typing the exact name of the only match hides it. */
  lemma ExactNameIsNotSuggested(p: PokemonListItem, term: string)
    requires Lower(p.name) == SearchKey(term)
    ensures Suggestions([p], term) == []
  {
  }

  /** The first suggestion with exactly the given name. */
  function FirstNamed(suggestions: seq<Suggestion>, name: string): (r: Option<Suggestion>)
    ensures r.None? <==> forall i :: 0 <= i < |suggestions| ==> suggestions[i].name != name
    ensures r.Some? ==> r.value.name == name
    ensures r.Some? ==> exists i :: (0 <= i < |suggestions| && suggestions[i] == r.value &&
      forall j :: 0 <= j < i ==> suggestions[j].name != name)
  {
    var k := FindIndex(suggestions, (s: Suggestion) => s.name == name);
    if k == -1 then None else Some(suggestions[k])
  }

  /** `listLoading || !isFullyLoaded || !pokemons?.length`. */
  predicate ShowsLoadingScreen(s: ListState) {
    s.isLoading || !s.isFullyLoaded || |s.pokemons| == 0
  }

  /** A failed list query marks the list fully loaded, yet with no items the
      loading screen stays. */
  lemma QueryErrorKeepsLoadingScreen(s: ListState, message: string)
    requires |s.pokemons| == 0
    ensures SetFullyLoaded(SetError(s, Some(message)), true).isFullyLoaded
    ensures ShowsLoadingScreen(SetFullyLoaded(SetError(s, Some(message)), true))
  {
  }

  /** The key press that submits the search: Enter on a non-blank term. */
  predicate Submits(key: string, term: string) {
    key == "Enter" && Trim(term) != ""
  }

  /** Where a `mousedown` lands: inside the search input's container (the
      field and its suggestion panel), elsewhere inside the page's container,
      or outside the page's container. */
  datatype Press = InInput | InContainer | OutsideContainer

  /** The page's own state. */
  class SearchPage {
    var searchTerm: string
    var isFocused: bool
    var showSuggestions: bool
    var selected: Option<Suggestion>
    /** An animation frame requested by the outside-press listener and not yet run. */
    var hidePending: bool

    constructor ()
      ensures searchTerm == "" && !isFocused && !showSuggestions && selected == None && !hidePending
    {
      searchTerm := "";
      isFocused := false;
      showSuggestions := false;
      selected := None;
      hidePending := false;
    }

    /** `handleChange`: stores the value; a non-blank value opens the
        suggestions, a blank one leaves them as they were. */
    method HandleChange(value: string)
      modifies this
      ensures searchTerm == value
      ensures showSuggestions == (old(showSuggestions) || Trim(value) != "")
      ensures isFocused == old(isFocused) && selected == old(selected) && hidePending == old(hidePending)
    {
      var nonBlank := Trim(value) != "";
      searchTerm := value;
      if nonBlank {
        showSuggestions := true;
      }
    }

    /** `handleKeyDown`: Enter on a non-blank term closes the suggestions and unfocuses. */
    method HandleKeyDown(key: string)
      modifies this
      ensures searchTerm == old(searchTerm) && selected == old(selected) && hidePending == old(hidePending)
      ensures Submits(key, searchTerm) ==> !showSuggestions && !isFocused
      ensures !Submits(key, searchTerm) ==> showSuggestions == old(showSuggestions) && isFocused == old(isFocused)
    {
      var submit := Submits(key, searchTerm);
      if submit {
        showSuggestions := false;
        isFocused := false;
      }
    }

    /** `handleSelect(p)`. */
    method HandleSelect(p: Suggestion)
      modifies this
      ensures selected == Some(p) && !showSuggestions && !isFocused && searchTerm == ""
      ensures hidePending == old(hidePending)
    {
      selected := Some(p);
      showSuggestions := false;
      isFocused := false;
      searchTerm := "";
    }

    /** The `onSelect` callback: selects the first current suggestion with
        exactly that name, or does nothing. */
    method OnSelect(pokemons: seq<PokemonListItem>, name: string)
      modifies this
      ensures var picked := FirstNamed(Suggestions(pokemons, old(searchTerm)), name);
        match picked
        case Some(p) => selected == Some(p) && !showSuggestions && !isFocused && searchTerm == ""
        case None => (searchTerm == old(searchTerm) && isFocused == old(isFocused) &&
          showSuggestions == old(showSuggestions) && selected == old(selected))
      ensures hidePending == old(hidePending)
    {
      var picked := FirstNamed(Suggestions(pokemons, searchTerm), name);
      if picked.Some? {
        HandleSelect(picked.value);
      }
    }

    /** The `onFocus` callback. */
    method OnFocus()
      modifies this
      ensures isFocused
      ensures showSuggestions == (old(showSuggestions) || Trim(searchTerm) != "")
      ensures searchTerm == old(searchTerm) && selected == old(selected) && hidePending == old(hidePending)
    {
      if Trim(searchTerm) != "" {
        showSuggestions := true;
      }
      isFocused := true;
    }

    /** The `onBlur` callback. */
    method OnBlur()
      modifies this
      ensures !isFocused
      ensures showSuggestions == old(showSuggestions) && searchTerm == old(searchTerm) && selected == old(selected)
      ensures hidePending == old(hidePending)
    {
      isFocused := false;
    }

    /** The page's own `mousedown` listener on the document (the search
        input's listener is `InputMouseDown`): the listener exists only while
        suggestions show, and a press outside the container requests an
        animation frame that will close them and unfocus; the press itself
        changes no state. */
    method MouseDown(insideContainer: bool)
      modifies this
      ensures hidePending == (old(hidePending) || (old(showSuggestions) && !insideContainer))
      ensures showSuggestions == old(showSuggestions) && isFocused == old(isFocused)
      ensures searchTerm == old(searchTerm) && selected == old(selected)
    {
      if showSuggestions && !insideContainer {
        hidePending := true;
      }
    }

    /** The requested animation frame runs: it hides the suggestions and
        unfocuses, whatever happened since the press. Every frame requested
        before it runs makes the same two updates, so one flag stands for all. */
    method AnimationFrame()
      modifies this
      ensures old(hidePending) ==> !showSuggestions && !isFocused
      ensures !old(hidePending) ==> showSuggestions == old(showSuggestions) && isFocused == old(isFocused)
      ensures !hidePending && searchTerm == old(searchTerm) && selected == old(selected)
    {
      if hidePending {
        showSuggestions := false;
        isFocused := false;
        hidePending := false;
      }
    }

    /** The search input's own `mousedown` listener on the document
        (src/components/SearchInput.tsx:116-124): it is always installed, and
        a press outside the input's container (the field and its suggestion
        panel) calls `onBlur` at once. */
    method InputMouseDown(insideInput: bool)
      modifies this
      ensures !insideInput ==> !isFocused
      ensures insideInput ==> isFocused == old(isFocused)
      ensures showSuggestions == old(showSuggestions) && searchTerm == old(searchTerm) && selected == old(selected)
      ensures hidePending == old(hidePending)
    {
      if !insideInput {
        OnBlur();
      }
    }

    /** One press on the document as both listeners see it: the input's
        listener unfocuses at once for any press outside the input's
        container, even one inside the page's container; the page's listener
        requests the frame that hides the suggestions for a press outside
        the page's container while they show. */
    method DocumentMouseDown(target: Press)
      modifies this
      ensures target == InInput ==> isFocused == old(isFocused)
      ensures target != InInput ==> !isFocused
      ensures hidePending == (old(hidePending) || (old(showSuggestions) && target == OutsideContainer))
      ensures showSuggestions == old(showSuggestions)
      ensures searchTerm == old(searchTerm) && selected == old(selected)
    {
      InputMouseDown(target == InInput);
      MouseDown(target != OutsideContainer);
    }

    /** The catch modal's `onClose`. */
    method CloseCatch()
      modifies this
      ensures selected == None
      ensures searchTerm == old(searchTerm) && isFocused == old(isFocused) && showSuggestions == old(showSuggestions)
      ensures hidePending == old(hidePending)
    {
      selected := None;
    }
  }

  /** The frame requested by an outside press is not cancelled by a later
      focus: refocusing the input before the frame runs still ends unfocused
      with the suggestions hidden. */
  method FocusBeforeFrame(p: SearchPage)
    modifies p
    ensures old(p.showSuggestions) ==> !p.isFocused && !p.showSuggestions
    ensures p.searchTerm == old(p.searchTerm) && !p.hidePending
  {
    p.DocumentMouseDown(OutsideContainer);
    p.OnFocus();
    p.AnimationFrame();
  }
}
