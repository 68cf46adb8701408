/** The catch sequence of `src/components/CatchModal.tsx`: five animation
    phases around the by-name query and the catch attempt, each step behind
    the effect's `mounted` check, and the button that reports the catch. */
module CatchModal {
  import opened Common
  import opened PokemonStore
  import opened CatchChance

  datatype Phase = Initial | Pending | Post | PreResult | Result

  /** The phases in the only order the effect sets them. */
  const PHASES: seq<Phase> := [Initial, Pending, Post, PreResult, Result]

  function Rank(p: Phase): (r: nat)
    ensures r < |PHASES| && PHASES[r] == p
  {
    match p
    case Initial => 0
    case Pending => 1
    case Post => 2
    case PreResult => 3
    case Result => 4
  }

  /** The `bg` lookup: one picture per phase, all different. */
  function Background(p: Phase): string {
    match p
    case Initial => "catching-1.gif"
    case Pending => "catching-2.gif"
    case Post => "catching-3.gif"
    case PreResult => "catching-4.gif"
    case Result => "catching-5.png"
  }

  lemma BackgroundInjective(p: Phase, q: Phase)
    requires Background(p) == Background(q)
    ensures p == q
  {
  }

  /** How many phases one run of the effect sets. `mountedAwaits` awaits
      complete while the component is still mounted; a rejected query or a
      query without a pokemon makes the run throw after `pending`. */
  function PhasesSet(query: Fetch<Option<Pokemon>>, mountedAwaits: nat): (n: nat)
    ensures 1 <= n <= |PHASES|
    ensures n == |PHASES| <==> mountedAwaits >= 5 && query.Fetched? && query.value.Some?
    ensures n >= 3 ==> mountedAwaits >= 3 && query.Fetched? && query.value.Some?
  {
    if mountedAwaits < 1 then 1
    else if query.Failed? || mountedAwaits < 2 || query.value.None? || mountedAwaits < 3 then 2
    else if mountedAwaits < 4 then 3
    else if mountedAwaits < 5 then 4
    else 5
  }

  /** A call the button makes to the page. */
  datatype PageCall = OnCaught(pokemon: Pokemon, stage: int) | OnClose

  class Modal {
    var phase: Phase
    var pokemon: Option<Pokemon>
    var outcome: Option<CatchOutcome>
    var showOutcome: bool
    /** Every phase set so far, oldest first. */
    var history: seq<Phase>

    constructor ()
      ensures phase == Initial && pokemon == None && outcome == None && !showOutcome && history == []
    {
      phase := Initial;
      pokemon := None;
      outcome := None;
      showOutcome := false;
      history := [];
    }

    method SetPhase(p: Phase)
      modifies this
      ensures phase == p && history == old(history) + [p]
      ensures pokemon == old(pokemon) && outcome == old(outcome) && showOutcome == old(showOutcome)
    {
      phase := p;
      history := history + [p];
    }

    /** One run of the effect; `draw` is the value of `Math.random()`. */
    method Run(query: Fetch<Option<Pokemon>>, draw: real, mountedAwaits: nat)
      modifies this
      ensures var n := PhasesSet(query, mountedAwaits);
        && history == old(history) + PHASES[..n]
        && phase == PHASES[n - 1]
        && showOutcome == (old(showOutcome) || n == |PHASES|)
        && outcome == (if n >= 3 then Some(AttemptCatch(query.value.value, draw)) else old(outcome))
        && pokemon == (if mountedAwaits >= 2 && query.Fetched? then query.value else old(pokemon))
    {
      SetPhase(Initial);
      if mountedAwaits < 1 { return; }
      SetPhase(Pending);
      if query.Failed? { return; }
      if mountedAwaits < 2 { return; }
      pokemon := query.value;
      if pokemon.None? { return; }
      var res := AttemptCatch(pokemon.value, draw);
      if mountedAwaits < 3 { return; }
      outcome := Some(res);
      SetPhase(Post);
      if mountedAwaits < 4 { return; }
      SetPhase(PreResult);
      if mountedAwaits < 5 { return; }
      SetPhase(Result);
      showOutcome := true;
    }

    /** The outcome button, present once the outcome is shown: it reports
        a successful catch of a loaded pokemon, then always closes. */
    method Press() returns (calls: seq<PageCall>)
      ensures !(showOutcome && outcome.Some?) ==> calls == []
      ensures showOutcome && outcome.Some? && outcome.value.success && pokemon.Some? ==>
        calls == [OnCaught(pokemon.value, outcome.value.stage), OnClose]
      ensures showOutcome && outcome.Some? && !(outcome.value.success && pokemon.Some?) ==> calls == [OnClose]
    {
      calls := [];
      if showOutcome && outcome.Some? {
        if outcome.value.success && pokemon.Some? {
          calls := calls + [OnCaught(pokemon.value, outcome.value.stage)];
        }
        calls := calls + [OnClose];
      }
    }
  }

  /** The phases a run sets strictly advance and start at `initial`. */
  lemma PhasesAdvance(n: nat)
    requires 1 <= n <= |PHASES|
    ensures PHASES[..n][0] == Initial
    ensures forall i, j :: 0 <= i < j < n ==> Rank(PHASES[..n][i]) < Rank(PHASES[..n][j])
  {
  }

  /** From a fresh modal, a run that completes and a press of the button
      catch the pokemon with the stage its id gives, whatever the tree;
      the page's `onCaught` is `addPokemon`. */
  method CatchFlow(caught: Collection, p: Pokemon, draw: real) returns (after: Collection, calls: seq<PageCall>)
    ensures draw < Chance(StageFromId(p.id)) ==>
      calls == [OnCaught(p, StageFromId(p.id)), OnClose] && after == AddPokemon(caught, p, StageFromId(p.id))
    ensures !(draw < Chance(StageFromId(p.id))) ==> calls == [OnClose] && after == caught
  {
    var m := new Modal();
    m.Run(Fetched(Some(p)), draw, 5);
    calls := m.Press();
    after := caught;
    if |calls| == 2 && calls[0].OnCaught? {
      after := AddPokemon(after, calls[0].pokemon, calls[0].stage);
    }
  }
}
