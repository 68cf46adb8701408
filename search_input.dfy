/** The older search box of `src/components/SearchInput.tsx`: the chance
    label on each card, the pokeball that flies in on focus and out on blur,
    and which panel shows under the input. */
module SearchInput {
  import opened Text
  import opened CatchChance

  /** `stageById`, this file's own copy of the stage rule. */
  function StageById(id: int): (s: int)
    ensures 0 <= s <= 2
  {
    var m := JsRem(id - 1, 3);
    if m == 0 then 0 else if m == 1 then 1 else 2
  }

  /** The copy agrees with the catch hook's rule on every id. */
  lemma StageByIdAgrees(id: int)
    ensures StageById(id) == StageFromId(id)
  {
  }

  const CHANCE_LABEL: seq<string> := ["90%", "50%", "30%"]

  /** The label of a card: the chance of the id's stage, written as a percent. */
  function ChanceLabel(id: int): string {
    CHANCE_LABEL[StageById(id)]
  }

  /** The label shows the same percent the catch uses. */
  lemma ChanceLabelMatchesTable(id: int)
    ensures ChanceLabel(id) == NatToString(CHANCE_PERCENT[StageFromId(id)]) + "%"
  {
    assert NatToString(90) == "90" && NatToString(50) == "50" && NatToString(30) == "30";
  }

  datatype BallPhase = Left | Inside | Right

  const ENTRY_MS := 300
  const EXIT_MS := 400

  /** `ballX`: the pokeball's horizontal offset in each phase. */
  function BallX(p: BallPhase): (x: int)
    ensures p == Inside ==> x == 10
    ensures p == Right ==> x == 600
    ensures p == Left ==> x == -70
  {
    if p == Inside then 10 else if p == Right then 600 else -70
  }

  /** Different phases put the ball at different places. */
  lemma BallXInjective(p: BallPhase, q: BallPhase)
    requires BallX(p) == BallX(q)
    ensures p == q
  {
  }

  /** The animation state and the animation frame the focus effect requested
      and that has not run yet. */
  class Pokeball {
    var phase: BallPhase
    var duration: int
    var enableT: bool
    var framePending: bool

    constructor ()
      ensures phase == Left && duration == 0 && !enableT && !framePending
    {
      phase := Left;
      duration := 0;
      enableT := false;
      framePending := false;
    }

    /** The effect on `[isFocused]`: on focus, park the ball left without a
        transition and ask for a frame; on blur, fly out to the right. */
    method FocusEffect(isFocused: bool)
      modifies this
      ensures isFocused ==> phase == Left && duration == 0 && !enableT && framePending
      ensures !isFocused ==> phase == Right && duration == EXIT_MS && enableT && framePending == old(framePending)
    {
      if isFocused {
        enableT := false;
        duration := 0;
        phase := Left;
        framePending := true;
      } else {
        duration := EXIT_MS;
        enableT := true;
        phase := Right;
      }
    }

    /** The requested animation frame runs: fly in. */
    method AnimationFrame()
      modifies this
      ensures old(framePending) ==> phase == Inside && duration == ENTRY_MS && enableT && !framePending
      ensures !old(framePending) ==> phase == old(phase) && duration == old(duration) && enableT == old(enableT) && !framePending
    {
      if framePending {
        duration := ENTRY_MS;
        enableT := true;
        phase := Inside;
        framePending := false;
      }
    }

    /** `handleTransitionEnd`: only a finished flight out resets the ball. */
    method TransitionEnd()
      modifies this
      ensures old(phase) == Right ==> phase == Left && duration == 0 && !enableT
      ensures old(phase) != Right ==> phase == old(phase) && duration == old(duration) && enableT == old(enableT)
      ensures framePending == old(framePending)
    {
      if phase == Right {
        enableT := false;
        duration := 0;
        phase := Left;
      }
    }
  }

  /** A focus whose frame runs brings the ball inside; a blur then sends it
      right; its transition end brings it back left, ready for the next focus. */
  method FocusBlurCycle(b: Pokeball)
    modifies b
    ensures b.phase == Left && b.duration == 0 && !b.enableT && !b.framePending
  {
    b.FocusEffect(true);
    b.AnimationFrame();
    assert b.phase == Inside && BallX(b.phase) == 10;
    b.FocusEffect(false);
    assert BallX(b.phase) == 600;
    b.TransitionEnd();
  }

  /** The frame requested on focus is not cancelled on blur: when the blur
      comes first, the late frame puts the ball inside an unfocused box. */
  method BlurBeforeFrame(b: Pokeball)
    modifies b
    ensures b.phase == Inside && b.enableT && b.duration == ENTRY_MS
  {
    b.FocusEffect(true);
    b.FocusEffect(false);
    b.AnimationFrame();
  }

  /** The panel of suggestion cards. */
  predicate ShowPanel(searchTerm: string, showSuggestions: bool, listLoading: bool, count: int) {
    Trim(searchTerm) != "" && showSuggestions && !listLoading && count > 0
  }

  /** The "No pokémon found" message. */
  predicate ShowEmpty(searchTerm: string, showSuggestions: bool, listLoading: bool, count: int) {
    Trim(searchTerm) != "" && showSuggestions && !listLoading && count == 0
  }

  /** The panel and the message never show together, and neither shows for a
      blank term, while the list loads, or with suggestions hidden; otherwise
      exactly one shows. */
  lemma PanelsExclusive(searchTerm: string, showSuggestions: bool, listLoading: bool, count: nat)
    ensures !(ShowPanel(searchTerm, showSuggestions, listLoading, count) && ShowEmpty(searchTerm, showSuggestions, listLoading, count))
    ensures (forall i :: 0 <= i < |searchTerm| ==> IsSpace(searchTerm[i])) || listLoading || !showSuggestions ==>
      !ShowPanel(searchTerm, showSuggestions, listLoading, count) && !ShowEmpty(searchTerm, showSuggestions, listLoading, count)
    ensures Trim(searchTerm) != "" && showSuggestions && !listLoading ==>
      ShowPanel(searchTerm, showSuggestions, listLoading, count) || ShowEmpty(searchTerm, showSuggestions, listLoading, count)
  {
  }
}
