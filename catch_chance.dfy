/** The catch odds of `src/hooks/useCatchPokemon.ts`: the stage an id is
    assigned, the chance table, and the outcome of one catch attempt. */
module CatchChance {
  import opened PokemonStore

  /** The quotient of `a / b` truncated toward zero, as JavaScript's
      `Math.trunc(a / b)` gives it. */
  function TruncQuot(a: int, b: int): int
    requires b > 0
  {
    if a >= 0 then a / b else -((-a) / b)
  }

  /** JavaScript's `a % b`: the remainder of division truncated toward zero,
      which takes the sign of the dividend (Dafny's `%` is Euclidean). */
  function JsRem(a: int, b: int): (r: int)
    requires b > 0
    ensures -b < r < b
    ensures a >= 0 ==> r >= 0
    ensures a < 0 ==> r <= 0
    ensures a == TruncQuot(a, b) * b + r
  {
    if a >= 0 then a % b else -((-a) % b)
  }

  /** `stageFromId` (src/hooks/useCatchPokemon.ts:7-10). */
  function StageFromId(id: int): (s: int)
    ensures 0 <= s <= 2
  {
    var m := JsRem(id - 1, 3);
    if m == 0 then 0 else if m == 1 then 1 else 2
  }

  /** For catalogue ids (1, 2, 3, ...) the stage cycles 0, 1, 2. */
  lemma StageFromPositiveId(id: int)
    requires id >= 1
    ensures StageFromId(id) == (id - 1) % 3
  {
  }

  /** For ids below 1 the truncated remainder is 0, -1 or -2, and the last
      two both fall through to stage 2: id 0 is stage 2, not stage 0. */
  lemma StageFromNonPositiveId(id: int)
    requires id <= 0
    ensures StageFromId(id) == if (1 - id) % 3 == 0 then 0 else 2
  {
  }

  /** For ids from 1 the stage repeats every three ids; below 1 it does not
      (id -1 is stage 2, id 2 is stage 1). */
  lemma StageFromIdPeriodic(id: int)
    requires id >= 1
    ensures StageFromId(id + 3) == StageFromId(id)
  {
  }

  /** `CHANCE = [0.9, 0.5, 0.3]`, as integer percents. */
  const CHANCE_PERCENT: seq<int> := [90, 50, 30]

  /** Later stages are strictly harder to catch. */
  lemma ChanceDecreasesWithStage(s: int, t: int)
    requires 0 <= s < t < |CHANCE_PERCENT|
    ensures CHANCE_PERCENT[s] > CHANCE_PERCENT[t]
  {
  }

  /** `CHANCE[stage]` as a fraction. */
  function Chance(stage: int): (c: real)
    requires 0 <= stage < |CHANCE_PERCENT|
    ensures 0.0 < c < 1.0
  {
    (CHANCE_PERCENT[stage] as real) / 100.0
  }

  datatype CatchOutcome = CatchOutcome(success: bool, stage: int)

  /** `attemptCatch(pokemon)` after its delay, with `draw` the value of
      `Math.random()`: success iff the draw is below the stage's chance. */
  function AttemptCatch(p: Pokemon, draw: real): (o: CatchOutcome)
    ensures 0 <= o.stage <= 2
  {
    var stage := StageFromId(p.id);
    CatchOutcome(draw < Chance(stage), stage)
  }

  /** The stored stage comes from the id alone, whatever the random draw. */
  lemma AttemptStageIgnoresDraw(p: Pokemon, d1: real, d2: real)
    ensures AttemptCatch(p, d1).stage == AttemptCatch(p, d2).stage == StageFromId(p.id)
  {
  }

  /** A smaller draw never turns a success into a failure. */
  lemma AttemptMonotoneInDraw(p: Pokemon, d1: real, d2: real)
    requires d1 <= d2 && AttemptCatch(p, d2).success
    ensures AttemptCatch(p, d1).success
  {
  }

  /** The boundary cases: 0.89999 succeeds at stage 0 and 0.90001 fails;
      0.30001 fails at stage 2. */
  lemma AttemptBoundaries(p0: Pokemon, p2: Pokemon)
    requires StageFromId(p0.id) == 0 && StageFromId(p2.id) == 2
    ensures AttemptCatch(p0, 0.89999).success
    ensures !AttemptCatch(p0, 0.90001).success
    ensures !AttemptCatch(p2, 0.30001).success
  {
  }
}
