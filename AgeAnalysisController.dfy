/**
 * The age card's view state (Controller/AgeAnalysisController.swift). The
 * injected clock `nowProvider` becomes a `now` argument of every operation
 * that reads it.
 */
module AgeAnalysis {
  import opened AgeScorer

  datatype AgeColorToken = Yellow | Green | Neutral

  /** `color(for:)`: green inside 25..65, yellow on both sides, never neutral. */
  function ColorFor(years: int): (c: AgeColorToken)
    ensures c != Neutral
    ensures c == Green <==> 25 <= years <= 65
    ensures c == Yellow <==> years <= 24 || 65 < years
  {
    if years <= 24 then Yellow
    else if years <= 65 then Green
    else Yellow
  }

  /**
   * The colour agrees with the scorer's delta: green exactly when the age
   * adds nothing, yellow exactly when it takes points away.
   */
  lemma ColorTracksDelta(birth: Date, now: Date)
    ensures ColorFor(Score(birth, now).ageYears) == Green <==> Score(birth, now).delta == 0
    ensures ColorFor(Score(birth, now).ageYears) == Yellow <==> Score(birth, now).delta < 0
  {
  }

  class AgeAnalysisController {
    var birthDate: Date
    var score: AgeScore
    var colorToken: AgeColorToken
    /** The instant the clock gave at the last recompute. */
    ghost var evaluatedAt: Date

    /** `score` and `colorToken` reflect `birthDate` as of `evaluatedAt`. */
    ghost predicate Valid()
      reads this
    {
      score == Score(birthDate, evaluatedAt) && colorToken == ColorFor(score.ageYears)
    }

    /**
     * `init(birthDate:now:)`: the fields start at the placeholder score
     * ("—", delta 0) and `.neutral`, and are recomputed before it returns.
     */
    constructor (birthDate: Date, now: Date)
      ensures Valid()
      ensures this.birthDate == birthDate && evaluatedAt == now
      ensures colorToken != Neutral
    {
      this.birthDate := birthDate;
      score := AgeScore(0, 0, false, "—");
      colorToken := Neutral;
      evaluatedAt := now;
      new;
      Recompute(now);
    }

    /** `recompute()`: rescore the current birth date; nothing else changes. */
    method Recompute(now: Date)
      modifies this`score, this`colorToken, this`evaluatedAt
      ensures score == Score(birthDate, now)
      ensures colorToken == ColorFor(score.ageYears)
      ensures evaluatedAt == now
      ensures Valid()
      ensures colorToken != Neutral
      ensures colorToken == Green <==> score.delta == 0
      ensures birthDate == old(birthDate)
    {
      var s := Score(birthDate, now);
      score := s;
      colorToken := ColorFor(s.ageYears);
      evaluatedAt := now;
      ColorTracksDelta(birthDate, now);
    }

    /** Assigning `birthDate`: its `didSet` observer recomputes at once. */
    method SetBirthDate(value: Date, now: Date)
      modifies this
      ensures birthDate == value
      ensures score == Score(value, now) && colorToken == ColorFor(score.ageYears)
      ensures Valid() && evaluatedAt == now
    {
      birthDate := value;
      Recompute(now);
    }
  }
}
