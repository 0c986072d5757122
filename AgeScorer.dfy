/**
 * Age bracket scoring (Model/Scoring/AgeScorer.swift). A date is a calendar
 * day; the age in years is the number of birthday anniversaries that have
 * passed, clamped at 0 for a birth date in the future.
 */
module AgeScorer {

  /** A calendar day. Time of day and time zones are not modelled. */
  datatype Date = Date(year: int, month: int, day: int)

  /** `a` is the same day as `b` or an earlier one. */
  predicate OnOrBefore(a: Date, b: Date) {
    a.year < b.year || (a.year == b.year && (a.month < b.month || (a.month == b.month && a.day <= b.day)))
  }

  /** The `k`-th birthday of someone born on `birth`. */
  function Anniversary(birth: Date, k: int): Date {
    Date(birth.year + k, birth.month, birth.day)
  }

  datatype AgeScore = AgeScore(ageYears: int, delta: int, hardStop: bool, labelText: string)

  const Label18To24: string := "Yaş 18–24"
  const Label25To65: string := "Yaş 25–65"
  const LabelOver65: string := "Yaş > 65"

  /**
   * The calendar's whole-year difference from `birth` to `now`: the year
   * difference, less one when this year's birthday is still ahead.
   */
  function FullYears(birth: Date, now: Date): int {
    now.year - birth.year - (if OnOrBefore(Anniversary(birth, now.year - birth.year), now) then 0 else 1)
  }

  /**
   * `computeAgeYears`: the number of full anniversaries, never negative.
   * The result is the last anniversary reached: that one is on or before
   * `now` and the next one is after it.
   */
  function ComputeAgeYears(birth: Date, now: Date): (years: nat)
    ensures years > 0 ==> OnOrBefore(Anniversary(birth, years), now)
    ensures !OnOrBefore(Anniversary(birth, years + 1), now)
  {
    var full := FullYears(birth, now);
    if full < 0 then 0 else full
  }

  /** No later anniversary than the computed age has been reached. */
  lemma AgeIsLastAnniversary(birth: Date, now: Date, k: int)
    requires k > 0 && OnOrBefore(Anniversary(birth, k), now)
    ensures k <= ComputeAgeYears(birth, now)
  {
  }

  /** On the `k`-th birthday the age is exactly `k`. */
  lemma AgeOnAnniversary(birth: Date, k: nat)
    ensures ComputeAgeYears(birth, Anniversary(birth, k)) == k
  {
    if k > 0 {
      AgeIsLastAnniversary(birth, Anniversary(birth, k), k);
    }
  }

  /** A birth date after `now` gives age 0. */
  lemma FutureBirthDate(birth: Date, now: Date)
    requires !OnOrBefore(birth, now)
    ensures ComputeAgeYears(birth, now) == 0
  {
  }

  /**
   * `score`: the bracket, delta and label for the age. The brackets are
   * tried in order, so age 0..17 falls into the first one too; no bracket
   * sets the hard stop.
   */
  function Score(birth: Date, now: Date): (s: AgeScore)
    ensures s.ageYears == ComputeAgeYears(birth, now)
    ensures !s.hardStop
    ensures s.delta in {-8, 0, -5}
    ensures s.ageYears <= 24 ==> s.delta == -8 && s.labelText == Label18To24
    ensures 25 <= s.ageYears <= 65 ==> s.delta == 0 && s.labelText == Label25To65
    ensures 65 < s.ageYears ==> s.delta == -5 && s.labelText == LabelOver65
  {
    var years := ComputeAgeYears(birth, now);
    if years <= 24 then AgeScore(years, -8, false, Label18To24)
    else if years <= 65 then AgeScore(years, 0, false, Label25To65)
    else AgeScore(years, -5, false, LabelOver65)
  }

  /** The delta alone determines the label, and the label the delta. */
  lemma LabelMatchesDelta(birth: Date, now: Date)
    ensures Score(birth, now).delta == -8 <==> Score(birth, now).labelText == Label18To24
    ensures Score(birth, now).delta == 0 <==> Score(birth, now).labelText == Label25To65
    ensures Score(birth, now).delta == -5 <==> Score(birth, now).labelText == LabelOver65
  {
    assert Label18To24 != Label25To65 by { assert Label18To24[4] != Label25To65[4]; }
    assert Label18To24 != LabelOver65 by { assert Label18To24[4] != LabelOver65[4]; }
    assert Label25To65 != LabelOver65 by { assert Label25To65[4] != LabelOver65[4]; }
  }

  /** The bracket edges 24/25 and 65/66, reached on those birthdays. */
  lemma BracketBoundaries(birth: Date)
    ensures Score(birth, Anniversary(birth, 18)) == AgeScore(18, -8, false, Label18To24)
    ensures Score(birth, Anniversary(birth, 24)).delta == -8
    ensures Score(birth, Anniversary(birth, 25)).delta == 0
    ensures Score(birth, Anniversary(birth, 65)).delta == 0
    ensures Score(birth, Anniversary(birth, 66)).delta == -5
  {
    AgeOnAnniversary(birth, 18);
    AgeOnAnniversary(birth, 24);
    AgeOnAnniversary(birth, 25);
    AgeOnAnniversary(birth, 65);
    AgeOnAnniversary(birth, 66);
  }
}
