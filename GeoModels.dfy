/**
 * The pure geo scoring policy, crime-reason detector and result colouring
 * of Model/GeoModels.swift. This rule set is separate from the one that
 * GeoAnalysisController applies, and its deltas differ from it.
 */
module GeoModels {
  import opened Wrappers
  import opened Text

  /** `GeoScorePolicy.residenceDelta(for:)`: only levels 4 and 3 count. */
  function ResidenceDelta(level: Option<int>): (d: int)
    ensures d == -15 <==> level == Some(4)
    ensures d == -10 <==> level == Some(3)
    ensures d == 0 <==> level != Some(4) && level != Some(3)
  {
    match level
    case Some(4) => -15
    case Some(3) => -10
    case _ => 0
  }

  /** `GeoScorePolicy.nationalityDelta(for:)` */
  function NationalityDelta(level: Option<int>): (d: int)
    ensures d == -10 <==> level == Some(4)
    ensures d == -5 <==> level == Some(3)
    ensures d == 0 <==> level != Some(4) && level != Some(3)
  {
    match level
    case Some(4) => -10
    case Some(3) => -5
    case _ => 0
  }

  /** Residence weighs at least as heavily as nationality, and neither rewards. */
  lemma ResidenceWeighsMore(level: Option<int>)
    ensures ResidenceDelta(level) <= NationalityDelta(level) <= 0
  {
  }

  /** `GeoScorePolicy`'s mismatch deltas, with and without a crime reason. */
  const MismatchCrimeDelta: int := -5
  const MismatchNonCrimeDelta: int := 0

  /** `CrimeReasonDetector.keywords`: ten entries, without "ihlal" and "gasp". */
  const CrimeKeywords: seq<string> := [
    "suç", "illegal", "kaçak", "yasal değil", "sabıka",
    "aranıyorum", "kaçıyorum", "kaçakçılık", "uyuşturucu", "hırsızlık"
  ]

  /**
   * `CrimeReasonDetector.isCrimeReason`: nil and blank text are never a
   * crime reason; otherwise the lower-cased text must contain a keyword as a
   * substring. The blank guard never decides anything else: the result is
   * exactly "there is text and it contains a keyword".
   */
  function IsCrimeReason(text: Option<string>): (r: bool)
    ensures r <==> text.Some? && ContainsAny(Lowercased(text.value), CrimeKeywords)
  {
    match text
    case None => false
    case Some(s) =>
      var t := Lowercased(s);
      if Trim(t, WhitespacesAndNewlines) == [] then
        KeywordsNotBlank(t);
        false
      else ContainsAny(t, CrimeKeywords)
  }

  /** Nil text and text made only of white space are never a crime reason. */
  lemma BlankIsNoCrimeReason(text: Option<string>)
    requires text.Some? ==> forall k :: 0 <= k < |text.value| ==> InSet(text.value[k], WhitespacesAndNewlines)
    ensures !IsCrimeReason(text)
  {
    if text.Some? {
      var t := Lowercased(text.value);
      assert forall k :: 0 <= k < |t| ==> t[k] == LowerChar(text.value[k]);
      KeywordsNotBlank(t);
    }
  }

  /** A needle that starts with a visible character never occurs in blank text. */
  lemma NoNeedleInBlank(t: string, needle: string)
    requires |needle| > 0 && !InSet(needle[0], WhitespacesAndNewlines)
    requires forall k :: 0 <= k < |t| ==> InSet(t[k], WhitespacesAndNewlines)
    ensures !Contains(t, needle)
  {
    forall i | 0 <= i <= |t|
      ensures !OccursAt(t, needle, i)
    {
      if i + |needle| <= |t| {
        assert t[i..i + |needle|][0] == t[i];
      }
    }
  }

  lemma {:induction false} NoNeedlesInBlank(t: string, needles: seq<string>)
    requires forall n :: 0 <= n < |needles| ==> |needles[n]| > 0 && !InSet(needles[n][0], WhitespacesAndNewlines)
    requires forall k :: 0 <= k < |t| ==> InSet(t[k], WhitespacesAndNewlines)
    ensures !ContainsAny(t, needles)
  {
    if |needles| > 0 {
      NoNeedleInBlank(t, needles[0]);
      NoNeedlesInBlank(t, needles[1..]);
    }
  }

  lemma KeywordsStartVisible()
    ensures forall n :: 0 <= n < |CrimeKeywords| ==> |CrimeKeywords[n]| > 0 && !InSet(CrimeKeywords[n][0], WhitespacesAndNewlines)
  {
    forall n | 0 <= n < |CrimeKeywords|
      ensures |CrimeKeywords[n]| > 0 && !InSet(CrimeKeywords[n][0], WhitespacesAndNewlines)
    {
      var k := CrimeKeywords[n];
      assert k[0] in "sikyauh";
    }
  }

  lemma KeywordsNotBlank(t: string)
    requires forall k :: 0 <= k < |t| ==> InSet(t[k], WhitespacesAndNewlines)
    ensures !ContainsAny(t, CrimeKeywords)
  {
    KeywordsStartVisible();
    NoNeedlesInBlank(t, CrimeKeywords);
  }

  datatype GeoDeltaItem = GeoDeltaItem(title: string, delta: int)

  datatype GeoColor = Red | Yellow | Green | Neutral

  /** `reduce(0) { $0 + $1.delta }`, folding from the left. */
  function SumItems(items: seq<GeoDeltaItem>): int {
    if items == [] then 0 else SumItems(items[..|items| - 1]) + items[|items| - 1].delta
  }

  lemma {:induction false} SumItemsAppend(a: seq<GeoDeltaItem>, b: seq<GeoDeltaItem>)
    ensures SumItems(a + b) == SumItems(a) + SumItems(b)
    decreases |b|
  {
    if b != [] {
      assert (a + b)[..|a + b| - 1] == a + b[..|b| - 1];
      SumItemsAppend(a, b[..|b| - 1]);
    } else {
      assert a + b == a;
    }
  }

  datatype GeoResult = GeoResult(residenceLevel: Option<int>, nationalityLevel: Option<int>, deltas: seq<GeoDeltaItem>) {

    /** `total`: the sum of the item deltas; 0 for no items. */
    function Total(): int {
      SumItems(deltas)
    }

    /**
     * `color`: red exactly when both levels are at least 4 (nil read as 0),
     * otherwise yellow exactly when the total is negative, otherwise green.
     */
    function Color(): (c: GeoColor)
      ensures c != Neutral
      ensures c == Red <==> residenceLevel.GetOr(0) >= 4 && nationalityLevel.GetOr(0) >= 4
      ensures c == Yellow <==> !(residenceLevel.GetOr(0) >= 4 && nationalityLevel.GetOr(0) >= 4) && Total() < 0
      ensures c == Green ==> Total() >= 0
    {
      if residenceLevel.GetOr(0) >= 4 && nationalityLevel.GetOr(0) >= 4 then Red
      else if Total() < 0 then Yellow
      else Green
    }
  }

  /** The total of one item is its delta, and totals add up over concatenation. */
  lemma TotalIsSum(r: GeoResult, extra: seq<GeoDeltaItem>)
    ensures GeoResult(r.residenceLevel, r.nationalityLevel, []).Total() == 0
    ensures GeoResult(r.residenceLevel, r.nationalityLevel, r.deltas + extra).Total()
         == r.Total() + GeoResult(r.residenceLevel, r.nationalityLevel, extra).Total()
  {
    SumItemsAppend(r.deltas, extra);
  }
}
