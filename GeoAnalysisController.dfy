/**
 * The geo risk card of Controller/GeoAnalysisController.swift: a four-tier
 * country table, a level-to-delta policy that treats nationality and
 * residence differently, a nationality/residence mismatch rule driven by
 * keywords in the justification, and a three-line result whose total is
 * banded into a colour.
 */
module GeoAnalysis {
  import opened Wrappers
  import opened Text
  import CountryResolver
  import GeoModels

  /** `riskyKeywords`: the twelve keywords of the mismatch justification check. */
  const RiskyKeywords: seq<string> := [
    "suç", "ihlal", "gasp", "illegal", "kaçak", "yasal değil", "sabıka",
    "aranıyorum", "kaçıyorum", "kaçakçılık", "uyuşturucu", "hırsızlık"
  ]

  lemma KeywordsNonEmpty()
    ensures forall n :: 0 <= n < |RiskyKeywords| ==> |RiskyKeywords[n]| > 0
  {
  }

  /**
   * `normalizeISO2`: trim, take the resolver's code when it resolves and the
   * trimmed input otherwise, then upper-case. Blank input, and only blank
   * input, normalises to "".
   */
  function NormalizeISO2(s: string): (r: string)
    ensures CountryResolver.Iso2(s).Some? ==> r == CountryResolver.Iso2(s).value
    ensures CountryResolver.Iso2(s).None? ==> r == Uppercased(Trim(s, WhitespacesAndNewlines))
    ensures r == [] <==> forall k :: 0 <= k < |s| ==> InSet(s[k], WhitespacesAndNewlines)
  {
    var raw := Trim(s, WhitespacesAndNewlines);
    CountryResolver.Iso2IgnoresPadding(s);
    CountryResolver.EmptyExample();
    Uppercased(CountryResolver.Iso2(raw).GetOr(raw))
  }

  /** A name, a demonym and an alpha-3 code of the same country normalise alike. */
  lemma NormalizeExamples()
    ensures NormalizeISO2("tur") == "TR"
    ensures NormalizeISO2(" Turkish ") == "TR"
  {
    CountryResolver.Iso3Example();
    CountryResolver.DemonymExample();
  }

  /** `hasGeoMismatch`: both normalised codes present and different. */
  predicate HasMismatch(n: string, r: string) {
    n != [] && r != [] && n != r
  }

  /** The justification is risky when its lower-cased text holds a keyword. */
  predicate IsRiskyJustification(justification: Option<string>): (r: bool)
    ensures justification.None? ==> !r
  {
    KeywordsNonEmpty();
    ContainsAnyInEmpty(RiskyKeywords);
    ContainsAny(Lowercased(justification.GetOr("")), RiskyKeywords)
  }

  /**
   * `recomputeGeoMismatch`'s delta: 0 without a mismatch; with one, -10 for
   * a risky justification (nil read as "") and +2 otherwise.
   */
  function MismatchDelta(nationality: string, residence: string, justification: Option<string>): (d: int)
    ensures d == 0 || d == -10 || d == 2
    ensures d != 0 <==> HasMismatch(NormalizeISO2(nationality), NormalizeISO2(residence))
    ensures d == -10 <==> HasMismatch(NormalizeISO2(nationality), NormalizeISO2(residence)) && IsRiskyJustification(justification)
  {
    if !HasMismatch(NormalizeISO2(nationality), NormalizeISO2(residence)) then 0
    else if IsRiskyJustification(justification) then -10
    else 2
  }

  /** Swapping nationality and residence does not change the mismatch delta. */
  lemma MismatchSymmetric(nationality: string, residence: string, justification: Option<string>)
    ensures MismatchDelta(nationality, residence, justification) == MismatchDelta(residence, nationality, justification)
  {
  }

  /** Two spellings of the same country are no mismatch, whatever the justification. */
  lemma SameCountryNoMismatch(justification: Option<string>)
    ensures MismatchDelta("tur", " Turkish ", justification) == 0
  {
    NormalizeExamples();
  }

  /**
   * The keyword list of the crime-reason detector is a sub-list of this one,
   * so a crime reason is always a risky justification.
   */
  lemma CrimeReasonIsRisky(text: Option<string>)
    ensures GeoModels.IsCrimeReason(text) ==> IsRiskyJustification(text)
  {
    if text.Some? {
      CrimeKeywordsAreRisky();
      ContainsAnyOfSubList(Lowercased(text.value), GeoModels.CrimeKeywords, RiskyKeywords);
    }
  }

  /** Every keyword of the crime-reason detector is a risky keyword here. */
  lemma CrimeKeywordsAreRisky()
    ensures forall n :: 0 <= n < |GeoModels.CrimeKeywords| ==> GeoModels.CrimeKeywords[n] in RiskyKeywords
  {
    KeywordListsNest();
    forall n | 0 <= n < |GeoModels.CrimeKeywords|
      ensures GeoModels.CrimeKeywords[n] in RiskyKeywords
    {
      assert RiskyKeywords[if n == 0 then 0 else n + 2] == GeoModels.CrimeKeywords[n];
    }
  }

  /** Twelve keywords: the detector's ten with "ihlal" and "gasp" after the first. */
  lemma KeywordListsNest()
    ensures RiskyKeywords == GeoModels.CrimeKeywords[..1] + ["ihlal", "gasp"] + GeoModels.CrimeKeywords[1..]
  {
  }

  /** The converse fails: "gasp" is risky here but no crime reason there. */
  lemma GaspIsRiskyNotCrime()
    ensures IsRiskyJustification(Some("gasp")) && !GeoModels.IsCrimeReason(Some("gasp"))
  {
    LowercasedGasp();
    GaspIsRisky("gasp");
    GaspIsNoCrime("gasp");
  }

  lemma LowercasedGasp()
    ensures Lowercased("gasp") == "gasp"
  {
  }

  lemma GaspIsRisky(t: string)
    requires t == "gasp"
    ensures ContainsAny(t, RiskyKeywords)
  {
    assert OccursAt(t, RiskyKeywords[2], 0);
    ContainsAnyIff(t, RiskyKeywords);
  }

  lemma GaspIsNoCrime(t: string)
    requires t == "gasp"
    ensures !ContainsAny(t, GeoModels.CrimeKeywords)
  {
    forall n | 0 <= n < |GeoModels.CrimeKeywords|
      ensures !Contains(t, GeoModels.CrimeKeywords[n])
    {
      var k := GeoModels.CrimeKeywords[n];
      if n == 0 {
        assert k[1] == 'u' && 'u' !in t;
        AbsentCharNoMatch(t, k, 1);
      } else {
        assert |k| > |t|;
      }
    }
    ContainsAnyIff(t, GeoModels.CrimeKeywords);
  }

  /** A needle holding a character the text lacks does not occur in it. */
  lemma AbsentCharNoMatch(t: string, k: string, j: nat)
    requires j < |k| && k[j] !in t
    ensures !Contains(t, k)
  {
    forall i | 0 <= i <= |t|
      ensures !OccursAt(t, k, i)
    {
      if i + |k| <= |t| {
        assert t[i..i + |k|][j] == t[i + j];
      }
    }
  }

  /** `levelForCountryCode`: the four tiers of the demonstration table. */
  const VeryHighRisk: set<string> := {"SY", "IQ", "AF", "YE", "LY"}
  const HighRisk: set<string> := {"TR", "IN", "EG", "TH", "MX"}
  const LowRisk: set<string> := {"US", "DE", "FR", "NL", "SE"}

  /** The tiers do not overlap, so the order of the switch cases is immaterial. */
  lemma TiersDisjoint()
    ensures VeryHighRisk !! HighRisk && VeryHighRisk !! LowRisk && HighRisk !! LowRisk
  {
  }

  function LevelForCountryCode(iso2: string): (level: int)
    ensures 1 <= level <= 4
    ensures level == 4 <==> Uppercased(iso2) in VeryHighRisk
    ensures level == 3 <==> Uppercased(iso2) in HighRisk
    ensures level == 1 <==> Uppercased(iso2) in LowRisk
  {
    TiersDisjoint();
    var code := Uppercased(iso2);
    if code in VeryHighRisk then 4
    else if code in HighRisk then 3
    else if code in LowRisk then 1
    else 2
  }

  /** The lookup ignores case: a code and its upper-cased form get one level. */
  lemma LevelIgnoresCase(iso2: string)
    ensures LevelForCountryCode(iso2) == LevelForCountryCode(Uppercased(iso2))
  {
    UppercasedIdempotent(iso2);
  }

  /**
   * `deltaForLevel`: the higher the level, the lower the delta; only levels
   * 4 and 3 tell nationality and residence apart.
   */
  function DeltaForLevel(level: int, isNationality: bool): (d: int)
    ensures d == 1 <==> level != 4 && level != 3 && level != 2
    ensures level == 2 ==> d == -2
    ensures level == 3 ==> d == (if isNationality then -8 else -6)
    ensures level == 4 ==> d == (if isNationality then -12 else -15)
  {
    match level
    case 4 => if isNationality then -12 else -15
    case 3 => if isNationality then -8 else -6
    case 2 => -2
    case _ => 1
  }

  /** Over levels 1..4 the delta never rises as the level rises. */
  lemma DeltaMonotone(l1: int, l2: int, isNationality: bool)
    requires 1 <= l1 <= l2 <= 4
    ensures DeltaForLevel(l2, isNationality) <= DeltaForLevel(l1, isNationality)
  {
  }

  /**
   * Unlike the pure policy of GeoModels, where residence always weighs at
   * least as much, here level 3 costs a nationality more than a residence.
   */
  lemma PoliciesDisagreeAtLevelThree()
    ensures DeltaForLevel(3, false) > DeltaForLevel(3, true)
    ensures GeoModels.ResidenceDelta(Some(3)) < GeoModels.NationalityDelta(Some(3))
  {
  }

  /**
   * The mismatch step departs from `GeoScorePolicy` too: a crime reason
   * costs -10 here against the policy's -5, and a harmless one earns +2
   * against the policy's 0.
   */
  lemma PoliciesDisagreeOnMismatch(nationality: string, residence: string, justification: Option<string>)
    requires HasMismatch(NormalizeISO2(nationality), NormalizeISO2(residence))
    ensures GeoModels.IsCrimeReason(justification) ==>
      MismatchDelta(nationality, residence, justification) < GeoModels.MismatchCrimeDelta
    ensures !IsRiskyJustification(justification) ==>
      MismatchDelta(nationality, residence, justification) > GeoModels.MismatchNonCrimeDelta
  {
    CrimeReasonIsRisky(justification);
  }

  datatype RiskColor = Red | Yellow | Green | Neutral

  /** The colour bands of `run`: at most -10 red, up to -2 yellow, from 5 green. */
  function BandColor(total: int): (c: RiskColor)
    ensures c == Red <==> total <= -10
    ensures c == Yellow <==> -10 < total <= -2
    ensures c == Green <==> 5 <= total
    ensures c == Neutral <==> -2 < total < 5
  {
    if total <= -10 then Red
    else if total <= -2 then Yellow
    else if total >= 5 then Green
    else Neutral
  }

  /** Red is worst and green best; a lower total never gets a better colour. */
  function Severity(c: RiskColor): nat {
    match c
    case Red => 3
    case Yellow => 2
    case Neutral => 1
    case Green => 0
  }

  lemma BandMonotone(t1: int, t2: int)
    requires t1 <= t2
    ensures Severity(BandColor(t2)) <= Severity(BandColor(t1))
  {
  }

  datatype GeoRiskDelta = GeoRiskDelta(title: string, delta: int)

  datatype GeoRiskResult = GeoRiskResult(
    deltas: seq<GeoRiskDelta>,
    total: int,
    color: RiskColor,
    nationalityLevel: Option<int>,
    residenceLevel: Option<int>)

  /** `reduce(0) { $0 + $1.delta }`, folding from the left. */
  function SumDeltas(deltas: seq<GeoRiskDelta>): int {
    if deltas == [] then 0 else SumDeltas(deltas[..|deltas| - 1]) + deltas[|deltas| - 1].delta
  }

  lemma SumOfThree(deltas: seq<GeoRiskDelta>)
    requires |deltas| == 3
    ensures SumDeltas(deltas) == deltas[0].delta + deltas[1].delta + deltas[2].delta
  {
    assert deltas[..|deltas| - 1] == deltas[..2];
    assert deltas[..2][..1] == deltas[..1];
    assert deltas[..1][..0] == [];
    assert SumDeltas(deltas[..1]) == deltas[0].delta;
    assert SumDeltas(deltas[..2]) == deltas[0].delta + deltas[1].delta;
  }

  /** Swift's `"\(n)"` for an integer. */
  function DecimalText(n: int): (s: string)
    ensures 0 <= n < 10 ==> s == [('0' as int + n) as char]
    decreases if n < 0 then 1 - n else n
  {
    if n < 0 then "-" + DecimalText(-n)
    else if n < 10 then [('0' as int + n) as char]
    else DecimalText(n / 10) + DecimalText(n % 10)
  }

  function NationalityTitle(level: int): string {
    "Uyruk riski (Level " + DecimalText(level) + ")"
  }

  function ResidenceTitle(level: int): string {
    "İkamet riski (Level " + DecimalText(level) + ")"
  }

  /** The third line's title compares the inputs as stored, not normalised. */
  function MismatchTitle(nationality: string, residence: string): string {
    if nationality == residence then "Uyruk = İkamet" else "Uyruk ≠ İkamet"
  }

  /**
   * The result `run` builds: the levels are read from the stored input
   * itself, upper-cased, and not from its normalised ISO-2 code.
   */
  function Assess(nationality: string, residence: string, mismatchDelta: int): (r: GeoRiskResult)
    ensures |r.deltas| == 3
    ensures r.deltas[0].delta == DeltaForLevel(LevelForCountryCode(nationality), true)
    ensures r.deltas[1].delta == DeltaForLevel(LevelForCountryCode(residence), false)
    ensures r.deltas[2].delta == mismatchDelta
    ensures r.total == r.deltas[0].delta + r.deltas[1].delta + r.deltas[2].delta
    ensures r.color == BandColor(r.total)
    ensures r.nationalityLevel == Some(LevelForCountryCode(nationality))
    ensures r.residenceLevel == Some(LevelForCountryCode(residence))
  {
    var natLevel := LevelForCountryCode(nationality);
    var resLevel := LevelForCountryCode(residence);
    var deltas := [
      GeoRiskDelta(NationalityTitle(natLevel), DeltaForLevel(natLevel, true)),
      GeoRiskDelta(ResidenceTitle(resLevel), DeltaForLevel(resLevel, false)),
      GeoRiskDelta(MismatchTitle(nationality, residence), mismatchDelta)
    ];
    SumOfThree(deltas);
    var total := SumDeltas(deltas);
    GeoRiskResult(deltas, total, BandColor(total), Some(natLevel), Some(resLevel))
  }

  /**
   * With a mismatch delta the controller can hold, the total lies in
   * [-37, 4], so `run` never shows green.
   */
  lemma AssessRange(nationality: string, residence: string, mismatchDelta: int)
    requires mismatchDelta == 0 || mismatchDelta == -10 || mismatchDelta == 2
    ensures -37 <= Assess(nationality, residence, mismatchDelta).total <= 4
    ensures Assess(nationality, residence, mismatchDelta).color != Green
  {
  }

  /**
   * Classifying the stored input rather than its resolved code: "TUR"
   * normalises to TR, a level 3 country, yet `run` gives "TUR" level 2.
   */
  lemma RawInputIsClassified()
    ensures LevelForCountryCode(NormalizeISO2("TUR")) == 3
    ensures Assess("TUR", "TUR", 0).nationalityLevel == Some(2)
  {
    NormalizeTUR();
    LevelOfTR();
    LevelOfTUR();
  }

  lemma LevelOfTR()
    ensures LevelForCountryCode("TR") == 3
  {
    UpperCaseLetters("TR");
  }

  lemma LevelOfTUR()
    ensures LevelForCountryCode("TUR") == 2
  {
    var s := "TUR";
    assert s[0] == 'T' && s[1] == 'U' && s[2] == 'R';
    UpperCaseLetters(s);
    assert |s| == 3;
  }

  lemma NormalizeTUR()
    ensures NormalizeISO2("TUR") == "TR"
  {
    KeyTUR();
    CountryResolver.KeyTur();
    CountryResolver.Iso3Example();
  }

  lemma KeyTUR()
    ensures CountryResolver.NormalizeKey("TUR") == "TUR"
  {
    var s := "TUR";
    assert s[0] == 'T' && s[1] == 'U' && s[2] == 'R';
    assert IsTrimmed(s, WhitespacesAndNewlines);
    CountryResolver.KeyOfPlainTrimmed(s);
    UpperCaseLetters(s);
  }

  class GeoAnalysisController {
    var nationality: string
    var residenceCountry: string
    var mismatchJustification: Option<string>
    var isLoading: bool
    var errorMessage: Option<string>
    var result: Option<GeoRiskResult>
    var geoMismatchDelta: int
    var hasGeoMismatch: bool
    const debugMode: bool

    /** The mismatch outputs only ever hold what `recomputeGeoMismatch` sets. */
    ghost predicate Valid()
      reads this
    {
      (geoMismatchDelta == 0 || geoMismatchDelta == -10 || geoMismatchDelta == 2)
      && (hasGeoMismatch <==> geoMismatchDelta != 0)
    }

    /**
     * `init`: stores both countries upper-cased, then scores the mismatch
     * as `recomputeGeoMismatch` does.
     */
    constructor (nationality: string, residenceCountry: string, mismatchJustification: Option<string>, debugMode: bool)
      ensures this.nationality == Uppercased(nationality)
      ensures this.residenceCountry == Uppercased(residenceCountry)
      ensures this.mismatchJustification == mismatchJustification
      ensures this.debugMode == debugMode
      ensures !isLoading && errorMessage.None? && result.None?
      ensures hasGeoMismatch == HasMismatch(NormalizeISO2(this.nationality), NormalizeISO2(this.residenceCountry))
      ensures geoMismatchDelta == MismatchDelta(this.nationality, this.residenceCountry, mismatchJustification)
      ensures Valid()
    {
      var natInput, resInput := Uppercased(nationality), Uppercased(residenceCountry);
      var n, r := NormalizeISO2(natInput), NormalizeISO2(resInput);
      var mismatch := HasMismatch(n, r);
      var delta := MismatchDelta(natInput, resInput, mismatchJustification);
      this.nationality := natInput;
      this.residenceCountry := resInput;
      this.mismatchJustification := mismatchJustification;
      this.debugMode := debugMode;
      isLoading := false;
      errorMessage := None;
      result := None;
      hasGeoMismatch := mismatch;
      geoMismatchDelta := delta;
    }

    /** `recomputeGeoMismatch()`: sets the two mismatch outputs and nothing else. */
    method RecomputeGeoMismatch()
      modifies this`hasGeoMismatch, this`geoMismatchDelta
      ensures hasGeoMismatch == HasMismatch(NormalizeISO2(old(nationality)), NormalizeISO2(old(residenceCountry)))
      ensures geoMismatchDelta == MismatchDelta(old(nationality), old(residenceCountry), old(mismatchJustification))
      ensures Valid()
    {
      var n, r := NormalizeISO2(nationality), NormalizeISO2(residenceCountry);
      var mismatch := HasMismatch(n, r);
      var delta := MismatchDelta(nationality, residenceCountry, mismatchJustification);
      hasGeoMismatch := mismatch;
      geoMismatchDelta := delta;
    }

    /**
     * `run()`: with either country empty nothing changes; otherwise the
     * result is built, its three deltas folded into the total, and the
     * loading flag is down again on return.
     */
    method Run()
      requires Valid()
      modifies this`isLoading, this`errorMessage, this`result
      ensures Valid()
      ensures nationality == [] || residenceCountry == [] ==>
        isLoading == old(isLoading) && errorMessage == old(errorMessage) && result == old(result)
      ensures nationality != [] && residenceCountry != [] ==>
        result == Some(Assess(nationality, residenceCountry, geoMismatchDelta))
        && !isLoading && errorMessage.None?
      ensures nationality != [] && residenceCountry != [] ==> result.Some? && result.value.color != Green
    {
      if nationality == [] || residenceCountry == [] {
        return;
      }
      isLoading := true;
      errorMessage := None;

      var natLevel := LevelForCountryCode(nationality);
      var resLevel := LevelForCountryCode(residenceCountry);
      var natDelta := DeltaForLevel(natLevel, true);
      var resDelta := DeltaForLevel(resLevel, false);
      var deltas := [
        GeoRiskDelta(NationalityTitle(natLevel), natDelta),
        GeoRiskDelta(ResidenceTitle(resLevel), resDelta),
        GeoRiskDelta(MismatchTitle(nationality, residenceCountry), geoMismatchDelta)
      ];

      var total := 0;
      var i := 0;
      while i < |deltas|
        invariant 0 <= i <= |deltas|
        invariant total == SumDeltas(deltas[..i])
      {
        assert deltas[..i + 1][..i] == deltas[..i];
        total := total + deltas[i].delta;
        i := i + 1;
      }
      assert deltas[..i] == deltas;

      result := Some(GeoRiskResult(deltas, total, BandColor(total), Some(natLevel), Some(resLevel)));
      AssessRange(nationality, residenceCountry, geoMismatchDelta);
      isLoading := false;
    }
  }
}
