# KYC scoring and validation rules in Dafny

This project models the deterministic rules of a Swift know-your-customer
(KYC) onboarding app and proves properties about them. The app's screens and
its Firestore storage sit around a small set of rules for scoring and
validation:

- **Age scoring.** `AgeScorer` turns a birth date into a whole-year age, a
  bracket, a delta and a label. `AgeAnalysisController` keeps its score and
  colour in step with its birth date.
- **Geo risk scoring.** `GeoAnalysisController` has:
  - a four-tier country table;
  - a level-to-delta policy that weighs nationality and residence differently;
  - a nationality/residence mismatch rule driven by keywords in the
    justification;
  - a three-line result whose total is banded into a colour.

  Two more rule sets exist beside it: the live mismatch rule of
  `KYCInfoController`, and the pure policy, crime-keyword detector and
  result colouring of `GeoModels`.
- **Country-code normalisation.**
  - `CountryResolver.iso2(from:)` maps country names, demonyms and
    ISO 3166-1 alpha-3 codes to ISO 3166-1 alpha-2.
  - A GEC/FIPS 10-4 to alpha-2 table, with `splitCategoryCodes` and
    `mapGECtoISO2`.
  - `AdvisoryService.findAdvisory`, a first-match search over
    travel-advisory posts.
- **Identity and form validation.**
  - The T.C. Kimlik No (Turkish national identity number) checksum and the
    input filter of `IdentityController`.
  - The customer-number format of `IdentityController`.
  - The form validity predicate `KYCInfoController.isValid`, which drives
    KVKK consent. KVKK is the Turkish personal-data protection law.
  - The contact validators of `KYCProfile`.

One Dafny module models each Swift file:

- **Modules without state.** `AgeScorer`, `GeoModels`, `CountryResolver`,
  `CountryCodeMap`, `Advisory` and `Profiles` are datatypes, functions and
  lemmas.
- **Controllers.** `AgeAnalysis`, `GeoAnalysis`, `KYCInfo` and `Identity`
  each hold a `class` whose methods assign the controller's fields. The pure
  helpers of each controller sit beside its class as functions.
- **Helper modules.** `Text` holds the parts of Swift's `String` API the core
  uses: trimming, case mapping, substring search, digit filtering, `prefix`,
  `suffix` and `split`. `Seqs` holds `first(where:)` and `compactMap`.
  `Wrappers` holds `Option`.

Modelling choices:

- **Reading the clock.** The clock that `AgeAnalysisController` injects, and
  the `Date()` read by `save()`, become `now` arguments.
- **Random digits.** The five random digits of a customer number are an
  argument.
- **Age in the form.** The age that `KYCInfoController.isValid` reads is an
  argument of `IsValid`.
- **DEBUG builds.** The DEBUG build flag is a constant field of the identity
  controller.
- **Text.** Characters are ASCII plus the Turkish letters Ç Ş Ğ Ö Ü and
  dotless ı, whose case mappings are one character to one character. `İ` is
  kept unchanged by case mapping. `isNumber` means the ASCII digits.
- **Dates.** A date is a calendar day `(year, month, day)`. An age counts the
  full birthday anniversaries passed, clamped at 0.

Points where the model follows the code rather than its description:

- **`run` reads the raw input.** `GeoAnalysisController.run` takes country
  levels from the stored upper-cased input, not from the ISO-2 code that
  `normalizeISO2` resolves. So "TUR" gets level 2, although it resolves to
  TR, which is level 3 (`GeoAnalysis.RawInputIsClassified`).
- **`isCrimeReason` and the risky keywords.** The mismatch rule uses twelve
  keywords, but `CrimeReasonDetector` uses only ten of them: it lacks "ihlal"
  and "gasp". Every crime reason is a risky justification, but not the other
  way round.
- **Two `normalizeISO2` functions.** `KYCInfoController.normalizeISO2` and
  `GeoAnalysisController.normalizeISO2` compute the same thing. Both are
  modelled by `GeoAnalysis.NormalizeISO2`.
- **The live keyword check.** `KYCInfoController`'s keyword check is wrapped
  in a per-character `contains`. `KYCInfo.LiveRisk` models the wrapper as
  written, and `KYCInfo.LiveRiskIsKeywordRule` proves it is the plain
  keyword rule.
- **No hard stop.** The doc comments of `AgeScorer` describe a hard stop
  under 18, but no bracket sets it. The model proves `hardStop` is always
  false, and that ages 0 to 17 fall into the first bracket.
- **Customer numbers.** `Identity.ParseCustomerNumber` is not in the app. It
  is the inverse that the customer-number format is proved against.
- **Method postconditions.** Postconditions of methods that change state
  are stated over the fields as they were before the call (`old(...)`).

## Model

| member | source | states |
|---|---|---|
| AgeScorer.ComputeAgeYears | Model/Scoring/AgeScorer.swift:21-24 | The age is a natural number and is the last anniversary reached: when positive, that birthday is on or before `now`, and the next birthday is after `now` |
| AgeScorer.AgeIsLastAnniversary | Model/Scoring/AgeScorer.swift:21-24 | Every birthday reached by `now` is at most the computed age |
| AgeScorer.AgeOnAnniversary | Model/Scoring/AgeScorer.swift:21-24 | On the k-th birthday the age is exactly k |
| AgeScorer.FutureBirthDate | Model/Scoring/AgeScorer.swift:23 | A birth date after `now` gives age 0, never a negative age |
| AgeScorer.Score | Model/Scoring/AgeScorer.swift:27-32 | `ageYears` is the computed age; `hardStop` is always false; the delta is one of -8, 0, -5; up to 24 (ages 0-17 included) gives -8 and "Yaş 18–24", 25..65 gives 0 and "Yaş 25–65", over 65 gives -5 and "Yaş > 65" |
| AgeScorer.LabelMatchesDelta | Model/Scoring/AgeScorer.swift:29-31 | Each delta goes with exactly one label, in both directions |
| AgeScorer.BracketBoundaries | Model/Scoring/AgeScorer.swift:29-31 | At 18 and 24 the delta is -8, at 25 and 65 it is 0, at 66 it is -5 |
| AgeAnalysis.ColorFor | Controller/AgeAnalysisController.swift:32-36 | Never neutral; green exactly for 25..65; yellow exactly for at most 24 or over 65 |
| AgeAnalysis.ColorTracksDelta | Controller/AgeAnalysisController.swift:26-36 | The colour is green exactly when the score's delta is 0, and yellow exactly when it is negative |
| AgeAnalysis.AgeAnalysisController.constructor | Controller/AgeAnalysisController.swift:12-24 | After `init` the score is the scorer's result for the birth date at `now`, and the colour matches it, so it is no longer neutral |
| AgeAnalysis.AgeAnalysisController.Recompute | Controller/AgeAnalysisController.swift:26-30 | The score is rescored at `now`, the colour follows the age and is never neutral, green exactly when the delta is 0; the birth date is unchanged, and only the score, the colour and the evaluation time are written |
| AgeAnalysis.AgeAnalysisController.SetBirthDate | Controller/AgeAnalysisController.swift:12 | Assigning the birth date recomputes at once, so the score always reflects the current birth date |
| GeoModels.ResidenceDelta | Model/GeoModels.swift:78-84 | -15 exactly for level 4, -10 exactly for level 3, 0 for every other level and for nil |
| GeoModels.NationalityDelta | Model/GeoModels.swift:85-91 | -10 exactly for level 4, -5 exactly for level 3, 0 for every other level and for nil |
| GeoModels.ResidenceWeighsMore | Model/GeoModels.swift:78-91 | For every level, the residence delta is at most the nationality delta, which is at most 0 |
| GeoModels.IsCrimeReason | Model/GeoModels.swift:98-105 | True exactly when there is text and its lower-cased form holds one of the ten keywords as a substring; the blank guard never changes the outcome |
| GeoModels.BlankIsNoCrimeReason | Model/GeoModels.swift:102-103 | Nil text, and text made only of white space or newlines, is never a crime reason |
| GeoModels.SumItemsAppend | Model/GeoModels.swift:119 | The left fold of the deltas is additive over concatenation |
| GeoModels.TotalIsSum | Model/GeoModels.swift:119 | The total of no items is 0, and totals add up when items are appended |
| GeoModels.GeoResult.Color | Model/GeoModels.swift:122-126 | Red exactly when both levels are at least 4 (nil read as 0); otherwise yellow exactly when the total is negative; otherwise green, with a total of at least 0; never neutral |
| GeoAnalysis.NormalizeISO2 | Controller/GeoAnalysisController.swift:87-93 | The resolver's code when the input resolves, otherwise the trimmed input upper-cased; the result is empty exactly when the input is blank |
| GeoAnalysis.NormalizeExamples | Controller/GeoAnalysisController.swift:87-93 | "tur" and " Turkish " both normalise to "TR" |
| GeoAnalysis.MismatchDelta | Controller/GeoAnalysisController.swift:95-105 | The delta is 0, -10 or +2; it is non-zero exactly when both normalised codes are non-empty and differ; it is -10 exactly when there is such a mismatch and the lower-cased justification (nil read as "") holds one of the twelve keywords |
| GeoAnalysis.MismatchSymmetric | Controller/GeoAnalysisController.swift:96-99 | Swapping nationality and residence leaves the delta unchanged |
| GeoAnalysis.SameCountryNoMismatch | Controller/GeoAnalysisController.swift:95-100 | "tur" against " Turkish " is no mismatch, whatever the justification |
| GeoAnalysis.CrimeKeywordsAreRisky | Controller/GeoAnalysisController.swift:30-33 | Each of the detector's ten keywords is one of the twelve risky keywords |
| GeoAnalysis.KeywordListsNest | Controller/GeoAnalysisController.swift:30-33 | The twelve keywords are the detector's ten with "ihlal" and "gasp" inserted after the first |
| GeoAnalysis.CrimeReasonIsRisky | Controller/GeoAnalysisController.swift:30-33 | Every text that `isCrimeReason` accepts is a risky mismatch justification |
| GeoAnalysis.HasMismatch | Controller/GeoAnalysisController.swift:99 | Both normalised codes present and different |
| GeoAnalysis.IsRiskyJustification | Controller/GeoAnalysisController.swift:102-103 | A missing justification is never risky |
| GeoAnalysis.GaspIsRiskyNotCrime | Controller/GeoAnalysisController.swift:30-33 | The converse fails: "gasp" is risky here but no crime reason for the detector |
| GeoAnalysis.TiersDisjoint | Controller/GeoAnalysisController.swift:113-117 | The three listed tiers share no code, so the order of the cases does not matter |
| GeoAnalysis.LevelForCountryCode | Controller/GeoAnalysisController.swift:112-119 | The level is 1..4; it is 4 exactly for SY IQ AF YE LY, 3 exactly for TR IN EG TH MX, 1 exactly for US DE FR NL SE, all after upper-casing |
| GeoAnalysis.LevelIgnoresCase | Controller/GeoAnalysisController.swift:113 | A code and its upper-cased form get the same level |
| GeoAnalysis.DeltaForLevel | Controller/GeoAnalysisController.swift:122-130 | Level 4 gives -12 for nationality and -15 for residence, level 3 gives -8 and -6, level 2 gives -2, and exactly the other levels give +1 |
| GeoAnalysis.DeltaMonotone | Controller/GeoAnalysisController.swift:122-130 | Over levels 1..4, a higher level never gives a higher delta |
| GeoAnalysis.PoliciesDisagreeAtLevelThree | Controller/GeoAnalysisController.swift:126 | At level 3 this policy penalises nationality more than residence, while the `GeoScorePolicy` does the reverse |
| GeoAnalysis.PoliciesDisagreeOnMismatch | Controller/GeoAnalysisController.swift:99-104 | On a mismatch, a crime reason costs more than `GeoScorePolicy.mismatchCrimeDelta` (-10 against -5), and a harmless justification earns more than `mismatchNonCrimeDelta` (+2 against 0) |
| GeoAnalysis.BandColor | Controller/GeoAnalysisController.swift:69-74 | Red exactly for at most -10, yellow exactly for -9..-2, green exactly from 5, neutral exactly for -1..4 |
| GeoAnalysis.BandMonotone | Controller/GeoAnalysisController.swift:69-74 | A lower total never gets a less severe colour |
| GeoAnalysis.SumOfThree | Controller/GeoAnalysisController.swift:68 | The left fold over three deltas is their sum |
| GeoAnalysis.DecimalText | Controller/GeoAnalysisController.swift:63-64 | A level from 0 to 9 prints as its single digit |
| GeoAnalysis.Assess | Controller/GeoAnalysisController.swift:56-82 | Three deltas in the order nationality, residence, mismatch; the first two follow the levels of the inputs and the third is the stored mismatch delta; the total is their sum; the colour is the band of the total; both levels are recorded |
| GeoAnalysis.AssessRange | Controller/GeoAnalysisController.swift:62-74 | With a mismatch delta of 0, -10 or +2 the total lies in [-37, 4], so the result is never green |
| GeoAnalysis.RawInputIsClassified | Controller/GeoAnalysisController.swift:56-57 | "TUR" normalises to a level-3 code, yet the result gives it level 2, because the level is read from the raw input |
| GeoAnalysis.GeoAnalysisController.constructor | Controller/GeoAnalysisController.swift:35-46 | Both countries are stored upper-cased; the mismatch flag and delta are what `recomputeGeoMismatch` gives for the stored values; nothing is loading and there is no result |
| GeoAnalysis.GeoAnalysisController.RecomputeGeoMismatch | Controller/GeoAnalysisController.swift:95-105 | Sets only the mismatch flag and delta, to the mismatch rule's values for the current inputs, keeping the delta in {0, -10, +2} and non-zero exactly with a mismatch |
| GeoAnalysis.GeoAnalysisController.Run | Controller/GeoAnalysisController.swift:49-83 | With either country empty nothing changes; otherwise the result is the assessment of the stored inputs, its deltas folded by a loop into the total, loading is off and the error cleared on return, and the colour is never green |
| KYCInfo.LiveRiskIsKeywordRule | Controller/KYCInfoController.swift:136-137 | The per-character wrapper holds exactly when the lower-cased justification holds a risky keyword |
| KYCInfo.LiveMismatchDelta | Controller/KYCInfoController.swift:131-139 | The live delta always equals the geo card's mismatch delta for the same inputs, with the justification never nil |
| KYCInfo.KYCInfoController.constructor | Controller/KYCInfoController.swift:13-57 | Every field starts at its initial value, consent is not given and the version is "v1.0", so the form is invalid for every age |
| KYCInfo.KYCInfoController.MarkKVKKAccepted | Controller/KYCInfoController.swift:114-116 | Only consent is set; afterwards validity rests on the fields, the phone, the email and the age alone |
| KYCInfo.KYCInfoController.ProfileToSave | Controller/KYCInfoController.swift:88-104 | The saved profile carries every field of the form: customer and national ids, names, birth date, contact, address, nationality, residence, gender, criminal record and consent; the consent time is `now` exactly when consent was given, and the consent version is the form's |
| KYCInfo.KYCInfoController.IsValid | Controller/KYCInfoController.swift:65-80 | A valid form has every field present, a phone-like phone and an email-like email, and belongs to an adult who gave consent; hence a phone of at least ten characters and an email of at least two |
| KYCInfo.KYCInfoController.RecomputeGeoMismatch | Controller/KYCInfoController.swift:131-139 | Sets only the mismatch flag and delta: the flag holds exactly when the normalised codes are non-empty and differ, the delta is the geo card's rule, in {0, -10, +2}, and non-zero exactly with a mismatch |
| KYCInfo.ValidFormSavesValidContact | Controller/KYCInfoController.swift:65-80 | A valid form saves a profile that passes `isPhoneLike` and `isEmailLike` and records consent at `now` |
| CountryResolver.NormalizeKey | Model/CountryResolver.swift:25-28 | The key is no longer than the input and is empty exactly when the input is blank |
| CountryResolver.Lookup | Model/CountryResolver.swift:33-44 | Whatever the table search finds is two upper-case characters |
| CountryResolver.LookupIso3First | Model/CountryResolver.swift:34-36 | When some row's ISO-3 code matches, the first such row gives the answer |
| CountryResolver.LookupNameFirst | Model/CountryResolver.swift:39-43 | Without an ISO-3 match, the first row whose name or demonym matches gives the answer |
| CountryResolver.LookupNone | Model/CountryResolver.swift:44 | Nothing is found exactly when no row matches by ISO-3 code, name or demonym |
| CountryResolver.LookupByIso3 | Model/CountryResolver.swift:34-36 | The first ISO-3 match gives that row's alpha-2 code |
| CountryResolver.LookupByName | Model/CountryResolver.swift:39-43 | Without an ISO-3 match, the first name match gives that row's alpha-2 code |
| CountryResolver.Iso2 | Model/CountryResolver.swift:24-45 | A two-character key is returned as it is, real code or not; any other key goes to the table search; every answer is two upper-case characters |
| CountryResolver.Iso2IgnoresPadding | Model/CountryResolver.swift:25 | Surrounding white space never changes the answer |
| CountryResolver.TableCodesUpperCase | Model/CountryResolver.swift:15-22 | Every alpha-2 code in the table is two upper-case letters |
| CountryResolver.KeyOfPlain | Model/CountryResolver.swift:25-28 | Without İ or ı, the key is the trimmed input upper-cased |
| CountryResolver.NormalizeKeyIgnoresDottedI | Model/CountryResolver.swift:25-28 | Inputs that differ only in writing İ, ı or I have the same key |
| CountryResolver.NormalizeKeyOfDotless | Model/CountryResolver.swift:25-28 | Writing every İ and ı as I leaves the key as it is |
| CountryResolver.Iso3Example | Model/CountryResolver.swift:34-36 | "tur" resolves to "TR", ignoring case |
| CountryResolver.DemonymExample | Model/CountryResolver.swift:39-43 | " Turkish " resolves to "TR", trimmed and ignoring case |
| CountryResolver.CountryNameExample | Model/CountryResolver.swift:39-43 | "germany" resolves to "DE" |
| CountryResolver.EmptyExample | Model/CountryResolver.swift:44 | The empty string resolves to nothing |
| CountryCodeMap.GecTable | Model/CountryCodeMap.swift:12-41 | Every value in the GEC table is either empty or two capital letters |
| CountryCodeMap.GecToIso2 | Model/CountryCodeMap.swift:12-41 | Only two-character keys are in the table, and their values are empty or two capital letters |
| CountryCodeMap.NonEmpty | Model/CountryCodeMap.swift:47 | What the filter keeps is non-empty, no longer than its input, and drawn from it |
| CountryCodeMap.NonEmptyAppend | Model/CountryCodeMap.swift:47 | The filter works element by element: filtering a concatenation concatenates the filtered parts, in order |
| CountryCodeMap.NonEmptySingle | Model/CountryCodeMap.swift:47 | One string is kept exactly when it is non-empty |
| CountryCodeMap.NonEmptyKeepsAll | Model/CountryCodeMap.swift:47 | A list of non-empty strings passes the filter unchanged |
| CountryCodeMap.SplitCategoryCodes | Model/CountryCodeMap.swift:44-48 | Every code it yields is non-empty, trimmed, upper-case and free of commas |
| CountryCodeMap.SplitCategoryCodesJoined | Model/CountryCodeMap.swift:44-48 | For any comma-free pieces joined by commas, the result is each piece trimmed and upper-cased, in order, with the pieces that clean to nothing dropped |
| CountryCodeMap.SplitOnJoinWithDropsEmpty | Model/CountryCodeMap.swift:45 | Separator-free pieces joined by the separator split back into exactly the non-empty ones, in order: a leading, trailing or doubled separator yields no empty piece |
| CountryCodeMap.CleanNonEmpty | Model/CountryCodeMap.swift:45-47 | Dropping empty pieces before cleaning and filtering gives the same codes as cleaning and filtering them all, since an empty piece cleans to nothing |
| CountryCodeMap.SplitCategoryCodesRoundTrip | Model/CountryCodeMap.swift:44-48 | Clean codes (non-empty, trimmed, upper-case, comma-free) joined by commas split back into exactly those codes |
| CountryCodeMap.CleanCodeProperties | Model/CountryCodeMap.swift:46 | Trimming then upper-casing gives a trimmed, upper-case piece that has a comma only if the piece had one |
| CountryCodeMap.SplitCategoryCodesThree | Model/CountryCodeMap.swift:44-48 | Three two-letter codes joined by ", " split back into the same three codes, in order |
| CountryCodeMap.SplitCategoryCodesExample | Model/CountryCodeMap.swift:43-48 | "HK, MC, CH" gives ["HK", "MC", "CH"] |
| CountryCodeMap.SplitCategoryCodesEmptyPieces | Model/CountryCodeMap.swift:44-48 | ",HK,,MC," gives ["HK", "MC"]: leading, doubled and trailing commas add nothing |
| CountryCodeMap.Translate | Model/CountryCodeMap.swift:52-56 | A code contributes only a two-character value that the table gives for it once upper-cased, and contributes nothing exactly when the table has no entry or an empty one |
| CountryCodeMap.MapGECtoISO2 | Model/CountryCodeMap.swift:51-57 | The output is no longer than the input, and each output is a non-empty table value of one of the input codes, upper-cased |
| CountryCodeMap.MapGECtoISO2Keeps | Model/CountryCodeMap.swift:51-57 | Every input code with a non-empty table value contributes that value to the output |
| CountryCodeMap.MapGECtoISO2Append | Model/CountryCodeMap.swift:52 | Mapping a concatenation is concatenating the mappings, so surviving codes keep their relative order |
| CountryCodeMap.MapGECtoISO2Cons | Model/CountryCodeMap.swift:52 | Mapping a list is mapping its first code followed by mapping the rest |
| CountryCodeMap.MapGECtoISO2Single | Model/CountryCodeMap.swift:52-56 | One code maps to its translation, or to nothing when it has none |
| CountryCodeMap.TranslateExamples | Model/CountryCodeMap.swift:53-54 | "tu" gives "TR", "GM" gives "DE", "UK" gives "GB"; "A3" and "IS", whose values are empty, give nothing |
| CountryCodeMap.DroppedCodes | Model/CountryCodeMap.swift:54 | ["A3", "IS"] maps to nothing |
| CountryCodeMap.KeptCodes | Model/CountryCodeMap.swift:53-55 | ["tu"], ["GM"] and ["UK"] map to ["TR"], ["DE"] and ["GB"] |
| CountryCodeMap.MapGECtoISO2Example | Model/CountryCodeMap.swift:51-57 | ["tu", "GM", "UK", "A3", "IS"] maps to ["TR", "DE", "GB"] |
| Advisory.UppercaseAll | Controller/AdvisoryService.swift:31 | Same length, each code upper-cased in place |
| Advisory.FindAdvisory | Controller/AdvisoryService.swift:24-34 | Nil when the resolver gives nil; any post found is the first whose translated categories hold the resolved code upper-cased; when the input resolves, nil exactly when no post covers the code |
| Advisory.FindAdvisoryFirst | Controller/AdvisoryService.swift:30-33 | Whichever post covers the resolved code first is the one returned |
| Advisory.UppercaseAllRedundant | Controller/AdvisoryService.swift:31 | Upper-casing the categories before translating changes nothing |
| Advisory.CoversIgnoresCase | Controller/AdvisoryService.swift:31-32 | A post covers a code exactly when its raw categories translate to it |
| Advisory.LowerCaseCategoryCovers | Controller/AdvisoryService.swift:31 | A post with the category "tu" covers "TR" |
| Advisory.A3CoversNothing | Controller/AdvisoryService.swift:31-32 | A post whose only category has an empty table value covers nothing |
| Advisory.FindAdvisoryExample | Controller/AdvisoryService.swift:29-33 | With the country resolver, "tur" finds the second of two posts when the first one's category translates to nothing |
| Advisory.UnresolvedFindsNothing | Controller/AdvisoryService.swift:29 | The empty input resolves to nothing and so finds nothing, whatever the posts |
| Identity.FilterTC | Controller/IdentityController.swift:37-38 | At most eleven characters, all digits, and a prefix of the input's digits in order, as long as possible |
| Identity.FilterTCIdempotent | Controller/IdentityController.swift:37-38 | Filtering the filtered text leaves it unchanged |
| Identity.FilterTCExample | Controller/IdentityController.swift:37-38 | "100000 00146" filters to "10000000146" |
| Identity.SwiftRem10 | Controller/IdentityController.swift:112 | Swift's remainder by 10: it differs from the dividend by a multiple of 10, lies in 0..9 for a non-negative dividend and in -9..0 for a negative one |
| Identity.AsWrittenIsStricter | Controller/IdentityController.swift:105-117 | Every number the checksum as written accepts is valid |
| Identity.AsWrittenRejects | Controller/IdentityController.swift:110-117 | The code as written rejects exactly the valid numbers whose weighted difference is negative and not a multiple of 10 |
| Identity.AsWrittenCounterexample | Controller/IdentityController.swift:112 | "19090909018" is a valid number that the code as written rejects |
| Identity.IsValidTCKNAsWritten | Controller/IdentityController.swift:105-117 | The check as written accepts exactly the valid numbers whose weighted difference is non-negative or a multiple of 10 |
| Identity.IsValidTCKN | Controller/IdentityController.swift:105-117 | The published checksum; an accepted number is eleven digits not starting with '0', and its last digit is even |
| Identity.LastCheckDigitEven | Controller/IdentityController.swift:110-114 | When the tenth digit is the weighted difference modulo 10, the sum of the first ten digits is even modulo 10 |
| Identity.ChecksumExamples | Controller/IdentityController.swift:105-117 | "10000000146" is accepted, and changing only its last digit makes it rejected |
| Identity.CheckDigitsUnique | Controller/IdentityController.swift:109-117 | Two valid numbers that agree on their first nine digits are equal |
| Identity.CompleteTC | Controller/IdentityController.swift:109-117 | Every nine digits not starting with '0' extend to a valid number |
| Identity.GenerateCustomerNumber | Controller/IdentityController.swift:122-126 | "ZB-", the last three characters of the identity number, "-", the five random digits; twelve characters when the identity number has at least three |
| Identity.ParseCustomerNumber | Controller/IdentityController.swift:121 | A parse succeeds only on a twelve-character "ZB-…-…" number, which it splits into its two parts |
| Identity.CustomerNumberRoundTrip | Controller/IdentityController.swift:122-126 | A generated number parses back to the last three characters of the identity number and the random digits |
| Identity.IdentityController.constructor | Controller/IdentityController.swift:21-32 | Empty input, nothing valid, no customer number, no error, not submitting |
| Identity.IdentityController.OnTCChanged | Controller/IdentityController.swift:35-49 | The input is the first eleven digits typed; validity is a length check in DEBUG builds and the checksum as written (truncating remainder) otherwise; the error is cleared; a valid input is eleven digits, and in a release build a valid identity number |
| Profiles.IsEmailLike | Model/KYCProfile.swift:45-47 | An email-like text holds at least two characters |
| Profiles.IsPhoneLike | Model/KYCProfile.swift:49-52 | A phone-like text holds at least ten characters; for a text of digits only, it is phone-like exactly when it has ten or more |
| Profiles.GenderFromRawValue | Model/KYCProfile.swift:5-8 | Only "Erkek" and "Kadın" decode, each to the case with that raw value |
| Profiles.GenderRoundTrip | Model/KYCProfile.swift:5-8 | The two raw values differ and each decodes back to its case |
| Profiles.EmailLikeExamples | Model/KYCProfile.swift:45-47 | The '@' and '.' may come in either order, and nothing else is checked |
| Profiles.PhoneLikeIgnoresSeparators | Model/KYCProfile.swift:49-52 | Non-digits inserted anywhere never change whether a phone is phone-like |
| Profiles.PhoneLikeMonotone | Model/KYCProfile.swift:49-52 | Appending characters keeps a phone phone-like |
| Profiles.KYCProfile.FullName | Model/KYCProfile.swift:38 | The result is trimmed of spaces and tabs. Two non-blank names give the first without its leading blanks, a space, and the last without its trailing blanks (so two trimmed names give "first last"); one blank name gives the other name trimmed; two blank names give "" |
| Profiles.JoinedNameTrim | Model/KYCProfile.swift:38 | The same three facts about trimming "first last" |
| Profiles.JoinedNameParts | Model/KYCProfile.swift:38 | Which parts of "first last" survive trimming, in the three cases where at least one name is not blank |
| Profiles.FullNameOneName | Model/KYCProfile.swift:38 | "Ali" with an empty last name gives "Ali", with no trailing space |
| Profiles.NewProfile | Model/KYCProfile.swift:33-35 | A profile built without the KVKK arguments has no consent, no consent time and no version, and its id is the customer id |
| Text.Trim | Model/CountryCodeMap.swift:46 | No longer than the input; empty exactly when the input is blank; otherwise starts and ends with a character outside the set. `Text.TrimSlice` adds that it is the input with its blank ends removed |
| Text.TrimOfTrimmed | Model/CountryCodeMap.swift:46 | Trimming a trimmed string leaves it unchanged |
| Text.TrimIsTrimmed | Model/CountryCodeMap.swift:46 | The result of trimming is trimmed |
| Text.TrimIsInfix | Model/CountryCodeMap.swift:46 | Every character of the result occurs in the input |
| Text.TrimSlice | Model/CountryCodeMap.swift:46 | The result is a contiguous slice of the input with only blanks before and after it: the input with its blank ends removed |
| Text.TrimLeadingNonBlankHead | Model/KYCProfile.swift:38 | Leading trimming of `a + b` with `a` not blank trims `a` alone and keeps `b` |
| Text.TrimLeadingBlankHead | Model/KYCProfile.swift:38 | Leading trimming of `a + b` with `a` blank drops `a` and trims `b` |
| Text.TrimTrailingNonBlankTail | Model/KYCProfile.swift:38 | Trailing trimming of `a + b` with `b` not blank keeps `a` and trims `b` alone |
| Text.TrimTrailingBlankTail | Model/KYCProfile.swift:38 | Trailing trimming of `a + b` with `b` blank drops `b` and trims `a` |
| Text.Lowercased | Controller/GeoAnalysisController.swift:102 | Same length, each character lower-cased |
| Text.Uppercased | Model/CountryCodeMap.swift:53 | Same length, each character upper-cased |
| Text.UppercasedIdempotent | Model/CountryCodeMap.swift:53 | Upper-casing twice is upper-casing once |
| Text.ContainsAnyIff | Controller/GeoAnalysisController.swift:103 | Some keyword matches exactly when there is an index whose keyword is a substring |
| Text.ContainsAnyOfSubList | Controller/GeoAnalysisController.swift:103 | Searching for more keywords finds at least what searching for fewer found |
| Text.KeepDigits | Controller/IdentityController.swift:37 | Only digits, no longer than the input, and the input itself when it is all digits |
| Text.KeepDigitsAppend | Model/KYCProfile.swift:51 | Filtering a concatenation is concatenating the filtered parts |
| Text.KeepDigitsSkips | Model/KYCProfile.swift:51 | Non-digits between two strings leave no trace in the filtered digits |
| Text.Prefix | Controller/IdentityController.swift:38 | A prefix of the input, of length n or the whole input when shorter |
| Text.Suffix | Controller/IdentityController.swift:123 | The last n characters, or the whole input when shorter |
| Text.IndexOf | Model/CountryCodeMap.swift:45 | The first index of the character, or none when it is absent |
| Text.SplitOn | Model/CountryCodeMap.swift:45 | Every piece is non-empty and free of the separator; empty pieces are dropped, as `Text.SplitOnLeadingSeparator` and `CountryCodeMap.SplitOnJoinWithDropsEmpty` show |
| Text.SplitOnLeadingSeparator | Model/CountryCodeMap.swift:45 | A leading separator yields no empty piece: splitting skips it |
| Text.SplitOnJoin | Model/CountryCodeMap.swift:45 | Joined back together, the pieces give the input with its separators removed, in order |
| Text.SplitOnHead | Model/CountryCodeMap.swift:45 | Splitting peels off a separator-free head and continues with the rest |
| Text.SplitOnThree | Model/CountryCodeMap.swift:45 | Three non-empty separator-free pieces joined by the separator split back into the three |
| Text.SplitOnJoinWith | Model/CountryCodeMap.swift:45 | Any non-empty separator-free pieces joined by the separator split back into exactly those pieces |
| Seqs.FirstWhere | Model/CountryResolver.swift:34 | The index found satisfies the predicate and no earlier element does; none exactly when no element does |
| Seqs.CompactMap | Model/CountryCodeMap.swift:52 | The output is no longer than the input |
| Seqs.CompactMapOrigin | Model/CountryCodeMap.swift:52 | Every value kept is the value given for some input element |
| Seqs.CompactMapAppend | Model/CountryCodeMap.swift:52 | Mapping a concatenation is concatenating the mappings |

## Left out

- **Screens and storage.** SwiftUI views, navigation and the Firestore
  service are not part of this model. So are the `@Published` notifications
  and `@MainActor` isolation.
- **Network flows.** The asynchronous flows that call the remote store or
  the network are not modelled:
  - `KYCInfoController.save`, apart from the profile it builds
    (`KYCInfo.KYCInfoController.ProfileToSave`);
  - `IdentityController.submit`, with its lookups and its collision-retry
    loop;
  - `AdvisoryService.fetchAll`.
- **Decoding.** JSON and date decoding are not modelled: the `TravelAdvisory`
  decoder and the `AdvisoryPost` dates. `Advisory.AdvisoryPost` keeps only
  the fields `findAdvisory` reads, plus the plain strings.
- **Unicode.** Case mapping and `isNumber` outside ASCII and the Turkish
  letters are not modelled. The trimming sets hold only the ASCII blanks
  (space and tab, plus line feed, carriage return, vertical tab and form
  feed for `.whitespacesAndNewlines`); Foundation's sets also hold U+00A0,
  U+0085, U+2028, U+2029 and the other Unicode spaces, so text padded with
  those is trimmed by the program but not by the model (`isValid`,
  `normalizeISO2`, `splitCategoryCodes`, `fullName`). `İ` lower-cases to two code points in Swift, and
  the model leaves it unchanged. Swift's `isNumber` also accepts non-ASCII
  numerals, which `Int(String(c))` would then reject in the checksum.
- **Calendar.** Time of day, time zones and the calendar's treatment of
  29 February are not modelled; dates are calendar days.
- **Clock, randomness and UUIDs.** The clock and the random digits are
  arguments. UUID identifiers of delta items carry no behaviour and are
  left out.
- **The form's age.** `KYCProfile.age` is not modelled.
  `KYCInfoController.age` is an argument of `IsValid`, since it reads the
  live clock.
- **Data lists.** The `Lists` arrays of nationalities and countries are
  plain data and are not part of this model.
- GeoAnalysis.GeoAnalysisController.constructor: computes the mismatch from
  the same functions as `recomputeGeoMismatch` instead of calling that
  method, so the call itself is not modelled; the resulting fields are the
  same.

## Findings

| source | as written | input that shows it | evidently intended | confidence | as-written member | corrected member |
|---|---|---|---|---|---|---|
| Controller/IdentityController.swift:112 | The tenth digit is compared with `(oddSum * 7 - evenSum) % 10`, Swift's truncating remainder, which is negative for a negative difference | "19090909018": 7·1 − 36 = −29 gives −9, so this valid identity number is rejected | The remainder modulo 10, between 0 and 9, as the published T.C. Kimlik No checksum defines it | not executed | Identity.AsWrittenCounterexample | Identity.CheckDigitsUnique |

`Identity.IsValidTCKNAsWritten` models the check as written, and
`Identity.AsWrittenRejects` characterises every number it wrongly rejects.
`Identity.IsValidTCKN` is the corrected check. `Identity.CheckDigitsUnique`
and `Identity.CompleteTC` are proved about it.
`Identity.IdentityController.OnTCChanged` runs the check as written, as the
program does; its contract adds that whatever it accepts is valid.
