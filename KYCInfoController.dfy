/**
 * The personal-information form of Controller/KYCInfoController.swift: its
 * fields, the validity predicate that gates saving, KVKK consent, and the
 * live nationality/residence mismatch score shown while the form is filled.
 * The form's `age` reads the clock, so it is an argument here.
 */
module KYCInfo {
  import opened Wrappers
  import opened Text
  import AgeScorer
  import Profiles
  import GeoAnalysis

  /**
   * The live check at line 137: "some character of the lower-cased
   * justification is such that some keyword occurs in it".
   */
  predicate LiveRisk(justification: string) {
    var lowered := Lowercased(justification);
    ContainsWhere(lowered, _ => ContainsAny(lowered, GeoAnalysis.RiskyKeywords))
  }

  /**
   * The per-character wrapper changes nothing: every keyword is non-empty,
   * so a text holding one has a character to range over.
   */
  lemma LiveRiskIsKeywordRule(justification: string)
    ensures LiveRisk(justification) <==> GeoAnalysis.IsRiskyJustification(Some(justification))
  {
    var lowered := Lowercased(justification);
    if ContainsAny(lowered, GeoAnalysis.RiskyKeywords) {
      ContainsAnyIff(lowered, GeoAnalysis.RiskyKeywords);
      var n :| 0 <= n < |GeoAnalysis.RiskyKeywords| && Contains(lowered, GeoAnalysis.RiskyKeywords[n]);
      GeoAnalysis.KeywordsNonEmpty();
      var i :| 0 <= i <= |lowered| && OccursAt(lowered, GeoAnalysis.RiskyKeywords[n], i);
      var p := (_: char) => ContainsAny(lowered, GeoAnalysis.RiskyKeywords);
      assert p(lowered[i]);
    }
  }

  /**
   * The delta `recomputeGeoMismatch` stores, with its per-character
   * keyword check; it always agrees with the geo card's rule.
   */
  function LiveMismatchDelta(nationality: string, residence: string, justification: string): (d: int)
    ensures d == GeoAnalysis.MismatchDelta(nationality, residence, Some(justification))
  {
    var n := GeoAnalysis.NormalizeISO2(nationality);
    var r := GeoAnalysis.NormalizeISO2(residence);
    if !(n != [] && r != [] && n != r) then 0
    else
      LiveRiskIsKeywordRule(justification);
      if LiveRisk(justification) then -10 else 2
  }

  /** The form's fields are all present: the guard of `isValid`. */
  predicate FieldsPresent(firstName: string, lastName: string, phone: string, email: string,
                          address: string, nationality: string, residenceCountry: string) {
    && Trim(firstName, Whitespaces) != []
    && Trim(lastName, Whitespaces) != []
    && Trim(phone, Whitespaces) != []
    && Trim(email, Whitespaces) != []
    && Trim(address, WhitespacesAndNewlines) != []
    && nationality != []
    && residenceCountry != []
  }

  class KYCInfoController {
    const customerId: string
    const nationalId: string
    var firstName: string
    var lastName: string
    var birthDate: AgeScorer.Date
    var phone: string
    var email: string
    var address: string
    var nationality: string
    var residenceCountry: string
    var gender: Profiles.Gender
    var hasCriminalRecord: bool
    var geoJustification: string
    var geoMismatchDelta: int
    var hasGeoMismatch: bool
    var isSaving: bool
    var errorMessage: Option<string>
    var didSave: bool
    var kvkkAccepted: bool
    const kvkkVersion: string

    /**
     * `isValid`: every field present (names, phone and email trimmed of
     * spaces, the address also of newlines, the countries untrimmed), a
     * phone with ten digits, an email with '@' and '.', an adult, and KVKK
     * consent.
     */
    predicate IsValid(age: int): (r: bool)
      reads this
      ensures r ==> age >= 18 && kvkkAccepted
      ensures r ==> FieldsPresent(firstName, lastName, phone, email, address, nationality, residenceCountry)
      ensures r ==> Profiles.IsPhoneLike(phone) && Profiles.IsEmailLike(email)
      ensures r ==> |phone| >= 10 && |email| >= 2
    {
      && FieldsPresent(firstName, lastName, phone, email, address, nationality, residenceCountry)
      && Profiles.IsPhoneLike(phone)
      && Profiles.IsEmailLike(email)
      && age >= 18
      && kvkkAccepted
    }

    /**
     * `init`: every field at its initial value; the form is invalid for
     * every age until it is filled in and consent is given.
     */
    constructor (customerId: string, nationalId: string)
      ensures this.customerId == customerId && this.nationalId == nationalId
      ensures firstName == [] && lastName == [] && phone == [] && email == [] && address == []
      ensures nationality == [] && residenceCountry == [] && geoJustification == []
      ensures birthDate == AgeScorer.Date(1970, 1, 1) && gender == Profiles.Male && !hasCriminalRecord
      ensures geoMismatchDelta == 0 && !hasGeoMismatch
      ensures !isSaving && errorMessage.None? && !didSave
      ensures !kvkkAccepted && kvkkVersion == "v1.0"
      ensures forall age :: !IsValid(age)
    {
      this.customerId := customerId;
      this.nationalId := nationalId;
      firstName := "";
      lastName := "";
      birthDate := AgeScorer.Date(1970, 1, 1);
      phone := "";
      email := "";
      address := "";
      nationality := "";
      residenceCountry := "";
      gender := Profiles.Male;
      hasCriminalRecord := false;
      geoJustification := "";
      geoMismatchDelta := 0;
      hasGeoMismatch := false;
      isSaving := false;
      errorMessage := None;
      didSave := false;
      kvkkAccepted := false;
      kvkkVersion := "v1.0";
    }

    /**
     * `markKVKKAccepted()`: records consent and nothing else, so calling it
     * again changes nothing; afterwards validity rests on the fields alone.
     */
    method MarkKVKKAccepted()
      modifies this`kvkkAccepted
      ensures kvkkAccepted
      ensures forall age :: IsValid(age) <==>
        FieldsPresent(firstName, lastName, phone, email, address, nationality, residenceCountry)
        && Profiles.IsPhoneLike(phone) && Profiles.IsEmailLike(email) && age >= 18
    {
      kvkkAccepted := true;
    }

    /**
     * The profile `save()` sends, built from the form; the consent time is
     * `now` exactly when consent was given.
     */
    function ProfileToSave(now: AgeScorer.Date): (p: Profiles.KYCProfile)
      reads this
      ensures p.Id() == customerId && p.nationalId == nationalId
      ensures p.kvkkAccepted == kvkkAccepted
      ensures p.kvkkAcceptedAt == (if kvkkAccepted then Some(now) else None)
      ensures p.kvkkVersion == Some(kvkkVersion)
      ensures p.phone == phone && p.email == email
      ensures p.firstName == firstName && p.lastName == lastName && p.birthDate == birthDate
      ensures p.address == address
      ensures p.nationality == nationality && p.residenceCountry == residenceCountry
      ensures p.gender == gender && p.hasCriminalRecord == hasCriminalRecord
    {
      Profiles.KYCProfile(customerId, nationalId, firstName, lastName, birthDate, phone, email, address,
                          nationality, residenceCountry, gender, hasCriminalRecord,
                          kvkkAccepted, if kvkkAccepted then Some(now) else None, Some(kvkkVersion))
    }

    /**
     * `recomputeGeoMismatch()`: the same outcome as the geo card's rule,
     * with the justification never nil; it sets the two mismatch outputs
     * and nothing else.
     */
    method RecomputeGeoMismatch()
      modifies this`hasGeoMismatch, this`geoMismatchDelta
      ensures hasGeoMismatch == GeoAnalysis.HasMismatch(GeoAnalysis.NormalizeISO2(old(nationality)), GeoAnalysis.NormalizeISO2(old(residenceCountry)))
      ensures geoMismatchDelta == GeoAnalysis.MismatchDelta(old(nationality), old(residenceCountry), Some(old(geoJustification)))
      ensures geoMismatchDelta == 0 || geoMismatchDelta == -10 || geoMismatchDelta == 2
      ensures geoMismatchDelta != 0 <==> hasGeoMismatch
    {
      var mismatch := GeoAnalysis.HasMismatch(GeoAnalysis.NormalizeISO2(nationality), GeoAnalysis.NormalizeISO2(residenceCountry));
      var delta := LiveMismatchDelta(nationality, residenceCountry, geoJustification);
      hasGeoMismatch, geoMismatchDelta := mismatch, delta;
    }
  }

  /** A valid form saves a profile that passes the profile's own validators. */
  lemma ValidFormSavesValidContact(c: KYCInfoController, age: int, now: AgeScorer.Date)
    requires c.IsValid(age)
    ensures Profiles.IsPhoneLike(c.ProfileToSave(now).phone) && Profiles.IsEmailLike(c.ProfileToSave(now).email)
    ensures c.ProfileToSave(now).kvkkAccepted && c.ProfileToSave(now).kvkkAcceptedAt == Some(now)
  {
  }
}
