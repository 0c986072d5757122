/**
 * The saved customer profile of Model/KYCProfile.swift: the gender
 * enumeration with its Turkish raw values, the profile record, its derived
 * `id` and `fullName`, and the two lightweight contact validators.
 */
module Profiles {
  import opened Wrappers
  import opened Text
  import AgeScorer

  datatype Gender = Male | Female {
    /** The raw value stored in Firestore and shown in the picker. */
    function RawValue(): string {
      match this
      case Male => "Erkek"
      case Female => "Kadın"
    }
  }

  /** `Gender(rawValue:)`: only the two exact raw values are recognised. */
  function GenderFromRawValue(raw: string): (g: Option<Gender>)
    ensures g.Some? <==> raw == "Erkek" || raw == "Kadın"
    ensures g.Some? ==> g.value.RawValue() == raw
  {
    if raw == "Erkek" then Some(Male)
    else if raw == "Kadın" then Some(Female)
    else None
  }

  /** The raw values are distinct and decode back to their case. */
  lemma GenderRoundTrip(g: Gender)
    ensures GenderFromRawValue(g.RawValue()) == Some(g)
    ensures Male.RawValue() != Female.RawValue()
  {
    assert Male.RawValue()[0] != Female.RawValue()[0];
  }

  /** `isEmailLike`: an '@' and a '.' somewhere, in either order. */
  predicate IsEmailLike(email: string): (r: bool)
    ensures r ==> |email| >= 2
  {
    '@' in email && '.' in email
  }

  /** `isPhoneLike`: at least ten numeric characters, others ignored. */
  predicate IsPhoneLike(phone: string): (r: bool)
    ensures r ==> |phone| >= 10
    ensures AllDigits(phone) ==> (r <==> |phone| >= 10)
  {
    |KeepDigits(phone)| >= 10
  }

  /** The '@' may come after the '.', and nothing else is checked. */
  lemma EmailLikeExamples()
    ensures IsEmailLike("a@b.c") && IsEmailLike(".@") && !IsEmailLike("ab.c") && !IsEmailLike("a@b")
  {
    assert "a@b.c"[1] == '@' && "a@b.c"[3] == '.';
    assert ".@"[0] == '.' && ".@"[1] == '@';
  }

  /** Characters that are not digits, such as separators, never matter. */
  lemma PhoneLikeIgnoresSeparators(a: string, sep: string, b: string)
    requires forall k :: 0 <= k < |sep| ==> !IsDigit(sep[k])
    ensures IsPhoneLike(a + sep + b) == IsPhoneLike(a + b)
  {
    KeepDigitsSkips(a, sep, b);
    KeepDigitsAppend(a, b);
  }

  /** Appending characters can only keep a phone number phone-like. */
  lemma PhoneLikeMonotone(a: string, b: string)
    requires IsPhoneLike(a)
    ensures IsPhoneLike(a + b)
  {
    KeepDigitsAppend(a, b);
  }

  datatype KYCProfile = KYCProfile(
    customerId: string,
    nationalId: string,
    firstName: string,
    lastName: string,
    birthDate: AgeScorer.Date,
    phone: string,
    email: string,
    address: string,
    nationality: string,
    residenceCountry: string,
    gender: Gender,
    hasCriminalRecord: bool,
    kvkkAccepted: bool,
    kvkkAcceptedAt: Option<AgeScorer.Date>,
    kvkkVersion: Option<string>)
  {
    /** `id`: the profile is stored under its customer number. */
    function Id(): string {
      customerId
    }

    /**
     * `fullName`: first and last name joined by a space, with surrounding
     * spaces and tabs removed.
     */
    function FullName(): (name: string)
      ensures IsTrimmed(name, Whitespaces)
      ensures IsTrimmed(firstName, Whitespaces) && IsTrimmed(lastName, Whitespaces) && firstName != [] && lastName != [] ==>
        name == firstName + " " + lastName
      ensures Blank(firstName, Whitespaces) && Blank(lastName, Whitespaces) ==> name == []
      ensures !Blank(firstName, Whitespaces) && !Blank(lastName, Whitespaces) ==>
        name == TrimLeading(firstName, Whitespaces) + " " + TrimTrailing(lastName, Whitespaces)
      ensures !Blank(firstName, Whitespaces) && Blank(lastName, Whitespaces) ==> name == Trim(firstName, Whitespaces)
      ensures Blank(firstName, Whitespaces) && !Blank(lastName, Whitespaces) ==> name == Trim(lastName, Whitespaces)
    {
      JoinedNameTrim(firstName, lastName);
      JoinedNameParts(firstName, lastName);
      Trim(firstName + " " + lastName, Whitespaces)
    }
  }

  lemma JoinedNameTrim(firstName: string, lastName: string)
    ensures IsTrimmed(Trim(firstName + " " + lastName, Whitespaces), Whitespaces)
    ensures IsTrimmed(firstName, Whitespaces) && IsTrimmed(lastName, Whitespaces) && firstName != [] && lastName != [] ==>
      Trim(firstName + " " + lastName, Whitespaces) == firstName + " " + lastName
    ensures Blank(firstName, Whitespaces) && Blank(lastName, Whitespaces) ==>
      Trim(firstName + " " + lastName, Whitespaces) == []
  {
    var joined := firstName + " " + lastName;
    TrimIsTrimmed(joined, Whitespaces);
    if IsTrimmed(firstName, Whitespaces) && IsTrimmed(lastName, Whitespaces) && firstName != [] && lastName != [] {
      assert joined[0] == firstName[0] && joined[|joined| - 1] == lastName[|lastName| - 1];
      TrimOfTrimmed(joined, Whitespaces);
    }
    if Blank(firstName, Whitespaces) && Blank(lastName, Whitespaces) {
      forall k | 0 <= k < |joined|
        ensures InSet(joined[k], Whitespaces)
      {
        if k < |firstName| {
          assert joined[k] == firstName[k];
        } else if k > |firstName| {
          assert joined[k] == lastName[k - |firstName| - 1];
        }
      }
    }
  }

  /**
   * Which parts of "first last" survive trimming: the outer ends of two
   * non-blank names, or the one non-blank name, trimmed.
   */
  lemma JoinedNameParts(firstName: string, lastName: string)
    ensures !Blank(firstName, Whitespaces) && !Blank(lastName, Whitespaces) ==>
      Trim(firstName + " " + lastName, Whitespaces) == TrimLeading(firstName, Whitespaces) + " " + TrimTrailing(lastName, Whitespaces)
    ensures !Blank(firstName, Whitespaces) && Blank(lastName, Whitespaces) ==>
      Trim(firstName + " " + lastName, Whitespaces) == Trim(firstName, Whitespaces)
    ensures Blank(firstName, Whitespaces) && !Blank(lastName, Whitespaces) ==>
      Trim(firstName + " " + lastName, Whitespaces) == Trim(lastName, Whitespaces)
  {
    var joined := firstName + " " + lastName;
    var tail := " " + lastName;
    assert joined == firstName + tail;
    if !Blank(firstName, Whitespaces) {
      TrimLeadingNonBlankHead(firstName, tail, Whitespaces);
      if !Blank(lastName, Whitespaces) {
        var head := TrimLeading(firstName, Whitespaces) + " ";
        assert TrimLeading(firstName, Whitespaces) + tail == head + lastName;
        TrimTrailingNonBlankTail(head, lastName, Whitespaces);
      } else {
        SpaceBeforeBlank(lastName);
        TrimTrailingBlankTail(TrimLeading(firstName, Whitespaces), tail, Whitespaces);
      }
    } else if !Blank(lastName, Whitespaces) {
      BlankBeforeSpace(firstName);
      TrimLeadingBlankHead(firstName + " ", lastName, Whitespaces);
    }
  }

  lemma SpaceBeforeBlank(s: string)
    requires Blank(s, Whitespaces)
    ensures Blank(" " + s, Whitespaces)
  {
    assert forall k :: 1 <= k < |s| + 1 ==> (" " + s)[k] == s[k - 1];
  }

  lemma BlankBeforeSpace(s: string)
    requires Blank(s, Whitespaces)
    ensures Blank(s + " ", Whitespaces)
  {
    assert forall k :: 0 <= k < |s| ==> (s + " ")[k] == s[k];
  }

  /** A single name, the other left empty, is the whole full name: "Ali" and "" give "Ali". */
  lemma FullNameOneName()
    ensures Trim("Ali" + " " + "", Whitespaces) == "Ali"
  {
    assert !InSet("Ali"[0], Whitespaces);
    JoinedNameParts("Ali", "");
    TrimOfTrimmed("Ali", Whitespaces);
  }

  /**
   * The memberwise initialiser without its KVKK arguments: consent is not
   * given, and no time or version is recorded.
   */
  function NewProfile(customerId: string, nationalId: string, firstName: string, lastName: string,
                      birthDate: AgeScorer.Date, phone: string, email: string, address: string,
                      nationality: string, residenceCountry: string, gender: Gender, hasCriminalRecord: bool): (p: KYCProfile)
    ensures !p.kvkkAccepted && p.kvkkAcceptedAt.None? && p.kvkkVersion.None?
    ensures p.Id() == customerId && p.nationalId == nationalId
  {
    KYCProfile(customerId, nationalId, firstName, lastName, birthDate, phone, email, address,
               nationality, residenceCountry, gender, hasCriminalRecord, false, None, None)
  }
}
