/**
 * Country name / demonym / ISO 3166-1 alpha-3 / alpha-2 to alpha-2
 * (Model/CountryResolver.swift), over its six-row demonstration table.
 */
module CountryResolver {
  import opened Wrappers
  import opened Text
  import Seqs

  datatype CountryRow = CountryRow(iso2: string, iso3: string, country: string, nationality: string)

  /** The `demo` table, in its order. */
  const Demo: seq<CountryRow> := [
    CountryRow("TR", "TUR", "Turkey", "Turkish"),
    CountryRow("MX", "MEX", "Mexico", "Mexican"),
    CountryRow("YE", "YEM", "Yemen", "Yemeni"),
    CountryRow("DE", "DEU", "Germany", "German"),
    CountryRow("ES", "ESP", "Spain", "Spanish"),
    CountryRow("AE", "ARE", "United Arab Emirates", "Emirati")
  ]

  /** Replaces the Turkish dotted capital İ and dotless ı with I. */
  function DotlessI(c: char): char {
    if c == 'İ' || c == 'ı' then 'I' else c
  }

  /** The lookup key: trimmed, İ and ı replaced by I, upper-cased. */
  function NormalizeKey(input: string): (key: string)
    ensures |key| <= |input|
    ensures key == [] <==> forall k :: 0 <= k < |input| ==> InSet(input[k], WhitespacesAndNewlines)
  {
    var t := Trim(input, WhitespacesAndNewlines);
    Uppercased(seq(|t|, i requires 0 <= i < |t| => DotlessI(t[i])))
  }

  predicate Iso3Matches(row: CountryRow, key: string) {
    Uppercased(row.iso3) == key
  }

  predicate NameMatches(row: CountryRow, key: string) {
    Uppercased(row.country) == key || Uppercased(row.nationality) == key
  }

  /** Row `i` is the first row whose ISO-3 code matches `key`. */
  predicate FirstIso3Row(key: string, i: int) {
    0 <= i < |Demo| && Iso3Matches(Demo[i], key) && forall j :: 0 <= j < i ==> !Iso3Matches(Demo[j], key)
  }

  /** Row `i` is the first row whose name or demonym matches `key`. */
  predicate FirstNameRow(key: string, i: int) {
    0 <= i < |Demo| && NameMatches(Demo[i], key) && forall j :: 0 <= j < i ==> !NameMatches(Demo[j], key)
  }

  /** The first row whose ISO-3 code matches `key`. */
  function Iso3Hit(key: string): Option<nat> {
    Seqs.FirstWhere(Demo, row => Iso3Matches(row, key))
  }

  /** The first row whose name or demonym matches `key`. */
  function NameHit(key: string): Option<nat> {
    Seqs.FirstWhere(Demo, row => NameMatches(row, key))
  }

  /** The table search of `iso2(from:)`: ISO-3 codes first, then names and demonyms. */
  function Lookup(key: string): (r: Option<string>)
    ensures r.Some? ==> |r.value| == 2 && Uppercased(r.value) == r.value
  {
    TableCodesUpperCase();
    match Iso3Hit(key)
    case Some(i) => Some(Demo[i].iso2)
    case None =>
      match NameHit(key)
      case Some(i) => Some(Demo[i].iso2)
      case None => None
  }

  /** The ISO-3 search runs first, and its first matching row wins. */
  lemma LookupIso3First(key: string)
    ensures (exists i :: 0 <= i < |Demo| && Iso3Matches(Demo[i], key)) ==>
      exists i :: FirstIso3Row(key, i) && Lookup(key) == Some(Demo[i].iso2)
  {
    if Iso3Hit(key).Some? {
      assert FirstIso3Row(key, Iso3Hit(key).value);
    }
  }

  /** Without an ISO-3 match, the first row whose name or demonym matches wins. */
  lemma LookupNameFirst(key: string)
    ensures (forall i :: 0 <= i < |Demo| ==> !Iso3Matches(Demo[i], key)) ==>
      ((exists i :: 0 <= i < |Demo| && NameMatches(Demo[i], key)) ==>
        exists i :: FirstNameRow(key, i) && Lookup(key) == Some(Demo[i].iso2))
  {
    if Iso3Hit(key).None? && NameHit(key).Some? {
      assert FirstNameRow(key, NameHit(key).value);
    }
  }

  /** Nothing is found exactly when no row matches either way. */
  lemma LookupNone(key: string)
    ensures Lookup(key).None? <==> forall i :: 0 <= i < |Demo| ==> !Iso3Matches(Demo[i], key) && !NameMatches(Demo[i], key)
  {
  }

  /** The first row whose ISO-3 code matches gives the answer. */
  lemma LookupByIso3(key: string, i: int)
    requires FirstIso3Row(key, i)
    ensures Lookup(key) == Some(Demo[i].iso2)
  {
    var h := Iso3Hit(key);
    assert h.Some? && h.value == i;
  }

  /** Without an ISO-3 match, the first row whose name matches gives the answer. */
  lemma LookupByName(key: string, i: int)
    requires forall j :: 0 <= j < |Demo| ==> !Iso3Matches(Demo[j], key)
    requires FirstNameRow(key, i)
    ensures Lookup(key) == Some(Demo[i].iso2)
  {
    assert Iso3Hit(key).None?;
    var h := NameHit(key);
    assert h.Some? && h.value == i;
  }

  /**
   * `iso2(from:)`. A two-character key is returned as it is, real code or
   * not; any other key goes to the table search.
   */
  function Iso2(input: string): (r: Option<string>)
    ensures r.Some? ==> |r.value| == 2 && Uppercased(r.value) == r.value
    ensures |NormalizeKey(input)| == 2 ==> r == Some(NormalizeKey(input))
    ensures |NormalizeKey(input)| != 2 ==> r == Lookup(NormalizeKey(input))
  {
    var key := NormalizeKey(input);
    UppercasedIdempotent(key);
    if |key| == 2 then Some(key) else Lookup(key)
  }

  /** Surrounding white space never changes the answer. */
  lemma Iso2IgnoresPadding(input: string)
    ensures Iso2(Trim(input, WhitespacesAndNewlines)) == Iso2(input)
  {
    var t := Trim(input, WhitespacesAndNewlines);
    TrimIsTrimmed(input, WhitespacesAndNewlines);
    TrimOfTrimmed(t, WhitespacesAndNewlines);
    assert NormalizeKey(t) == NormalizeKey(input);
  }

  /** Every alpha-2 code in the table is upper-case. */
  lemma TableCodesUpperCase()
    ensures forall i :: 0 <= i < |Demo| ==> |Demo[i].iso2| == 2 && Uppercased(Demo[i].iso2) == Demo[i].iso2
  {
    forall i | 0 <= i < |Demo|
      ensures |Demo[i].iso2| == 2 && Uppercased(Demo[i].iso2) == Demo[i].iso2
    {
      UpperCaseLetters(Demo[i].iso2);
    }
  }

  /** Without İ or ı, the key is the trimmed input upper-cased. */
  lemma KeyOfPlain(s: string)
    requires forall i :: 0 <= i < |s| ==> s[i] != 'İ' && s[i] != 'ı'
    ensures NormalizeKey(s) == Uppercased(Trim(s, WhitespacesAndNewlines))
  {
    var t := Trim(s, WhitespacesAndNewlines);
    TrimIsInfix(s, WhitespacesAndNewlines);
    assert forall i :: 0 <= i < |t| ==> t[i] in s;
    assert seq(|t|, i requires 0 <= i < |t| => DotlessI(t[i])) == t;
  }

  lemma KeyOfPlainTrimmed(s: string)
    requires IsTrimmed(s, WhitespacesAndNewlines)
    requires forall i :: 0 <= i < |s| ==> s[i] != 'İ' && s[i] != 'ı'
    ensures NormalizeKey(s) == Uppercased(s)
  {
    TrimOfTrimmed(s, WhitespacesAndNewlines);
    KeyOfPlain(s);
  }

  /** `s` and `t` differ at most in writing İ, ı or I. */
  predicate SameDotless(s: string, t: string) {
    |s| == |t| && forall i :: 0 <= i < |s| ==> DotlessI(s[i]) == DotlessI(t[i])
  }

  /** İ and ı are never blank, and neither is the I they become. */
  lemma DotlessIKeepsBlanks(s: string, t: string)
    requires SameDotless(s, t)
    ensures SameBlanks(s, t, WhitespacesAndNewlines)
  {
  }

  lemma SameDotlessSlice(s: string, t: string, o: nat, n: nat)
    requires SameDotless(s, t) && o <= |s| && n <= |s| - o
    ensures SameDotless(s[o..][..n], t[o..][..n])
  {
    forall i | 0 <= i < n
      ensures DotlessI(s[o..][..n][i]) == DotlessI(t[o..][..n][i])
    {
      assert s[o..][..n][i] == s[o + i] && t[o..][..n][i] == t[o + i];
    }
  }

  lemma DotlessMapAgrees(s: string, t: string)
    requires SameDotless(s, t)
    ensures seq(|s|, i requires 0 <= i < |s| => DotlessI(s[i])) == seq(|t|, i requires 0 <= i < |t| => DotlessI(t[i]))
  {
  }

  /**
   * The key does not tell İ, ı and I apart: inputs that differ only there
   * have the same key.
   */
  lemma NormalizeKeyIgnoresDottedI(s: string, t: string)
    requires SameDotless(s, t)
    ensures NormalizeKey(s) == NormalizeKey(t)
  {
    DotlessIKeepsBlanks(s, t);
    var o, n := TrimAgrees(s, t, WhitespacesAndNewlines);
    SameDotlessSlice(s, t, o, n);
    DotlessMapAgrees(Trim(s, WhitespacesAndNewlines), Trim(t, WhitespacesAndNewlines));
  }

  /** Writing every İ and ı as I leaves the key as it is. */
  lemma NormalizeKeyOfDotless(s: string)
    ensures NormalizeKey(seq(|s|, i requires 0 <= i < |s| => DotlessI(s[i]))) == NormalizeKey(s)
  {
    var d := seq(|s|, i requires 0 <= i < |s| => DotlessI(s[i]));
    assert SameDotless(d, s);
    NormalizeKeyIgnoresDottedI(d, s);
  }

  lemma NoIso3OfLength(key: string)
    requires |key| != 3
    ensures forall i :: 0 <= i < |Demo| ==> !Iso3Matches(Demo[i], key)
  {
  }

  lemma NameMismatch(row: CountryRow, key: string)
    requires |key| > 0
    requires |row.country| == 0 || UpperChar(row.country[0]) != key[0]
    requires |row.nationality| == 0 || UpperChar(row.nationality[0]) != key[0]
    ensures !NameMatches(row, key)
  {
  }

  lemma KeyTur()
    ensures NormalizeKey("tur") == "TUR"
  {
    var s := "tur";
    assert s[0] == 't' && s[1] == 'u' && s[2] == 'r';
    assert IsTrimmed(s, WhitespacesAndNewlines);
    KeyOfPlainTrimmed(s);
    UppercasedIs(s, "TUR");
  }

  lemma UpperTurkish()
    ensures Uppercased("Turkish") == "TURKISH"
  {
    var w := "Turkish";
    assert w[0] == 'T' && w[1] == 'u' && w[2] == 'r' && w[3] == 'k' && w[4] == 'i' && w[5] == 's' && w[6] == 'h';
    UppercasedIs(w, "TURKISH");
  }

  lemma UpperGermany()
    ensures Uppercased("germany") == "GERMANY" && Uppercased("Germany") == "GERMANY"
  {
    var s := "germany";
    assert s[0] == 'g' && s[1] == 'e' && s[2] == 'r' && s[3] == 'm' && s[4] == 'a' && s[5] == 'n' && s[6] == 'y';
    UppercasedIs(s, "GERMANY");
    var g := "Germany";
    assert g[0] == 'G' && g[1] == 'e' && g[2] == 'r' && g[3] == 'm' && g[4] == 'a' && g[5] == 'n' && g[6] == 'y';
    UppercasedIs(g, "GERMANY");
  }

  lemma PlainTurkish()
    ensures Trim(" Turkish ", WhitespacesAndNewlines) == "Turkish"
    ensures forall i :: 0 <= i < |" Turkish "| ==> " Turkish "[i] != 'İ' && " Turkish "[i] != 'ı'
  {
    var s := " Turkish ";
    assert s == [' '] + "Turkish" + [' '];
    TrimPadded("Turkish", WhitespacesAndNewlines);
  }

  lemma KeyTurkish()
    ensures NormalizeKey(" Turkish ") == "TURKISH"
  {
    PlainTurkish();
    KeyOfPlain(" Turkish ");
    UpperTurkish();
  }

  lemma PlainGermany()
    ensures IsTrimmed("germany", WhitespacesAndNewlines)
    ensures forall i :: 0 <= i < |"germany"| ==> "germany"[i] != 'İ' && "germany"[i] != 'ı'
  {
  }

  lemma KeyGermany()
    ensures NormalizeKey("germany") == "GERMANY"
  {
    PlainGermany();
    KeyOfPlainTrimmed("germany");
    UpperGermany();
  }

  lemma TurkeyRow()
    ensures Iso3Matches(Demo[0], "TUR") && NameMatches(Demo[0], "TURKISH")
  {
    UppercasedIs(Demo[0].iso3, "TUR");
    UpperTurkish();
  }

  lemma GermanyRow()
    ensures NameMatches(Demo[3], "GERMANY")
  {
    UpperGermany();
  }

  /** An ISO-3 code matches case-insensitively: "tur" resolves to TR. */
  lemma Iso3Example()
    ensures Iso2("tur") == Some("TR")
  {
    KeyTur();
    TurkeyRow();
    LookupByIso3("TUR", 0);
  }

  lemma TurkishLookup()
    ensures Lookup("TURKISH") == Some("TR")
  {
    TurkeyRow();
    NoIso3OfLength("TURKISH");
    LookupByName("TURKISH", 0);
  }

  /** A demonym matches after trimming: " Turkish " resolves to TR. */
  lemma DemonymExample()
    ensures Iso2(" Turkish ") == Some("TR")
  {
    KeyTurkish();
    TurkishLookup();
  }

  lemma GermanyFirstName()
    ensures FirstNameRow("GERMANY", 3)
  {
    GermanyRow();
    NameMismatch(Demo[0], "GERMANY");
    NameMismatch(Demo[1], "GERMANY");
    NameMismatch(Demo[2], "GERMANY");
  }

  lemma GermanyLookup()
    ensures Lookup("GERMANY") == Some("DE")
  {
    GermanyFirstName();
    NoIso3OfLength("GERMANY");
    LookupByName("GERMANY", 3);
  }

  /** A country name matches case-insensitively: "germany" resolves to DE. */
  lemma CountryNameExample()
    ensures Iso2("germany") == Some("DE")
  {
    KeyGermany();
    GermanyLookup();
  }

  /** No row has an empty code, name or demonym. */
  lemma NothingMatchesEmpty()
    ensures forall i :: 0 <= i < |Demo| ==> !Iso3Matches(Demo[i], []) && !NameMatches(Demo[i], [])
  {
    forall i | 0 <= i < |Demo|
      ensures !Iso3Matches(Demo[i], []) && !NameMatches(Demo[i], [])
    {
      assert |Demo[i].iso3| > 0 && |Demo[i].country| > 0 && |Demo[i].nationality| > 0;
    }
  }

  /** The empty string resolves to nothing. */
  lemma EmptyExample()
    ensures Iso2("") == None
  {
    assert NormalizeKey("") == [];
    NothingMatchesEmpty();
    LookupNone([]);
  }
}
