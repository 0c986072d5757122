/**
 * GEC/FIPS 10-4 country codes, as used in the travel-advisory feed's
 * categories, and their ISO 3166-1 alpha-2 equivalents
 * (Model/CountryCodeMap.swift).
 */
module CountryCodeMap {
  import opened Wrappers
  import opened Text

  /**
   * The `GEC_TO_ISO2` dictionary, entry for entry, looked up by the two
   * characters of its key (every key has two). "A3" and "IS" are present
   * with the empty string as their value.
   */
  function GecTable(c0: char, c1: char): (r: Option<string>)
    ensures r.Some? ==> IsoValueShape(r.value)
  {
    if c0 <= 'D' then GecTableAToD(c0, c1)
    else if c0 <= 'K' then GecTableEToK(c0, c1)
    else if c0 <= 'P' then GecTableLToP(c0, c1)
    else GecTableQToZ(c0, c1)
  }

  /** The keys whose first letter lies between A and D. */
  function GecTableAToD(c0: char, c1: char): (r: Option<string>)
    ensures r.Some? ==> IsoValueShape(r.value)
  {
    match c0
    case 'A' => (
      match c1
      case '1' => Some("BQ") case '2' => Some("GF") case '3' => Some("") case 'A' => Some("AW")
      case 'C' => Some("AG") case 'F' => Some("AF") case 'G' => Some("DZ") case 'L' => Some("AL")
      case 'M' => Some("AM") case 'N' => Some("AD") case 'O' => Some("AO") case 'R' => Some("AR")
      case 'S' => Some("AU") case 'U' => Some("AT") case 'V' => Some("AI") case 'Y' => Some("AQ")
      case _ => None)
    case 'B' => (
      match c1
      case 'A' => Some("BH") case 'B' => Some("BB") case 'D' => Some("BM") case 'E' => Some("BE")
      case 'F' => Some("BS") case 'G' => Some("BD") case 'H' => Some("BZ") case 'K' => Some("BA")
      case 'L' => Some("BO") case 'M' => Some("MM") case 'N' => Some("BJ") case 'O' => Some("BY")
      case 'P' => Some("SB") case 'R' => Some("BR") case 'T' => Some("BT") case 'U' => Some("BG")
      case 'X' => Some("BN") case 'Y' => Some("BI")
      case _ => None)
    case 'C' => (
      match c1
      case 'A' => Some("CA") case 'B' => Some("KH") case 'D' => Some("TD") case 'E' => Some("LK")
      case 'F' => Some("CG") case 'G' => Some("CD") case 'H' => Some("CN") case 'I' => Some("CL")
      case 'J' => Some("KY") case 'M' => Some("CM") case 'N' => Some("KM") case 'O' => Some("CO")
      case 'T' => Some("CF") case 'U' => Some("CU") case 'V' => Some("CV") case 'Y' => Some("CY")
      case _ => None)
    case 'D' => (
      match c1
      case 'A' => Some("DK") case 'J' => Some("DJ") case 'O' => Some("DM") case 'R' => Some("DO")
      case _ => None)
    case _ => None
  }

  /** The keys whose first letter lies between E and K. */
  function GecTableEToK(c0: char, c1: char): (r: Option<string>)
    ensures r.Some? ==> IsoValueShape(r.value)
  {
    match c0
    case 'E' => (
      match c1
      case 'C' => Some("EC") case 'G' => Some("EG") case 'I' => Some("IE") case 'N' => Some("EE")
      case 'R' => Some("ER") case 'S' => Some("SV") case 'T' => Some("ET")
      case _ => None)
    case 'F' => (
      match c1
      case 'I' => Some("FI") case 'J' => Some("FJ") case 'P' => Some("PF") case 'R' => Some("FR")
      case _ => None)
    case 'G' => (
      match c1
      case 'A' => Some("GM") case 'B' => Some("GA") case 'G' => Some("GE") case 'H' => Some("GH")
      case 'J' => Some("GD") case 'M' => Some("DE") case 'R' => Some("GR") case 'T' => Some("GT")
      case 'V' => Some("GN") case 'W' => Some("GW") case 'Y' => Some("GY")
      case _ => None)
    case 'H' => (
      match c1
      case 'K' => Some("HK") case 'O' => Some("HN") case 'R' => Some("HR") case 'U' => Some("HU")
      case _ => None)
    case 'I' => (
      match c1
      case 'C' => Some("IS") case 'D' => Some("ID") case 'N' => Some("IN") case 'R' => Some("IR")
      case 'S' => Some("") case 'T' => Some("IT") case 'Z' => Some("IQ")
      case _ => None)
    case 'J' => (
      match c1
      case 'A' => Some("JP") case 'M' => Some("JM") case 'O' => Some("JO")
      case _ => None)
    case 'K' => (
      match c1
      case 'E' => Some("KE") case 'G' => Some("KG") case 'N' => Some("KP") case 'R' => Some("KI")
      case 'S' => Some("KR") case 'U' => Some("KW") case 'V' => Some("XK")
      case _ => None)
    case _ => None
  }

  /** The keys whose first letter lies between L and P. */
  function GecTableLToP(c0: char, c1: char): (r: Option<string>)
    ensures r.Some? ==> IsoValueShape(r.value)
  {
    match c0
    case 'L' => (
      match c1
      case 'A' => Some("LA") case 'E' => Some("LB") case 'G' => Some("LV") case 'H' => Some("LT")
      case 'I' => Some("LR") case 'O' => Some("SK") case 'S' => Some("LI") case 'T' => Some("LS")
      case 'U' => Some("LU") case 'Y' => Some("LY")
      case _ => None)
    case 'M' => (
      match c1
      case 'A' => Some("MG") case 'D' => Some("MD") case 'G' => Some("MN") case 'H' => Some("MS")
      case 'I' => Some("MW") case 'K' => Some("MK") case 'L' => Some("ML") case 'O' => Some("MA")
      case 'P' => Some("MU") case 'R' => Some("MR") case 'T' => Some("MT") case 'U' => Some("OM")
      case 'V' => Some("MV") case 'X' => Some("MX") case 'Y' => Some("MY") case 'Z' => Some("MZ")
      case _ => None)
    case 'N' => (
      match c1
      case 'C' => Some("NC") case 'G' => Some("NE") case 'I' => Some("NG") case 'L' => Some("NL")
      case 'N' => Some("SX") case 'O' => Some("NO") case 'P' => Some("NP") case 'R' => Some("NR")
      case 'S' => Some("SR") case 'Z' => Some("NZ")
      case _ => None)
    case 'O' => (
      match c1
      case 'D' => Some("SS")
      case _ => None)
    case 'P' => (
      match c1
      case 'A' => Some("PY") case 'E' => Some("PE") case 'K' => Some("PK") case 'L' => Some("PL")
      case 'M' => Some("PA") case 'O' => Some("PT") case 'P' => Some("PG") case 'S' => Some("PW")
      case _ => None)
    case _ => None
  }

  /** The keys whose first letter lies between Q and Z. */
  function GecTableQToZ(c0: char, c1: char): (r: Option<string>)
    ensures r.Some? ==> IsoValueShape(r.value)
  {
    match c0
    case 'Q' => (
      match c1
      case 'A' => Some("QA")
      case _ => None)
    case 'R' => (
      match c1
      case 'I' => Some("RS") case 'M' => Some("MH") case 'O' => Some("RO") case 'P' => Some("PH")
      case 'S' => Some("RU") case 'W' => Some("RW")
      case _ => None)
    case 'S' => (
      match c1
      case 'A' => Some("SA") case 'C' => Some("KN") case 'E' => Some("SC") case 'G' => Some("SN")
      case 'I' => Some("SI") case 'L' => Some("SL") case 'O' => Some("SO") case 'P' => Some("ES")
      case 'R' => Some("CH") case 'T' => Some("LC") case 'U' => Some("SD") case 'W' => Some("SE")
      case 'Y' => Some("SY")
      case _ => None)
    case 'T' => (
      match c1
      case 'D' => Some("TT") case 'H' => Some("TH") case 'I' => Some("TJ") case 'K' => Some("TC")
      case 'N' => Some("TO") case 'O' => Some("TG") case 'P' => Some("ST") case 'S' => Some("TN")
      case 'T' => Some("TL") case 'U' => Some("TR") case 'Z' => Some("TZ")
      case _ => None)
    case 'U' => (
      match c1
      case 'G' => Some("UG") case 'K' => Some("GB") case 'P' => Some("UA") case 'Y' => Some("UY")
      case 'Z' => Some("UZ")
      case _ => None)
    case 'V' => (
      match c1
      case 'C' => Some("VC") case 'E' => Some("VE") case 'I' => Some("VG") case 'M' => Some("VN")
      case _ => None)
    case 'W' => (
      match c1
      case 'A' => Some("NA") case 'S' => Some("WS") case 'Z' => Some("SZ")
      case _ => None)
    case 'Y' => (
      match c1
      case 'M' => Some("YE")
      case _ => None)
    case 'Z' => (
      match c1
      case 'A' => Some("ZM") case 'I' => Some("ZW")
      case _ => None)
    case _ => None
  }

  /** An ISO-2 code in the table: two capital letters, or the empty string. */
  predicate IsoValueShape(v: string) {
    v == [] || (|v| == 2 && 'A' <= v[0] <= 'Z' && 'A' <= v[1] <= 'Z')
  }

  /** `GEC_TO_ISO2[code]` */
  function GecToIso2(code: string): (r: Option<string>)
    ensures r.Some? ==> |code| == 2 && IsoValueShape(r.value)
  {
    if |code| == 2 then GecTable(code[0], code[1]) else None
  }

  /** The cleaning applied to one piece of a category list. */
  function CleanCode(piece: string): string {
    Uppercased(Trim(piece, WhitespacesAndNewlines))
  }

  /** The `filter { !$0.isEmpty }` step. */
  function NonEmpty(codes: seq<string>): (r: seq<string>)
    ensures |r| <= |codes|
    ensures forall i :: 0 <= i < |r| ==> r[i] != [] && r[i] in codes
  {
    if codes == [] then []
    else (if codes[0] == [] then [] else [codes[0]]) + NonEmpty(codes[1..])
  }

  /** The filter works element by element: it distributes over concatenation. */
  lemma {:induction false} NonEmptyAppend(a: seq<string>, b: seq<string>)
    ensures NonEmpty(a + b) == NonEmpty(a) + NonEmpty(b)
    decreases |a|
  {
    if a != [] {
      assert (a + b)[0] == a[0];
      assert (a + b)[1..] == a[1..] + b;
      NonEmptyAppend(a[1..], b);
    } else {
      assert a + b == b;
    }
  }

  /** A single string is kept exactly when it is non-empty. */
  lemma NonEmptySingle(x: string)
    ensures NonEmpty([x]) == if x == [] then [] else [x]
  {
    assert [x][1..] == [];
  }

  /** A list of non-empty strings passes the filter unchanged. */
  lemma {:induction false} NonEmptyKeepsAll(codes: seq<string>)
    requires forall i :: 0 <= i < |codes| ==> codes[i] != []
    ensures NonEmpty(codes) == codes
    decreases |codes|
  {
    if codes != [] {
      NonEmptyKeepsAll(codes[1..]);
      assert codes == [codes[0]] + codes[1..];
    }
  }

  /**
   * `splitCategoryCodes`: "HK, MC, CH" becomes ["HK", "MC", "CH"]. Every code
   * it yields is non-empty, trimmed, upper-case and free of commas.
   */
  function SplitCategoryCodes(raw: string): (codes: seq<string>)
    ensures forall i :: 0 <= i < |codes| ==>
      && codes[i] != []
      && IsTrimmed(codes[i], WhitespacesAndNewlines)
      && Uppercased(codes[i]) == codes[i]
      && ',' !in codes[i]
  {
    var pieces := SplitOn(raw, ',');
    var cleaned := CleanAll(pieces);
    forall i | 0 <= i < |cleaned|
      ensures IsTrimmed(cleaned[i], WhitespacesAndNewlines)
      ensures Uppercased(cleaned[i]) == cleaned[i]
      ensures ',' !in cleaned[i]
    {
      CleanCodeProperties(pieces[i]);
    }
    NonEmpty(cleaned)
  }

  /** The `map` step: every piece cleaned, in order. */
  function CleanAll(pieces: seq<string>): (cleaned: seq<string>)
    ensures |cleaned| == |pieces|
    ensures forall i :: 0 <= i < |pieces| ==> cleaned[i] == CleanCode(pieces[i])
  {
    seq(|pieces|, i requires 0 <= i < |pieces| => CleanCode(pieces[i]))
  }

  lemma CleanAllAppend(a: seq<string>, b: seq<string>)
    ensures CleanAll(a + b) == CleanAll(a) + CleanAll(b)
  {
    assert forall i :: |a| <= i < |a + b| ==> (a + b)[i] == b[i - |a|];
  }

  /** An empty piece cleans to nothing. */
  lemma CleanEmpty()
    ensures CleanCode([]) == []
  {
    assert Trim([], WhitespacesAndNewlines) == [];
  }

  lemma CleanCodeProperties(piece: string)
    ensures IsTrimmed(CleanCode(piece), WhitespacesAndNewlines)
    ensures Uppercased(CleanCode(piece)) == CleanCode(piece)
    ensures ',' in CleanCode(piece) ==> ',' in piece
  {
    var t := Trim(piece, WhitespacesAndNewlines);
    UppercasedKeepsTrimmed(t);
    UppercasedIdempotent(t);
    CommaSurvivesUppercasing(t);
    TrimIsInfix(piece, WhitespacesAndNewlines);
  }

  lemma UppercasedKeepsTrimmed(t: string)
    ensures IsTrimmed(Trim(t, WhitespacesAndNewlines), WhitespacesAndNewlines)
    ensures IsTrimmed(t, WhitespacesAndNewlines) ==> IsTrimmed(Uppercased(t), WhitespacesAndNewlines)
  {
    TrimIsTrimmed(t, WhitespacesAndNewlines);
    if t != [] && IsTrimmed(t, WhitespacesAndNewlines) {
      UpperCharKeepsVisible(t[0]);
      UpperCharKeepsVisible(t[|t| - 1]);
    }
  }

  lemma UpperCharKeepsVisible(c: char)
    ensures !InSet(c, WhitespacesAndNewlines) ==> !InSet(UpperChar(c), WhitespacesAndNewlines)
  {
  }

  /** Only a comma upper-cases to a comma. */
  lemma CommaSurvivesUppercasing(t: string)
    ensures ',' in Uppercased(t) ==> ',' in t
  {
    if ',' in Uppercased(t) {
      var k :| 0 <= k < |t| && Uppercased(t)[k] == ',';
      assert UpperChar(t[k]) == ',';
    }
  }

  /** One code's contribution to `mapGECtoISO2`: its non-empty ISO-2 value. */
  function Translate(code: string): (r: Option<string>)
    ensures r.Some? ==> |r.value| == 2 && GecToIso2(Uppercased(code)) == Some(r.value)
    ensures r.None? <==> GecToIso2(Uppercased(code)).None? || GecToIso2(Uppercased(code)).value == []
  {
    match GecToIso2(Uppercased(code))
    case Some(iso) => if iso == [] then None else Some(iso)
    case None => None
  }

  /**
   * `mapGECtoISO2`: each code is upper-cased and looked up; unknown codes
   * and codes whose value is empty are dropped. Every output is a non-empty
   * value the table gives for one of the inputs.
   */
  function MapGECtoISO2(codes: seq<string>): (r: seq<string>)
    ensures |r| <= |codes|
    ensures forall i :: 0 <= i < |r| ==> |r[i]| == 2
    ensures forall i :: 0 <= i < |r| ==>
      exists j :: 0 <= j < |codes| && GecToIso2(Uppercased(codes[j])) == Some(r[i])
  {
    var r := Seqs.CompactMap(codes, Translate);
    Seqs.CompactMapOrigin(codes, Translate);
    forall i | 0 <= i < |r|
      ensures |r[i]| == 2
      ensures exists j :: 0 <= j < |codes| && GecToIso2(Uppercased(codes[j])) == Some(r[i])
    {
      var j :| 0 <= j < |codes| && Translate(codes[j]) == Some(r[i]);
    }
    r
  }

  /** The translation works code by code: it distributes over concatenation. */
  lemma MapGECtoISO2Append(a: seq<string>, b: seq<string>)
    ensures MapGECtoISO2(a + b) == MapGECtoISO2(a) + MapGECtoISO2(b)
  {
    Seqs.CompactMapAppend(a, b, Translate);
  }

  /** A single code becomes its non-empty ISO-2 value or nothing. */
  lemma MapGECtoISO2Single(code: string)
    ensures MapGECtoISO2([code]) == match Translate(code) case Some(iso) => [iso] case None => []
  {
    assert [code][1..] == [];
  }

  /** A code the table translates to a non-empty value contributes that value. */
  lemma MapGECtoISO2Keeps(codes: seq<string>, j: nat)
    requires j < |codes| && Translate(codes[j]).Some?
    ensures Translate(codes[j]).value in MapGECtoISO2(codes)
  {
    assert codes == codes[..j] + [codes[j]] + codes[j + 1..];
    MapGECtoISO2Append(codes[..j] + [codes[j]], codes[j + 1..]);
    MapGECtoISO2Append(codes[..j], [codes[j]]);
    MapGECtoISO2Single(codes[j]);
  }

  lemma UppercasedPair(a: char, b: char)
    ensures Uppercased([a, b]) == [UpperChar(a), UpperChar(b)]
  {
  }

  /** The lookup ignores case: "tu" is Turkey. */
  lemma TranslateExamples()
    ensures Translate("tu") == Some("TR")
    ensures Translate("GM") == Some("DE")
    ensures Translate("UK") == Some("GB")
    ensures Translate("A3") == None && Translate("IS") == None
  {
    UppercasedPair('t', 'u');
    UppercasedPair('G', 'M');
    UppercasedPair('U', 'K');
    UppercasedPair('A', '3');
    UppercasedPair('I', 'S');
  }

  /** Prepending one code adds its translation, if any, at the front. */
  lemma MapGECtoISO2Cons(code: string, rest: seq<string>)
    ensures MapGECtoISO2([code] + rest) == MapGECtoISO2([code]) + MapGECtoISO2(rest)
  {
    MapGECtoISO2Append([code], rest);
  }

  lemma DroppedCodes()
    ensures MapGECtoISO2(["A3", "IS"]) == []
  {
    TranslateExamples();
    MapGECtoISO2Single("A3");
    MapGECtoISO2Single("IS");
    MapGECtoISO2Cons("A3", ["IS"]);
  }

  lemma KeptCodes()
    ensures MapGECtoISO2(["tu"]) == ["TR"] && MapGECtoISO2(["GM"]) == ["DE"] && MapGECtoISO2(["UK"]) == ["GB"]
  {
    TranslateExamples();
    MapGECtoISO2Single("tu");
    MapGECtoISO2Single("GM");
    MapGECtoISO2Single("UK");
  }

  /**
   * Surviving codes keep their order; codes whose value is empty ("A3",
   * "IS") are dropped.
   */
  lemma MapGECtoISO2Example()
    ensures MapGECtoISO2(["tu", "GM", "UK", "A3", "IS"]) == ["TR", "DE", "GB"]
  {
    DroppedCodes();
    KeptCodes();
    MapGECtoISO2Cons("UK", ["A3", "IS"]);
    assert MapGECtoISO2(["UK", "A3", "IS"]) == ["GB"] by {
      assert ["UK", "A3", "IS"] == ["UK"] + ["A3", "IS"];
    }
    assert MapGECtoISO2(["GM", "UK", "A3", "IS"]) == ["DE", "GB"] by {
      assert ["GM", "UK", "A3", "IS"] == ["GM"] + ["UK", "A3", "IS"];
      MapGECtoISO2Cons("GM", ["UK", "A3", "IS"]);
    }
    assert ["tu", "GM", "UK", "A3", "IS"] == ["tu"] + ["GM", "UK", "A3", "IS"];
    MapGECtoISO2Cons("tu", ["GM", "UK", "A3", "IS"]);
  }

  /** Two capital letters, the shape of a GEC code. */
  predicate IsCapitalPair(code: string) {
    |code| == 2 && 'A' <= code[0] <= 'Z' && 'A' <= code[1] <= 'Z'
  }

  lemma CleanPadded(code: string)
    requires IsCapitalPair(code)
    ensures CleanCode([' '] + code) == code && CleanCode(code) == code
  {
    CapitalPairTrimmed(code);
    CapitalPairUpper(code);
    CleanCodeOf([' '] + code, code);
    CleanCodeOf(code, code);
  }

  lemma CleanCodeOf(piece: string, t: string)
    requires Trim(piece, WhitespacesAndNewlines) == t && Uppercased(t) == t
    ensures CleanCode(piece) == t
  {
  }

  lemma CapitalPairTrimmed(code: string)
    requires IsCapitalPair(code)
    ensures Trim([' '] + code, WhitespacesAndNewlines) == code
    ensures Trim(code, WhitespacesAndNewlines) == code
  {
    assert IsTrimmed(code, WhitespacesAndNewlines);
    TrimPadLeft(code, WhitespacesAndNewlines);
    TrimOfTrimmed(code, WhitespacesAndNewlines);
  }

  lemma CapitalPairUpper(code: string)
    requires IsCapitalPair(code)
    ensures Uppercased(code) == code
  {
    assert code == [code[0], code[1]];
    UppercasedPair(code[0], code[1]);
  }

  /** "A, B, C" splits at the commas, the spaces staying with the pieces. */
  lemma SplitThree(a: string, b: string, c: string)
    requires IsCapitalPair(a) && IsCapitalPair(b) && IsCapitalPair(c)
    ensures SplitOn(a + ", " + b + ", " + c, ',') == [a, [' '] + b, [' '] + c]
  {
    var b', c' := [' '] + b, [' '] + c;
    CommaSpaceRegroup(a, b, c);
    PaddedPairHasNoComma(b);
    PaddedPairHasNoComma(c);
    SplitOnThree(a, b', c', ',');
  }

  lemma PaddedPairHasNoComma(code: string)
    requires IsCapitalPair(code)
    ensures ',' !in code && [' '] + code != [] && ',' !in [' '] + code
  {
    assert [' '] + code == [' ', code[0], code[1]];
  }

  /** The ", " separators, seen as a comma followed by a padded piece. */
  lemma CommaSpaceRegroup(a: string, b: string, c: string)
    ensures a + ", " + b + ", " + c == a + [','] + (([' '] + b) + [','] + ([' '] + c))
  {
    assert ", " == [','] + [' '];
    var tail := [' '] + c;
    assert ", " + c == [','] + tail;
    assert b + ", " + c == b + [','] + tail;
    assert ", " + b + ", " + c == [','] + (([' '] + b) + [','] + tail);
  }

  /** Cleaning each of the three pieces gives back the three codes. */
  lemma CleanThree(a: string, b: string, c: string)
    requires IsCapitalPair(a) && IsCapitalPair(b) && IsCapitalPair(c)
    ensures CleanAll([a, [' '] + b, [' '] + c]) == [a, b, c]
  {
    var pieces := [a, [' '] + b, [' '] + c];
    var cleaned := CleanAll(pieces);
    CleanedAt(pieces, 0, a, []);
    CleanedAt(pieces, 1, b, [' ']);
    CleanedAt(pieces, 2, c, [' ']);
    ThreeElements(cleaned, a, b, c);
  }

  /** The piece at `k`, a code behind at most one space, cleans to the code. */
  lemma CleanedAt(pieces: seq<string>, k: nat, code: string, pad: string)
    requires k < |pieces| && IsCapitalPair(code) && (pad == [] || pad == [' '])
    requires pieces[k] == pad + code
    ensures CleanAll(pieces)[k] == code
  {
    CleanPadded(code);
    if pad == [] {
      assert pieces[k] == code;
    }
  }

  /** A sequence of length three is the display of its elements. */
  lemma ThreeElements(s: seq<string>, x: string, y: string, z: string)
    requires |s| == 3 && s[0] == x && s[1] == y && s[2] == z
    ensures s == [x, y, z]
  {
  }

  lemma NonEmptyThree(a: string, b: string, c: string)
    requires a != [] && b != [] && c != []
    ensures NonEmpty([a, b, c]) == [a, b, c]
  {
    assert [c][1..] == [];
    assert NonEmpty([c]) == [c];
    assert [b, c][1..] == [c];
    assert NonEmpty([b, c]) == [b, c];
    assert [a, b, c][1..] == [b, c];
  }

  /** Three codes keep their order: "A, B, C" gives [A, B, C]. */
  lemma SplitCategoryCodesThree(a: string, b: string, c: string)
    requires IsCapitalPair(a) && IsCapitalPair(b) && IsCapitalPair(c)
    ensures SplitCategoryCodes(a + ", " + b + ", " + c) == [a, b, c]
  {
    SplitThree(a, b, c);
    CleanThree(a, b, c);
    NonEmptyThree(a, b, c);
  }

  /**
   * Splitting drops the empty pieces: separator-free pieces joined by the
   * separator split back into the non-empty ones, so a leading, trailing
   * or doubled separator adds nothing.
   */
  lemma {:induction false} SplitOnJoinWithDropsEmpty(parts: seq<string>, sep: char)
    requires forall i :: 0 <= i < |parts| ==> sep !in parts[i]
    ensures SplitOn(JoinWith(parts, sep), sep) == NonEmpty(parts)
    decreases |parts|
  {
    if |parts| == 1 {
      NonEmptySingle(parts[0]);
      if parts[0] != [] {
        SplitOnLone(parts[0], sep);
      }
    } else if |parts| > 1 {
      var rest := JoinWith(parts[1..], sep);
      SplitOnJoinWithDropsEmpty(parts[1..], sep);
      if parts[0] == [] {
        assert parts[0] + [sep] + rest == [sep] + rest;
        SplitOnLeadingSeparator(sep, rest);
      } else {
        SplitOnHead(parts[0], sep, rest);
      }
    }
  }

  /**
   * Any comma-free pieces joined by commas: the result is each piece
   * cleaned, in order, with the pieces that clean to nothing dropped.
   */
  lemma SplitCategoryCodesJoined(pieces: seq<string>, codes: seq<string>)
    requires |pieces| == |codes|
    requires forall i :: 0 <= i < |pieces| ==> ',' !in pieces[i] && CleanCode(pieces[i]) == codes[i]
    ensures SplitCategoryCodes(JoinWith(pieces, ',')) == NonEmpty(codes)
  {
    SplitOnJoinWithDropsEmpty(pieces, ',');
    CleanNonEmpty(pieces, codes);
  }

  /** Dropping the empty pieces before cleaning drops nothing more than after it. */
  lemma {:induction false} CleanNonEmpty(pieces: seq<string>, codes: seq<string>)
    requires |pieces| == |codes|
    requires forall i :: 0 <= i < |pieces| ==> CleanCode(pieces[i]) == codes[i]
    ensures NonEmpty(CleanAll(NonEmpty(pieces))) == NonEmpty(codes)
    decreases |pieces|
  {
    if pieces != [] {
      var head := if pieces[0] == [] then [] else [pieces[0]];
      assert NonEmpty(pieces) == head + NonEmpty(pieces[1..]);
      CleanNonEmpty(pieces[1..], codes[1..]);
      CleanAllAppend(head, NonEmpty(pieces[1..]));
      NonEmptyAppend(CleanAll(head), CleanAll(NonEmpty(pieces[1..])));
      assert codes == [codes[0]] + codes[1..];
      NonEmptyAppend([codes[0]], codes[1..]);
      NonEmptySingle(codes[0]);
      if pieces[0] == [] {
        CleanEmpty();
        assert CleanAll(head) == [];
      } else {
        assert CleanAll(head) == [codes[0]];
      }
    }
  }

  /** Clean codes joined by commas split back into exactly those codes. */
  lemma SplitCategoryCodesRoundTrip(codes: seq<string>)
    requires forall i :: 0 <= i < |codes| ==>
      && codes[i] != []
      && IsTrimmed(codes[i], WhitespacesAndNewlines)
      && Uppercased(codes[i]) == codes[i]
      && ',' !in codes[i]
    ensures SplitCategoryCodes(JoinWith(codes, ',')) == codes
  {
    forall i | 0 <= i < |codes|
      ensures CleanCode(codes[i]) == codes[i]
    {
      TrimOfTrimmed(codes[i], WhitespacesAndNewlines);
      CleanCodeOf(codes[i], codes[i]);
    }
    SplitCategoryCodesJoined(codes, codes);
    NonEmptyKeepsAll(codes);
  }

  /** Leading, doubled and trailing commas add nothing: ",HK,,MC," gives ["HK", "MC"]. */
  lemma SplitCategoryCodesEmptyPieces()
    ensures SplitCategoryCodes(",HK,,MC,") == ["HK", "MC"]
  {
    var pieces: seq<string> := ["", "HK", "", "MC", ""];
    JoinFivePieces(pieces);
    CleanFivePieces(pieces);
    SplitCategoryCodesJoined(pieces, pieces);
    NonEmptyFivePieces(pieces);
  }

  lemma JoinFivePieces(pieces: seq<string>)
    requires pieces == ["", "HK", "", "MC", ""]
    ensures JoinWith(pieces, ',') == ",HK,,MC,"
  {
    assert JoinWith([""], ',') == "";
    assert JoinWith(["MC", ""], ',') == "MC,";
    assert JoinWith(["", "MC", ""], ',') == ",MC,";
    assert JoinWith(["HK", "", "MC", ""], ',') == "HK,,MC,";
  }

  lemma CleanFivePieces(pieces: seq<string>)
    requires pieces == ["", "HK", "", "MC", ""]
    ensures forall i :: 0 <= i < |pieces| ==> ',' !in pieces[i] && CleanCode(pieces[i]) == pieces[i]
  {
    CleanEmpty();
    CleanCapitalPair("HK");
    CleanCapitalPair("MC");
  }

  lemma CleanCapitalPair(code: string)
    requires IsCapitalPair(code)
    ensures CleanCode(code) == code && ',' !in code
  {
    assert IsTrimmed(code, WhitespacesAndNewlines);
    TrimOfTrimmed(code, WhitespacesAndNewlines);
    CapitalPairUpper(code);
    CleanCodeOf(code, code);
  }

  lemma NonEmptyFivePieces(pieces: seq<string>)
    requires pieces == ["", "HK", "", "MC", ""]
    ensures NonEmpty(pieces) == ["HK", "MC"]
  {
    NonEmptySingle("");
    assert NonEmpty(["MC", ""]) == ["MC"] by {
      assert ["MC", ""][1..] == [""];
    }
    assert NonEmpty(["", "MC", ""]) == ["MC"] by {
      assert ["", "MC", ""][1..] == ["MC", ""];
    }
    assert NonEmpty(["HK", "", "MC", ""]) == ["HK", "MC"] by {
      assert ["HK", "", "MC", ""][1..] == ["", "MC", ""];
    }
    assert pieces[1..] == ["HK", "", "MC", ""];
  }

  /** "HK, MC, CH" gives ["HK", "MC", "CH"]. */
  lemma SplitCategoryCodesExample()
    ensures SplitCategoryCodes("HK, MC, CH") == ["HK", "MC", "CH"]
  {
    assert "HK, MC, CH" == "HK" + ", " + "MC" + ", " + "CH";
    SplitCategoryCodesThree("HK", "MC", "CH");
  }
}
