/**
 * `AdvisoryService.findAdvisory` (Controller/AdvisoryService.swift): the
 * input is resolved to an ISO 3166-1 alpha-2 code by an injected resolver,
 * and the first post whose GEC category codes translate to that code is
 * returned. Fetching and decoding the posts are not part of this model.
 */
module Advisory {
  import opened Wrappers
  import opened Text
  import Seqs
  import CountryCodeMap
  import CountryResolver

  /** The fields of a travel-advisory post this model reads; dates are left out. */
  datatype AdvisoryPost = AdvisoryPost(
    title: string,
    link: string,
    category: seq<string>,
    summary: string,
    id: string)

  /** `codes.map { $0.uppercased() }` */
  function UppercaseAll(codes: seq<string>): (r: seq<string>)
    ensures |r| == |codes|
    ensures forall i :: 0 <= i < |r| ==> r[i] == Uppercased(codes[i])
  {
    if codes == [] then [] else [Uppercased(codes[0])] + UppercaseAll(codes[1..])
  }

  /** The search predicate: the post's categories, upper-cased and translated, name `target`. */
  predicate Covers(post: AdvisoryPost, target: string) {
    target in CountryCodeMap.MapGECtoISO2(UppercaseAll(post.category))
  }

  /** Post `i` is the first in `posts` that covers `target`. */
  predicate FirstCovering(posts: seq<AdvisoryPost>, target: string, i: int) {
    0 <= i < |posts| && Covers(posts[i], target)
    && forall j :: 0 <= j < i ==> !Covers(posts[j], target)
  }

  /** `findAdvisory(for:in:countryCodeResolver:)` */
  function FindAdvisory(input: string, posts: seq<AdvisoryPost>, resolver: string -> Option<string>): (r: Option<AdvisoryPost>)
    ensures resolver(input).None? ==> r.None?
    ensures r.Some? ==> resolver(input).Some?
    ensures r.Some? ==>
      exists i :: FirstCovering(posts, Uppercased(resolver(input).value), i) && r.value == posts[i]
    ensures resolver(input).Some? ==>
      (r.None? <==> forall j :: 0 <= j < |posts| ==> !Covers(posts[j], Uppercased(resolver(input).value)))
  {
    match resolver(input)
    case None => None
    case Some(code) =>
      var target := Uppercased(code);
      match Seqs.FirstWhere(posts, post => Covers(post, target))
      case None => None
      case Some(i) =>
        assert FirstCovering(posts, target, i);
        Some(posts[i])
  }

  /** Upper-casing before the translation changes nothing: the lookup already ignores case. */
  lemma {:induction false} UppercaseAllRedundant(codes: seq<string>)
    ensures CountryCodeMap.MapGECtoISO2(UppercaseAll(codes)) == CountryCodeMap.MapGECtoISO2(codes)
  {
    if codes != [] {
      var up := UppercaseAll(codes);
      assert up == [Uppercased(codes[0])] + UppercaseAll(codes[1..]);
      CountryCodeMap.MapGECtoISO2Cons(Uppercased(codes[0]), UppercaseAll(codes[1..]));
      assert codes == [codes[0]] + codes[1..];
      CountryCodeMap.MapGECtoISO2Cons(codes[0], codes[1..]);
      UppercasedIdempotent(codes[0]);
      CountryCodeMap.MapGECtoISO2Single(codes[0]);
      CountryCodeMap.MapGECtoISO2Single(Uppercased(codes[0]));
      UppercaseAllRedundant(codes[1..]);
    }
  }

  /** So a post covers a code exactly when its raw categories translate to it. */
  lemma CoversIgnoresCase(post: AdvisoryPost, target: string)
    ensures Covers(post, target) <==> target in CountryCodeMap.MapGECtoISO2(post.category)
  {
    UppercaseAllRedundant(post.category);
  }

  /** A post whose category is Turkey's GEC code in lower case covers "TR". */
  lemma LowerCaseCategoryCovers(post: AdvisoryPost)
    requires post.category == ["tu"]
    ensures Covers(post, "TR")
  {
    CoversIgnoresCase(post, "TR");
    CountryCodeMap.KeptCodes();
  }

  /**
   * With the country resolver, "tur" finds the second post: the first one's
   * code "A3" translates to nothing.
   */
  lemma FindAdvisoryExample(a: AdvisoryPost, b: AdvisoryPost)
    requires a.category == ["A3"] && b.category == ["tu"]
    ensures FindAdvisory("tur", [a, b], CountryResolver.Iso2) == Some(b)
  {
    TurResolvesToTR();
    A3CoversNothing(a);
    LowerCaseCategoryCovers(b);
    assert FirstCovering([a, b], "TR", 1);
    FindAdvisoryFirst("tur", [a, b], CountryResolver.Iso2, 1);
  }

  lemma TurResolvesToTR()
    ensures CountryResolver.Iso2("tur") == Some("TR") && Uppercased("TR") == "TR"
  {
    CountryResolver.Iso3Example();
    CountryCodeMap.UppercasedPair('T', 'R');
  }

  /** A post whose only category is "A3", a code without an ISO-2 value, covers nothing. */
  lemma A3CoversNothing(a: AdvisoryPost)
    requires a.category == ["A3"]
    ensures !Covers(a, "TR")
  {
    CoversIgnoresCase(a, "TR");
    CountryCodeMap.MapGECtoISO2Append(["A3"], ["IS"]);
    CountryCodeMap.DroppedCodes();
  }

  /** Whichever post covers the resolved code first is the one returned. */
  lemma FindAdvisoryFirst(input: string, posts: seq<AdvisoryPost>, resolver: string -> Option<string>, i: int)
    requires resolver(input).Some? && FirstCovering(posts, Uppercased(resolver(input).value), i)
    ensures FindAdvisory(input, posts, resolver) == Some(posts[i])
  {
    var target := Uppercased(resolver(input).value);
    var r := FindAdvisory(input, posts, resolver);
    assert r.Some?;
    var k :| FirstCovering(posts, target, k) && r.value == posts[k];
  }

  /** The empty input resolves to nothing, so nothing is found, whatever the posts. */
  lemma UnresolvedFindsNothing(posts: seq<AdvisoryPost>)
    ensures FindAdvisory("", posts, CountryResolver.Iso2) == None
  {
    CountryResolver.EmptyExample();
  }
}
