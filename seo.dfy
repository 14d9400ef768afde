/**
 * Search-engine metadata for a listing: the page's meta tags, its schema.org
 * structured data, image alt texts, the canonical URL and URL slugs.
 */
module Seo {
  import opened Wrappers
  import opened Schema
  import opened Text

  /** A listing as the page renders it: the property row, its location row when there is one, and its media URLs in order. */
  datatype Listing = Listing(property: Property, location: Option<Location>, mediaUrls: seq<string>)

  /** `property.location?.city || fallback`. */
  function CityOr(l: Listing, fallback: string): (r: string)
    ensures r == fallback <==> l.location.None? || l.location.value.city == "" || l.location.value.city == fallback
  {
    if l.location.Some? && l.location.value.city != "" then l.location.value.city else fallback
  }

  /** `generateCanonicalUrl`: the listing's page under the site's base URL; the id reads back from the path's last segment. */
  function CanonicalUrl(l: Listing, baseUrl: string): (r: string)
    ensures |r| > |baseUrl + "/properties/"| && r[..|baseUrl + "/properties/"|] == baseUrl + "/properties/"
    ensures JsParseInt(r[|baseUrl + "/properties/"|..]) == Some(l.property.id)
  {
    var prefix := baseUrl + "/properties/";
    var r := prefix + IntToString(l.property.id);
    ParseIntOfIntToString(l.property.id);
    assert r[|prefix|..] == IntToString(l.property.id);
    r
  }

  /** Distinct listings have distinct canonical URLs. */
  lemma CanonicalUrlInjective(a: Listing, b: Listing, baseUrl: string)
    requires CanonicalUrl(a, baseUrl) == CanonicalUrl(b, baseUrl)
    ensures a.property.id == b.property.id
  {
    var prefix := baseUrl + "/properties/";
    assert CanonicalUrl(a, baseUrl)[|prefix|..] == IntToString(a.property.id);
    assert CanonicalUrl(b, baseUrl)[|prefix|..] == IntToString(b.property.id);
    ParseIntOfIntToString(a.property.id);
    ParseIntOfIntToString(b.property.id);
  }

  // ----- Meta tags -----

  const MaxDescription: int := 157

  datatype SeoMeta = SeoMeta(title: string, description: string, image: string, url: string, kind: string)

  /** A given description longer than 157 characters is cut to its first 157 and marked with "...". */
  function ShortDescription(d: string): (r: string)
    ensures |d| <= MaxDescription ==> r == d
    ensures |d| > MaxDescription ==> |r| == MaxDescription + 3 && r[..MaxDescription] == d[..MaxDescription] && r[MaxDescription..] == "..."
    ensures |r| <= MaxDescription + 3
  {
    if |d| > MaxDescription then d[..MaxDescription] + "..." else d
  }

  /**
   * `generateSEOMeta`. The price text of the fallback description comes from
   * `formatPrice`, the euro formatting of the German locale.
   */
  function GenerateSeoMeta(l: Listing, baseUrl: string, formatPrice: int -> string): (r: SeoMeta)
    ensures r.url == CanonicalUrl(l, baseUrl) && r.kind == "website"
    ensures r.title == l.property.title + " - " + CityOr(l, "Property") + " | Brickly"
    ensures l.mediaUrls != [] ==> r.image == baseUrl + l.mediaUrls[0]
    ensures l.mediaUrls == [] ==> r.image == baseUrl + "/default-property-image.jpg"
    ensures l.property.description.Some? && l.property.description.value != "" ==>
      r.description == ShortDescription(l.property.description.value)
  {
    var title := l.property.title + " - " + CityOr(l, "Property") + " | Brickly";
    var description :=
      if l.property.description.Some? && l.property.description.value != "" then ShortDescription(l.property.description.value)
      else l.property.title + " in " + CityOr(l, "Germany") + ". " + (if l.property.price != 0 then "Price: " + formatPrice(l.property.price) else "");
    var image := if l.mediaUrls != [] then baseUrl + l.mediaUrls[0] else baseUrl + "/default-property-image.jpg";
    SeoMeta(title, description, image, CanonicalUrl(l, baseUrl), "website")
  }

  /** Without a description of its own, the meta description names the listing and its city; a zero price is not mentioned. */
  lemma FallbackDescription(l: Listing, baseUrl: string, formatPrice: int -> string)
    requires l.property.description.None? || l.property.description.value == ""
    ensures var d := GenerateSeoMeta(l, baseUrl, formatPrice).description;
      var head := l.property.title + " in " + CityOr(l, "Germany") + ". ";
      && d[..|head|] == head
      && (l.property.price == 0 <==> d == head)
  {
  }

  // ----- Alt texts -----

  /** `generateAltText`: the first image is the main photo, the others are numbered from 2. */
  function AltText(l: Listing, imageIndex: int): string {
    var base := l.property.title + " in " + CityOr(l, "Germany");
    if imageIndex == 0 then base + " - Main photo" else base + " - Photo " + IntToString(imageIndex + 1)
  }

  /** The images of one listing get pairwise different alt texts, all starting with the title and city. */
  lemma AltTextDistinct(l: Listing, i: int, j: int)
    requires 0 <= i && 0 <= j && i != j
    ensures AltText(l, i) != AltText(l, j)
    ensures var base := l.property.title + " in " + CityOr(l, "Germany");
      AltText(l, i)[..|base|] == base
  {
    var base := l.property.title + " in " + CityOr(l, "Germany");
    if i == 0 || j == 0 {
      MainPhotoDiffers(base, if i == 0 then j + 1 else i + 1);
    } else {
      ParseIntOfIntToString(i + 1);
      ParseIntOfIntToString(j + 1);
      PhotoNumbersDiffer(base + " - Photo ", IntToString(i + 1), IntToString(j + 1));
    }
  }

  lemma MainPhotoDiffers(base: string, n: int)
    ensures base + " - Main photo" != base + " - Photo " + IntToString(n)
  {
    assert (base + " - Main photo")[|base| + 3] == 'M';
    assert (base + " - Photo " + IntToString(n))[|base| + 3] == 'P';
  }

  lemma PhotoNumbersDiffer(prefix: string, a: string, b: string)
    requires a != b
    ensures prefix + a != prefix + b
  {
    assert (prefix + a)[|prefix|..] == a;
    assert (prefix + b)[|prefix|..] == b;
  }

  // ----- Structured data -----

  /** One entry of a schema.org breadcrumb list. */
  datatype Crumb = Crumb(position: int, name: string, item: string)

  /** The three schema.org documents of a listing page. */
  datatype StructuredData =
    | Residence(name: string, description: string, numberOfRooms: int, floorSize: int,
                streetAddress: string, addressLocality: string, postalCode: string, addressCountry: string,
                geo: Option<(string, string)>)
    | Offer(itemId: string, price: int, priceCurrency: string, availability: string, url: string)
    | BreadcrumbList(items: seq<Crumb>)

  const InStock: string := "https://schema.org/InStock"
  const OutOfStock: string := "https://schema.org/OutOfStock"

  /** A location field, or `fallback` when the location or the field is empty. */
  function LocationField(l: Listing, field: Location -> string, fallback: string): string {
    if l.location.Some? && field(l.location.value) != "" then field(l.location.value) else fallback
  }

  /** Coordinates are published only when both are present and non-empty. */
  function Geo(l: Listing): (r: Option<(string, string)>)
    ensures r.Some? <==> l.location.Some? && l.location.value.latitude.Some? && l.location.value.latitude.value != "" &&
                         l.location.value.longitude.Some? && l.location.value.longitude.value != ""
    ensures r.Some? ==> r.value == (l.location.value.latitude.value, l.location.value.longitude.value)
  {
    if l.location.Some? && l.location.value.latitude.Some? && l.location.value.latitude.value != "" &&
       l.location.value.longitude.Some? && l.location.value.longitude.value != ""
    then Some((l.location.value.latitude.value, l.location.value.longitude.value))
    else None
  }

  /**
   * `generateStructuredData`: the residence, its offer and the breadcrumb
   * trail. The city in the breadcrumb's link is escaped by `encodeUri`
   * (`encodeURIComponent`).
   */
  function GenerateStructuredData(l: Listing, baseUrl: string, encodeUri: string -> string): seq<StructuredData> {
    var p := l.property;
    var residence := Residence(p.title, p.description.GetOr(""), p.bedrooms.GetOr(0), p.livingArea.GetOr(0),
      LocationField(l, (x: Location) => x.street, ""), LocationField(l, (x: Location) => x.city, ""),
      LocationField(l, (x: Location) => x.postalCode, ""), LocationField(l, (x: Location) => x.country, "DE"),
      Geo(l));
    var offer := Offer(CanonicalUrl(l, baseUrl) + "#property", p.price, "EUR",
      if p.status == "live" then InStock else OutOfStock, CanonicalUrl(l, baseUrl));
    var trail := BreadcrumbList([
      Crumb(1, "Home", baseUrl),
      Crumb(2, "Properties", baseUrl + "/properties"),
      Crumb(3, CityOr(l, "Property"), baseUrl + "/properties?city=" + encodeUri(LocationField(l, (x: Location) => x.city, ""))),
      Crumb(4, p.title, CanonicalUrl(l, baseUrl))]);
    [residence, offer, trail]
  }

  /**
   * Exactly three documents, in the order residence, offer, breadcrumbs; the
   * offer is in stock exactly for a live listing and points at the canonical
   * URL, as does the last crumb, which carries the title; the crumbs are
   * numbered 1 to 4; coordinates appear exactly when both are known.
   */
  lemma StructuredDataSpec(l: Listing, baseUrl: string, encodeUri: string -> string)
    ensures var r := GenerateStructuredData(l, baseUrl, encodeUri);
      && |r| == 3 && r[0].Residence? && r[1].Offer? && r[2].BreadcrumbList?
      && (r[1].availability == InStock <==> l.property.status == "live")
      && r[1].url == CanonicalUrl(l, baseUrl)
      && r[0].numberOfRooms == l.property.bedrooms.GetOr(0)
      && (r[0].geo.Some? <==> Geo(l).Some?)
      && |r[2].items| == 4
      && (forall i :: 0 <= i < 4 ==> r[2].items[i].position == i + 1)
      && r[2].items[3].name == l.property.title && r[2].items[3].item == CanonicalUrl(l, baseUrl)
  {
    assert InStock != OutOfStock by {
      assert InStock[19] == 'I' && OutOfStock[19] == 'O';
    }
  }

  // ----- Slugs -----

  predicate IsUpper(c: char) {
    'A' <= c <= 'Z'
  }

  function LowerChar(c: char): char {
    if IsUpper(c) then (c as int + 32) as char else c
  }

  /** The characters a finished slug may hold. */
  predicate IsSlugChar(c: char) {
    'a' <= c <= 'z' || IsDigit(c) || c == '-'
  }

  /** `toLowerCase`, on the ASCII letters. */
  function Lower(s: string): (r: string)
    ensures |r| == |s| && forall i :: 0 <= i < |s| ==> r[i] == LowerChar(s[i])
  {
    if s == [] then [] else Lower(s[..|s| - 1]) + [LowerChar(s[|s| - 1])]
  }

  /** `replace(/[^a-z0-9\s-]/g, '')`: everything but letters, digits, white space and dashes is dropped. */
  function KeepSlugChars(s: string): (r: string)
    ensures |r| <= |s|
    ensures forall i :: 0 <= i < |r| ==> IsSlugChar(r[i]) || IsJsWhitespace(r[i])
  {
    if s == [] then []
    else
      var c := s[|s| - 1];
      KeepSlugChars(s[..|s| - 1]) + (if IsSlugChar(c) || IsJsWhitespace(c) then [c] else [])
  }

  /** `replace(/\s+/g, '-')`: every run of white space becomes one dash. */
  function DashSpaces(s: string): (r: string)
    ensures forall i :: 0 <= i < |r| ==> !IsJsWhitespace(r[i])
  {
    if s == [] then []
    else
      var init, c := s[..|s| - 1], s[|s| - 1];
      if !IsJsWhitespace(c) then DashSpaces(init) + [c]
      else if init != [] && IsJsWhitespace(init[|init| - 1]) then DashSpaces(init)
      else DashSpaces(init) + ['-']
  }

  /** `replace(/-+/g, '-')`: every run of dashes becomes one dash. */
  function CollapseDashes(s: string): (r: string)
    ensures r == [] <==> s == []
    ensures s != [] ==> r[|r| - 1] == s[|s| - 1]
    ensures NoDoubleDash(r)
  {
    if s == [] then []
    else
      var init, c := s[..|s| - 1], s[|s| - 1];
      if c == '-' && init != [] && init[|init| - 1] == '-' then CollapseDashes(init)
      else CollapseDashes(init) + [c]
  }

  /** `replace(/^-+/, '')`. */
  function DropLeadingDashes(s: string): (r: string)
    ensures |r| <= |s| && r == s[|s| - |r|..]
    ensures r != [] ==> r[0] != '-'
  {
    if s != [] && s[0] == '-' then DropLeadingDashes(s[1..]) else s
  }

  /** `replace(/-+$/, '')`. */
  function DropTrailingDashes(s: string): (r: string)
    ensures |r| <= |s| && r == s[..|r|]
    ensures r != [] ==> r[|r| - 1] != '-'
  {
    if s != [] && s[|s| - 1] == '-' then DropTrailingDashes(s[..|s| - 1]) else s
  }

  /** The slug pipeline on one text. */
  function Slugify(s: string): string {
    var dashed := CollapseDashes(DashSpaces(KeepSlugChars(Lower(s))));
    DropTrailingDashes(DropLeadingDashes(Trim(dashed)))
  }

  /** `generateSlug`: the title and the city joined by a dash, then slugified. */
  function GenerateSlug(title: string, city: string): string {
    Slugify(title + "-" + city)
  }

  /** What a slug looks like: letters, digits and single dashes, with no dash at either end. */
  predicate IsSlug(s: string) {
    && AllSlugChars(s)
    && NoDoubleDash(s)
    && (s != [] ==> s[0] != '-' && s[|s| - 1] != '-')
  }

  predicate AllSlugChars(s: string) {
    forall i :: 0 <= i < |s| ==> IsSlugChar(s[i])
  }

  /** Turning white space into dashes leaves only slug characters when nothing else was left. */
  lemma {:induction false} DashSpacesSlugChars(s: string)
    requires forall i :: 0 <= i < |s| ==> IsSlugChar(s[i]) || IsJsWhitespace(s[i])
    ensures AllSlugChars(DashSpaces(s))
  {
    if s != [] {
      DashSpacesSlugChars(s[..|s| - 1]);
    }
  }

  lemma {:induction false} CollapseSlugChars(s: string)
    requires AllSlugChars(s)
    ensures AllSlugChars(CollapseDashes(s))
  {
    if s != [] {
      CollapseSlugChars(s[..|s| - 1]);
    }
  }

  predicate NoDoubleDash(s: string) {
    forall i :: 0 <= i < |s| - 1 ==> !(s[i] == '-' && s[i + 1] == '-')
  }

  /** Any piece of a text of slug characters without double dashes is one too. */
  lemma SliceKeepsShape(s: string, a: int, b: int)
    requires 0 <= a <= b <= |s|
    requires AllSlugChars(s) && NoDoubleDash(s)
    ensures AllSlugChars(s[a..b]) && NoDoubleDash(s[a..b])
  {
    var t := s[a..b];
    assert forall i :: 0 <= i < |t| ==> t[i] == s[a + i];
  }

  /** Cutting the dashes off both ends of a text of slug characters without double dashes leaves a slug. */
  lemma StripDashesShape(s: string)
    requires AllSlugChars(s) && NoDoubleDash(s)
    ensures IsSlug(DropTrailingDashes(DropLeadingDashes(s)))
  {
    var lead := DropLeadingDashes(s);
    SliceKeepsShape(s, |s| - |lead|, |s|);
    var r := DropTrailingDashes(lead);
    SliceKeepsShape(lead, 0, |r|);
    assert r != [] ==> r[0] == lead[0];
  }

  /** Every generated slug has the slug shape. */
  lemma SlugifyShape(s: string)
    ensures IsSlug(Slugify(s))
  {
    var spaced := DashSpaces(KeepSlugChars(Lower(s)));
    DashSpacesSlugChars(KeepSlugChars(Lower(s)));
    var dashed := CollapseDashes(spaced);
    CollapseSlugChars(spaced);
    assert forall i :: 0 <= i < |dashed| ==> !IsJsWhitespace(dashed[i]);
    TrimNoop(dashed);
    StripDashesShape(dashed);
  }

  /** Each step leaves a text that already has the slug shape unchanged. */
  lemma {:induction false} KeepOfSlug(s: string)
    requires forall i :: 0 <= i < |s| ==> IsSlugChar(s[i]) || IsJsWhitespace(s[i])
    ensures KeepSlugChars(s) == s
  {
    if s != [] {
      KeepOfSlug(s[..|s| - 1]);
      assert s == s[..|s| - 1] + [s[|s| - 1]];
    }
  }

  lemma {:induction false} DashSpacesOfSlug(s: string)
    requires forall i :: 0 <= i < |s| ==> IsSlugChar(s[i])
    ensures DashSpaces(s) == s
  {
    if s != [] {
      DashSpacesOfSlug(s[..|s| - 1]);
      assert !IsJsWhitespace(s[|s| - 1]);
      assert s == s[..|s| - 1] + [s[|s| - 1]];
    }
  }

  lemma {:induction false} CollapseOfSingleDashes(s: string)
    requires NoDoubleDash(s)
    ensures CollapseDashes(s) == s
  {
    if s != [] {
      var init := s[..|s| - 1];
      CollapseOfSingleDashes(init);
      if |s| >= 2 {
        assert !(s[|s| - 2] == '-' && s[|s| - 1] == '-');
      }
      assert s == init + [s[|s| - 1]];
    }
  }

  /** A slug is its own slug, so slugifying twice is slugifying once. */
  lemma SlugifyFixesSlugs(s: string)
    requires IsSlug(s)
    ensures Slugify(s) == s
  {
    assert Lower(s) == s;
    KeepOfSlug(s);
    DashSpacesOfSlug(s);
    CollapseOfSingleDashes(s);
    assert CollapseDashes(DashSpaces(KeepSlugChars(Lower(s)))) == s;
    assert s != [] ==> !IsJsWhitespace(s[0]) && !IsJsWhitespace(s[|s| - 1]);
    TrimNoop(s);
    assert DropLeadingDashes(s) == s;
  }

  lemma SlugifyIdempotent(s: string)
    ensures Slugify(Slugify(s)) == Slugify(s)
  {
    SlugifyShape(s);
    SlugifyFixesSlugs(Slugify(s));
  }
}
