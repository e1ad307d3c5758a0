/** The catalogue of pages the functional battery runs against: one record per page with
    its route, the selector of its main content, the words expected in its body, and the
    flags that switch on the navigation and form checks. */
module Registry {
  import opened Wrappers

  /** A page record. A record that omits `hasForm` reads it as false. */
  datatype PageInfo = PageInfo(
    name: string,
    url: string,
    selector: string,
    expectedContent: seq<string>,
    hasNavigation: bool,
    hasForm: bool)

  /** The seven pages, in declaration order. */
  const Pages: seq<PageInfo> := [
    PageInfo("Home", "/", "main", ["TDT", "Investment", "Tanzania"], true, false),
    PageInfo("Investment Profiles", "/investment-profiles",
             ".investment-card, .card, [class*=\"Card\"], .grid > div, main div > div",
             ["Investment"], true, false),
    PageInfo("Social Accountability", "/social-accountability",
             "main section, .prose, main div > div", ["Accountability", "Social"], true, false),
    PageInfo("Stakeholder Directory", "/stakeholder-directory",
             "table, .directory-list, .grid, main", ["Stakeholder"], true, false),
    PageInfo("Knowledge Hub", "/knowledge-hub",
             ".resource-item, article, [class*=\"item\"], main", ["Knowledge", "Resource"], true, false),
    PageInfo("News & Events", "/news-events",
             "article, .news-item, .grid > div, h1, h2", ["News", "Events"], true, false),
    PageInfo("Contact Us", "/contact-us", "form, main section", ["Contact"], true, true)
  ]

  /** Routes are unique, page names are unique, and every page expects some content. */
  ghost predicate WellFormed(ps: seq<PageInfo>) {
    && (forall i, j :: 0 <= i < j < |ps| ==> ps[i].url != ps[j].url)
    && (forall i, j :: 0 <= i < j < |ps| ==> ps[i].name != ps[j].name)
    && (forall i :: 0 <= i < |ps| ==> |ps[i].expectedContent| > 0)
  }

  /** A number that tells the registry's strings apart: the length and one character. */
  function Fingerprint(s: string, k: nat): int {
    |s| * 1000 + if k < |s| then s[k] as int else 0
  }

  /** Pages whose fingerprints differ pairwise have distinct routes and distinct names. */
  lemma FingerprintsSeparate(ps: seq<PageInfo>)
    requires forall i, j :: 0 <= i < j < |ps| ==> Fingerprint(ps[i].url, 2) != Fingerprint(ps[j].url, 2)
    requires forall i, j :: 0 <= i < j < |ps| ==> Fingerprint(ps[i].name, 1) != Fingerprint(ps[j].name, 1)
    ensures forall i, j :: 0 <= i < j < |ps| ==> ps[i].url != ps[j].url && ps[i].name != ps[j].name
  {
  }

  /** The registry is well formed. */
  lemma RegistryWellFormed()
    ensures WellFormed(Pages)
  {
    assert Fingerprint(Pages[0].url, 2) == 1000;
    assert Fingerprint(Pages[1].url, 2) == 20000 + 'n' as int;
    assert Fingerprint(Pages[2].url, 2) == 22000 + 'o' as int;
    assert Fingerprint(Pages[3].url, 2) == 22000 + 't' as int;
    assert Fingerprint(Pages[4].url, 2) == 14000 + 'n' as int;
    assert Fingerprint(Pages[5].url, 2) == 12000 + 'e' as int;
    assert Fingerprint(Pages[6].url, 2) == 11000 + 'o' as int;
    assert Fingerprint(Pages[0].name, 1) == 4000 + 'o' as int;
    assert Fingerprint(Pages[1].name, 1) == 19000 + 'n' as int;
    assert Fingerprint(Pages[2].name, 1) == 21000 + 'o' as int;
    assert Fingerprint(Pages[3].name, 1) == 21000 + 't' as int;
    assert Fingerprint(Pages[4].name, 1) == 13000 + 'n' as int;
    assert Fingerprint(Pages[5].name, 1) == 13000 + 'e' as int;
    assert Fingerprint(Pages[6].name, 1) == 10000 + 'o' as int;
    FingerprintsSeparate(Pages);
  }

  /** Every page asks for the navigation check; only "Contact Us" asks for the form check. */
  lemma RegistryFlags()
    ensures forall i :: 0 <= i < |Pages| ==> Pages[i].hasNavigation
    ensures forall i :: 0 <= i < |Pages| ==> (Pages[i].hasForm <==> Pages[i].name == "Contact Us")
  {
  }

  /** The record of the page at `route`, if the registry has one. */
  function PageAt(route: string): (r: Option<PageInfo>)
    ensures r.Some? ==> r.value in Pages && r.value.url == route
    ensures r.None? <==> forall i :: 0 <= i < |Pages| ==> Pages[i].url != route
  {
    PageIn(Pages, route)
  }

  /** The first record of `ps` whose route is `route`. */
  function PageIn(ps: seq<PageInfo>, route: string): (r: Option<PageInfo>)
    ensures r.Some? ==> r.value in ps && r.value.url == route
    ensures r.None? <==> forall i :: 0 <= i < |ps| ==> ps[i].url != route
  {
    if |ps| == 0 then None
    else if ps[0].url == route then Some(ps[0])
    else PageIn(ps[1..], route)
  }
}
