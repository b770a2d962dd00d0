/**
 * The root domain's `sitemap-index.xml` (app/sitemap-index.xml/route.ts):
 * one `<sitemap>` pointing at `main-sitemap.xml`, then one per code of its
 * own 51-code list, every entry stamped with the same timestamp. The clock
 * reading is an input, as the ISO string `toISOString` gives for it.
 */
module SitemapIndexXml {
  import opened Text
  import opened Wrappers
  import opened Hosts
  import opened Lastmod
  import opened MiddlewareRouter

  /** This handler's own code list: the router's 50 codes with "dc" after "de". */
  const IndexCodes: seq<string> :=
    ["al", "ak", "az", "ar", "ca", "co", "ct", "de", "dc", "fl", "ga"] +
    ["hi", "id", "il", "in", "ia", "ks", "ky", "la", "me", "md"] +
    ["ma", "mi", "mn", "ms", "mo", "mt", "ne", "nv", "nh", "nj"] +
    ["nm", "ny", "nc", "nd", "oh", "ok", "or", "pa", "ri", "sc"] +
    ["sd", "tn", "tx", "ut", "vt", "va", "wa", "wv", "wi", "wy"]

  /** The fallback used by this handler when `NEXT_PUBLIC_ROOT_DOMAIN` is unset. */
  const IndexDefaultRoot: string := "mybuddytheplumberparkcity.com"

  /** 51 codes, "dc" at position 8. */
  lemma IndexCodesShape()
    ensures |IndexCodes| == 51
    ensures IndexCodes[8] == "dc"
  {
  }

  /** The index's list is the router's list with "dc" inserted after "de". */
  lemma IndexCodesExtendStateList()
    ensures IndexCodes == UsStateList[..8] + ["dc"] + UsStateList[8..]
  {
  }

  /** The router's list lacks "dc". */
  lemma DcNotAState()
    ensures "dc" !in UsStateList && !IsStateCode("dc")
  {
  }

  /** One `<sitemap>` element. */
  datatype IndexEntry = IndexEntry(loc: string, lastmod: string)

  // The fixed text around the two fields of a `<sitemap>` element.
  const SitemapStart: string := "\n    <sitemap>\n        <loc>"
  const AfterIndexLoc: string := "</loc>\n        <lastmod>"
  const SitemapEnd: string := "</lastmod>\n    </sitemap>"

  function RenderEntry(e: IndexEntry): string
  {
    SitemapStart + e.loc + AfterIndexLoc + e.lastmod + SitemapEnd
  }

  function RenderEntries(es: seq<IndexEntry>): string
  {
    if es == [] then "" else RenderEntries(es[..|es| - 1]) + RenderEntry(es[|es| - 1])
  }

  lemma {:induction false} RenderEntriesSnoc(es: seq<IndexEntry>, e: IndexEntry)
    ensures RenderEntries(es + [e]) == RenderEntries(es) + RenderEntry(e)
  {
    assert (es + [e])[..|es|] == es;
  }

  lemma RenderOneEntry(e: IndexEntry)
    ensures RenderEntries([e]) == RenderEntry(e) == Concat([RenderEntry(e)])
  {
    assert [e][..0] == [];
    AppendEmpty(RenderEntry(e));
    assert Concat([RenderEntry(e)]) == RenderEntry(e) + Concat([]);
  }

  const IndexOpen: string :=
    "<?xml version=\"1.0\" encoding=\"UTF-8\"?>\n<sitemapindex xmlns=\"http://www.sitemaps.org/schemas/sitemap/0.9\">\n    "

  const IndexClose: string := "\n</sitemapindex>"

  /** All elements inside one `<sitemapindex>` of the sitemaps 0.9 namespace. */
  function IndexDocument(es: seq<IndexEntry>): string
  {
    IndexOpen + RenderEntries(es) + IndexClose
  }

  function StateRef(code: string, rootDomain: string, timestamp: string): IndexEntry
  {
    IndexEntry("https://" + code + "." + rootDomain + "/sitemap.xml", timestamp)
  }

  function StateRefs(codes: seq<string>, rootDomain: string, timestamp: string): (es: seq<IndexEntry>)
    ensures |es| == |codes|
    ensures forall i :: 0 <= i < |codes| ==> es[i] == StateRef(codes[i], rootDomain, timestamp)
  {
    seq(|codes|, i requires 0 <= i < |codes| => StateRef(codes[i], rootDomain, timestamp))
  }

  function IndexEntries(rootDomain: string, timestamp: string): seq<IndexEntry>
  {
    [IndexEntry("https://" + rootDomain + "/main-sitemap.xml", timestamp)] + StateRefs(IndexCodes, rootDomain, timestamp)
  }

  /**
   * 52 entries: `main-sitemap.xml` on the root first, then each code's
   * `sitemap.xml` on its subdomain in list order, all with one timestamp.
   */
  lemma IndexEntriesShape(rootDomain: string, timestamp: string)
    ensures var es := IndexEntries(rootDomain, timestamp);
      |es| == 52
      && es[0].loc == "https://" + rootDomain + "/main-sitemap.xml"
      && (forall i :: 0 <= i < 51 ==> es[i + 1].loc == "https://" + IndexCodes[i] + "." + rootDomain + "/sitemap.xml")
      && (forall e :: e in es ==> e.lastmod == timestamp)
  {
    IndexCodesShape();
    var es := IndexEntries(rootDomain, timestamp);
    forall e | e in es
      ensures e.lastmod == timestamp
    {
      var k :| 0 <= k < |es| && es[k] == e;
      if k > 0 {
        assert es[k] == StateRefs(IndexCodes, rootDomain, timestamp)[k - 1];
      }
    }
  }

  /** GET: the main entry, then one entry pushed per code, joined inside the wrapper. */
  method SitemapIndex(rootEnv: Option<string>, nowIso: string) returns (xml: string)
    ensures xml == IndexDocument(IndexEntries(RootDomain(rootEnv, IndexDefaultRoot), FormatLastmod(nowIso)))
  {
    var rootDomain := RootDomain(rootEnv, IndexDefaultRoot);
    var timestamp := FormatLastmod(nowIso);
    var first := IndexEntry("https://" + rootDomain + "/main-sitemap.xml", timestamp);
    var sitemapEntries: seq<string> := [RenderEntry(first)];
    RenderOneEntry(first);
    AppendEmpty([first]);
    for i := 0 to |IndexCodes|
      invariant Concat(sitemapEntries) == RenderEntries([first] + StateRefs(IndexCodes[..i], rootDomain, timestamp))
    {
      PushRef(sitemapEntries, first, IndexCodes, rootDomain, timestamp, i);
      sitemapEntries := sitemapEntries + [RenderEntry(StateRef(IndexCodes[i], rootDomain, timestamp))];
    }
    TakeAll(IndexCodes);
    xml := IndexOpen + Concat(sitemapEntries) + IndexClose;
  }

  /** One turn of the loop: pushing a code's element extends the document by its entry. */
  lemma PushRef(parts: seq<string>, first: IndexEntry, codes: seq<string>, rootDomain: string,
                timestamp: string, i: nat)
    requires i < |codes|
    requires Concat(parts) == RenderEntries([first] + StateRefs(codes[..i], rootDomain, timestamp))
    ensures Concat(parts + [RenderEntry(StateRef(codes[i], rootDomain, timestamp))])
      == RenderEntries([first] + StateRefs(codes[..i + 1], rootDomain, timestamp))
  {
    var e := StateRef(codes[i], rootDomain, timestamp);
    var prior := StateRefs(codes[..i], rootDomain, timestamp);
    ConcatSnoc(parts, RenderEntry(e));
    assert StateRefs(codes[..i + 1], rootDomain, timestamp) == prior + [e];
    AppendAssoc([first], prior, [e]);
    RenderEntriesSnoc([first] + prior, e);
  }

  /**
   * The index advertises `dc.<root>/sitemap.xml`, but the router does not
   * count "dc" as a state: that host is rewritten into the city namespace.
   */
  lemma DcSitemapRoutedAsCity(rootDomain: string)
    requires ':' !in rootDomain
    ensures Middleware("dc." + rootDomain, rootDomain, "/sitemap.xml") == Rewrite("/city-sites/dc/sitemap.xml", None)
  {
    DcHostParts(rootDomain);
    SitemapPathIsPublic();
    DcNotAState();
    assert Lower("dc") == "dc";
    assert "dc"[0] != "www"[0];
    SubdomainRewrite("dc." + rootDomain, rootDomain, "dc", "/sitemap.xml");
    DcCityTarget();
  }

  lemma DcHostParts(rootDomain: string)
    requires ':' !in rootDomain
    ensures StripPort("dc." + rootDomain) == "dc" + "." + StripPort(rootDomain)
  {
    var host := "dc." + rootDomain;
    assert ':' !in host;
    StripPortNoColon(rootDomain);
    StripPortNoColon(host);
  }

  lemma SitemapPathIsPublic()
    ensures !IsInternalPath("/sitemap.xml")
  {
    var path := "/sitemap.xml";
    assert path[1] != "/city-sites"[1] && path[2] != "/state-sites"[2];
  }

  lemma DcCityTarget()
    ensures RewriteTarget("/city-sites/", "dc", "/sitemap.xml") == "/city-sites/dc/sitemap.xml"
  {
  }
}
