/**
 * The root domain's `main-sitemap.xml` (app/main-sitemap.xml/route.ts): one
 * `<url>` for the root home page, then, for each of the 50 state codes in
 * list order, the state's home page and its `sitemap.xml`, both stamped with
 * one lastmod drawn for that state. The random instants are inputs, as the
 * ISO strings `toISOString` gives for them.
 */
module MainSitemapXml {
  import opened Text
  import opened Wrappers
  import opened Hosts
  import opened Lastmod

  /** One `<url>` element; change frequency is always weekly. */
  datatype UrlEntry = UrlEntry(loc: string, lastmod: string, priority: string)

  // The fixed text around the three fields of a `<url>` element.
  const UrlStart: string := "\n  <url>\n    <loc>"
  const AfterLoc: string := "</loc>\n    <lastmod>"
  const AfterLastmod: string := "</lastmod>\n    <changefreq>weekly</changefreq>\n    <priority>"
  const UrlEnd: string := "</priority>\n  </url>"

  function RenderUrl(e: UrlEntry): string
  {
    UrlStart + e.loc + AfterLoc + e.lastmod + AfterLastmod + e.priority + UrlEnd
  }

  /** The elements one after the other. */
  function RenderAll(es: seq<UrlEntry>): string
  {
    if es == [] then "" else RenderAll(es[..|es| - 1]) + RenderUrl(es[|es| - 1])
  }

  lemma {:induction false} RenderAllAppend(a: seq<UrlEntry>, b: seq<UrlEntry>)
    ensures RenderAll(a + b) == RenderAll(a) + RenderAll(b)
  {
    if b == [] {
      AppendEmpty(a);
      AppendEmpty(RenderAll(a));
    } else {
      var b' := b[..|b| - 1];
      assert (a + b)[..|a + b| - 1] == a + b';
      RenderAllAppend(a, b');
      AppendAssoc(RenderAll(a), RenderAll(b'), RenderUrl(b[|b| - 1]));
    }
  }

  const UrlsetOpen: string :=
    "<?xml version=\"1.0\" encoding=\"UTF-8\"?>\n<urlset xmlns=\"http://www.sitemaps.org/schemas/sitemap/0.9\">"

  const UrlsetClose: string := "\n</urlset>"

  /** The whole document: all elements inside one `<urlset>` of the sitemaps 0.9 namespace. */
  function UrlsetDocument(es: seq<UrlEntry>): string
  {
    UrlsetOpen + RenderAll(es) + UrlsetClose
  }

  function RootEntry(rootDomain: string, lastmod: string): UrlEntry
  {
    UrlEntry("https://" + rootDomain + "/", lastmod, "1.0")
  }

  function StateHome(code: string, rootDomain: string, lastmod: string): UrlEntry
  {
    UrlEntry("https://" + code + "." + rootDomain + "/", lastmod, "0.8")
  }

  function StateSitemap(code: string, rootDomain: string, lastmod: string): UrlEntry
  {
    UrlEntry("https://" + code + "." + rootDomain + "/sitemap.xml", lastmod, "0.6")
  }

  /** Each state's pair of entries, in list order, the i-th pair stamped with `lastmods[i]`. */
  function StateEntries(codes: seq<string>, rootDomain: string, lastmods: seq<string>): seq<UrlEntry>
    requires |codes| == |lastmods|
  {
    if codes == [] then []
    else
      var n := |codes| - 1;
      StateEntries(codes[..n], rootDomain, lastmods[..n])
        + [StateHome(codes[n], rootDomain, lastmods[n]), StateSitemap(codes[n], rootDomain, lastmods[n])]
  }

  /** The entries of the document, in order. */
  function MainSitemapEntries(rootDomain: string, rootLastmod: string, lastmods: seq<string>): seq<UrlEntry>
    requires |lastmods| == |UsStateList|
  {
    [RootEntry(rootDomain, rootLastmod)] + StateEntries(UsStateList, rootDomain, lastmods)
  }

  /** The pairs: two entries per code, the home page first, sharing the code's lastmod. */
  lemma {:induction false} StateEntriesShape(codes: seq<string>, rootDomain: string, lastmods: seq<string>)
    requires |codes| == |lastmods|
    ensures var es := StateEntries(codes, rootDomain, lastmods);
      |es| == 2 * |codes|
      && (forall i :: 0 <= i < |codes| ==>
            es[2 * i] == StateHome(codes[i], rootDomain, lastmods[i])
            && es[2 * i + 1] == StateSitemap(codes[i], rootDomain, lastmods[i]))
  {
    if codes != [] {
      var n := |codes| - 1;
      StateEntriesShape(codes[..n], rootDomain, lastmods[..n]);
    }
  }

  /** The document's entries over any code list: the root entry, then the pairs. */
  lemma EntriesShape(codes: seq<string>, rootDomain: string, rootLastmod: string, lastmods: seq<string>)
    requires |codes| == |lastmods|
    ensures var es := [RootEntry(rootDomain, rootLastmod)] + StateEntries(codes, rootDomain, lastmods);
      |es| == 1 + 2 * |codes|
      && es[0] == RootEntry(rootDomain, rootLastmod)
      && (forall i :: 0 <= i < |codes| ==>
            es[1 + 2 * i] == StateHome(codes[i], rootDomain, lastmods[i])
            && es[2 + 2 * i] == StateSitemap(codes[i], rootDomain, lastmods[i]))
  {
    StateEntriesShape(codes, rootDomain, lastmods);
  }

  /**
   * 1 + 2 * 50 entries: the root home page (priority 1.0) first, then for the
   * i-th state its home (0.8) and its sitemap (0.6), both with its lastmod.
   */
  lemma MainSitemapShape(rootDomain: string, rootLastmod: string, lastmods: seq<string>)
    requires |lastmods| == |UsStateList|
    ensures var es := MainSitemapEntries(rootDomain, rootLastmod, lastmods);
      |es| == 1 + 2 * 50
      && es[0] == UrlEntry("https://" + rootDomain + "/", rootLastmod, "1.0")
      && (forall i :: 0 <= i < 50 ==>
            es[1 + 2 * i] == UrlEntry("https://" + UsStateList[i] + "." + rootDomain + "/", lastmods[i], "0.8")
            && es[2 + 2 * i] == UrlEntry("https://" + UsStateList[i] + "." + rootDomain + "/sitemap.xml", lastmods[i], "0.6")
            && es[1 + 2 * i].lastmod == es[2 + 2 * i].lastmod)
  {
    UsStateListShape();
    EntriesShape(UsStateList, rootDomain, rootLastmod, lastmods);
  }

  /** Each `randomLastmod()` result: the instant's ISO text with the offset form. */
  function Lastmods(isos: seq<string>): (r: seq<string>)
    ensures |r| == |isos| && forall i :: 0 <= i < |isos| ==> r[i] == FormatLastmod(isos[i])
  {
    seq(|isos|, i requires 0 <= i < |isos| => FormatLastmod(isos[i]))
  }

  /** Formatting the formatted lastmods again changes none of them. */
  lemma LastmodsIdempotent(isos: seq<string>)
    ensures Lastmods(Lastmods(isos)) == Lastmods(isos)
  {
    var r := Lastmods(isos);
    forall i | 0 <= i < |isos|
      ensures Lastmods(r)[i] == r[i]
    {
      FormatLastmodIdempotent(isos[i]);
    }
  }

  /**
   * GET: the entry strings are pushed one per state, each holding that
   * state's two elements, and joined into the document.
   */
  method MainSitemap(rootEnv: Option<string>, rootIso: string, stateIsos: seq<string>) returns (xml: string)
    requires |stateIsos| == |UsStateList|
    ensures xml == UrlsetDocument(MainSitemapEntries(RootDomain(rootEnv, DefaultRootDomain),
                                                      FormatLastmod(rootIso), Lastmods(stateIsos)))
  {
    var rootDomain := RootDomain(rootEnv, DefaultRootDomain);
    var rootLastmod := FormatLastmod(rootIso);
    var lastmods := Lastmods(stateIsos);
    var urlEntries: seq<string> := [];
    urlEntries := urlEntries + [RenderUrl(RootEntry(rootDomain, rootLastmod))];
    RenderOne(RootEntry(rootDomain, rootLastmod));
    AppendEmpty([RootEntry(rootDomain, rootLastmod)]);
    AppendEmpty([RenderUrl(RootEntry(rootDomain, rootLastmod))]);
    for i := 0 to |UsStateList|
      invariant Concat(urlEntries) ==
        RenderAll([RootEntry(rootDomain, rootLastmod)] + StateEntries(UsStateList[..i], rootDomain, lastmods[..i]))
    {
      var state := UsStateList[i];
      var lastmod := FormatLastmod(stateIsos[i]);
      PushState(urlEntries, RootEntry(rootDomain, rootLastmod), UsStateList, rootDomain, lastmods, i);
      urlEntries := urlEntries + [RenderUrl(StateHome(state, rootDomain, lastmod))
                                  + RenderUrl(StateSitemap(state, rootDomain, lastmod))];
    }
    TakeAll(UsStateList);
    TakeAll(lastmods);
    xml := UrlsetOpen + Concat(urlEntries) + UrlsetClose;
  }

  /** One turn of the loop: pushing a state's two elements extends the document by its pair. */
  lemma PushState(urlEntries: seq<string>, first: UrlEntry, codes: seq<string>, rootDomain: string,
                  lastmods: seq<string>, i: nat)
    requires |codes| == |lastmods| && i < |codes|
    requires Concat(urlEntries) == RenderAll([first] + StateEntries(codes[..i], rootDomain, lastmods[..i]))
    ensures Concat(urlEntries + [RenderUrl(StateHome(codes[i], rootDomain, lastmods[i]))
                                 + RenderUrl(StateSitemap(codes[i], rootDomain, lastmods[i]))])
      == RenderAll([first] + StateEntries(codes[..i + 1], rootDomain, lastmods[..i + 1]))
  {
    var home := StateHome(codes[i], rootDomain, lastmods[i]);
    var sitemapEntry := StateSitemap(codes[i], rootDomain, lastmods[i]);
    var prior := StateEntries(codes[..i], rootDomain, lastmods[..i]);
    ConcatSnoc(urlEntries, RenderUrl(home) + RenderUrl(sitemapEntry));
    StateEntriesSnoc(codes, rootDomain, lastmods, i);
    AppendAssoc([first], prior, [home, sitemapEntry]);
    RenderAllAppend([first] + prior, [home, sitemapEntry]);
    RenderPair(home, sitemapEntry);
  }

  lemma StateEntriesSnoc(codes: seq<string>, rootDomain: string, lastmods: seq<string>, i: nat)
    requires |codes| == |lastmods| && i < |codes|
    ensures StateEntries(codes[..i + 1], rootDomain, lastmods[..i + 1])
      == StateEntries(codes[..i], rootDomain, lastmods[..i])
         + [StateHome(codes[i], rootDomain, lastmods[i]), StateSitemap(codes[i], rootDomain, lastmods[i])]
  {
    assert codes[..i + 1][..i] == codes[..i];
    assert lastmods[..i + 1][..i] == lastmods[..i];
  }

  lemma RenderPair(a: UrlEntry, b: UrlEntry)
    ensures RenderAll([a, b]) == RenderUrl(a) + RenderUrl(b)
  {
    calc {
      RenderAll([a, b]);
      { assert [a, b][..1] == [a]; }
      RenderAll([a]) + RenderUrl(b);
      { RenderOne(a); }
      RenderUrl(a) + RenderUrl(b);
    }
  }

  lemma RenderOne(a: UrlEntry)
    ensures RenderAll([a]) == RenderUrl(a) == Concat([RenderUrl(a)])
  {
    assert [a][..0] == [];
    AppendEmpty(RenderUrl(a));
    assert Concat([RenderUrl(a)]) == RenderUrl(a) + Concat([]);
  }
}
