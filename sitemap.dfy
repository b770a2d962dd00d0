/**
 * The per-host sitemap of app/sitemap.ts: the host is classified as root,
 * state or city (lower-cased, unlike the router), and the URL list is built
 * from the city data. The Host header, the `NEXT_PUBLIC_ROOT_DOMAIN`
 * variable, the clock and the data directory are inputs.
 */
module HostSitemap {
  import opened Wrappers
  import opened Text
  import opened Hosts
  import opened CityStore
  import opened MiddlewareRouter

  datatype HostKind = RootHost | StateHost | CityHost

  datatype SubdomainInfo = SubdomainInfo(kind: HostKind, sub: string)

  /**
   * getSubdomainInfo: root when the lower-cased, port-stripped host lacks the
   * `.<root>` suffix or is `www.<root>`; otherwise the part before the suffix
   * (possibly empty) is a state when it is a listed code, else a city.
   */
  function GetSubdomainInfo(hostname: string, rootDomain: string): (info: SubdomainInfo)
    ensures var h, r := Lower(StripPort(hostname)), Lower(StripPort(rootDomain));
      (info.kind == RootHost <==> !EndsWith(h, "." + r) || h == "www." + r)
      && (info.kind == RootHost ==> info.sub == "")
      && (info.kind != RootHost ==> h == info.sub + "." + r)
      && (info.kind == StateHost <==> info.kind != RootHost && IsStateCode(info.sub))
  {
    var h := Lower(StripPort(hostname));
    var r := Lower(StripPort(rootDomain));
    if !EndsWith(h, "." + r) || h == "www." + r then SubdomainInfo(RootHost, "")
    else
      var sub := SubdomainOf(h, r).value;
      if |sub| == 2 && sub in UsStateList then SubdomainInfo(StateHost, sub)
      else SubdomainInfo(CityHost, sub)
  }

  /** A host `name.<root>` (ports and case aside) is classified by the lower-cased `name`. */
  lemma ClassifyComposedHost(hostname: string, rootDomain: string, name: string)
    requires Lower(StripPort(hostname)) == name + "." + Lower(StripPort(rootDomain))
    requires name != "www"
    ensures GetSubdomainInfo(hostname, rootDomain)
      == SubdomainInfo(if IsStateCode(name) then StateHost else CityHost, name)
  {
    var r := Lower(StripPort(rootDomain));
    SubdomainOfLabel(name, r);
  }

  /**
   * A host that is exactly `.<root>` is a city with the empty slug here,
   * while the middleware treats it as root traffic and passes it through.
   */
  lemma EmptySubdomainDisagreement(rootDomain: string, path: string)
    requires ':' !in rootDomain && NoUpperCase(rootDomain)
    requires !IsInternalPath(path)
    ensures GetSubdomainInfo("." + rootDomain, rootDomain) == SubdomainInfo(CityHost, "")
    ensures Middleware("." + rootDomain, rootDomain, path) == PassThrough
  {
    var host := "." + rootDomain;
    assert ':' !in host;
    StripPortNoColon(rootDomain);
    StripPortNoColon(host);
    LowerOfLowerCase(rootDomain);
    assert NoUpperCase(host);
    LowerOfLowerCase(host);
    assert host == "" + "." + rootDomain;
    ClassifyComposedHost(host, rootDomain, "");
  }

  /**
   * On hosts and roots without capitals, the classifier and the middleware
   * agree: root traffic passes through, and the state or city slug found is
   * the one the middleware rewrites by; the one exception is `.<root>`.
   */
  lemma ClassifierAgreesWithMiddleware(hostname: string, rootDomain: string, path: string)
    requires NoUpperCase(StripPort(hostname)) && NoUpperCase(StripPort(rootDomain))
    requires !IsInternalPath(path)
    ensures var info := GetSubdomainInfo(hostname, rootDomain);
      var m := Middleware(hostname, rootDomain, path);
      (m == PassThrough <==> info.kind == RootHost || info == SubdomainInfo(CityHost, ""))
      && (info.kind == StateHost ==> m == Rewrite(RewriteTarget("/state-sites/", info.sub, path), None))
      && (info.kind == CityHost && info.sub != "" ==> m == Rewrite(RewriteTarget("/city-sites/", info.sub, path), None))
  {
    var h, r := StripPort(hostname), StripPort(rootDomain);
    LowerOfLowerCase(h);
    LowerOfLowerCase(r);
    var info := GetSubdomainInfo(hostname, rootDomain);
    if info.kind != RootHost {
      SubdomainOfLabel(info.sub, r);
      LowerOfLowerCase(info.sub);
    } else if EndsWith(h, "." + r) && h != "www." + r {
      assert false;
    }
  }

  lemma LowerWww()
    ensures Lower("WWW") == "www" && Lower("WWW.") == "www."
  {
  }

  /**
   * `WWW.<root>` is root traffic for the classifier but a city host `www`
   * for the middleware, whose `www` test comes before lower-casing.
   */
  lemma UpperCaseWwwDisagreement(rootDomain: string)
    requires ':' !in rootDomain && NoUpperCase(rootDomain)
    ensures GetSubdomainInfo("WWW." + rootDomain, rootDomain).kind == RootHost
    ensures Middleware("WWW." + rootDomain, rootDomain, "/") == Rewrite("/city-sites/www", None)
  {
    UpperWwwIsRootForClassifier(rootDomain);
    UpperWwwIsCityForMiddleware(rootDomain);
  }

  lemma UpperWwwIsRootForClassifier(rootDomain: string)
    requires ':' !in rootDomain && NoUpperCase(rootDomain)
    ensures GetSubdomainInfo("WWW." + rootDomain, rootDomain).kind == RootHost
  {
    var host := "WWW." + rootDomain;
    assert ':' !in host;
    StripPortNoColon(rootDomain);
    StripPortNoColon(host);
    LowerOfLowerCase(rootDomain);
    LowerAppend("WWW.", rootDomain);
    LowerWww();
    assert Lower(StripPort(host)) == "www." + Lower(StripPort(rootDomain));
  }

  lemma UpperWwwIsCityForMiddleware(rootDomain: string)
    requires ':' !in rootDomain
    ensures Middleware("WWW." + rootDomain, rootDomain, "/") == Rewrite("/city-sites/www", None)
  {
    var host := "WWW." + rootDomain;
    assert ':' !in host;
    StripPortNoColon(rootDomain);
    StripPortNoColon(host);
    assert host == "WWW" + "." + rootDomain;
    assert "WWW"[0] != "www"[0];
    LowerWww();
    WwwLabelIsCity(host, rootDomain, "WWW");
  }

  /** A label other than `www` that lower-cases to `www` is routed as a city. */
  lemma WwwLabelIsCity(host: string, rootDomain: string, sub: string)
    requires StripPort(host) == sub + "." + StripPort(rootDomain)
    requires sub != "" && sub != "www" && Lower(sub) == "www"
    ensures Middleware(host, rootDomain, "/") == Rewrite("/city-sites/www", None)
  {
    assert !StartsWith("/", "/city-sites") && !StartsWith("/", "/state-sites");
    SubdomainRewrite(host, rootDomain, sub, "/");
    assert !IsStateCode("www");
  }

  // ---------------------------------------------------------------------------
  // The URL list

  datatype ChangeFrequency = Weekly | Monthly

  /** One sitemap entry; `lastModified` is the request's clock reading. */
  datatype SitemapEntry = SitemapEntry(url: string, lastModified: int, changeFrequency: ChangeFrequency,
                                       priority: real)

  /** `cityData.services ?? []`. */
  function ServicesOf(c: CityData): seq<Service>
  {
    match c.services
    case Some(s) => s
    case None => []
  }

  /**
   * sitemap(): state hosts list their home page and every city of the state
   * by its own subdomain; a city host lists its home, about and contact pages
   * and one page per service, or nothing when its record is not found; the
   * root lists its home page only. Every entry carries the same `now`.
   */
  method Sitemap(hostHeader: Option<string>, rootEnv: Option<string>, now: int, dir: DataDir)
    returns (urls: seq<SitemapEntry>)
    ensures forall e :: e in urls ==> e.lastModified == now
    ensures var hostname := HostHeader(hostHeader);
      var rootDomain := RootDomain(rootEnv, DefaultRootDomain);
      var info := GetSubdomainInfo(hostname, rootDomain);
      var baseUrl := "https://" + hostname;
      (info.kind == StateHost ==>
        var cities := GetCitiesForState(dir, info.sub);
        |urls| == 1 + |cities|
        && urls[0] == SitemapEntry(baseUrl, now, Weekly, 1.0)
        && (forall i :: 1 <= i < |urls| ==>
              urls[i] == SitemapEntry("https://" + cities[i - 1].slug + "." + rootDomain, now, Weekly, 0.8)))
      && (info.kind == CityHost && GetCityBySlug(dir, info.sub).None? ==> urls == [])
      && (info.kind == CityHost && GetCityBySlug(dir, info.sub).Some? ==>
        var services := ServicesOf(GetCityBySlug(dir, info.sub).value);
        |urls| == 3 + |services|
        && urls[..3] == [SitemapEntry(baseUrl, now, Weekly, 1.0),
                         SitemapEntry(baseUrl + "/about", now, Monthly, 0.7),
                         SitemapEntry(baseUrl + "/contact", now, Monthly, 0.7)]
        && (forall i :: 3 <= i < |urls| ==>
              urls[i] == SitemapEntry(baseUrl + "/services/" + services[i - 3].serviceId, now, Monthly, 0.8)))
      && (info.kind == RootHost ==> urls == [SitemapEntry(baseUrl, now, Monthly, 1.0)])
  {
    var hostname := HostHeader(hostHeader);
    var rootDomain := RootDomain(rootEnv, DefaultRootDomain);
    var info := GetSubdomainInfo(hostname, rootDomain);
    var baseUrl := "https://" + hostname;

    if info.kind == StateHost {
      urls := StateUrls(baseUrl, rootDomain, GetCitiesForState(dir, info.sub), now);
      return;
    }

    if info.kind == CityHost {
      var cityData := GetCityBySlug(dir, info.sub);
      if cityData.None? {
        return [];
      }
      urls := CityUrls(baseUrl, ServicesOf(cityData.value), now);
      return;
    }

    urls := [SitemapEntry(baseUrl, now, Monthly, 1.0)];
  }

  /** A state host's list: its home page, then one entry pushed per city of the state. */
  method StateUrls(baseUrl: string, rootDomain: string, cities: seq<CityData>, now: int)
    returns (urls: seq<SitemapEntry>)
    ensures |urls| == 1 + |cities|
    ensures urls[0] == SitemapEntry(baseUrl, now, Weekly, 1.0)
    ensures forall i :: 1 <= i < |urls| ==>
      urls[i] == SitemapEntry("https://" + cities[i - 1].slug + "." + rootDomain, now, Weekly, 0.8)
    ensures forall e :: e in urls ==> e.lastModified == now
  {
    urls := [SitemapEntry(baseUrl, now, Weekly, 1.0)];
    for i := 0 to |cities|
      invariant |urls| == 1 + i
      invariant urls[0] == SitemapEntry(baseUrl, now, Weekly, 1.0)
      invariant forall j :: 1 <= j < |urls| ==>
        urls[j] == SitemapEntry("https://" + cities[j - 1].slug + "." + rootDomain, now, Weekly, 0.8)
      invariant forall e :: e in urls ==> e.lastModified == now
    {
      urls := urls + [SitemapEntry("https://" + cities[i].slug + "." + rootDomain, now, Weekly, 0.8)];
    }
  }

  /** A city host's list: home, about and contact, then one entry pushed per service. */
  method CityUrls(baseUrl: string, services: seq<Service>, now: int) returns (urls: seq<SitemapEntry>)
    ensures |urls| == 3 + |services|
    ensures urls[..3] == [SitemapEntry(baseUrl, now, Weekly, 1.0),
                          SitemapEntry(baseUrl + "/about", now, Monthly, 0.7),
                          SitemapEntry(baseUrl + "/contact", now, Monthly, 0.7)]
    ensures forall i :: 3 <= i < |urls| ==>
      urls[i] == SitemapEntry(baseUrl + "/services/" + services[i - 3].serviceId, now, Monthly, 0.8)
    ensures forall e :: e in urls ==> e.lastModified == now
  {
    urls := [SitemapEntry(baseUrl, now, Weekly, 1.0),
             SitemapEntry(baseUrl + "/about", now, Monthly, 0.7),
             SitemapEntry(baseUrl + "/contact", now, Monthly, 0.7)];
    for i := 0 to |services|
      invariant |urls| == 3 + i
      invariant urls[..3] == [SitemapEntry(baseUrl, now, Weekly, 1.0),
                              SitemapEntry(baseUrl + "/about", now, Monthly, 0.7),
                              SitemapEntry(baseUrl + "/contact", now, Monthly, 0.7)]
      invariant forall j :: 3 <= j < |urls| ==>
        urls[j] == SitemapEntry(baseUrl + "/services/" + services[j - 3].serviceId, now, Monthly, 0.8)
      invariant forall e :: e in urls ==> e.lastModified == now
    {
      urls := urls + [SitemapEntry(baseUrl + "/services/" + services[i].serviceId, now, Monthly, 0.8)];
    }
  }

  /** The state sitemap lists exactly the state's `getCitiesByState` group, or nothing beyond its home. */
  lemma StateSitemapCoversGroup(dir: DataDir, sub: string)
    ensures var g := GroupByState(GetAllCities(dir));
      GetCitiesForState(dir, sub) == if Upper(sub) in g.groups then g.groups[Upper(sub)] else []
  {
    CitiesForStateIsGroup(dir, sub);
  }
}
