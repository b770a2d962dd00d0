/**
 * The robots handler of app/robot.ts: it classifies the host as the sitemap
 * does, but returns the same record for every kind of host, pointing
 * crawlers at the requesting host's own sitemap.
 */
module Robots {
  import opened Wrappers
  import opened Text
  import opened Hosts
  import opened MiddlewareRouter
  import opened HostSitemap

  /** detectSubdomainType: the kind of host, by its own copy of the classification. */
  function DetectSubdomainType(hostname: string, rootDomain: string): (kind: HostKind)
    ensures var h, r := Lower(StripPort(hostname)), Lower(StripPort(rootDomain));
      (kind == RootHost <==> !EndsWith(h, "." + r) || h == "www." + r)
      && (kind == StateHost <==> kind != RootHost && IsStateCode(h[..|h| - |r| - 1]))
  {
    var h := Lower(StripPort(hostname));
    var r := Lower(StripPort(rootDomain));
    if !EndsWith(h, "." + r) || h == "www." + r then RootHost
    else
      var sub := h[..|h| - |r| - 1];
      if |sub| == 2 && sub in UsStateList then StateHost else CityHost
  }

  /** The two copies of the classifier agree on every host and root. */
  lemma DetectAgreesWithSubdomainInfo(hostname: string, rootDomain: string)
    ensures DetectSubdomainType(hostname, rootDomain) == GetSubdomainInfo(hostname, rootDomain).kind
  {
  }

  datatype RobotsRules = RobotsRules(userAgent: string, allow: string, disallow: seq<string>)

  datatype RobotsRecord = RobotsRecord(rules: RobotsRules, sitemap: string)

  /** The two internal namespaces, disallowed whatever the host. */
  const DisallowInternal: seq<string> := ["/city-sites/", "/state-sites/"]

  /** robots(): one branch for state and city hosts and one for the root, building the same record. */
  function RobotsFor(hostHeader: Option<string>, rootEnv: Option<string>): (rec: RobotsRecord)
    ensures rec.rules == RobotsRules("*", "/", DisallowInternal)
    ensures rec.sitemap == "https://" + HostHeader(hostHeader) + "/sitemap.xml"
  {
    var hostname := HostHeader(hostHeader);
    var kind := DetectSubdomainType(hostname, RootDomain(rootEnv, DefaultRootDomain));
    if kind == StateHost || kind == CityHost then
      RobotsRecord(RobotsRules("*", "/", DisallowInternal), "https://" + hostname + "/sitemap.xml")
    else
      RobotsRecord(RobotsRules("*", "/", DisallowInternal), "https://" + hostname + "/sitemap.xml")
  }

  /** The record depends on the Host header only, never on the root domain or the kind of host. */
  lemma RobotsIndependentOfKind(hostHeader: Option<string>, env1: Option<string>, env2: Option<string>)
    ensures RobotsFor(hostHeader, env1) == RobotsFor(hostHeader, env2)
  {
  }

  /** The sitemap link keeps the raw host, port included. */
  lemma RobotsKeepsPort(name: string, port: string, rootEnv: Option<string>)
    ensures RobotsFor(Some(name + ":" + port), rootEnv).sitemap == "https://" + name + ":" + port + "/sitemap.xml"
  {
    var hostname := name + ":" + port;
    assert HostHeader(Some(hostname)) == hostname;
    assert "https://" + hostname + "/sitemap.xml" == "https://" + name + ":" + port + "/sitemap.xml";
  }

  /** Every disallowed prefix is an internal namespace, which the middleware answers with a 404. */
  lemma DisallowedPathsAreNotFound(host: string, rootDomain: string, d: string)
    requires d in DisallowInternal
    ensures Middleware(host, rootDomain, d) == NotFound
  {
    StartsWithConcat("/city-sites", "/");
    StartsWithConcat("/state-sites", "/");
    assert "/city-sites/" == "/city-sites" + "/";
    assert "/state-sites/" == "/state-sites" + "/";
  }
}
