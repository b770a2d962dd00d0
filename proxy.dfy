/**
 * The second router variant, proxy.ts. Host detection and the state rewrite
 * are those of middleware.ts; it differs in two places:
 *  - a direct hit on an internal namespace is sent by a 308 redirect to the
 *    matching subdomain instead of a 404 (a 404 only when no slug follows);
 *  - a city rewrite that ends in one of three legacy sitemap names is folded
 *    into the city's single `sitemap.xml`.
 */
module ProxyRouter {
  import opened Wrappers
  import opened Text
  import opened Hosts
  import opened MiddlewareRouter

  /** `currentPath.split("/").filter(Boolean)`. */
  function PathParts(path: string): seq<string>
  {
    NonEmpty(Split(path, '/'))
  }

  /** The three sitemap names kept for old links. */
  predicate IsLegacySitemap(path: string)
  {
    EndsWith(path, "/main-sitemap.xml") || EndsWith(path, "/services-sitemap.xml")
      || EndsWith(path, "/sitemap-index.xml")
  }

  /**
   * The city rewrite target, with legacy sitemap names folded into
   * `sitemap.xml`: it stays in the city's namespace, never names a legacy
   * sitemap, and differs from the middleware's target only where that one did.
   */
  function CityRewrite(sub: string, path: string): (r: string)
    ensures StartsWith(r, "/city-sites/") && StartsWith(r, "/city-sites/" + sub)
    ensures !IsLegacySitemap(r)
    ensures !IsLegacySitemap(RewriteTarget("/city-sites/", sub, path)) ==> r == RewriteTarget("/city-sites/", sub, path)
  {
    var rewritePath := RewriteTarget("/city-sites/", sub, path);
    if IsLegacySitemap(rewritePath) then
      var home := "/city-sites/" + sub;
      StartsWithConcat(home, "/sitemap.xml");
      StartsWithConcat("/city-sites/", sub);
      StartsWithAppend(home, "/sitemap.xml", "/city-sites/");
      SitemapIsNotLegacy(home);
      home + "/sitemap.xml"
    else rewritePath
  }

  /** `<home>/sitemap.xml` ends in none of the three legacy names. */
  lemma SitemapIsNotLegacy(home: string)
    requires |home| >= 9
    ensures !IsLegacySitemap(home + "/sitemap.xml")
  {
    var t := home + "/sitemap.xml";
    assert t[|t| - 12] == '/';
    assert t[|t| - 17..][5] == '/';
    assert t[|t| - 21..][9] == '/';
    assert t[|t| - 18..][6] == '/';
  }

  /**
   * A direct hit on an internal namespace: the second non-empty segment names
   * the subdomain, the segments after it are the new path; a 404 without one.
   * Read back as segments, the new path gives the segments after the slug.
   */
  function InternalRedirect(parts: seq<string>, rootWithoutPort: string): (d: Decision)
    ensures d.Redirect? <==> |parts| >= 2
    ensures !d.Redirect? ==> d == NotFound
    ensures d.Redirect? ==> d.code == 308 && d.hostname == parts[1] + "." + rootWithoutPort
    ensures d.Redirect? && (forall p :: p in parts ==> p != "" && '/' !in p) ==> PathParts(d.path) == parts[2..]
  {
    if |parts| >= 2 then
      assert forall p :: p in parts[2..] ==> p in parts;
      RedirectPathParts(parts[2..]);
      Redirect(parts[1] + "." + rootWithoutPort, "/" + Join(parts[2..], '/'), 308)
    else NotFound
  }

  /** `"/" + segments.join("/")` splits back into the segments when each is non-empty and slash-free. */
  lemma RedirectPathParts(segments: seq<string>)
    ensures (forall p :: p in segments ==> p != "" && '/' !in p) ==> PathParts("/" + Join(segments, '/')) == segments
  {
    if forall p :: p in segments ==> p != "" && '/' !in p {
      PartsAfterSlash(Join(segments, '/'));
      if segments == [] {
        assert Split("", '/') == [""];
      } else {
        SplitJoin(segments, '/');
        forall i | 0 <= i < |segments| ensures |segments[i]| > 0 {
          assert segments[i] in segments;
        }
        NonEmptyOfNonEmpty(segments);
      }
    }
  }

  /** The segments of any path are non-empty and slash-free. */
  lemma PathPartsAreSegments(path: string)
    ensures forall p :: p in PathParts(path) ==> p != "" && '/' !in p
  {
    SplitPiecesHaveNoSeparator(path, '/');
    forall p | p in PathParts(path) ensures p != "" && '/' !in p {
      var i :| 0 <= i < |PathParts(path)| && PathParts(path)[i] == p;
    }
  }

  /**
   * proxy(): a direct hit on an internal namespace with a slug is a 308
   * redirect to `<slug>.<root>` whose path holds the segments after the slug;
   * without a slug it is the 404. Every other request passes through or is
   * rewritten into one of the namespaces, never into a legacy sitemap name.
   */
  function Proxy(host: string, rootDomain: string, path: string): (d: Decision)
    ensures IsInternalPath(path) && |PathParts(path)| < 2 ==> d == NotFound
    ensures IsInternalPath(path) && |PathParts(path)| >= 2 ==>
      d.Redirect? && d.code == 308 && d.hostname == PathParts(path)[1] + "." + StripPort(rootDomain)
      && PathParts(d.path) == PathParts(path)[2..]
    ensures !IsInternalPath(path) ==> d == PassThrough || IsNamespaceRewrite(d)
    ensures !IsInternalPath(path) && d.Rewrite? && !StartsWith(d.path, "/state-sites/") ==> !IsLegacySitemap(d.path)
  {
    var hostWithoutPort := StripPort(host);
    var rootWithoutPort := StripPort(rootDomain);
    if IsInternalPath(path) then
      PathPartsAreSegments(path);
      InternalRedirect(PathParts(path), rootWithoutPort)
    else match RoutedSubdomain(hostWithoutPort, rootWithoutPort)
      case None => PassThrough
      case Some(subdomain) =>
        var sub := Lower(subdomain);
        if IsStateCode(sub) then Rewrite(RewriteTarget("/state-sites/", sub, path), None)
        else Rewrite(CityRewrite(sub, path), None)
  }

  // ---------------------------------------------------------------------------
  // Direct hits on the internal namespaces

  /** The parts of a path joined at a '/' are the parts of each side. */
  lemma PartsAround(a: string, b: string)
    ensures PathParts(a + "/" + b) == PathParts(a) + PathParts(b)
  {
    SplitAround(a, b, '/');
    NonEmptyAppend(Split(a, '/'), Split(b, '/'));
  }

  /** A non-empty segment without '/' is one part; the empty path has none. */
  lemma PartsOfSegment(s: string)
    requires '/' !in s
    ensures PathParts(s) == if s == "" then [] else [s]
  {
    SplitWithoutSeparator(s, '/');
  }

  /** Leading slashes do not count as parts. */
  lemma PartsAfterSlash(t: string)
    ensures PathParts("/" + t) == PathParts(t)
  {
    assert "/" + t == "" + "/" + t;
    PartsAround("", t);
    PartsOfSegment("");
  }

  /** The parts of `/<dir>/<slug>` followed by `tail` ("" or starting with '/'). */
  lemma InternalPathParts(dir: string, slug: string, tail: string)
    requires dir != "" && '/' !in dir && slug != "" && '/' !in slug
    requires tail == "" || tail[0] == '/'
    ensures PathParts("/" + dir + "/" + slug + tail) == [dir, slug] + PathParts(tail)
  {
    var head := "/" + dir + "/" + slug;
    PartsAfterSlash(dir);
    PartsOfSegment(dir);
    PartsOfSegment(slug);
    PartsAround("/" + dir, slug);
    assert PathParts(head) == [dir, slug];
    if tail == "" {
      assert head + tail == head;
      PartsOfSegment(tail);
    } else {
      var t := tail[1..];
      assert tail == "/" + t;
      assert head + tail == head + "/" + t;
      PartsAround(head, t);
      PartsAfterSlash(t);
    }
  }

  /**
   * `/<dir>/<slug>...`, for a first segment `dir` that starts with
   * `city-sites` or `state-sites` (`/city-sites-old/x` included), is
   * redirected (308) to `<slug>.<root>`, keeping the non-empty segments
   * after the slug.
   */
  lemma InternalPathRedirects(host: string, rootDomain: string, dir: string, slug: string, tail: string)
    requires '/' !in dir && (StartsWith(dir, "city-sites") || StartsWith(dir, "state-sites"))
    requires slug != "" && '/' !in slug
    requires tail == "" || tail[0] == '/'
    ensures Proxy(host, rootDomain, "/" + dir + "/" + slug + tail)
      == Redirect(slug + "." + StripPort(rootDomain), "/" + Join(PathParts(tail), '/'), 308)
  {
    var path := "/" + dir + "/" + slug + tail;
    assert path == ("/" + dir) + ("/" + slug + tail);
    InternalDirPrefix(dir);
    if StartsWith("/" + dir, "/city-sites") {
      StartsWithAppend("/" + dir, "/" + slug + tail, "/city-sites");
    } else {
      StartsWithAppend("/" + dir, "/" + slug + tail, "/state-sites");
    }
    assert IsInternalPath(path);
    InternalPathParts(dir, slug, tail);
    var parts := PathParts(path);
    assert parts[1] == slug;
    assert parts[2..] == PathParts(tail);
  }

  /** A first segment starting with either namespace name makes the path internal. */
  lemma InternalDirPrefix(dir: string)
    requires StartsWith(dir, "city-sites") || StartsWith(dir, "state-sites")
    ensures dir != ""
    ensures StartsWith(dir, "city-sites") ==> StartsWith("/" + dir, "/city-sites")
    ensures StartsWith(dir, "state-sites") ==> StartsWith("/" + dir, "/state-sites")
  {
    if StartsWith(dir, "city-sites") {
      assert ("/" + dir)[..11] == "/" + dir[..10];
    }
    if StartsWith(dir, "state-sites") {
      assert ("/" + dir)[..12] == "/" + dir[..11];
    }
  }

  /** With no empty segment in the rest of the path, the redirect keeps it verbatim. */
  lemma RedirectKeepsCleanTail(host: string, rootDomain: string, dir: string, slug: string, rest: string)
    requires '/' !in dir && (StartsWith(dir, "city-sites") || StartsWith(dir, "state-sites"))
    requires slug != "" && '/' !in slug
    requires forall i :: 0 <= i < |Split(rest, '/')| ==> |Split(rest, '/')[i]| > 0
    ensures Proxy(host, rootDomain, "/" + dir + "/" + slug + "/" + rest)
      == Redirect(slug + "." + StripPort(rootDomain), "/" + rest, 308)
  {
    var tail := "/" + rest;
    assert "/" + dir + "/" + slug + "/" + rest == "/" + dir + "/" + slug + tail;
    InternalPathRedirects(host, rootDomain, dir, slug, tail);
    PartsAfterSlash(rest);
    NonEmptyOfNonEmpty(Split(rest, '/'));
    JoinSplit(rest, '/');
  }

  /** Doubling a slash that follows the internal prefix does not change the decision. */
  lemma RepeatedSlashIgnored(host: string, rootDomain: string, path: string, k: nat)
    requires k < |path| && path[k] == '/' && IsInternalPath(path[..k])
    ensures Proxy(host, rootDomain, path[..k] + "/" + path[k..]) == Proxy(host, rootDomain, path)
  {
    var a, b := path[..k], path[k + 1..];
    var longer := path[..k] + "/" + path[k..];
    assert path == a + "/" + b;
    assert longer == a + "/" + ("/" + b);
    assert path[..k] == a;
    if StartsWith(a, "/city-sites") {
      StartsWithAppend(a, "/" + b, "/city-sites");
      StartsWithAppend(a, "/" + ("/" + b), "/city-sites");
    } else {
      StartsWithAppend(a, "/" + b, "/state-sites");
      StartsWithAppend(a, "/" + ("/" + b), "/state-sites");
    }
    assert IsInternalPath(path) && IsInternalPath(longer);
    PartsAround(a, b);
    PartsAround(a, "/" + b);
    PartsAfterSlash(b);
    assert PathParts(longer) == PathParts(path);
  }

  // ---------------------------------------------------------------------------
  // Agreement with middleware.ts outside the internal namespaces

  /** A city rewrite target is never in the state namespace. */
  lemma CityTargetIsNotState(sub: string, path: string)
    ensures !StartsWith(RewriteTarget("/city-sites/", sub, path), "/state-sites/")
  {
    var x := RewriteTarget("/city-sites/", sub, path);
    StartsWithConcat("/city-sites/", sub);
    if path != "/" {
      StartsWithAppend("/city-sites/" + sub, path, "/city-sites/");
    }
    assert x[1] == x[..12][1] == 'c';
  }

  /** The proxy's rewrite for a host `sub.root`, the lower-cased `sub` choosing the namespace. */
  lemma ProxySubdomainRewrite(host: string, rootDomain: string, sub: string, path: string)
    requires !IsInternalPath(path)
    requires StripPort(host) == sub + "." + StripPort(rootDomain)
    requires sub != "" && sub != "www"
    ensures var s := Lower(sub);
      Proxy(host, rootDomain, path) ==
        if IsStateCode(s) then Rewrite(RewriteTarget("/state-sites/", s, path), None)
        else Rewrite(CityRewrite(s, path), None)
  {
    SubdomainOfLabel(sub, StripPort(rootDomain));
  }

  /**
   * Off the internal namespaces the two routers pass through the same
   * requests, and they agree on every rewrite except a city path ending in a
   * legacy sitemap name.
   */
  lemma AgreesWithMiddleware(host: string, rootDomain: string, path: string)
    requires !IsInternalPath(path)
    ensures Proxy(host, rootDomain, path) == PassThrough <==> Middleware(host, rootDomain, path) == PassThrough
    ensures Middleware(host, rootDomain, path).Rewrite? ==> Proxy(host, rootDomain, path).Rewrite?
    ensures var m := Middleware(host, rootDomain, path);
      (m.Rewrite? && (StartsWith(m.path, "/state-sites/") || !IsLegacySitemap(m.path)))
        ==> Proxy(host, rootDomain, path) == m
  {
    match RoutedSubdomain(StripPort(host), StripPort(rootDomain))
    case None =>
    case Some(subdomain) =>
      CityTargetIsNotState(Lower(subdomain), path);
  }

  /**
   * On a city host, a path ending in a legacy sitemap name is served from the
   * city's `sitemap.xml` by the proxy, while the middleware rewrites it as is.
   */
  lemma LegacySitemapFolded(host: string, rootDomain: string, sub: string, path: string)
    requires StripPort(host) == sub + "." + StripPort(rootDomain)
    requires sub != "" && sub != "www" && !IsStateCode(Lower(sub))
    requires !IsInternalPath(path) && IsLegacySitemap(path)
    ensures Middleware(host, rootDomain, path) == Rewrite("/city-sites/" + Lower(sub) + path, None)
    ensures Proxy(host, rootDomain, path) == Rewrite("/city-sites/" + Lower(sub) + "/sitemap.xml", None)
  {
    var s := Lower(sub);
    assert path != "/";
    SubdomainRewrite(host, rootDomain, sub, path);
    ProxySubdomainRewrite(host, rootDomain, sub, path);
    var target := "/city-sites/" + s + path;
    if EndsWith(path, "/main-sitemap.xml") {
      EndsWithExtend("/city-sites/" + s, path, "/main-sitemap.xml");
    } else if EndsWith(path, "/services-sitemap.xml") {
      EndsWithExtend("/city-sites/" + s, path, "/services-sitemap.xml");
    } else {
      EndsWithExtend("/city-sites/" + s, path, "/sitemap-index.xml");
    }
    assert IsLegacySitemap(target);
  }
}
