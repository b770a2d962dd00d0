/**
 * The edge router in middleware.ts: every request's Host header decides
 * whether the path is served as is (root domain), rewritten into the
 * `/state-sites/<code>` namespace, or rewritten into `/city-sites/<slug>`.
 * Direct requests for either internal namespace get a hard 404.
 */
module MiddlewareRouter {
  import opened Wrappers
  import opened Text
  import opened Hosts

  /** What the router does with one request. */
  datatype Decision =
    | PassThrough                                            // NextResponse.next()
    | Rewrite(path: string, status: Option<nat>)             // NextResponse.rewrite; None keeps the target's status
    | Redirect(hostname: string, path: string, code: nat)    // NextResponse.redirect to another host

  /** The hard 404 given to direct hits on the internal namespaces. */
  const NotFound: Decision := Rewrite("/404", Some(404))

  /** `currentPath.startsWith("/city-sites") || currentPath.startsWith("/state-sites")`. */
  predicate IsInternalPath(path: string)
  {
    StartsWith(path, "/city-sites") || StartsWith(path, "/state-sites")
  }

  /**
   * The subdomain that is routed, or None for root-domain traffic: the host
   * lacks the `.root` suffix, or the part before it is "www" or empty.
   */
  function RoutedSubdomain(host: string, root: string): (sub: Option<string>)
    ensures sub.Some? ==> sub.value != "" && sub.value != "www" && host == sub.value + "." + root
    ensures sub.None? <==> !EndsWith(host, "." + root) || host == "www." + root || host == "." + root
  {
    SubdomainOfRootCases(host, root);
    match SubdomainOf(host, root)
    case None => None
    case Some(s) => if s == "www" || s == "" then None else Some(s)
  }

  lemma SubdomainOfRootCases(host: string, root: string)
    ensures SubdomainOf(host, root) == Some("www") <==> host == "www." + root
    ensures SubdomainOf(host, root) == Some("") <==> host == "." + root
  {
    if host == "www." + root {
      assert host == "www" + "." + root;
      SubdomainOfLabel("www", root);
    }
    if host == "." + root {
      assert host == "" + "." + root;
      SubdomainOfLabel("", root);
    }
  }

  /** `/prefix<sub>` for the path "/", `/prefix<sub><path>` for any other path. */
  function RewriteTarget(prefix: string, sub: string, path: string): (target: string)
    ensures StartsWith(target, prefix) && StartsWith(target, prefix + sub)
    ensures path != "/" ==> EndsWith(target, path)
  {
    StartsWithConcat(prefix, sub);
    if path == "/" then prefix + sub
    else
      StartsWithAppend(prefix + sub, path, prefix);
      StartsWithConcat(prefix + sub, path);
      EndsWithConcat(prefix + sub, path);
      prefix + sub + path
  }

  /** A request in one of the namespaces: a rewrite, keeping the target's status, under that prefix. */
  predicate IsNamespaceRewrite(d: Decision)
  {
    d.Rewrite? && d.status.None? && (StartsWith(d.path, "/state-sites/") || StartsWith(d.path, "/city-sites/"))
  }

  /**
   * middleware(): direct hits on the internal namespaces are the hard 404,
   * whatever the host; every other request either passes through or is
   * rewritten into one of the namespaces, a path other than "/" kept at the
   * end of the target. It never redirects.
   */
  function Middleware(host: string, rootDomain: string, path: string): (d: Decision)
    ensures IsInternalPath(path) ==> d == NotFound
    ensures !IsInternalPath(path) ==> d == PassThrough || IsNamespaceRewrite(d)
    ensures !IsInternalPath(path) && d.Rewrite? && path != "/" ==> EndsWith(d.path, path)
    ensures !d.Redirect?
  {
    var hostWithoutPort := StripPort(host);
    var rootWithoutPort := StripPort(rootDomain);
    if IsInternalPath(path) then NotFound
    else match RoutedSubdomain(hostWithoutPort, rootWithoutPort)
      case None => PassThrough
      case Some(subdomain) =>
        var sub := Lower(subdomain);
        if IsStateCode(sub) then Rewrite(RewriteTarget("/state-sites/", sub, path), None)
        else Rewrite(RewriteTarget("/city-sites/", sub, path), None)
  }

  // ---------------------------------------------------------------------------
  // Properties

  /** Root traffic: exactly the three cases in which the request passes through unchanged. */
  lemma PassThroughCases(host: string, rootDomain: string, path: string)
    requires !IsInternalPath(path)
    ensures var h, r := StripPort(host), StripPort(rootDomain);
      Middleware(host, rootDomain, path) == PassThrough <==>
        !EndsWith(h, "." + r) || h == "www." + r || h == "." + r
  {
  }

  /** A host `sub.root` (any port, after stripping) is rewritten by the lower-cased `sub`. */
  lemma SubdomainRewrite(host: string, rootDomain: string, sub: string, path: string)
    requires !IsInternalPath(path)
    requires StripPort(host) == sub + "." + StripPort(rootDomain)
    requires sub != "" && sub != "www"
    ensures var s := Lower(sub);
      Middleware(host, rootDomain, path) ==
        if IsStateCode(s) then Rewrite(RewriteTarget("/state-sites/", s, path), None)
        else Rewrite(RewriteTarget("/city-sites/", s, path), None)
  {
    SubdomainOfLabel(sub, StripPort(rootDomain));
  }
}
