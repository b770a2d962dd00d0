/**
 * Host-name handling shared by the router variants and the classifiers:
 * the fixed list of 50 state codes, port stripping with `replace(/:.*$/, "")`,
 * the `.<root>` suffix test with its slice, and the `ROOT_DOMAIN` fallback.
 */
module Hosts {
  import opened Wrappers
  import opened Text

  /** The 50 two-letter state codes, lower case, in the order the source lists them. */
  const UsStateList: seq<string> :=
    ["al", "ak", "az", "ar", "ca", "co", "ct", "de", "fl", "ga"] +
    ["hi", "id", "il", "in", "ia", "ks", "ky", "la", "me", "md"] +
    ["ma", "mi", "mn", "ms", "mo", "mt", "ne", "nv", "nh", "nj"] +
    ["nm", "ny", "nc", "nd", "oh", "ok", "or", "pa", "ri", "sc"] +
    ["sd", "tn", "tx", "ut", "vt", "va", "wa", "wv", "wi", "wy"]

  /** 50 codes of two letters each. */
  lemma UsStateListShape()
    ensures |UsStateList| == 50
    ensures forall c :: c in UsStateList ==> |c| == 2
  {
  }

  /** `sub.length === 2 && US_STATES.has(sub)`. */
  predicate IsStateCode(sub: string)
  {
    |sub| == 2 && sub in UsStateList
  }

  /** The fallback used when `NEXT_PUBLIC_ROOT_DOMAIN` is unset. */
  const DefaultRootDomain: string := "localhost:3000"

  /** `process.env.NEXT_PUBLIC_ROOT_DOMAIN || fallback`: an unset or empty variable selects the fallback. */
  function RootDomain(env: Option<string>, fallback: string): (root: string)
    ensures env.Some? && env.value != "" ==> root == env.value
    ensures env.None? || env.value == "" ==> root == fallback
  {
    match env
    case Some(v) => if v != "" then v else fallback
    case None => fallback
  }

  /** `headersList.get("host") || ""`: a missing header reads as the empty host. */
  function HostHeader(header: Option<string>): (hostname: string)
    ensures header.Some? ==> hostname == header.value
    ensures header.None? ==> hostname == ""
  {
    match header
    case Some(h) => h
    case None => ""
  }

  /**
   * `s.replace(/:.*$/, "")`: the match starts at the first ':' after which no
   * line terminator follows (`.` does not match one and `$` is the end of
   * input), and everything from there on is removed.
   */
  function StripPort(s: string): (r: string)
    ensures |r| <= |s| && r == s[..|r|]
    ensures NoLineTerminator(s) ==> ':' !in r && (|r| < |s| ==> s[|r|] == ':')
  {
    if s == [] then []
    else if s[0] == ':' && NoLineTerminator(s[1..]) then []
    else [s[0]] + StripPort(s[1..])
  }

  /** A name with no ':' and no line terminator has no port to strip. */
  lemma {:induction false} StripPortNoColon(s: string)
    requires ':' !in s
    ensures StripPort(s) == s
  {
    if s != [] {
      assert ':' !in s[1..];
      StripPortNoColon(s[1..]);
    }
  }

  /** Stripping `name:port` gives `name` back, whatever the port. */
  lemma {:induction false} StripPortOfNamePort(name: string, port: string)
    requires ':' !in name && NoLineTerminator(port)
    ensures StripPort(name + ":" + port) == name
  {
    var s := name + ":" + port;
    if name == [] {
      assert s[0] == ':' && s[1..] == port;
    } else {
      assert s[0] == name[0] && name[0] in name;
      assert s[1..] == name[1..] + ":" + port;
      assert ':' !in name[1..];
      StripPortOfNamePort(name[1..], port);
      assert name == [name[0]] + name[1..];
    }
  }

  /** Lower-casing before or after stripping the port gives the same name. */
  lemma {:induction false} StripPortLower(s: string)
    ensures Lower(StripPort(s)) == StripPort(Lower(s))
  {
    if s != [] {
      StripPortLower(s[1..]);
      assert Lower(s)[1..] == Lower(s[1..]);
      NoLineTerminatorLower(s[1..]);
      if !(s[0] == ':' && NoLineTerminator(s[1..])) {
        assert StripPort(s) == [s[0]] + StripPort(s[1..]);
        LowerAppend([s[0]], StripPort(s[1..]));
      }
    }
  }

  /**
   * The subdomain part of `host` when it ends with `.` + `root`: the source's
   * `endsWith` test and `slice(0, host.length - root.length - 1)`.
   */
  function SubdomainOf(host: string, root: string): (sub: Option<string>)
    ensures sub.Some? <==> EndsWith(host, "." + root)
    ensures sub.Some? ==> host == sub.value + "." + root
  {
    if EndsWith(host, "." + root) then Some(host[..|host| - |root| - 1]) else None
  }

  /** The subdomain of `name.root` is `name`. */
  lemma SubdomainOfLabel(name: string, root: string)
    ensures SubdomainOf(name + "." + root, root) == Some(name)
  {
    var host := name + "." + root;
    assert host == name + ("." + root);
    EndsWithConcat(name, "." + root);
    var sub := SubdomainOf(host, root);
    assert sub.value + ("." + root) == name + ("." + root);
    SuffixCancel(sub.value, name, "." + root);
  }
}
