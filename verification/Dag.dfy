/** The value types of the routing table (internal/dag/dag.go). */
module Dag {
  import opened Text

  datatype PrefixKind = StringPrefix | SegmentPrefix

  datatype PathMatch =
    | Prefix(prefix: string, kind: PrefixKind)
    | Regex(regex: string)
    | Exact(path: string)

  datatype HeaderMatchType = MatchExact | MatchRegex | MatchContains | MatchPresent

  datatype HeaderMatch = HeaderMatch(name: string, value: string, matchType: HeaderMatchType, invert: bool)

  /** A Kubernetes service resolved to one of its ports. */
  datatype Upstream = Upstream(
    namespace: string, name: string,
    port: int, portName: string,
    protocol: string, externalName: string)

  datatype Cluster = Cluster(upstream: Upstream, protocol: string, weight: nat, policy: int)

  datatype Redirect = Redirect(hostname: string, scheme: string, port: nat, statusCode: nat)

  /** A route of a virtual host. Everything that has no bearing on matching,
      rewriting or the choice of clusters is carried along in `policy`. */
  datatype Route = Route(
    path: PathMatch,
    headers: seq<HeaderMatch>,
    rewrite: string,
    clusters: seq<Cluster>,
    mirror: Option<Cluster>,
    directResponse: Option<nat>,
    redirect: Option<Redirect>,
    httpsUpgrade: bool,
    policy: int)

  /** Whether a request path satisfies a path match. Regular expressions are a
      parameter: nothing is assumed about them. */
  predicate Matches(m: PathMatch, path: string, regexMatches: (string, string) -> bool)
  {
    match m
    case Prefix(p, StringPrefix) => p <= path
    case Prefix(p, SegmentPrefix) => path == p || p + "/" <= path
    case Regex(re) => regexMatches(re, path)
    case Exact(p) => path == p
  }

  /** What Envoy forwards: the matched prefix swapped for the replacement, or the
      path as it came when the route has no replacement. */
  function Rewritten(r: Route, path: string): (out: string)
    requires r.path.Prefix? && r.path.prefix <= path
  {
    if r.rewrite == "" then path else r.rewrite + path[|r.path.prefix|..]
  }
}
