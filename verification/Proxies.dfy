/** HTTPProxy objects, as far as the routing table depends on them
    (apis/projectsesame/v1/httpproxy.go). Checks that only concern TLS material,
    timeouts, header, cookie and rate limit policies are carried as their outcome. */
module Proxies {
  import opened Text
  import opened Dag
  import opened Kube
  import opened Conditions
  import opened Issues

  /** A service that a route or TCP proxy names. `tlsCheck` is made when the service
      speaks tls or h2, `check` always; `policy` stands for the rest of a cluster. */
  datatype ServiceRef = ServiceRef(
    name: string,
    port: int,
    protocol: Option<string>,
    weight: nat,
    mirror: bool,
    tlsCheck: Option<Issue>,
    check: Option<Issue>,
    policy: int)

  datatype Replacement = Replacement(prefix: string, replacement: string)

  datatype RouteSpec = RouteSpec(
    conditions: seq<MatchCondition>,
    services: seq<ServiceRef>,
    replacements: seq<Replacement>,
    redirect: Option<Redirect>,
    permitInsecure: bool,
    headersCheck: Option<Issue>,
    policyCheck: Option<Issue>,
    warnings: seq<Issue>,
    policy: int)

  datatype Include = Include(name: string, namespace: string, conditions: seq<MatchCondition>)

  datatype TCPInclude = TCPInclude(name: string, namespace: string)

  datatype TCPProxy = TCPProxy(
    services: seq<ServiceRef>,
    incl: Option<TCPInclude>,
    inclDeprecated: Option<TCPInclude>,
    warnings: seq<Issue>)

  /** The outcome of the TLS checks of a root: errors that do not stop it, then one that does. */
  datatype TLS = TLS(soft: seq<Issue>, fatal: Option<Issue>)

  /** `laterCheck` is the outcome of the CORS and rate limit checks made after the routes
      have been computed. */
  datatype VirtualHost = VirtualHost(fqdn: string, tls: Option<TLS>, laterCheck: Option<Issue>)

  datatype Proxy = Proxy(
    name: Name,
    generation: int,
    vhost: Option<VirtualHost>,
    includes: seq<Include>,
    routes: seq<RouteSpec>,
    tcp: Option<TCPProxy>)

  /** What a build reads: the cached objects and the processor's settings. */
  datatype Env = Env(
    proxies: map<Name, Proxy>,
    services: map<Name, Service>,
    rootNamespaces: seq<string>,
    externalNames: bool,
    disablePermitInsecure: bool)

  /** An object without a namespace is filed under "default". */
  function FiledUnder(n: Name): (k: Name)
  {
    if n.namespace == "" then n.(namespace := "default") else n
  }

  /** How the cache keeps proxies. */
  predicate Filed(env: Env)
  {
    forall n :: n in env.proxies ==> FiledUnder(env.proxies[n].name) == n
  }

  /** Objects are cached under their own names: they are filed, and namespaces are not empty. */
  predicate WellKeyed(env: Env)
  {
    forall n :: n in env.proxies ==> env.proxies[n].name == n
  }

  /** The include that a TCP proxy uses: the singular field before the plural one. */
  function TCPIncludeOf(t: TCPProxy): (i: Option<TCPInclude>)
  {
    if t.incl.Some? then t.incl else t.inclDeprecated
  }

  /** An include without a namespace stays in the namespace of the including proxy. */
  function Qualified(p: Proxy, namespace: string, name: string): (n: Name)
  {
    Name(if namespace == "" then p.name.namespace else namespace, name)
  }

  predicate IsBlank(s: string)
  {
    TrimSpace(s) == ""
  }
}
