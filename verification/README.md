# A verified model of the Sesame routing compiler

Sesame compiles Kubernetes objects into the routing table of an Envoy proxy. This project models
the parts of it in which the hard decisions are taken, and proves what they promise.

- **The HTTPProxy compiler.** `Compiler.dfy` says what the processor computes, as functions of the
  cached objects: the routes a proxy gives below a chain of includes, the errors it is given, the
  proxies visited, the status commits made. `Processor.dfy` is the processor as it runs: recursive,
  with slices that share backing arrays, routes that are cells changed in place, a list of orphans
  that shrinks on the way, and a status cache. It is proved against the specification from `Run`
  down to single services (`Slices`, `Checks`, `Reporting`, `Walks`, `Rounds`, `VirtualHosts`).
  About the specification: the denotation of a compiled proxy (`Services`, `Meaning`) and of any set
  of proxies, errors included (`Origins`), reachability over simple paths and cycles (`IncludeGraph`,
  `Reachability`, `Cycles`), what an absence of errors means (`Compiled`) and what one check misses
  (`Duplicates`), whole builds, orphans and status (`Builds`, `Rounds`, `Builder`), and what a build
  depends on (`Lookups`).
- **The same, told from the fields of the objects.** So that no result rests on the specification's
  own vocabulary: what a service reference resolves to (`Upstreams`), what an include edge is
  (`Edges`), what a chain of TCP includes ends in (`TCPChains`), what each host serves and which
  proxies are orphans (`Hosts`), which errors are reported (`Errors`) and shown (`Shown`), what header
  conditions mean (`HeaderMeaning`), and which requests the route at an address takes (`Requests`).
- **Path matching and rewriting.** Condition merging (`Conditions`), slash expansion as a function
  and on cells (`Expansion`, `ExpandRoutes`), the route comparator (`Sorter`), the three of them
  together with Envoy's first match and prefix swap (`Rewrite`), and the same for what the compiler
  makes of any set of proxies (`Routing`), whose hosts keep routes under texts (`RouteTexts`).
- **Header values.** `HeaderEscape` covers the escaping of header values against a token grammar
  with a reader.
- **Rebuilds and notifications.** The object cache and its rebuild filter (`Cache`), the hold-off
  timer over all runs (`Holdoff`), the event handler that joins them (`Handler`), the cluster that
  the cache mirrors (`Mirror`), an event that it misses (`Unnoticed`), and the wake-up protocol
  (`Cond`).
- **Status and metrics.** Conditions and the status cache over all runs (`Status`), the merge into
  the stored object (`StatusMerge`), counts and gauges (`Metrics`).

`Text`, `Dag`, `Kube`, `Issues` and `Proxies` hold strings, routes, services, errors and proxies.

How things are modelled:

- A Go map that is ranged over is a set from which some element is taken until it is empty. Results
  are therefore about multisets of routes, or hold for every order.
- A `*Route` is a `RoutePtr`, a heap cell. A pointer to a status update is a position in the
  sequence of updates, so a change after a commit is visible to the cache, as in Go. A slice is a
  length over an array that other slices may share, and `append` writes into it when there is room.
- TLS, CORS, cookie, timeout, header and rate limit checks are carried as their outcome (an error, or
  none), in the order in which the code makes them. Fields of a route or cluster that have no
  bearing on matching, rewriting or the choice of clusters are one opaque value.
- Time is a number. Channels are a pending value or a sequence. Locked sections are single steps.

Where code and intention differ, the model follows the code:

- For two routes with the same path and equally many header matches the comparator
  (`internal/sorter/sorter.go:112-127`) is not an order: it can put a route before itself.
  `Sorter.LessIsReflexiveWhen` says exactly when; `Sorter.LessIsKeyLess` and
  `Sorter.KeyLessIsStrictWeakOrder` say for which routes it is an order.
- `expandPrefixMatches` appends a route without a prefix to the result and then asserts that it has
  one (`internal/dag/httpproxy_processor.go:924-928`). Only the panic is reachable, and only for
  routes that this compiler does not make.
- The check for duplicate include conditions compares neighbours only
  (`internal/dag/httpproxy_processor.go:1059-1073`), although its error speaks of any include.
  `Duplicates.DuplicateIsFoundWhen` says for which pairs of includes it is sure to find one, and
  `Duplicates.DistantDuplicateIsMissed` gives a proxy without an error for every other pair.
- The gauge of root proxies is labelled by namespace while its map is keyed by host as well
  (`internal/metrics/metrics.go:225-228`), so a namespace can vanish from it, and what it shows is the
  number of one host: `Metrics.RootGaugeLosesNamespace` and the exact condition
  `Metrics.RootGaugeIsRightWhen`.
- A service without a namespace is filed under "default" (`internal/k8s/objectmeta.go:24-35`) while
  the rebuild filter compares proxies with the empty namespace (`internal/dag/cache.go:330`).
  `Cache.QuietInsertKeepsLookupsWhen` says exactly when an insert without a rebuild leaves what
  proxies look up alone; `Unnoticed.DefaultNamespaceIsMissed` shows that otherwise the table can
  change, and `Unnoticed.UnnoticedStaysStale` a run of the handler that is stale and at rest.
- A proxy without a namespace is listed as an orphan under "default" but taken off the list under its
  empty namespace (`internal/dag/httpproxy_processor.go:127`, `internal/dag/httpproxy_processor.go:459`):
  `Builds.NoNamespaceStaysOrphan`, and for all objects `Builds.OrphansExactly`.
- A TCP include that fails makes the root serve nothing, yet the root itself may be left without an
  error: `Compiled.TCPFailureIsReported` says that this is so exactly when a proxy further down the
  chain has one.
- The placeholder of a missing include is made of the conditions of that include alone
  (`internal/dag/httpproxy_processor.go:438-441`), so below other includes it stands at the wrong
  path: `Requests.PlaceholderIsInPlaceWhen` says exactly when it does not.
- Of a header condition with two predicates only the first becomes a match
  (`internal/dag/conditions.go:86-125`): `HeaderMeaning.MeaningIsKeptWhen` says exactly when that is
  all the condition says.
- A header condition with two predicates is rejected after a contradicting one but not before it.
  `Conditions.OrderIsFreeWhen` says exactly for which sets of conditions their order is irrelevant.
- Routes of a host are filed under a text made of their conditions and a later one replaces an
  earlier one: `VirtualHosts.OrderMatters` says exactly when the order of a map range shows.

## Model

| member | source | states |
|---|---|---|
| `Processor.HTTPProxyProcessor.Run` | internal/dag/httpproxy_processor.go:91-117 | for every set of proxies, cyclic or not, a run ends; the status cache has seen a trace of the build (exactly the commits it calls for, in some order); each root with a host of its own has given that host its routes and TCP proxy; every other host is as it was |
| `Processor.HTTPProxyProcessor.ComputeRoutes` | internal/dag/httpproxy_processor.go:379-722 | terminates by proxies not on the path; the cells returned are new, pairwise different and hold the compiled routes as a multiset; exactly the visited proxies leave the list of orphans; the proxy's own update gains exactly its errors and warnings, in order, and the commits below are those specified; both slices show the caller what they showed before, although their arrays are shared and written |
| `Processor.HTTPProxyProcessor.FollowInclude` | internal/dag/httpproxy_processor.go:455 | appending an include's conditions behind the caller's, in place or not, never changes the conditions that the caller or a sibling include sees |
| `Processor.HTTPProxyProcessor.ComputeInclude` | internal/dag/httpproxy_processor.go:412-460 | one include: its routes or the 502 placeholder, its error on the including proxy, its commits, and itself off the list of orphans only if it was followed |
| `Processor.HTTPProxyProcessor.ComputeIncluded` | internal/dag/httpproxy_processor.go:453-459 | an included proxy's status update is opened, filled and committed around the recursion, and no other open update is touched |
| `Processor.HTTPProxyProcessor.ComputeIncludes` | internal/dag/httpproxy_processor.go:411-460 | the loop over the includes gives routes, visits, errors and commits of all includes, in order |
| `Processor.HTTPProxyProcessor.CheckInclude` | internal/dag/httpproxy_processor.go:412-451 | which of the five outcomes an include has, checks in the order of the code; what they mean by the fields of the proxies: `Edges.OutcomesAre`, `Edges.RouteEdges` |
| `Processor.HTTPProxyProcessor.ComputeRoute` | internal/dag/httpproxy_processor.go:466-717 | one route: the cell holds the specified route, or the call gives up, with exactly the specified errors and warnings |
| `Processor.HTTPProxyProcessor.AddServices` | internal/dag/httpproxy_processor.go:602-703 | clusters and mirror of the cell are those of the resolved services in order; an unresolved service is reported and passed over, any other failure stops |
| `Processor.HTTPProxyProcessor.ComputeOwnRoutes` | internal/dag/httpproxy_processor.go:466-717 | all routes of a proxy in order, or none, and the errors up to the first that gives up |
| `Processor.HTTPProxyProcessor.ComputeBody` | internal/dag/httpproxy_processor.go:411-721 | routes of the includes and own routes are expanded together, in place |
| `Processor.HTTPProxyProcessor.ProcessTCPProxy` | internal/dag/httpproxy_processor.go:728-844 | the walk over TCP includes ends; its verdict, the proxy it sets on the host, the orphans it clears, its errors and commits are those specified; what that is by the fields of the proxies: `TCPChains.TCPMeaning`, `Errors.TCPErrorsAre` |
| `Processor.HTTPProxyProcessor.ProcessRoot` | internal/dag/httpproxy_processor.go:132-366 | gate, TLS outcome, TCP, routes and last checks of a root, each with its effect on status, orphans and hosts; what that is by the fields of the root: `Hosts.TCPOfHost`, `Hosts.RoutesOfHost`, `Errors.RootErrorsAre` |
| `Processor.HTTPProxyProcessor.ComputeRoot` | internal/dag/httpproxy_processor.go:119-366 | a root: its update is committed after all those below it; hosts, orphans and commits as specified |
| `Processor.HTTPProxyProcessor.ComputePlain` | internal/dag/httpproxy_processor.go:119-129 | a proxy without a host goes on the list of orphans and is committed as valid for now |
| `Processor.HTTPProxyProcessor.ValidHTTPProxies` | internal/dag/httpproxy_processor.go:849-884 | all proxies without a host, then exactly the roots whose host no other root uses in any case, each once; exactly the other roots are reported |
| `Processor.HTTPProxyProcessor.MarkOrphans` | internal/dag/httpproxy_processor.go:106-116 | exactly what is left on the list is committed with an error |
| `Slices.Append` | internal/dag/httpproxy_processor.go:401-402 | append to a slice that may share its array: the result shows old contents and new elements, the old slice still shows its own |
| `Reporting.AdvancedTwice` | internal/status/cache.go:194-222 | filling one open update and committing others in between adds up: errors, warnings and commits concatenate, whatever the interleaving |
| `Reporting.WholeUpdate` | internal/status/cache.go:194-222 | an update opened, filled while others come and go, and committed is one commit to what the cache shows |
| `Reporting.ReportedTwice` | apis/projectsesame/v1/helpers.go:90-149 | errors and warnings can be added in turns: the condition is the same as all errors, then all warnings |
| `Rounds.ListedAreOrphans` | internal/dag/httpproxy_processor.go:103-128 | because proxies without a host are all listed before any root runs, what is left on the list are exactly the orphans |
| `Rounds.RunIsTrace` | internal/dag/httpproxy_processor.go:91-117 | duplicates, computed proxies and orphans together make exactly the commits of a build |
| `Rounds.StatusIsDetermined` | internal/status/cache.go:194-222 | after a build from an empty cache every proxy has a status and nothing else has; it is invalid exactly when the build gave it an error, independent of every map order |
| `Rounds.NextGiven` | internal/dag/httpproxy_processor.go:329-365 | processing one more root keeps what all earlier roots gave to their hosts |
| `Builder.Build` | internal/dag/builder.go:51-72 | a whole build, whatever the order of map ranges: the hosts serve exactly the table of the cached objects and no others, and every proxy has the status that the build calls for |
| `Builder.RunServesTable` | internal/dag/builder.go:62-70 | what a run gives to the hosts of an empty table is exactly the table: routes on both listeners up to replacement by text, TCP proxies, nothing elsewhere |
| `Builds.OrphansAreUnreachable` | internal/dag/httpproxy_processor.go:849-884 | for objects with namespaces: orphans are exactly the proxies without a host that no path of route or TCP includes from a processed root leads to, paths of any shape although the walk only takes simple ones |
| `Builds.OrphansExactly` | internal/dag/httpproxy_processor.go:457-459 | for all objects: exactly the proxies without a host that no TCP path leads to and no route path leads to under the name they are listed by |
| `Builds.NoNamespaceStaysOrphan` | internal/dag/httpproxy_processor.go:457-459 | a proxy without a namespace stays an orphan however many routes include it |
| `Builds.CyclesEndInvalid` | internal/dag/httpproxy_processor.go:387-401 | the proxy at the end of a path of route includes from a processed root that is without repetition up to its last step, and closes on itself there, is shown as invalid when the build is over, whatever the order of the other commits |
| `Builds.OrphansEndInvalid` | internal/dag/httpproxy_processor.go:106-116 | orphans are shown as invalid in the end, although they were committed as valid before |
| `Builds.OneErrorIsEnough` | internal/status/cache.go:202-221 | an object is shown as invalid exactly when one of its commits has an error, as valid exactly when it has commits and none does |
| `Builds.LastOneIsShown` | internal/status/cache.go:194-222 | what is shown of an object is its last commit with an error, or its last commit if none has one |
| `Builds.CommitCarries` | apis/projectsesame/v1/helpers.go:90-149 | a commit shows a Valid condition of the object's generation with exactly its errors and warnings, in order, and the status, reason and message that follow from them |
| `Shown.OrphansSayWhy` | internal/dag/httpproxy_processor.go:106-116 | of objects with namespaces an orphan shows the orphan error and no other when the build is over, whatever the order of all commits |
| `Shown.DuplicatesSayWhy` | internal/dag/httpproxy_processor.go:863-882 | roots that share a host show the duplicate error and no other |
| `Hosts.TCPOfHost` | internal/dag/httpproxy_processor.go:132-327 | a host has a TCP proxy with these clusters if and only if its root is not blank, may be a root there, has TLS without a fatal error and a TCP stanza, and a chain of TCP includes from it ends at services that give them |
| `Hosts.RoutesOfHost` | internal/dag/httpproxy_processor.go:320-366 | exactly when a host serves the compiled routes of its root, on the plain and on the secure listener, in terms of the fields of the root and of the TCP chain; otherwise it serves none |
| `Hosts.TableHasWhen` | internal/dag/httpproxy_processor.go:849-884 | the table has a host for exactly the roots whose host no other root has, the case of letters aside |
| `Hosts.WalksWhen` | internal/dag/httpproxy_processor.go:132-329 | from which roots the includes of routes and of TCP stanzas are followed, in terms of their fields |
| `Hosts.OrphansByFields` | internal/dag/httpproxy_processor.go:102-128 | of objects with namespaces exactly those without a host are orphans to which no path of includes leads from such a root, roots and includes told by their fields |
| `Errors.RootErrorsAre` | internal/dag/httpproxy_processor.go:119-366 | the errors of a root, told by its fields: that of the first check it fails; or those of its TLS settings, of its TCP stanza, and, if that does not keep it from its routes, of the call for these and of the last checks |
| `Errors.CallErrorsAre` | internal/dag/httpproxy_processor.go:379-722 | the errors that a call reports on its proxy: the cycle, the duplicate conditions, or those of each include and then of each route up to the first that is not built |
| `Errors.IncludeErrorsAre` | internal/dag/httpproxy_processor.go:411-451 | the error of each include is that of the first of its four checks that fails |
| `Errors.RouteErrorsAre` | internal/dag/httpproxy_processor.go:466-703 | the errors of a route and whether it is built: that of the first of its seven checks that fails, or those of its services |
| `Errors.ServiceErrorsAre` | internal/dag/httpproxy_processor.go:602-703 | the services of a route report, in order, the first failure of each; one that does not resolve is passed over, any other stops the call, and a second mirror counts only after one that is there |
| `Errors.TCPErrorsAre` | internal/dag/httpproxy_processor.go:728-838 | the error of a TCP stanza: services and an include, neither, the first service that fails, or the first of the three checks of its include that fails |
| `Errors.RoutesWarningsAre` | internal/dag/httpproxy_processor.go:525-525 | the warnings of a proxy are those of its routes that are put together, up to the first that is not built |
| `Errors.RootWarningsAre` | internal/dag/httpproxy_processor.go:741-752 | a root gives the warnings of its TCP stanza and of its routes exactly if it gets that far |
| `IncludeGraph.ReachedIsReachable` | internal/dag/httpproxy_processor.go:387-401 | exploring only simple paths reaches every node that any path reaches |
| `IncludeGraph.SimplePathIsReached` | internal/dag/httpproxy_processor.go:387-401 | every node at the end of a simple path that avoids the visited ones is reached |
| `IncludeGraph.ReachedHasPath` | internal/dag/httpproxy_processor.go:387-401 | every reached node is at the end of a path |
| `IncludeGraph.ReenteredIsLasso` | internal/dag/httpproxy_processor.go:387-401 | the walk re-enters a node exactly if it is the end of a path that is without repetition up to its last step and closes on itself there |
| `Reachability.VisitsIsReached` | internal/dag/httpproxy_processor.go:379-460 | the proxies that the route walk takes off the list are the graph-reachable ones |
| `Reachability.TCPVisitsIsReached` | internal/dag/httpproxy_processor.go:800-842 | the same for the TCP walk |
| `Edges.RouteEdges` | internal/dag/httpproxy_processor.go:404-451 | the route walk goes from one proxy to another exactly if no two neighbouring includes have a condition in common and some include passes its checks and calls the other by name, in the namespace it names or else in that of the including proxy, and the other is cached and has no host |
| `Edges.TCPEdges` | internal/dag/httpproxy_processor.go:737-826 | the TCP walk goes from one proxy to another exactly if the stanza has no services and its include, the singular field before the plural one, calls the other, which is cached and has no host |
| `Edges.OutcomesAre` | internal/dag/httpproxy_processor.go:411-451 | which of the five outcomes an include has, by the fields of the two proxies |
| `Edges.RoutePathsAre` | internal/dag/httpproxy_processor.go:404-460 | paths in the graph of route includes are exactly the sequences of proxies joined by such includes |
| `Edges.TCPPathsAre` | internal/dag/httpproxy_processor.go:737-842 | the same for TCP includes |
| `Cycles.CyclesAreReportedExactly` | internal/dag/httpproxy_processor.go:387-399 | the walk from a root commits the cycle error on a proxy if and only if the proxy is the end of such a path, given that the outcomes of other checks are not that error |
| `Cycles.ReentryIsReported` | internal/dag/httpproxy_processor.go:387-399 | every re-entered proxy is committed with the cycle error |
| `Cycles.ReportIsReentry` | internal/dag/httpproxy_processor.go:387-399 | no other proxy is |
| `Meaning.CompiledMeaning` | internal/dag/httpproxy_processor.go:401-480 | when nothing is wrong below a root, its routes are the final forms of the routes at its addresses: all pairs of an include path and a route of the proxy at its end, each exactly once |
| `Meaning.RouteAtAddress` | internal/dag/httpproxy_processor.go:466-717 | the route at an address in all its parts: the slash-collapsed concatenation of all prefixes on the path and all header conditions of the path in order, the replacement for that prefix, the clusters of the services that are there in order, the one mirror, the 503 response if there are none and no redirect, the HTTPS upgrade |
| `Services.ServicesMeaning` | internal/dag/httpproxy_processor.go:602-703 | the loop over services gives up exactly when a service is wrong or a second mirror is there; otherwise the clusters are those of the services that are there, in order, and the mirror is the one that is |
| `Compiled.ServicesAreQuietWhen` | internal/dag/httpproxy_processor.go:602-703 | the services of a route report nothing exactly when each is fine and one mirror at most is among them |
| `Services.ServicesWithoutIssues` | internal/dag/httpproxy_processor.go:602-703 | without a new error nothing is wrong with any service |
| `Upstreams.ResolvesExactly` | internal/dag/accessors.go:30-110 | a service and a port resolve exactly if the service is cached, the first of its ports with that number, or with that number in decimal as its name, speaks TCP, and an external name is enabled and not one of this machine; and the upstream is that port, with the protocol annotated under its name or else under its number |
| `Upstreams.RefIsFineWhen` | internal/dag/httpproxy_processor.go:602-668 | when a service of a route is fine and which cluster it then gives, by the fields of reference and service |
| `Upstreams.RefDanglesWhen` | internal/dag/httpproxy_processor.go:603-615 | when a service of a route is passed over |
| `Meaning.EmitIsForms` | internal/dag/httpproxy_processor.go:401-480 | the same below any chain of conditions and any path |
| `Meaning.EmitIsBelowAndOwn` | internal/dag/httpproxy_processor.go:719 | the expansion at one level leaves the routes of the levels below alone, so a route is expanded at most once in a chain of any depth |
| `Meaning.AddressesComplete` | internal/dag/httpproxy_processor.go:411-460 | every address is listed |
| `Compiled.NoErrorWhen` | internal/dag/httpproxy_processor.go:387-717 | a call adds no error exactly when the proxy is not on the path, no neighbouring includes share a condition, every include is followed and every route passes all checks: block, headers of the chain, policies, a service or a redirect, replacements, every service fine, one mirror at most |
| `Compiled.ValidMeansCompiled` | internal/dag/httpproxy_processor.go:466-717 | without an error every service of every route has been resolved, the clusters are those of the services, and every form of every route, two if it is split where it is expanded, is in the table with clusters, a direct response or a redirect |
| `Compiled.BuiltWithoutIssues` | internal/dag/httpproxy_processor.go:466-717 | a route that is not built has an error; one that is built answers; without errors all its services resolved and its clusters are theirs |
| `Compiled.TCPFailureIsReported` | internal/dag/httpproxy_processor.go:325-327 | a TCP proxy is set up exactly when no proxy on the chain is given an error; a failure leaves the proxy at the top without one exactly when a proxy further down has it |
| `TCPChains.TCPMeaning` | internal/dag/httpproxy_processor.go:728-844 | told from the fields of the proxies: the walk over TCP includes succeeds exactly if a chain of them without repetition leads to a proxy that has services and no include, all of which resolve, or that has no stanza; and what it finds are the clusters of those services, each with upstream, protocol, weight and policy, in order |
| `TCPChains.TCPServicesResolve` | internal/dag/httpproxy_processor.go:759-791 | the services of a stanza come to a list of clusters if and only if each service, in order, gives its own, so one that does not resolve fails them all |
| `Checks.IncludeMatchConditionsIdentical` | internal/dag/httpproxy_processor.go:1059-1073 | true exactly when two neighbouring includes share a condition |
| `Duplicates.DuplicateIsFoundWhen` | internal/dag/httpproxy_processor.go:1059-1073 | for two positions in a list of includes of any length, the check is sure to find a condition that they share if and only if they are neighbours |
| `Duplicates.DistantDuplicateIsMissed` | internal/dag/httpproxy_processor.go:404-409 | for every other two positions there is a proxy whose includes share a condition there and that is given no error |
| `Checks.PrefixReplacementsAreValid` | internal/dag/policy.go:490-507 | accepts exactly lists without a repeated prefix, and names the first repetition |
| `Checks.PrefixRewrite` | internal/dag/httpproxy_processor.go:582-599 | the first replacement for the routing prefix, else the first default one |
| `Checks.RewriteMeaning` | internal/dag/httpproxy_processor.go:582-599 | when no prefix is replaced twice, an entry for the routing prefix wins, then the default one, and an empty replacement counts as none |
| `Checks.NoRewriteWhen` | internal/dag/httpproxy_processor.go:586-599 | without an entry for the routing prefix and without a default one there is no replacement |
| `Checks.OnPath` | internal/dag/httpproxy_processor.go:387-399 | the scan of the visited proxies finds a proxy exactly if it is on the path |
| `Checks.OnPathByNames` | internal/dag/httpproxy_processor.go:387-399 | in a cache that files objects by name, comparing keys is comparing the names and namespaces of the objects |
| `Checks.GroupByHost` | internal/dag/httpproxy_processor.go:853-861 | every proxy is in exactly one place: without a host, or in the group of its host without case |
| `Checks.GroupsTell` | internal/dag/httpproxy_processor.go:863-882 | a root has its host to itself exactly if its group has one member |
| `Checks.NamespaceAllowed` | internal/dag/httpproxy_processor.go:888-898 | a root is allowed exactly when there is no list of namespaces or its own is on it |
| `VirtualHosts.ConditionsToString` | internal/dag/dag.go:489-495 | the text of a route is its path text followed by its header texts, in order |
| `VirtualHosts.LastOneStays` | internal/dag/dag.go:482-487 | a text is taken exactly when a route has it, and by the last route that has it |
| `VirtualHosts.OrderMatters` | internal/dag/dag.go:482-487 | the routes of a host do not depend on the order of addition if and only if routes with the same text are the same |
| `VirtualHosts.NothingIsLost` | internal/dag/dag.go:482-487 | then every route that was added is there |
| `VirtualHosts.TextOfPrefix` | internal/dag/dag.go:104-110 | without header matches, routes have the same text exactly if they have the same prefix |
| `Processor.HTTPProxyProcessor.AddRoutes` | internal/dag/httpproxy_processor.go:373-377 | the loop over addRoute, route by route |
| `Lookups.TableIsSame` | internal/dag/httpproxy_processor.go:602-614 | the published table depends on a service only if some proxy names it in its own namespace |
| `Lookups.EmitIsSame` | internal/dag/httpproxy_processor.go:602-614 | so do the routes of each proxy below any chain |
| `Kube.LookupService` | internal/dag/cache.go:563-582 | found exactly if the service exists and its first matching port is usable, and then with that port |
| `Kube.EnsureService` | internal/dag/accessors.go:30-62 | there is an upstream exactly when the service is there, the first of its ports that matches by number or name speaks TCP, and its external name is allowed; it is that port of that service, with the protocol of its annotations |
| `ExpandRoutes.ExpandPrefixMatches` | internal/dag/httpproxy_processor.go:915-989 | in-place expansion of cells, groups in any order: the result holds the expansion of what was there, in different cells, old or new |
| `ExpandRoutes.ExpandGroup` | internal/dag/httpproxy_processor.go:943-985 | one group: a lone route with a replacement becomes its two forms, by one change in place and one copy |
| `ExpandRoutes.GroupByPrefix` | internal/dag/httpproxy_processor.go:921-934 | each group holds exactly the routes of its slash-consistent prefix, in order |
| `Expansion.ExpandIsStable` | internal/dag/httpproxy_processor.go:915-989 | expanded routes merged with any slash-normal routes and expanded again stay as they are |
| `Expansion.ExpandIsIdempotent` | internal/dag/httpproxy_processor.go:915-989 | expanding twice is expanding once |
| `Expansion.ExpandPermutation` | internal/dag/httpproxy_processor.go:938-986 | the expansion does not depend on the order of routes |
| `Expansion.ExpandSettles` | internal/dag/httpproxy_processor.go:915-989 | after expansion every group is settled: nothing more to split |
| `Expansion.KeyIsNormal` | internal/dag/httpproxy_processor.go:930-932 | of a slash-normal prefix at most one slash is trimmed, and both spellings have the same key |
| `Expansion.SplitsWhen` | internal/dag/httpproxy_processor.go:917-988 | a route is split exactly if it has a replacement, its prefix is not the root path, and exactly one route has its prefix up to trailing slashes |
| `Origins.CompiledExactly` | internal/dag/httpproxy_processor.go:379-722 | for every set of proxies, with errors and cycles: a route is compiled if and only if it is a form of the route at an address whose path the walk follows with every call on it keeping its routes, or the placeholder of an include that is missing at the end of such a path |
| `Origins.OriginOf` | internal/dag/httpproxy_processor.go:379-722 | the address or the missing include that a compiled route comes from |
| `Origins.OriginIsEmitted` | internal/dag/httpproxy_processor.go:379-722 | every form at such an address, and every such placeholder, is compiled |
| `Origins.RouteAtCompiledAddress` | internal/dag/httpproxy_processor.go:466-717 | the route at such an address, in all its parts, whatever is wrong elsewhere |
| `Origins.WellIsCompiled` | internal/dag/httpproxy_processor.go:379-722 | when nothing is wrong below a root, these are all its addresses |
| `Requests.AddressTakesWhen` | internal/dag/httpproxy_processor.go:466-715 | the route at a compiled address takes exactly the requests whose path has the merged prefix of the includes on the way and of its own conditions, of which every header condition on the way and of its own holds, and whose host is one label below a wildcard host |
| `Requests.WaysAreExactly` | internal/dag/httpproxy_processor.go:411-455 | an include path leads from one proxy to another exactly if a sequence of proxies does, each called by the include of the one before it |
| `Requests.WayLeads` | internal/dag/httpproxy_processor.go:455-455 | the conditions of an include path are those of its includes, in order |
| `Requests.WildcardMeaning` | internal/dag/dag.go:852-861 | the match that a wildcard host adds holds of exactly the requests to a name with one DNS label in place of the wildcard, for any proxy that reads the label expression as it is meant |
| `Requests.QuotedIsRead` | internal/dag/dag.go:859-859 | quoting the domain loses nothing and leaves no operator in it |
| `Requests.MissingTakesWhen` | internal/dag/httpproxy_processor.go:431-446 | the placeholder of a missing include answers 502 to exactly the requests that satisfy the conditions of that include |
| `Requests.PlaceholderIsInPlaceWhen` | internal/dag/httpproxy_processor.go:438-441 | the placeholder has the prefix of the whole chain if and only if the prefixes above its include are nothing but slashes |
| `Routing.RewriteIsAsIntended` | internal/dag/httpproxy_processor.go:900-989 | compiling, expansion, sorting, first match on path and headers, and prefix swap together, for every set of proxies, every host and every request: the route that answers comes from a compiled address or a missing include, and for every compiled address of which it is a form it does what the route there calls for; if that is split where it is expanded, the path comes out as trimmed replacement and rest, otherwise the route is used as it was written |
| `Routing.HostRewritesAsIntended` | internal/dag/dag.go:482-487 | the same on the host, in whatever order the compiled routes were added to it, if routes with the same text have the same path and headers |
| `Routing.PlainTextsTell` | internal/dag/dag.go:104-110 | which routes without header matches do |
| `Routing.CleanRoutesTell` | internal/dag/dag.go:482-495 | so do the texts of any routes without separators in their prefixes and header matches |
| `RouteTexts.CleanTextsTell` | internal/dag/dag.go:95-170 | routes without separators are kept under the same text if and only if they have the same path and the same header matches |
| `Routing.SplitAtWhen` | internal/dag/httpproxy_processor.go:917-988 | when the route at an address is split, in terms of its replacement, its prefix and the routes expanded with it |
| `Routing.LongestAddressAnswers` | internal/dag/httpproxy_processor.go:900-989 | a request that has the headers of the split route at a compiled address, whose path is below its prefix, and for which every other compiled address and every placeholder that it meets has a shorter prefix, is answered by a form of that route and rewritten as intended, whatever is wrong with other proxies |
| `Rewrite.TableRewritesAsIntended` | internal/sorter/sorter.go:138-156 | in a table sorted by path that matches what all forms of a split route match, if the first match of a request is one of them, it is the one that the path calls for and rewrites it as intended |
| `Rewrite.LongestKeyAnswers` | internal/sorter/sorter.go:138-156 | which route that is: the one with the longest key among those whose headers the request has |
| `Rewrite.ChosenRewritesAsIntended` | internal/dag/httpproxy_processor.go:900-989 | swapping the prefix of that form gives the intended path |
| `Rewrite.SpellingsAgree` | internal/dag/httpproxy_processor.go:900-914 | all four trailing-slash spellings of prefix and replacement rewrite every path alike |
| `Rewrite.SeamHasNoDoubleSlash` | internal/dag/httpproxy_processor.go:900-914 | the rewritten path never has a doubled slash at the seam |
| `Rewrite.LongFormFirst` | internal/sorter/sorter.go:138-156 | the form with the slash is sorted before the one without |
| `Sorter.FirstMatchIsLongest` | internal/sorter/sorter.go:138-194 | for every request the first route that matches its path and headers in a table sorted by path is of the best kind of all that match, and among prefix routes the longest, segment match winning ties |
| `Sorter.SortedIsSortedByPath` | internal/sorter/sorter.go:138-194 | what is sorted by the comparator is sorted by path |
| `Sorter.KeyLessIsStrictWeakOrder` | internal/sorter/sorter.go:138-194 | the order on path and number of headers is a strict weak order whose ties are equal keys |
| `Sorter.LessIsKeyLess` | internal/sorter/sorter.go:138-194 | the comparator is that order unless path and number of headers are equal |
| `Sorter.LessIsReflexiveWhen` | internal/sorter/sorter.go:49-127 | a route is less than itself exactly when one of its header matches is not inverted |
| `Sorter.RouteLessByKey` | internal/sorter/sorter.go:138-194 | the switch over path types is the order on kind, text and segment |
| `Sorter.LongestRouteByHeaderConditions` | internal/sorter/sorter.go:112-127 | the loop over pairs of headers decides by number, then by the first pair that is less |
| `Sorter.HeaderLessWhen` | internal/sorter/sorter.go:49-106 | header matches are ordered by name, then exact, regex, contains, present, then by value; of two that agree in all of these the first is less exactly if it is not inverted |
| `Text.CompareMeaning` | internal/sorter/sorter.go:49-60 | text comparison is the order of a dictionary |
| `Conditions.MergePathMatchConditions` | internal/dag/conditions.go:29-50 | the merged prefix is the collapsed concatenation of the prefixes |
| `Conditions.PathMatchConditionsValid` | internal/dag/conditions.go:54-70 | accepts exactly blocks with at most one prefix, which is absolute; the error names the first violation |
| `Conditions.ChainMergesToNormal` | internal/dag/conditions.go:29-70 | a chain of valid blocks merges to a path that starts with a slash and has no double slash |
| `Conditions.MergeLevelsIsMergeAtOnce` | internal/dag/conditions.go:29-50 | merging level by level is merging at once |
| `Conditions.LevelByLevelIsAtOnce` | internal/dag/conditions.go:29-50 | the same below a prefix that is normal already |
| `Text.CollapseConcat` | internal/dag/conditions.go:29-50 | collapsing part by part and then the whole is collapsing the whole |
| `Text.CollapseIsNormal` | internal/dag/conditions.go:29-50 | what is collapsed has no double slash and keeps its first character |
| `Text.CollapseOfNormal` | internal/dag/conditions.go:29-50 | a normal path stays as it is, so collapsing is idempotent |
| `Text.CollapseKeepsTheRest` | internal/dag/conditions.go:29-50 | collapsing loses slashes only |
| `Text.LowerTells` | internal/dag/httpproxy_processor.go:858-858 | hosts compare equal in lower case exactly if they differ in the case of letters only |
| `Text.TrimSpaceIsEmptyWhen` | internal/dag/httpproxy_processor.go:1075-1078 | a host is blank exactly if it is nothing but space |
| `Text.ItoaIsDecimal` | internal/dag/accessors.go:100-100 | a port number as a name: digits, no zero in front, and the number as its value |
| `Conditions.MergeHeaderMatchConditions` | internal/dag/conditions.go:72-81 | the header matches of all conditions, in order |
| `Conditions.HeaderMatchConditions` | internal/dag/conditions.go:83-128 | each header condition becomes its match, in order; what they mean to a request: `HeaderMeaning.MergedMeaning` |
| `HeaderMeaning.MergedMeaning` | internal/dag/conditions.go:72-128 | the merged header matches of a chain hold of a request if and only if all its header conditions do, conditions read by their six fields, matches by type, value and inversion |
| `HeaderMeaning.MeaningIsKeptWhen` | internal/dag/conditions.go:83-128 | a header condition becomes a match with the same meaning if and only if it sets one predicate at most, or a second one, `notexact`, that follows from the first |
| `Conditions.HeaderMatchConditionsValid` | internal/dag/conditions.go:140-212 | the one-pass scan with seen-maps accepts exactly lists in which no entry rejects a later one |
| `Conditions.ScanIsPairwise` | internal/dag/conditions.go:130-212 | with one predicate each, the scan accepts exactly lists in which no two conditions on the same header, names compared without case (section 3.2 of RFC 7230), contradict each other |
| `Conditions.OrderIsFreeWhen` | internal/dag/conditions.go:140-212 | for any set of header conditions, every two lists over it with the same members are accepted alike if and only if rejection is symmetric on the set |
| `Conditions.AcceptanceIgnoresOrder` | internal/dag/conditions.go:130-212 | so acceptance does not depend on order for conditions with one predicate each |
| `Conditions.OrderMattersWithTwoPredicates` | internal/dag/conditions.go:140-212 | with two predicates in one condition it does: an example |
| `HeaderEscape.EscapeHeaderValue` | internal/dag/policy.go:278-321 | for every value and percent-free variables the result is a sequence of characters, doubled percent signs and allowed operators; no allowed operator is left escaped; read back it is the value with the variables substituted |
| `HeaderEscape.SubstituteVariables` | internal/dag/policy.go:285-288 | replacing in the escaped value is escaping the replaced value, for each variable in turn |
| `HeaderEscape.LetOperatorsThrough` | internal/dag/policy.go:289-316 | the successive replacements let through exactly the named operators and keep the meaning |
| `HeaderEscape.UnwrapIsLetThrough` | internal/dag/policy.go:317-319 | replacing in the text is letting operators through in the token sequence |
| `HeaderEscape.ReadRender` | internal/dag/policy.go:278-321 | reading what was written gives the tokens back |
| `HeaderEscape.LetThroughKeepsMeaning` | internal/dag/policy.go:289-319 | a pass does not change what the text stands for |
| `HeaderEscape.NoVariableNoChange` | internal/dag/policy.go:278-321 | a value that names no variable is what its escaped form stands for |
| `HeaderEscape.PercentInVariableIsUnreadable` | internal/dag/policy.go:285-288 | variables must be percent-free: for every name of a variable, a percent sign as its value makes the escaped value unreadable |
| `Cond.NoLostWakeUps` | internal/sesame/cond.go:42-94 | over every interleaving a registration is sent to at most once; it is not sent to exactly while its caller is not behind and every notification since had hints, none its own; what is sent exceeds a last that was not ahead |
| `Cond.RunKeepsInvariant` | internal/sesame/cond.go:42-94 | after every trace the waiters are exactly the registrations that the trace says still wait, and every other was sent the count of the operation that served it |
| `Cond.AheadIsNotExceeded` | internal/sesame/cond.go:42-56 | a caller ahead of the counter is sent a count that does not exceed its own |
| `Cond.Cond.Register` | internal/sesame/cond.go:42-56 | served at once if behind, else one more waiter |
| `Cond.Cond.Notify` | internal/sesame/cond.go:58-82 | wakes exactly the waiters concerned, keeps the others in order |
| `Cond.Intersection` | internal/sesame/cond.go:85-94 | true exactly when the lists share an element |
| `Holdoff.RunKeepsBooks` | internal/sesame/handler.go:132-179 | over every run: accepted events are the drained batches and those outstanding, in order; rebuilds only with events outstanding; the sequence number counts rejected events and rebuilds; received numbers increase |
| `Holdoff.RunIsSpaced` | internal/sesame/handler.go:147-179 | consecutive rebuilds are at least the smaller of the two delays apart |
| `Holdoff.EveryEventIsServed` | internal/sesame/handler.go:147-179 | if due timers are served when due, every accepted event is in a rebuild by its deadline, however often later events re-arm the timer |
| `Holdoff.RebuildsWaitForQuiet` | internal/sesame/handler.go:148-176 | over every run each rebuild starts the delay after the last event that it drained, or later, unless that event came longer than the maximal delay after the rebuild before |
| `Holdoff.RebuildsStartWhenQuiet` | internal/sesame/handler.go:148-176 | if due timers are served when they are due it starts exactly then, or with that event in the other case |
| `Holdoff.RecordsAreTrue` | internal/sesame/handler.go:146-178 | the recorded times of events and rebuilds are those at which the steps of the run were taken |
| `Holdoff.FirstCountIsOffered` | internal/sesame/handler.go:219-227 | the sequence channel holds the number of the first count since the watcher last took one, and is empty exactly if there was none |
| `Holdoff.TakenAreReceived` | internal/sesame/handler.go:219-227 | and that is what the watcher gets each time |
| `Handler.QuiescentIsConsistent` | internal/sesame/handler.go:147-207 | in every state reachable from the start, after the first rebuild and with none pending, what is published is what a build from the current cache would give, if every service without a namespace arrives when no proxy of the default namespace names it |
| `Handler.TurnKeepsConsistent` | internal/sesame/handler.go:147-207 | every such turn of the loop keeps that |
| `Handler.NamespacesAreEnough` | internal/sesame/handler.go:147-207 | so it holds of every run whose services have namespaces |
| `Handler.HandlerRunsTimer` | internal/sesame/handler.go:110-179 | a run of the handler is a run of its timer, so books, spacing and deadlines hold of it |
| `Handler.QuietEventKeepsTable` | internal/sesame/handler.go:184-207 | an event for which no rebuild is asked does not change what a build would give, under the same condition on the cache |
| `Handler.EventHandler.Start` | internal/sesame/handler.go:110-179 | the event loop takes the turns of the specification; after the first rebuild and with none pending, the hosts of the last build serve exactly what a build from the current cache would give |
| `Handler.EventHandler.RebuildDAG` | internal/sesame/handler.go:231-238 | a rebuild runs the processor on the cache, and the hosts it leaves serve the table of the cache |
| `Handler.EventHandler.HandleUpdate` | internal/sesame/handler.go:148-168 | an event: cache, counters and timer move as specified; what that means for rebuilds: `Holdoff.RebuildsWaitForQuiet` |
| `Handler.EventHandler.HandlePending` | internal/sesame/handler.go:169-173 | a due timer: the table is rebuilt and published, the counters are reset |
| `Handler.EventHandler.OnUpdate` | internal/sesame/handler.go:184-207 | each kind of event is applied to the cache, and a rebuild is asked for as specified |
| `Handler.EventHandler.IncSequence` | internal/sesame/handler.go:219-227 | the number grows by one and is offered only to an empty channel |
| `Cache.QuietInsertKeepsLookupsWhen` | internal/dag/cache.go:305-347 | an insert of a service that asks for no rebuild leaves everything that a proxy names as it was if and only if the service has a namespace or no proxy of the default namespace names it, or the same service was there |
| `Cache.QuietInsertKeepsTable` | internal/dag/cache.go:145-147 | then it does not change the table |
| `Unnoticed.DefaultNamespaceIsMissed` | internal/dag/cache.go:305-347 | otherwise it can: every service without a namespace that resolves at some port goes unnoticed with a root that names it, and changes the table |
| `Unnoticed.UnnoticedStaysStale` | internal/sesame/handler.go:147-207 | a run from the start of the handler after which nothing is pending and what is published is not the table of the cache |
| `Cache.QuietRemoveKeepsContents` | internal/dag/cache.go:220-300 | a removal that reports no change has made none |
| `Cache.KubernetesCache.Insert` | internal/dag/cache.go:105-218 | the object is filed under its name, and the answer is the filter's; objects stay filed by their names |
| `Cache.KubernetesCache.Remove` | internal/dag/cache.go:220-300 | the object is gone, and the answer says whether it was there; objects stay filed by their names |
| `Handler.CacheStaysFiled` | internal/sesame/handler.go:184-207 | in every state that the handler can reach, every object is filed under its own name |
| `Mirror.RunMirrors` | internal/sesame/handler.go:184-207 | over every run whose events report a cluster truly, the cache holds exactly its proxies of our class and its services |
| `Mirror.AtRestTheWorldIsPublished` | internal/sesame/handler.go:110-238 | from an empty cluster, after the first rebuild and with none pending, what is published is the table of exactly the objects that exist |
| `Mirror.AsksWhen` | internal/sesame/handler.go:184-207 | an event asks for a rebuild exactly if it inserts a proxy of our class or a service that a proxy of its namespace names, or removes something that is there, status-only updates aside, or if it is an election that says so |
| `Cache.KubernetesCache.ServiceTriggersRebuild` | internal/dag/cache.go:305-347 | the scan of all proxies finds a reference exactly if there is one |
| `Status.StatusOverRuns` | internal/status/cache.go:194-222 | over every run a committed Valid condition is False exactly when it has errors, and once an object is shown as invalid it stays so |
| `Status.RunOk` | internal/status/cache.go:194-222 | every run keeps conditions under their own kinds, exact in status |
| `Status.InvalidSticks` | internal/status/cache.go:202-221 | invalidity survives any further steps, also on other updates of the same object |
| `Status.StatusCache.Commit` | internal/status/cache.go:202-221 | dropped exactly if empty or if it would set an invalid object back to valid |
| `Status.StatusCache.ProxyAccessor` | internal/status/cache.go:194-201 | a new update, nothing committed |
| `Status.StatusCache.ConditionFor` | internal/status/proxystatus.go:48-66 | the condition of a kind, made if there is none, other updates untouched |
| `Status.StatusCache.AddError` | apis/projectsesame/v1/helpers.go:90-113 | one more error, status by polarity |
| `Status.StatusCache.AddWarning` | apis/projectsesame/v1/helpers.go:136-149 | one more warning, status untouched |
| `Status.GetError` | apis/projectsesame/v1/helpers.go:123-133 | found exactly if there is an error of the kind |
| `StatusMerge.GenerationNeverDecreases` | internal/status/proxystatus.go:68-120 | over any history of one status, call of Mutate after call, the generation of a condition never decreases, the condition does not vanish, and it stays as it is while no update has its kind |
| `StatusMerge.NewestWins` | internal/status/proxystatus.go:68-120 | what is stored at the end of a history is the last condition of the newest generation written, or what was there if that is newer |
| `StatusMerge.MergeConditions` | internal/status/proxystatus.go:78-95 | each kind is merged by generation, in any order of the map; conditions of other kinds keep value and place |
| `StatusMerge.Mutate` | internal/status/proxystatus.go:68-120 | conditions merged, older fields summarise the Valid condition |
| `StatusMerge.GetConditionFor` | apis/projectsesame/v1/helpers.go:193-202 | the first condition of a kind |
| `Metrics.CountsAreConserved` | internal/sesame/metrics.go:102-138 | in every namespace the total is valid, summed over hosts, plus invalid, summed over hosts, plus orphaned, plus updates of another status |
| `Metrics.BuildCountsAreConserved` | internal/sesame/metrics.go:102-138 | of which there are none among the updates committed in any run of the status cache |
| `Metrics.OnChange` | internal/sesame/metrics.go:87-100 | after a rebuild the gauges agree with the tallies of its updates |
| `Metrics.CalculateRouteMetric` | internal/sesame/metrics.go:102-123 | the five maps are the tallies of the updates |
| `Metrics.CalcMetrics` | internal/sesame/metrics.go:125-138 | one update counts once, in the class of its status |
| `Metrics.CountsAre` | internal/sesame/metrics.go:102-138 | each of the five counters, under each key, is the number of updates it is for, told by the Valid condition, host and namespace of each update |
| `Metrics.Gauges.SetHTTPProxyMetric` | internal/metrics/metrics.go:207-254 | total, valid, invalid and orphaned gauges hold exactly the labels and values of the last maps |
| `Metrics.NamespaceGaugeAgrees` | internal/metrics/metrics.go:207-254 | setting and then deleting stale labels leaves exactly the newest map, by namespace |
| `Metrics.KeyGaugeAgrees` | internal/metrics/metrics.go:207-254 | the same by namespace and host |
| `Metrics.RootGaugeIsRightWhen` | internal/metrics/metrics.go:225-245 | the root gauge shows every namespace that has roots, with their number, if and only if no host that is gone shares a namespace with one that is there and no two hosts that are there do |
| `Metrics.RootGaugeIsCompleteWhen` | internal/metrics/metrics.go:225-245 | its labels alone: if and only if no host that is gone shares a namespace with one that is there |
| `Metrics.RootGaugeIsSumWhen` | internal/metrics/metrics.go:225-228 | its value for a namespace is that of one host, so it is the number of roots there if and only if they are all of one host |
| `Metrics.RootGaugeLosesNamespace` | internal/metrics/metrics.go:225-245 | an example in which it loses one |

## Left out

- Messages of errors and warnings: conditions carry kind and reason only, except where truncation is modelled.
- TLS material, secrets and certificate delegation, CORS, rate limit, cookie, timeout, retry and health check policies: carried as outcomes and opaque values, they do not affect routing.
- Header policies around `escapeHeaderValue`, and authorization and SNI of a route.
- The host recorded on a status update while a root is processed (`pa.Vhost`): metrics are modelled from updates that carry it.
- Whether a secure virtual host exists without routes: only the routes and TCP proxies of hosts are modelled.
- Ingress and Gateway API processors, ExtensionServices and their effect on the rebuild filter: the cache holds HTTPProxies and Services.
- Regular expressions: a parameter about which nothing is assumed, except in `Requests`, where the proxy is taken to read the expression for one DNS label followed by plain text as it is meant, on the whole host.
- The sorting algorithm: results are about any list that is sorted by path.
- Order of routes with the same path and the same number of header matches: the comparator is not an order there.
- Characters beyond ASCII in `ToLower`; strings are sequences of characters, not bytes.
- Real timers, channels, mutexes and the goroutines around the event loop: turns are atomic, time is a number, and a busy handler is a turn that takes time.
- Aliasing of metric maps between calls of `SetHTTPProxyMetric`: each call is given freshly built maps.
- `xds` snapshots, Envoy resources, process start-up and API server access.
- Which header matches a request satisfies, in `Sorter`, `Rewrite` and `Routing`: a parameter about which nothing is assumed. `HeaderMeaning` defines it, with what an inverted match of a value says of a missing header as a parameter.
- Handler.QuiescentIsConsistent: not for runs in which a service without a namespace arrives while a proxy of the default namespace names it, because it is false of them: `Unnoticed.UnnoticedStaysStale`.
- Cycles.CyclesAreReportedExactly: checks that are carried as outcomes are taken not to have the cycle error as their outcome; in the source they have other types.
