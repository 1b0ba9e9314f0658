/** The kinds and reasons of errors and warnings in conditions
    (apis/projectsesame/v1/detailedconditions.go and the messages of
    internal/dag/httpproxy_processor.go). */
module Issues {
  /** The types of sub-conditions; those of checks that are carried as outcomes are named. */
  datatype ErrorKind =
    | OrphanedError | RouteError | ServiceError | IncludeError | PrefixReplaceError
    | VirtualHostError | RootNamespaceError | SpecError | TCPProxyError | TCPProxyIncludeError
    | OtherError(name: string)

  datatype Reason =
    | Orphaned
    | PathMatchConditionsNotValid | HeaderMatchConditionsNotValid | NoServicesPresent
    | ServicePortInvalid | ServiceUnresolvedReference | UnsupportedProtocol | OnlyOneMirror
    | IncludeCreatesCycle | DuplicateMatchConditions | IncludeNotFound | RootIncludesRoot
    | DuplicateReplacement | AmbiguousReplacement
    | FQDNNotSpecified | RootProxyNotAllowedInNamespace | DuplicateVhost
    | NothingDefined | NoServicesAndInclude | TLSMustBeConfigured
    | OtherReason(name: string)

  /** What goes into an error or warning of a condition; messages are left out. */
  datatype Issue = Issue(kind: ErrorKind, reason: Reason)
}
