/** The per-connection session records carried through a dispatch (the `session` package),
    as one explicit value instead of context entries. */
module Sessions {

  import opened Wrappers
  import opened Net

  datatype User = User(email: string, level: nat)

  /** Inbound descriptor: the inbound tag, the authenticated user, the client address. */
  datatype Inbound = Inbound(tag: string, user: Option<User>, source: Address)

  /** Outbound descriptor: `target` is what the connection goes to; `routeTarget`, when set,
      is what routing decisions look at instead. */
  datatype Outbound = Outbound(target: Destination, routeTarget: Option<Destination>)

  datatype SniffingRequest = SniffingRequest(
    enabled: bool,
    metadataOnly: bool,
    routeOnly: bool,
    excludeForDomain: seq<string>,
    overrideDestinationForProtocol: seq<string>)

  /** Content descriptor: the sniffing request and the protocol sniffing inferred. */
  datatype Content = Content(request: SniffingRequest, protocol: string)

  /** The access-log record; only its detour field concerns the dispatcher. */
  datatype AccessMessage = AccessMessage(detour: string)

  datatype Session = Session(
    inbound: Option<Inbound>,
    outbound: Outbound,
    content: Option<Content>,
    forcedTag: string,
    access: Option<AccessMessage>)

  /** The zero sniffing request of a freshly created content descriptor. */
  const NoSniffing := SniffingRequest(false, false, false, [], [])
}
