/** The dispatcher's collaborators (outbound manager, router, policy, stats, DNS, fake DNS,
    limiter, rule manager, address parser), each reduced to the answers the dispatcher asks of
    it. */
module Features {

  import opened Wrappers
  import opened Net
  import opened Sessions

  /** An outbound handler, known to the dispatcher only by its tag. */
  datatype Handler = Handler(tag: string)

  datatype OutboundManager = OutboundManager(handlers: map<string, Handler>, defaultHandler: Option<Handler>) {

    function GetHandler(tag: string): Option<Handler>
    {
      if tag in handlers then Some(handlers[tag]) else None
    }
  }

  /** The reverse-lookup capable fake-DNS engine: pool membership, the domain a fake IP stands
      for, and the fake IP allocated for a domain (the first of `GetFakeIPForDomain`). */
  datatype FakeDns = FakeDns(inPool: Ip -> bool, domainOf: Ip -> string, fakeIpFor: string -> Ip)

  /** The DNS client: IP lookup (`None` on error) and, when it offers one, the static hosts
      table queried with the outbound target. */
  datatype DnsClient = DnsClient(
    lookupIp: string -> Option<seq<Ip>>,
    hosts: Option<Destination -> Option<Address>>)

  datatype Bucket = Bucket(id: nat)

  /** The limiter's answer for one user: the bucket, whether to rate-limit, whether the device
      limit rejects the connection. */
  datatype BucketDecision = BucketDecision(bucket: Bucket, rateLimit: bool, rejectDevice: bool)

  /** The per-user traffic accounting switches of a policy level. */
  datatype StatsPolicy = StatsPolicy(userUplink: bool, userDownlink: bool)

  datatype Dispatcher = Dispatcher(
    ohm: OutboundManager,
    /** `PickRoute` over the routing context built from the session; `None` when no rule matches. */
    router: Option<Session -> Option<string>>,
    policyForLevel: nat -> StatsPolicy,
    /** Whether `GetOrRegisterCounter` yields a counter for the name. */
    counterAvailable: string -> bool,
    dns: DnsClient,
    /** The fake-DNS engine, when one is registered and offers reverse lookups. */
    fdns: Option<FakeDns>,
    /** `GetUserBucket(inbound tag, email, source address)`. */
    userBucket: (string, string, Address) -> BucketDecision,
    /** The rule manager's `Detect(inbound tag, destination, email)`. */
    ruleBlocks: (string, Destination, string) -> bool,
    /** `net.ParseAddress`. */
    parseAddress: string -> Address)
}
