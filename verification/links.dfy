/** The link pair of a connection and the limiter and stats wiring of its writers (`getLink`). */
module Links {

  import opened Wrappers
  import opened Net
  import opened Text
  import opened Sessions
  import opened Features
  import Replay

  /** Uplink carries client-to-upstream traffic, downlink the reverse. */
  datatype Direction = Up | Down

  /** One pipe; `translated` says the fake-DNS translation filter is installed on it. */
  datatype Pipe = Pipe(direction: Direction, translated: bool)

  /** A writer as a stack of wrappers over a pipe's writing end. */
  datatype Writer =
    | PipeWriter(pipe: Pipe)
    | RateLimited(inner: Writer, bucket: Bucket)
    | StatCounted(inner: Writer, counter: string)

  datatype Layer = Rate(bucket: Bucket) | Stat(counter: string)

  /** The pipe a writer finally writes into. */
  function BasePipe(w: Writer): Pipe
  {
    match w
    case PipeWriter(p) => p
    case RateLimited(inner, _) => BasePipe(inner)
    case StatCounted(inner, _) => BasePipe(inner)
  }

  /** The wrappers of a writer, innermost first. */
  function Layers(w: Writer): seq<Layer>
  {
    match w
    case PipeWriter(_) => []
    case RateLimited(inner, b) => Layers(inner) + [Rate(b)]
    case StatCounted(inner, c) => Layers(inner) + [Stat(c)]
  }

  /** A link's reader: a pipe's reading end, or the replay reader that sniffing put over it. */
  datatype LinkReader =
    | PipeReader(pipe: Pipe, interrupted: bool)
    | ReplayReader(pipe: Pipe, replay: Replay.CachedReader)

  datatype Link = Link(reader: LinkReader, writer: Writer, writerClosed: bool)

  datatype LinkPair = LinkPair(inbound: Link, outbound: Link)

  /** `common.Close(link.Writer)` followed by `common.Interrupt(link.Reader)`. */
  function Abandon(l: Link): (l': Link)
    ensures l'.writerClosed
    ensures l'.reader.PipeReader? ==> l'.reader.interrupted
    ensures l'.reader.ReplayReader? ==> Replay.IsEmpty(l'.reader.replay.cache) && l'.reader.replay.source.interrupted
    ensures l'.writer == l.writer
  {
    var reader :=
      match l.reader
      case PipeReader(p, _) => PipeReader(p, true)
      case ReplayReader(p, r) => ReplayReader(p, Replay.Interrupt(r));
    Link(reader, l.writer, true)
  }

  predicate Abandoned(l: Link)
  {
    l.writerClosed && (l.reader.PipeReader? ==> l.reader.interrupted)
  }

  const UserCounterPrefix := "user>>>"

  function CounterSuffix(dir: Direction): string
  {
    match dir
    case Up => ">>>traffic>>>uplink"
    case Down => ">>>traffic>>>downlink"
  }

  /** The stats counter name of a user's traffic in one direction. */
  function CounterName(email: string, dir: Direction): string
  {
    UserCounterPrefix + email + CounterSuffix(dir)
  }

  /** Recovers user and direction from a counter name. */
  function ParseCounterName(name: string): Option<(string, Direction)>
  {
    if HasPrefix(name, UserCounterPrefix) && |name| >= |UserCounterPrefix| + |CounterSuffix(Up)|
       && HasSuffix(name, CounterSuffix(Up)) then
      Some((name[|UserCounterPrefix|..|name| - |CounterSuffix(Up)|], Up))
    else if HasPrefix(name, UserCounterPrefix) && |name| >= |UserCounterPrefix| + |CounterSuffix(Down)|
       && HasSuffix(name, CounterSuffix(Down)) then
      Some((name[|UserCounterPrefix|..|name| - |CounterSuffix(Down)|], Down))
    else None
  }

  /** A counter name determines the user and the direction it counts. */
  lemma CounterNameRoundTrip(email: string, dir: Direction)
    ensures ParseCounterName(CounterName(email, dir)) == Some((email, dir))
  {
    var name := CounterName(email, dir);
    var suffix := CounterSuffix(dir);
    assert name[..|UserCounterPrefix|] == UserCounterPrefix;
    assert name[|name| - |suffix|..] == suffix;
    assert name[|UserCounterPrefix|..|name| - |suffix|] == email;
    if dir == Down {
      var up := CounterSuffix(Up);
      assert name[|name| - 1 - 5] != up[|up| - 1 - 5];
      assert !HasSuffix(name, up);
    }
  }

  /** So no two users, and no two directions of one user, share a counter. */
  lemma CounterNamesDistinct(e1: string, d1: Direction, e2: string, d2: Direction)
    requires (e1, d1) != (e2, d2)
    ensures CounterName(e1, d1) != CounterName(e2, d2)
  {
    CounterNameRoundTrip(e1, d1);
    CounterNameRoundTrip(e2, d2);
  }

  datatype LinkResult =
    | Linked(pair: LinkPair)
    /** The device limit rejected the user; both links were closed and interrupted. */
    | DeviceLimitReached(email: string, abandoned: LinkPair)

  /** The user the limiter is asked about: an authenticated user with a non-empty email. */
  function LimitedUser(inbound: Option<Inbound>): Option<User>
  {
    if inbound.Some? && inbound.value.user.Some? && |inbound.value.user.value.email| > 0
    then inbound.value.user else None
  }

  /** Wraps a writer in a stats counter when the policy asks for it and the counter exists. */
  function MaybeCount(d: Dispatcher, w: Writer, enabled: bool, name: string): (w': Writer)
    ensures BasePipe(w') == BasePipe(w)
    ensures Layers(w') == Layers(w) + (if enabled && d.counterAvailable(name) then [Stat(name)] else [])
  {
    if enabled && d.counterAvailable(name) then StatCounted(w, name) else w
  }

  /** Wraps a writer in the user's rate limiter when the limiter asks for it. */
  function MaybeRate(w: Writer, decision: BucketDecision): (w': Writer)
    ensures BasePipe(w') == BasePipe(w)
    ensures Layers(w') == Layers(w) + (if decision.rateLimit then [Rate(decision.bucket)] else [])
  {
    if decision.rateLimit then RateLimited(w, decision.bucket) else w
  }

  /** `getLink`: two cross-connected pipes (translated for UDP), then, for a user with an
      email, the device-limit check, rate limiting and per-direction byte counting. */
  function GetLink(d: Dispatcher, inbound: Option<Inbound>, network: Network): (res: LinkResult)
    ensures res.DeviceLimitReached? <==>
              LimitedUser(inbound).Some?
              && d.userBucket(inbound.value.tag, LimitedUser(inbound).value.email, inbound.value.source).rejectDevice
    ensures res.DeviceLimitReached? ==>
              Abandoned(res.abandoned.inbound) && Abandoned(res.abandoned.outbound)
              && res.email == LimitedUser(inbound).value.email
    ensures res.Linked? ==>
              var p := res.pair;
              && p.inbound.reader.PipeReader? && p.outbound.reader.PipeReader?
              && p.inbound.reader.pipe == BasePipe(p.outbound.writer)
              && p.outbound.reader.pipe == BasePipe(p.inbound.writer)
              && BasePipe(p.inbound.writer).direction == Up
              && BasePipe(p.outbound.writer).direction == Down
              && (BasePipe(p.inbound.writer).translated <==> network == Udp)
              && (BasePipe(p.outbound.writer).translated <==> network == Udp)
              && !p.inbound.writerClosed && !p.outbound.writerClosed
              && !p.inbound.reader.interrupted && !p.outbound.reader.interrupted
    ensures res.Linked? && LimitedUser(inbound).None? ==>
              Layers(res.pair.inbound.writer) == [] && Layers(res.pair.outbound.writer) == []
    ensures res.Linked? && LimitedUser(inbound).Some? ==>
              var u := LimitedUser(inbound).value;
              var decision := d.userBucket(inbound.value.tag, u.email, inbound.value.source);
              var policy := d.policyForLevel(u.level);
              var rate := if decision.rateLimit then [Rate(decision.bucket)] else [];
              && Layers(res.pair.inbound.writer) ==
                   rate + (if policy.userUplink && d.counterAvailable(CounterName(u.email, Up))
                           then [Stat(CounterName(u.email, Up))] else [])
              && Layers(res.pair.outbound.writer) ==
                   rate + (if policy.userDownlink && d.counterAvailable(CounterName(u.email, Down))
                           then [Stat(CounterName(u.email, Down))] else [])
  {
    var up := Pipe(Up, network == Udp);
    var down := Pipe(Down, network == Udp);
    var inboundLink := Link(PipeReader(down, false), PipeWriter(up), false);
    var outboundLink := Link(PipeReader(up, false), PipeWriter(down), false);
    match LimitedUser(inbound)
    case None => Linked(LinkPair(inboundLink, outboundLink))
    case Some(user) =>
      var decision := d.userBucket(inbound.value.tag, user.email, inbound.value.source);
      if decision.rejectDevice then
        DeviceLimitReached(user.email, LinkPair(Abandon(inboundLink), Abandon(outboundLink)))
      else
        var inW := MaybeRate(inboundLink.writer, decision);
        var outW := MaybeRate(outboundLink.writer, decision);
        var policy := d.policyForLevel(user.level);
        var inW' := MaybeCount(d, inW, policy.userUplink, CounterName(user.email, Up));
        var outW' := MaybeCount(d, outW, policy.userDownlink, CounterName(user.email, Down));
        Linked(LinkPair(inboundLink.(writer := inW'), outboundLink.(writer := outW')))
  }
}
