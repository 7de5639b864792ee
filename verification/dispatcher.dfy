/** The entry points `Dispatch` and `DispatchLink`, with the background body they share run
    sequentially: sniff (when asked), apply the override, then route. */
module Dispatcher {

  import opened Wrappers
  import opened Net
  import opened Sessions
  import opened Features
  import opened Links
  import opened Sniff
  import opened Override
  import opened Routing
  import Replay

  /** What the background body will meet: the reads of the outbound pipe, the metadata
      sniffer's answer, the content classifier, and the governing context. The entry points
      require the script to be interrupted exactly when the link's pipe reader is. */
  datatype SniffOracles = SniffOracles(
    traffic: Replay.Source,
    meta: Outcome,
    classify: seq<byte> -> Outcome,
    ctx: Context)

  /** The background body's result: the sniff outcome (when sniffing ran) and how routing ended. */
  datatype Background = Background(sniffed: Option<Outcome>, routed: Routed)

  datatype Dispatched =
    | DeviceLimited(email: string, abandoned: LinkPair)
    | Started(inbound: Link, background: Background)

  datatype LinkDispatched = InvalidDestination | LinkStarted(background: Background)

  /** The content descriptor a session has, or a fresh one. */
  function ContentOf(s: Session): Content
  {
    s.content.GetOr(Content(NoSniffing, ""))
  }

  /** A fresh outbound descriptor targeting `dest`, and a content descriptor in place. */
  function Prepare(s: Session, dest: Destination): (s': Session)
    ensures s'.outbound == Outbound(dest, None)
    ensures s'.content == Some(ContentOf(s))
    ensures s'.inbound == s.inbound && s'.forcedTag == s.forcedTag && s'.access == s.access
  {
    s.(outbound := Outbound(dest, None), content := Some(ContentOf(s)))
  }

  /** What `sniffer` returns for a request. */
  function SniffSpec(o: SniffOracles, metadataOnly: bool): Outcome
  {
    if metadataOnly then o.meta
    else Combine(o.meta, ContentSpec(Replay.Wrap(o.traffic), o.classify, o.ctx).outcome)
  }

  /** How many `Cache` calls sniffing made on the outbound reader. */
  function SniffCalls(o: SniffOracles, metadataOnly: bool): nat
  {
    if metadataOnly then 0 else ContentSpec(Replay.Wrap(o.traffic), o.classify, o.ctx).calls
  }

  /** The rest of the background body once the sniff outcome is known. */
  function AfterSniff(d: Dispatcher, s: Session, dest: Destination, link: Link, sniffed: Outcome): Routed
    requires s.inbound.Some? && s.content.Some?
  {
    var a := ApplySniffed(d, s.outbound, s.content.value, dest, sniffed);
    RoutedDispatch(d, s.(outbound := a.outbound, content := Some(a.content)), a.destination, link)
  }

  /** The link after its reader was wrapped in a replay reader and sniffing read `calls` times. */
  function ReplayLink(link: Link, o: SniffOracles, calls: nat): Link
    requires link.reader.PipeReader?
  {
    link.(reader := ReplayReader(link.reader.pipe, Replay.CacheRepeated(Replay.Wrap(o.traffic), calls)))
  }

  /** The background body as a whole. */
  function BackgroundSpec(d: Dispatcher, s: Session, dest: Destination, link: Link, o: SniffOracles): Background
    requires s.inbound.Some? && s.content.Some?
    requires s.content.value.request.enabled ==> link.reader.PipeReader?
  {
    var request := s.content.value.request;
    if !request.enabled then Background(None, RoutedDispatch(d, s, dest, link))
    else
      var sniffed := SniffSpec(o, request.metadataOnly);
      Background(Some(sniffed),
                 AfterSniff(d, s, dest, ReplayLink(link, o, SniffCalls(o, request.metadataOnly)), sniffed))
  }

  /** The goroutine body of `Dispatch` and `DispatchLink`, run to its end. */
  method RunBackground(d: Dispatcher, s: Session, dest: Destination, link: Link, o: SniffOracles)
    returns (bg: Background)
    requires s.inbound.Some? && s.content.Some?
    requires s.content.value.request.enabled ==> link.reader.PipeReader?
    ensures bg == BackgroundSpec(d, s, dest, link, o)
    ensures !s.content.value.request.enabled ==> bg.sniffed.None?
    ensures s.content.value.request.enabled ==> bg.sniffed.Some?
    ensures s.content.value.request.enabled && s.content.value.request.metadataOnly ==> bg.sniffed == Some(o.meta)
  {
    var request := s.content.value.request;
    if !request.enabled {
      return Background(None, RoutedDispatch(d, s, dest, link));
    }
    var reader := Replay.Wrap(o.traffic);
    var sniffed, after := Sniffer(reader, request.metadataOnly, o.meta, o.classify, o.ctx);
    var replayed := link.(reader := ReplayReader(link.reader.pipe, after));
    bg := Background(Some(sniffed), AfterSniff(d, s, dest, replayed, sniffed));
  }

  /** `Dispatch`: a valid destination is required (the source panics otherwise). The link pair
      is built; a device-limit rejection is returned at once; otherwise the inbound link is
      returned and the background body runs on the outbound link. */
  method Dispatch(d: Dispatcher, s: Session, dest: Destination, o: SniffOracles) returns (res: Dispatched)
    requires dest.IsValid()
    requires s.inbound.Some?
    requires !o.traffic.interrupted
    ensures var built := GetLink(d, s.inbound, dest.network);
            && (res.DeviceLimited? <==> built.DeviceLimitReached?)
            && (res.DeviceLimited? ==> res.email == built.email && res.abandoned == built.abandoned)
            && (res.DeviceLimited? ==> Abandoned(res.abandoned.inbound) && Abandoned(res.abandoned.outbound))
            && (res.Started? ==>
                  && res.inbound.reader.PipeReader? && !res.inbound.reader.interrupted && !res.inbound.writerClosed
                  && BasePipe(res.inbound.writer).direction == Up
                  && (res.background.sniffed.Some? <==> ContentOf(s).request.enabled)
                  && res.inbound == built.pair.inbound
                  && res.background == BackgroundSpec(d, Prepare(s, dest), dest, built.pair.outbound, o))
  {
    var s' := Prepare(s, dest);
    match GetLink(d, s.inbound, dest.network)
    case DeviceLimitReached(email, abandoned) =>
      return DeviceLimited(email, abandoned);
    case Linked(pair) =>
      var bg := RunBackground(d, s', dest, pair.outbound, o);
      return Started(pair.inbound, bg);
  }

  /** `DispatchLink`: the same background body over a link the caller supplies; an invalid
      destination is reported as an error instead of a panic. */
  method DispatchLink(d: Dispatcher, s: Session, dest: Destination, link: Link, o: SniffOracles)
    returns (res: LinkDispatched)
    requires dest.IsValid() ==> s.inbound.Some?
    requires dest.IsValid() && ContentOf(s).request.enabled ==>
               link.reader.PipeReader? && o.traffic.interrupted == link.reader.interrupted
    ensures res.InvalidDestination? <==> !dest.IsValid()
    ensures res.LinkStarted? ==>
              && (res.background.sniffed.Some? <==> ContentOf(s).request.enabled)
              && res.background == BackgroundSpec(d, Prepare(s, dest), dest, link, o)
  {
    if !dest.IsValid() {
      return InvalidDestination;
    }
    var bg := RunBackground(d, Prepare(s, dest), dest, link, o);
    return LinkStarted(bg);
  }

  /** A route-only override (protocol other than "fakedns") never changes what the connection
      goes to: the handler receives the original target, even when the hosts table maps the
      sniffed domain, because that rewrite follows `RouteTarget`. */
  lemma RouteOnlyKeepsTarget(d: Dispatcher, s: Session, dest: Destination, link: Link, sniffed: Outcome)
    requires s.inbound.Some? && s.content.Some?
    requires s.outbound == Outbound(dest, None)
    requires sniffed.Found? && Overrides(sniffed.result, s.content.value.request, d.fdns, dest)
    requires s.content.value.request.routeOnly && Protocol(sniffed.result) != "fakedns"
    ensures var r := AfterSniff(d, s, dest, link, sniffed);
            r.Delivered? ==>
              && r.session.outbound.target == dest
              && r.session.outbound.routeTarget.Some?
              && r.session.outbound.routeTarget.value.network == dest.network
  {
  }

  /** Without a successful sniff that overrides, the handler receives the target the caller
      asked for, changed at most by the hosts table. */
  lemma NoOverrideKeepsTarget(d: Dispatcher, s: Session, dest: Destination, link: Link, sniffed: Outcome)
    requires s.inbound.Some? && s.content.Some?
    requires s.outbound == Outbound(dest, None)
    requires !(sniffed.Found? && Overrides(sniffed.result, s.content.value.request, d.fdns, dest))
    ensures var r := AfterSniff(d, s, dest, link, sniffed);
            r.Delivered? ==>
              && r.session.outbound.routeTarget.None?
              && r.session.outbound.target == dest.(address := HostsMapped(d.dns, s.outbound, dest).GetOr(dest.address))
  {
  }

  /** With sniffing off, the handler receives the requested destination as the target, changed
      at most by the hosts table, and no route target. */
  lemma UnsniffedKeepsTarget(d: Dispatcher, s: Session, dest: Destination, link: Link, o: SniffOracles)
    requires s.inbound.Some? && !ContentOf(s).request.enabled
    ensures var bg := BackgroundSpec(d, Prepare(s, dest), dest, link, o);
            && bg.sniffed.None?
            && (bg.routed.Delivered? ==>
                  && bg.routed.session.outbound.routeTarget.None?
                  && bg.routed.session.outbound.target
                     == dest.(address := HostsMapped(d.dns, Outbound(dest, None), dest).GetOr(dest.address))
                  && bg.routed.link == link)
  {
  }

  /** The bytes sniffing peeked at reach the handler: its link's first read returns exactly
      what the outbound pipe delivered during sniffing, in order and once; with nothing
      delivered, the first read goes to the pipe. */
  lemma {:induction false} SniffedBytesReachHandler(d: Dispatcher, s: Session, dest: Destination, link: Link, o: SniffOracles)
    requires s.inbound.Some? && s.content.Some?
    requires s.content.value.request.enabled && link.reader.PipeReader?
    ensures var bg := BackgroundSpec(d, s, dest, link, o);
            var k := SniffCalls(o, s.content.value.request.metadataOnly);
            bg.routed.Delivered? ==>
              && bg.routed.link.reader.ReplayReader?
              && var (first, rest) := Replay.ReadMultiBuffer(bg.routed.link.reader.replay);
                 if |Replay.Arrived(o.traffic, k)| > 0 then
                   && Replay.Flatten(first.data) == Replay.Arrived(o.traffic, k)
                   && first.err == None
                   && rest == Replay.CachedReader(Replay.Skip(o.traffic, k), [])
                 else
                   (first, rest.source) == Replay.Pull(Replay.Skip(o.traffic, k))
  {
    var k := SniffCalls(o, s.content.value.request.metadataOnly);
    Replay.PeekedBytesReplayed(o.traffic, k);
  }
}
