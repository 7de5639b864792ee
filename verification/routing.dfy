/** Routed dispatch (`routedDispatch`): the hosts rewrite, the rule check, the choice of the
    outbound handler, and the detour written to the access log. */
module Routing {

  import opened Wrappers
  import opened Net
  import opened Text
  import opened Sessions
  import opened Features
  import opened Links

  /** How the handler was found: the forced tag, the router's pick, or a fallback. */
  datatype Via = ForcedRoute | PickedRoute | FallbackRoute

  datatype Abort = RuleBlocked | MissingForcedTag(tag: string) | NoHandler

  /** The end of a routed dispatch: the link was closed and interrupted, or handed to exactly
      one handler together with the session as it stood then. */
  datatype Routed =
    | Aborted(reason: Abort, session: Session, link: Link)
    | Delivered(handler: Handler, via: Via, session: Session, link: Link)

  function Separator(via: Via): string
  {
    match via
    case ForcedRoute => " ==> "
    case PickedRoute => " -> "
    case FallbackRoute => " >> "
  }

  /** The access-log detour: the outbound tag alone without an inbound tag, otherwise both
      tags joined by the separator of the route taken. */
  function Detour(inTag: string, outTag: string, via: Via): string
  {
    if inTag == "" then outTag else inTag + Separator(via) + outTag
  }

  /** The detour starts with the inbound tag and ends with the outbound tag. */
  lemma DetourShape(inTag: string, outTag: string, via: Via)
    ensures HasPrefix(Detour(inTag, outTag, via), inTag)
    ensures HasSuffix(Detour(inTag, outTag, via), outTag)
  {
  }

  /** With an inbound tag, the detour tells which route was taken. */
  lemma DetourNamesRoute(inTag: string, outTag: string, v1: Via, v2: Via)
    requires inTag != ""
    requires Detour(inTag, outTag, v1) == Detour(inTag, outTag, v2)
    ensures v1 == v2
  {
    var k := |inTag| + 1;
    assert Detour(inTag, outTag, v1)[k] == Separator(v1)[1];
    assert Detour(inTag, outTag, v2)[k] == Separator(v2)[1];
  }

  /** The access-log record after the handler is known: the detour is set when the handler
      has a tag; a missing record stays missing. */
  function Annotate(access: Option<AccessMessage>, inTag: string, h: Handler, via: Via): (a: Option<AccessMessage>)
    ensures a.Some? <==> access.Some?
    ensures a.Some? && h.tag == "" ==> a == access
    ensures a.Some? && h.tag != "" && inTag == "" ==> a.value.detour == h.tag
    ensures a.Some? && h.tag != "" && inTag != "" ==>
              && HasPrefix(a.value.detour, inTag + Separator(via)) && HasSuffix(a.value.detour, h.tag)
              && |a.value.detour| == |inTag| + |Separator(via)| + |h.tag|
  {
    match access
    case None => None
    case Some(m) =>
      if h.tag != "" then
        DetourShape(inTag, h.tag, via);
        var detour := Detour(inTag, h.tag, via);
        assert inTag != "" ==> detour[..|inTag + Separator(via)|] == inTag + Separator(via);
        Some(m.(detour := detour))
      else Some(m)
  }

  /** The address the hosts table maps a domain destination to, looked up by the target. */
  function HostsMapped(dns: DnsClient, ob: Outbound, dest: Destination): Option<Address>
  {
    if dns.hosts.Some? && dest.address.DomainAddress? then dns.hosts.value(ob.target) else None
  }

  /** The static hosts rewrite: the destination gets the mapped address, and so does whichever
      of `RouteTarget` (when it is the destination) or `Target` was driving it. */
  function HostsRewrite(dns: DnsClient, ob: Outbound, dest: Destination): (r: (Outbound, Destination))
    ensures HostsMapped(dns, ob, dest).None? ==> r == (ob, dest)
    ensures HostsMapped(dns, ob, dest).Some? ==>
              r.1 == dest.(address := HostsMapped(dns, ob, dest).value)
    ensures ob.routeTarget == Some(dest) ==> r.0.target == ob.target && r.0.routeTarget == Some(r.1)
    ensures ob.routeTarget != Some(dest) ==> r.0.routeTarget == ob.routeTarget
    ensures ob.routeTarget != Some(dest) && HostsMapped(dns, ob, dest).Some? ==> r.0.target == r.1
  {
    match HostsMapped(dns, ob, dest)
    case None => (ob, dest)
    case Some(a) =>
      var dest' := dest.(address := a);
      if ob.routeTarget == Some(dest) then (ob.(routeTarget := Some(dest')), dest')
      else (ob.(target := dest'), dest')
  }

  /** The rule manager blocks the session's user from the (rewritten) destination. */
  predicate Blocked(d: Dispatcher, s: Session, dest: Destination)
    requires s.inbound.Some?
  {
    var inb := s.inbound.value;
    inb.user.Some? && d.ruleBlocks(inb.tag, HostsRewrite(d.dns, s.outbound, dest).1, inb.user.value.email)
  }

  /** The handler the router picks, when it has a rule and the picked tag resolves. */
  function Picked(d: Dispatcher, s: Session): Option<Handler>
  {
    if d.router.None? then None
    else match d.router.value(s)
      case Some(tag) => d.ohm.GetHandler(tag)
      case None => None
  }

  /** The candidates in order of precedence. A forced tag is the only candidate when set. */
  function Candidates(d: Dispatcher, s: Session, inTag: string): seq<(Option<Handler>, Via)>
  {
    if s.forcedTag != "" then [(d.ohm.GetHandler(s.forcedTag), ForcedRoute)]
    else [(Picked(d, s), PickedRoute), (d.ohm.GetHandler(inTag), FallbackRoute), (d.ohm.defaultHandler, FallbackRoute)]
  }

  /** The first candidate that resolved. */
  function FirstResolved(cs: seq<(Option<Handler>, Via)>): Option<(Handler, Via)>
  {
    if |cs| == 0 then None
    else if cs[0].0.Some? then Some((cs[0].0.value, cs[0].1))
    else FirstResolved(cs[1..])
  }

  /** The session after the hosts rewrite, as routing sees it. */
  function Rewritten(d: Dispatcher, s: Session, dest: Destination): Session
  {
    s.(outbound := HostsRewrite(d.dns, s.outbound, dest).0)
  }

  function Deliver(h: Handler, via: Via, s: Session, link: Link, inTag: string): Routed
  {
    Delivered(h, via, s.(access := Annotate(s.access, inTag, h, via)), link)
  }

  /** `routedDispatch`. */
  function RoutedDispatch(d: Dispatcher, s: Session, dest: Destination, link: Link): (r: Routed)
    requires s.inbound.Some?
    ensures Blocked(d, s, dest) ==> r.Aborted? && r.reason == RuleBlocked
    ensures r.Aborted? ==> r.link == Abandon(link)
    ensures r.Delivered? ==> r.link == link && r.session.forcedTag == ""
    ensures r.Delivered? ==> r.session.inbound == s.inbound && r.session.content == s.content
    ensures !Blocked(d, s, dest) ==>
              (r.Delivered? <==> FirstResolved(Candidates(d, Rewritten(d, s, dest), s.inbound.value.tag)).Some?)
    ensures r.Delivered? ==>
              (r.handler, r.via) == FirstResolved(Candidates(d, Rewritten(d, s, dest), s.inbound.value.tag)).value
    ensures r.Delivered? ==>
              r.session.outbound == HostsRewrite(d.dns, s.outbound, dest).0
              && r.session.access == Annotate(s.access, s.inbound.value.tag, r.handler, r.via)
    ensures !Blocked(d, s, dest) && s.forcedTag != "" && d.ohm.GetHandler(s.forcedTag).None? ==>
              r == Aborted(MissingForcedTag(s.forcedTag), Rewritten(d, s, dest).(forcedTag := ""), Abandon(link))
    ensures !Blocked(d, s, dest) && s.forcedTag == "" ==>
              r.Aborted? ==> r.reason == NoHandler
  {
    var (ob, dest') := HostsRewrite(d.dns, s.outbound, dest);
    var s1 := s.(outbound := ob);
    var inb := s.inbound.value;
    if inb.user.Some? && d.ruleBlocks(inb.tag, dest', inb.user.value.email) then
      Aborted(RuleBlocked, s1, Abandon(link))
    else
      var inTag := inb.tag;
      if s1.forcedTag != "" then
        var s2 := s1.(forcedTag := "");
        match d.ohm.GetHandler(s1.forcedTag)
        case Some(h) => Deliver(h, ForcedRoute, s2, link, inTag)
        case None => Aborted(MissingForcedTag(s1.forcedTag), s2, Abandon(link))
      else
        var picked := Picked(d, s1);
        var cs := Candidates(d, s1, inTag);
        assert cs[1..] == [(d.ohm.GetHandler(inTag), FallbackRoute), (d.ohm.defaultHandler, FallbackRoute)];
        assert cs[1..][1..] == [(d.ohm.defaultHandler, FallbackRoute)];
        assert cs[1..][1..][1..] == [];
        assert FirstResolved(cs[1..][1..]) ==
          if d.ohm.defaultHandler.Some? then Some((d.ohm.defaultHandler.value, FallbackRoute)) else None;
        assert FirstResolved(cs[1..]) ==
          if d.ohm.GetHandler(inTag).Some? then Some((d.ohm.GetHandler(inTag).value, FallbackRoute))
          else FirstResolved(cs[1..][1..]);
        if picked.Some? then Deliver(picked.value, PickedRoute, s1, link, inTag)
        else
          var handler := if d.ohm.GetHandler(inTag).Some? then d.ohm.GetHandler(inTag) else d.ohm.defaultHandler;
          match handler
          case Some(h) => Deliver(h, FallbackRoute, s1, link, inTag)
          case None => Aborted(NoHandler, s1, Abandon(link))
  }

  /** Handler precedence: a resolving forced tag beats the router; a resolving router pick
      beats the handler named like the inbound; that handler beats the default; with nothing
      resolving the link is abandoned and no handler gets it. */
  lemma HandlerPrecedence(d: Dispatcher, s: Session, dest: Destination, link: Link)
    requires s.inbound.Some? && !Blocked(d, s, dest)
    ensures var r := RoutedDispatch(d, s, dest, link);
            var s1 := Rewritten(d, s, dest);
            var inTag := s.inbound.value.tag;
            && (s.forcedTag != "" && d.ohm.GetHandler(s.forcedTag).Some? ==>
                  r.Delivered? && r.handler == d.ohm.GetHandler(s.forcedTag).value && r.via == ForcedRoute)
            && (s.forcedTag == "" && Picked(d, s1).Some? ==>
                  r.Delivered? && r.handler == Picked(d, s1).value && r.via == PickedRoute)
            && (s.forcedTag == "" && Picked(d, s1).None? && d.ohm.GetHandler(inTag).Some? ==>
                  r.Delivered? && r.handler == d.ohm.GetHandler(inTag).value && r.via == FallbackRoute)
            && (s.forcedTag == "" && Picked(d, s1).None? && d.ohm.GetHandler(inTag).None?
                && d.ohm.defaultHandler.Some? ==>
                  r.Delivered? && r.handler == d.ohm.defaultHandler.value && r.via == FallbackRoute)
            && (s.forcedTag == "" && Picked(d, s1).None? && d.ohm.GetHandler(inTag).None?
                && d.ohm.defaultHandler.None? ==>
                  r == Aborted(NoHandler, s1, Abandon(link)))
  {
  }

  /** A blocked user is turned away whatever the outbound manager and router hold: the check
      comes before any handler lookup. */
  lemma BlockedBeforeLookup(d: Dispatcher, ohm: OutboundManager, router: Option<Session -> Option<string>>,
                            s: Session, dest: Destination, link: Link)
    requires s.inbound.Some? && Blocked(d, s, dest)
    ensures RoutedDispatch(d, s, dest, link) == RoutedDispatch(d.(ohm := ohm, router := router), s, dest, link)
    ensures RoutedDispatch(d, s, dest, link).reason == RuleBlocked
  {
  }
}
