/** The destination override after a successful sniff: the decision (`shouldOverride`) and
    its application to the outbound descriptor. */
module Override {

  import opened Wrappers
  import opened Net
  import opened Text
  import opened Sniff
  import opened Sessions
  import opened Features

  /** The lower-cased sniffed domain equals an entry of the exclude list (entries are compared
      as configured, not lower-cased). */
  predicate Excluded(domain: string, exclude: seq<string>)
  {
    exists i :: 0 <= i < |exclude| && exclude[i] == ToLower(domain)
  }

  /** The protocol compared with the configured prefixes: for a composite result, the protocol
      of the part that supplied the domain. */
  function ProtocolString(r: SniffResult): string
  {
    if r.Composite? then ProtocolForDomainResult(r) else Protocol(r)
  }

  /** The fake-DNS fallback: the "fakedns" prefix is configured, the protocol is not
      bittorrent, and the pre-sniff destination is an IP inside the fake pool. */
  predicate FakeDnsMissed(fdns: Option<FakeDns>, protocol: string, p: string, dest: Destination)
  {
    && fdns.Some?
    && protocol != "bittorrent"
    && p == "fakedns"
    && dest.address.IpAddress?
    && fdns.value.inPool(dest.address.ip)
  }

  /** One configured prefix `p` asks for the override. */
  predicate Triggers(p: string, r: SniffResult, fdns: Option<FakeDns>, dest: Destination)
  {
    || HasPrefix(ProtocolString(r), p)
    || FakeDnsMissed(fdns, ProtocolString(r), p, dest)
    || IsProtoSubsetOf(r, p)
  }

  /** The override policy, stated over whole lists. */
  predicate Overrides(r: SniffResult, request: SniffingRequest, fdns: Option<FakeDns>, dest: Destination)
  {
    && !Excluded(Domain(r), request.excludeForDomain)
    && exists i :: 0 <= i < |request.overrideDestinationForProtocol|
                   && Triggers(request.overrideDestinationForProtocol[i], r, fdns, dest)
  }

  /** `shouldOverride`: the exclude scan, then the prefix scan. */
  method ShouldOverride(r: SniffResult, request: SniffingRequest, fdns: Option<FakeDns>, dest: Destination)
    returns (b: bool)
    ensures b <==> Overrides(r, request, fdns, dest)
    ensures Excluded(Domain(r), request.excludeForDomain) ==> !b
  {
    var domain := Domain(r);
    var lowered := ToLower(domain);
    var i := 0;
    while i < |request.excludeForDomain|
      invariant i <= |request.excludeForDomain|
      invariant forall j :: 0 <= j < i ==> request.excludeForDomain[j] != lowered
    {
      if lowered == request.excludeForDomain[i] {
        return false;
      }
      i := i + 1;
    }
    var protocol := Protocol(r);
    if r.Composite? {
      protocol := ProtocolForDomainResult(r);
    }
    var prefixes := request.overrideDestinationForProtocol;
    var k := 0;
    while k < |prefixes|
      invariant k <= |prefixes|
      invariant forall j :: 0 <= j < k ==> !Triggers(prefixes[j], r, fdns, dest)
    {
      var p := prefixes[k];
      if HasPrefix(protocol, p) {
        return true;
      }
      if fdns.Some? && protocol != "bittorrent" && p == "fakedns"
         && dest.address.IpAddress? && fdns.value.inPool(dest.address.ip) {
        return true;
      }
      if r.Plain? && r.subsetOf.Some? {
        if p in r.subsetOf.value {
          return true;
        }
      }
      k := k + 1;
    }
    return false;
  }

  /** With "fakedns" as the only configured prefix and a result that neither starts with it
      nor offers the subset capability, the override fires exactly on the fake-DNS fallback:
      a fake-DNS engine is present, the protocol is not bittorrent, the destination is an IP
      in the pool, and the domain is not excluded. */
  lemma FakeDnsFallbackOnly(r: SniffResult, request: SniffingRequest, fdns: Option<FakeDns>, dest: Destination)
    requires request.overrideDestinationForProtocol == ["fakedns"]
    requires !HasPrefix(ProtocolString(r), "fakedns")
    requires !IsProtoSubsetOf(r, "fakedns")
    ensures Overrides(r, request, fdns, dest) <==>
              && !Excluded(Domain(r), request.excludeForDomain)
              && fdns.Some? && ProtocolString(r) != "bittorrent"
              && dest.address.IpAddress? && fdns.value.inPool(dest.address.ip)
  {
    var ps := request.overrideDestinationForProtocol;
    assert ps[0] == "fakedns";
    assert Triggers(ps[0], r, fdns, dest) <==> FakeDnsMissed(fdns, ProtocolString(r), "fakedns", dest);
  }

  /** A protocol equal to, or starting with, a configured prefix overrides unless excluded. */
  lemma PrefixMatchOverrides(r: SniffResult, request: SniffingRequest, fdns: Option<FakeDns>, dest: Destination, i: nat)
    requires i < |request.overrideDestinationForProtocol|
    requires HasPrefix(ProtocolString(r), request.overrideDestinationForProtocol[i])
    ensures Overrides(r, request, fdns, dest) <==> !Excluded(Domain(r), request.excludeForDomain)
  {
  }

  /** What a finished sniff leaves behind: the outbound descriptor, the content descriptor and
      the destination routing will use. */
  datatype Applied = Applied(outbound: Outbound, content: Content, destination: Destination)

  /** The code after `sniffer` returns in the background body: record the protocol of a
      successful sniff; when the override applies, point the destination at the parsed
      sniffed domain and store it in `RouteTarget` (route-only, protocol other than "fakedns")
      or in `Target`. */
  function ApplySniffed(d: Dispatcher, ob: Outbound, content: Content, dest: Destination, sniffed: Outcome): (a: Applied)
    ensures sniffed.Failed? ==> a == Applied(ob, content, dest)
    ensures sniffed.Found? ==> a.content == content.(protocol := Protocol(sniffed.result))
    ensures a.destination.network == dest.network && a.destination.port == dest.port
    ensures sniffed.Found? && Overrides(sniffed.result, content.request, d.fdns, dest) ==>
              a.destination.address == d.parseAddress(Domain(sniffed.result))
    ensures !(sniffed.Found? && Overrides(sniffed.result, content.request, d.fdns, dest)) ==>
              a.outbound == ob && a.destination == dest
    ensures a.outbound.target != ob.target ==> a.outbound.target == a.destination
    ensures a.outbound.routeTarget != ob.routeTarget ==> a.outbound.routeTarget == Some(a.destination)
    ensures a.outbound.target == ob.target || a.outbound.routeTarget == ob.routeTarget
    ensures sniffed.Found? && Overrides(sniffed.result, content.request, d.fdns, dest) ==>
              if content.request.routeOnly && Protocol(sniffed.result) != "fakedns"
              then a.outbound.target == ob.target && a.outbound.routeTarget == Some(a.destination)
              else a.outbound.target == a.destination && a.outbound.routeTarget == ob.routeTarget
  {
    match sniffed
    case Failed(_) => Applied(ob, content, dest)
    case Found(result) =>
      var content' := content.(protocol := Protocol(result));
      if Overrides(result, content.request, d.fdns, dest) then
        var dest' := dest.(address := d.parseAddress(Domain(result)));
        if content.request.routeOnly && Protocol(result) != "fakedns" then
          Applied(ob.(routeTarget := Some(dest')), content', dest')
        else
          Applied(ob.(target := dest'), content', dest')
      else
        Applied(ob, content', dest)
  }
}
