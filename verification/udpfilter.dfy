/** The fake-DNS translation filters installed on the two pipes of a UDP connection. Both
    share one per-connection table from real IPs to the domains they were looked up for. */
module UdpFilter {

  import opened Wrappers
  import opened Net
  import opened Features

  /** One buffer of a datagram stream; `udp` is the datagram's address, when it has one. */
  datatype Packet = Packet(payload: seq<byte>, udp: Option<Destination>)

  type Table = map<Ip, string>

  /** The per-connection state: the table, created at the first domain-addressed datagram. */
  datatype Translator = Translator(ip2domain: Option<Table>)

  /** Stores `ip -> domain` for every looked-up IP. */
  function Record(t: Table, ips: seq<Ip>, domain: string): (r: Table)
    ensures forall ip :: ip in ips ==> ip in r && r[ip] == domain
    ensures forall ip :: ip in t && ip !in ips ==> ip in r && r[ip] == t[ip]
    ensures forall ip :: ip in r ==> ip in t || ip in ips
    decreases |ips|
  {
    if |ips| == 0 then t else Record(t[ips[0] := domain], ips[1..], domain)
  }

  function Readdress(p: Packet, a: Address): Packet
    requires p.udp.Some?
  {
    p.(udp := Some(p.udp.value.(address := a)))
  }

  /** Only the address of a datagram may change. */
  predicate SameButAddress(p: Packet, q: Packet)
  {
    && q.payload == p.payload
    && q.udp.Some? == p.udp.Some?
    && (p.udp.Some? ==> q.udp.value.network == p.udp.value.network && q.udp.value.port == p.udp.value.port)
  }

  /** Table keys are never dropped. */
  predicate Grows(before: Translator, after: Translator)
  {
    before.ip2domain.Some? ==> after.ip2domain.Some? && before.ip2domain.value.Keys <= after.ip2domain.value.Keys
  }

  /** The datagram is domain-addressed and the lookup of its domain returned `ip`. */
  predicate Looked(d: Dispatcher, p: Packet, ip: Ip)
  {
    && p.udp.Some? && p.udp.value.address.DomainAddress?
    && d.dns.lookupIp(p.udp.value.address.domain).Some?
    && ip in d.dns.lookupIp(p.udp.value.address.domain).value
  }

  /** The uplink filter on one buffer: a pool IP (with sniffing on) becomes the domain it stands
      for; a domain is looked up and every IP it resolves to is recorded against it. */
  function UplinkPacket(d: Dispatcher, sniffing: bool, tr: Translator, p: Packet): (r: (Translator, Packet))
    ensures SameButAddress(p, r.1)
    ensures Grows(tr, r.0)
    ensures r.1 != p ==>
              && p.udp.value.address.IpAddress? && d.fdns.Some? && sniffing
              && d.fdns.value.inPool(p.udp.value.address.ip)
              && |d.fdns.value.domainOf(p.udp.value.address.ip)| > 0
              && r.1.udp.value.address == DomainAddress(d.fdns.value.domainOf(p.udp.value.address.ip))
    ensures r.0 != tr ==> p.udp.Some? && p.udp.value.address.DomainAddress?
    ensures p.udp.Some? && p.udp.value.address.IpAddress? && d.fdns.Some? && sniffing
            && d.fdns.value.inPool(p.udp.value.address.ip)
            && |d.fdns.value.domainOf(p.udp.value.address.ip)| > 0 ==>
              r.1.udp.value.address == DomainAddress(d.fdns.value.domainOf(p.udp.value.address.ip))
    ensures p.udp.Some? && p.udp.value.address.DomainAddress? ==>
              && r.0.ip2domain.Some?
              && (d.dns.lookupIp(p.udp.value.address.domain).Some? ==>
                    forall ip :: ip in d.dns.lookupIp(p.udp.value.address.domain).value ==>
                      ip in r.0.ip2domain.value && r.0.ip2domain.value[ip] == p.udp.value.address.domain)
    ensures tr.ip2domain.Some? ==>
              forall ip :: ip in tr.ip2domain.value && !Looked(d, p, ip) ==>
                ip in r.0.ip2domain.value && r.0.ip2domain.value[ip] == tr.ip2domain.value[ip]
    ensures r.0.ip2domain.Some? ==>
              forall ip :: ip in r.0.ip2domain.value ==>
                (tr.ip2domain.Some? && ip in tr.ip2domain.value) || Looked(d, p, ip)
  {
    if p.udp.None? then (tr, p)
    else match p.udp.value.address
      case IpAddress(ip) =>
        if d.fdns.Some? && d.fdns.value.inPool(ip) && sniffing then
          var domain := d.fdns.value.domainOf(ip);
          if |domain| > 0 then (tr, Readdress(p, DomainAddress(domain))) else (tr, p)
        else (tr, p)
      case DomainAddress(domain) =>
        var t := tr.ip2domain.GetOr(map[]);
        match d.dns.lookupIp(domain)
        case Some(ips) => (Translator(Some(Record(t, ips, domain))), p)
        case None => (Translator(Some(t)), p)
  }

  /** The address rewrite of the uplink filter never reads the table. */
  lemma UplinkRewriteIgnoresTable(d: Dispatcher, sniffing: bool, t1: Translator, t2: Translator, p: Packet)
    ensures UplinkPacket(d, sniffing, t1, p).1 == UplinkPacket(d, sniffing, t2, p).1
  {
  }

  /** The uplink filter on a multi-buffer, buffer by buffer, threading the table. Each buffer is
      rewritten as it would be on its own, since the rewrite does not depend on the table. */
  function Uplink(d: Dispatcher, sniffing: bool, tr: Translator, mb: seq<Packet>): (r: (Translator, seq<Packet>))
    ensures |r.1| == |mb|
    ensures forall i :: 0 <= i < |mb| ==> SameButAddress(mb[i], r.1[i])
    ensures forall i :: 0 <= i < |mb| ==> r.1[i] == UplinkPacket(d, sniffing, tr, mb[i]).1
    ensures Grows(tr, r.0)
    decreases |mb|
  {
    if |mb| == 0 then (tr, [])
    else
      var (tr1, p) := UplinkPacket(d, sniffing, tr, mb[0]);
      var (tr2, rest) := Uplink(d, sniffing, tr1, mb[1..]);
      (tr2, [p] + rest)
  }

  /** The downlink filter on one buffer: a recorded IP is restored to its domain; a domain
      becomes the fake IP allocated for it. */
  function DownlinkPacket(d: Dispatcher, tr: Translator, p: Packet): (q: Packet)
    ensures SameButAddress(p, q)
    ensures q != p && p.udp.value.address.IpAddress? ==>
              tr.ip2domain.Some? && p.udp.value.address.ip in tr.ip2domain.value
              && q.udp.value.address == DomainAddress(tr.ip2domain.value[p.udp.value.address.ip])
    ensures q != p && p.udp.value.address.DomainAddress? ==>
              d.fdns.Some? && q.udp.value.address == IpAddress(d.fdns.value.fakeIpFor(p.udp.value.address.domain))
    ensures tr.ip2domain.None? && p.udp.Some? && p.udp.value.address.IpAddress? ==> q == p
    ensures p.udp.Some? && p.udp.value.address.IpAddress? && tr.ip2domain.Some?
            && p.udp.value.address.ip in tr.ip2domain.value ==>
              q.udp.value.address == DomainAddress(tr.ip2domain.value[p.udp.value.address.ip])
    ensures p.udp.Some? && p.udp.value.address.DomainAddress? && d.fdns.Some? ==>
              q.udp.value.address == IpAddress(d.fdns.value.fakeIpFor(p.udp.value.address.domain))
  {
    if p.udp.None? then p
    else match p.udp.value.address
      case IpAddress(ip) =>
        if tr.ip2domain.Some? && ip in tr.ip2domain.value then Readdress(p, DomainAddress(tr.ip2domain.value[ip]))
        else p
      case DomainAddress(domain) =>
        if d.fdns.Some? then Readdress(p, IpAddress(d.fdns.value.fakeIpFor(domain))) else p
  }

  /** The downlink filter on a multi-buffer; it reads the table and never changes it. Every
      buffer keeps its payload; a recorded IP is restored to its domain; with a fake-DNS engine a
      domain becomes its fake IP; any other buffer passes unchanged. */
  function Downlink(d: Dispatcher, tr: Translator, mb: seq<Packet>): (r: seq<Packet>)
    ensures |r| == |mb|
    ensures forall i :: 0 <= i < |mb| ==> SameButAddress(mb[i], r[i])
    ensures forall i :: 0 <= i < |mb| ==>
              (mb[i].udp.Some? && mb[i].udp.value.address.IpAddress?
               && tr.ip2domain.Some? && mb[i].udp.value.address.ip in tr.ip2domain.value ==>
                 r[i].udp.Some?
                 && r[i].udp.value.address == DomainAddress(tr.ip2domain.value[mb[i].udp.value.address.ip]))
    ensures forall i :: 0 <= i < |mb| ==>
              (mb[i].udp.Some? && mb[i].udp.value.address.DomainAddress? && d.fdns.Some? ==>
                 r[i].udp.Some?
                 && r[i].udp.value.address == IpAddress(d.fdns.value.fakeIpFor(mb[i].udp.value.address.domain)))
    ensures forall i :: 0 <= i < |mb| && r[i] != mb[i] ==>
              && mb[i].udp.Some?
              && (mb[i].udp.value.address.IpAddress? ==>
                    tr.ip2domain.Some? && mb[i].udp.value.address.ip in tr.ip2domain.value)
              && (mb[i].udp.value.address.DomainAddress? ==> d.fdns.Some?)
  {
    seq(|mb|, i requires 0 <= i < |mb| => DownlinkPacket(d, tr, mb[i]))
  }

  /** An entry no buffer of the batch looked up keeps its domain through the whole batch. */
  lemma {:induction false} KeptThrough(d: Dispatcher, sniffing: bool, tr: Translator, mb: seq<Packet>, ip: Ip)
    requires tr.ip2domain.Some? && ip in tr.ip2domain.value
    requires forall k :: 0 <= k < |mb| ==> !Looked(d, mb[k], ip)
    ensures var t := Uplink(d, sniffing, tr, mb).0;
            t.ip2domain.Some? && ip in t.ip2domain.value && t.ip2domain.value[ip] == tr.ip2domain.value[ip]
    decreases |mb|
  {
    if |mb| > 0 {
      var tr1 := UplinkPacket(d, sniffing, tr, mb[0]).0;
      assert !Looked(d, mb[0], ip);
      assert forall k :: 0 <= k < |mb[1..]| ==> mb[1..][k] == mb[k + 1];
      KeptThrough(d, sniffing, tr1, mb[1..], ip);
    }
  }

  /** Every key of the table after a batch was in the table before or came from the lookup of
      some buffer of the batch. */
  lemma {:induction false} UplinkKeysFromLookups(d: Dispatcher, sniffing: bool, tr: Translator, mb: seq<Packet>, ip: Ip)
    requires Uplink(d, sniffing, tr, mb).0.ip2domain.Some?
    requires ip in Uplink(d, sniffing, tr, mb).0.ip2domain.value
    ensures (tr.ip2domain.Some? && ip in tr.ip2domain.value) || exists k :: 0 <= k < |mb| && Looked(d, mb[k], ip)
    decreases |mb|
  {
    if |mb| > 0 {
      var tr1 := UplinkPacket(d, sniffing, tr, mb[0]).0;
      UplinkKeysFromLookups(d, sniffing, tr1, mb[1..], ip);
      if exists k :: 0 <= k < |mb[1..]| && Looked(d, mb[1..][k], ip) {
        var k :| 0 <= k < |mb[1..]| && Looked(d, mb[1..][k], ip);
        assert Looked(d, mb[k + 1], ip);
      } else if !Looked(d, mb[0], ip) {
        assert tr1.ip2domain.Some? && ip in tr1.ip2domain.value;
      }
    }
  }

  /** After a batch, an IP maps to the domain of the last buffer whose lookup returned it. */
  lemma {:induction false} UplinkRecordsLast(d: Dispatcher, sniffing: bool, tr: Translator, mb: seq<Packet>, ip: Ip, j: nat)
    requires j < |mb| && Looked(d, mb[j], ip)
    requires forall k :: j < k < |mb| ==> !Looked(d, mb[k], ip)
    ensures var t := Uplink(d, sniffing, tr, mb).0;
            t.ip2domain.Some? && ip in t.ip2domain.value && t.ip2domain.value[ip] == mb[j].udp.value.address.domain
    decreases |mb|
  {
    var tr1 := UplinkPacket(d, sniffing, tr, mb[0]).0;
    assert forall k :: 0 <= k < |mb[1..]| ==> mb[1..][k] == mb[k + 1];
    if j == 0 {
      KeptThrough(d, sniffing, tr1, mb[1..], ip);
    } else {
      UplinkRecordsLast(d, sniffing, tr1, mb[1..], ip, j - 1);
    }
  }

  /** A reply from any IP the uplink filter recorded for a domain is restored to that domain,
      whatever the table held before. */
  lemma RecordedDomainRestored(d: Dispatcher, sniffing: bool, tr: Translator, p: Packet,
                               ips: seq<Ip>, ip: Ip, reply: Packet)
    requires p.udp.Some? && p.udp.value.address.DomainAddress?
    requires d.dns.lookupIp(p.udp.value.address.domain) == Some(ips) && ip in ips
    requires reply.udp.Some? && reply.udp.value.address == IpAddress(ip)
    ensures DownlinkPacket(d, UplinkPacket(d, sniffing, tr, p).0, reply).udp.value.address
            == p.udp.value.address
  {
  }

  /** With an engine whose allocation inverts its reverse lookup, a datagram sent to a fake IP
      goes upstream addressed to the domain, and the reply from that domain comes back from the
      same fake IP. */
  lemma FakeIpRoundTrip(d: Dispatcher, tr: Translator, p: Packet, reply: Packet)
    requires d.fdns.Some?
    requires p.udp.Some? && p.udp.value.address.IpAddress?
    requires d.fdns.value.inPool(p.udp.value.address.ip)
    requires |d.fdns.value.domainOf(p.udp.value.address.ip)| > 0
    requires d.fdns.value.fakeIpFor(d.fdns.value.domainOf(p.udp.value.address.ip)) == p.udp.value.address.ip
    requires reply.udp.Some? && reply.udp.value.address == UplinkPacket(d, true, tr, p).1.udp.value.address
    ensures UplinkPacket(d, true, tr, p).1.udp.value.address.DomainAddress?
    ensures UplinkPacket(d, true, tr, p).0 == tr
    ensures DownlinkPacket(d, tr, reply).udp.value.address == p.udp.value.address
  {
  }

  /** With sniffing off, the uplink filter forwards every buffer unchanged; it only records. */
  lemma {:induction false} UplinkWithoutSniffingForwards(d: Dispatcher, tr: Translator, mb: seq<Packet>)
    ensures Uplink(d, false, tr, mb).1 == mb
    decreases |mb|
  {
    if |mb| > 0 {
      UplinkWithoutSniffingForwards(d, UplinkPacket(d, false, tr, mb[0]).0, mb[1..]);
      assert mb == [mb[0]] + mb[1..];
    }
  }
}
