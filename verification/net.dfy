/** Addresses and destinations as the dispatcher sees them (the `net` package). */
module Net {

  newtype byte = x: int | 0 <= x < 256

  type Port = p: int | 0 <= p < 65536

  /** Raw IP bytes (4 for IPv4, 16 for IPv6). */
  type Ip = seq<byte>

  datatype Network = UnknownNetwork | Tcp | Udp | Unix

  /** An address is either an IP or a domain name (`Family().IsIP()` / `IsDomain()`). */
  datatype Address = IpAddress(ip: Ip) | DomainAddress(domain: string)

  datatype Destination = Destination(network: Network, address: Address, port: Port) {

    /** A destination is dispatchable once its network is known. */
    predicate IsValid()
    {
      network != UnknownNetwork
    }
  }
}
