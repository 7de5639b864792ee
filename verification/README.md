# Connection dispatcher — a Dafny model

This project models the decision logic of the proxy's connection dispatcher
(`app/mydispatcher/default.go`). When a connection arrives, the dispatcher builds its two
cross-connected links and wraps the writers with the user's rate limiter and traffic
counters. It may sniff the first bytes of the stream through a replay cache, and it may
rewrite the destination to the sniffed domain. It then routes the connection to exactly one
outbound handler, or abandons it. The goroutines, pipes and external services are replaced
by explicit state records and oracles. What is left is a set of pure decision functions and
three loops, each proved against a reference statement of what it should do.

Modules (one file each):

- `Wrappers`, `Net`, `Text`: optional values, addresses and destinations, and the string
  helpers (`HasPrefix`, ASCII `ToLower`).
- `Replay`: the replay cache (`cachedReader`). It works over a scripted underlying reader.
- `Sniff`: sniff results and the content loop, which is also stated as a decision table
  (`ContentSpec`). It also holds the combination of the metadata and content outcomes.
- `Sessions`: the session records (inbound, outbound, content, forced tag, access record).
- `Features`: the collaborators as oracles. These are the outbound manager, router, policy,
  stats, DNS client, fake-DNS engine, limiter, rule manager and address parser.
- `Override`: `shouldOverride` (the loops, plus a list-level statement) and how an override
  is applied.
- `Links`: `getLink`. Each writer is a stack of wrappers.
- `UdpFilter`: the fake-DNS translation filters for UDP, with a per-connection table.
- `Routing`: `routedDispatch`. It does the hosts rewrite and the rule check, picks the
  handler by precedence, and writes the detour.
- `Dispatcher`: `Dispatch` and `DispatchLink`. They share one background body, which runs
  sequentially.

Points of the code that a reader might expect to behave otherwise:

- The combined sniff result is built as `CompositeResult(metaresult, contentResult)`
  (`app/mydispatcher/default.go:439`). It therefore takes its domain from the metadata result
  and its protocol from the content result.
- `Cache` copies the cached bytes into the caller's buffer without consuming them
  (`app/mydispatcher/default.go:47-50`). The first read after sniffing therefore replays every
  cached byte, including those the sniffers already saw (`app/mydispatcher/default.go:54-74`).
- The rule check runs for any session that has a user, even one without an email
  (`app/mydispatcher/default.go:464`). The limiter and counters apply only to users with a
  non-empty email (`app/mydispatcher/default.go:238`).
- `DispatchLink` reports an invalid destination as an error
  (`app/mydispatcher/default.go:357-358`). `Dispatch` panics, which the model states as a
  precondition.
- The hosts table is queried with `Target`, not with the destination
  (`app/mydispatcher/default.go:447`). The rewrite then goes to `RouteTarget` when that
  field equals the destination, and to `Target` otherwise.

## Model

| member | source | states |
|---|---|---|
| `Replay.CopyInto` | app/mydispatcher/default.go:47-50 | copying the cache into one buffer yields exactly the longest prefix of the cached bytes that fits |
| `Replay.Cache` | app/mydispatcher/default.go:41-52 | the cache keeps everything it had and gains the bytes of one read; the caller's buffer holds the first min(cache size, buffer size) cached bytes; the source advanced by one read |
| `Replay.Interrupt` | app/mydispatcher/default.go:85-92 | afterwards the cache holds no bytes and the underlying reader is interrupted |
| `Replay.ReplayExactlyOnce` | app/mydispatcher/default.go:54-74 | with bytes cached, a read returns the whole cache with no error and leaves it empty; the next read goes to the underlying reader |
| `Replay.CacheAccumulates` | app/mydispatcher/default.go:41-52 | after n `Cache` calls the cache holds its earlier bytes followed by everything the n reads delivered |
| `Replay.PeekedBytesReplayed` | app/mydispatcher/default.go:41-83 | after n `Cache` calls on a fresh reader, the first read yields exactly the delivered bytes, once, and then delegates; if nothing was delivered, it delegates at once |
| `Replay.InterruptDropsCache` | app/mydispatcher/default.go:85-92 | after an interrupt nothing is replayed; the read goes to the (interrupted) source |
| `Sniff.Combine` | app/mydispatcher/default.go:435-441 | the combination succeeds iff either side did; content error with metadata success gives the metadata result; both successes give a composite whose domain is the metadata domain and whose protocol is the content protocol; otherwise the content outcome unchanged |
| `Sniff.ContentSpec` | app/mydispatcher/default.go:410-434 | at most two `Cache` calls; a done context before the first attempt returns its error with no call; a conclusive verdict on a non-empty payload is returned at that attempt; a full payload without one gives unknown content; a cancelled exit carries the context's error and follows a live check; the timeout exit reports the timeout after exactly two calls |
| `Sniff.ContentSpecEarlierAttemptsFailed` | app/mydispatcher/default.go:410-434 | every attempt before the last was inconclusive and not full and made with the context live; a cancelled exit follows only such attempts, so a conclusive verdict is never replaced by the context's error; the timeout exit happens iff both attempts were inconclusive and not full and the context stayed live |
| `Sniff.SniffContent` | app/mydispatcher/default.go:410-434 | the loop computes the decision table's verdict and leaves the replay reader after exactly that many `Cache` calls |
| `Sniff.Sniffer` | app/mydispatcher/default.go:398-442 | metadata-only returns the metadata outcome and never touches the reader; otherwise the combination of the metadata outcome with the content loop's outcome, the reader read as many times as the loop cached |
| `Text.ToLower` | app/mydispatcher/default.go:280 | every character is lowered, none added or dropped |
| `Text.UpperEntryNeverMatches` | app/mydispatcher/default.go:279-283 | only the sniffed side is lowered: an exclude entry holding an upper-case letter never matches |
| `Override.ShouldOverride` | app/mydispatcher/default.go:277-305 | true iff the lowered sniffed domain is in no exclude entry and some configured prefix starts the protocol string, or triggers the fake-DNS fallback, or is reported as a superset by the result; never true for an excluded domain |
| `Override.FakeDnsFallbackOnly` | app/mydispatcher/default.go:292-296 | with only "fakedns" configured, a protocol that does not start with it and a result that does not report it as a subset, override iff a fake-DNS engine exists, the protocol is not bittorrent, the destination is an IP in the pool, and the domain is not excluded |
| `Override.PrefixMatchOverrides` | app/mydispatcher/default.go:288-291 | a protocol equal to or starting with a configured prefix overrides exactly when the domain is not excluded |
| `Override.ApplySniffed` | app/mydispatcher/default.go:336-348 | a failed sniff changes nothing; a success records the protocol; an override points the destination at the parsed domain and writes only `RouteTarget` (route-only, non-fakedns) or only `Target`; without an override neither field nor the destination changes |
| `Links.GetLink` | app/mydispatcher/default.go:219-274 | device-limit rejection iff a user with an email is rejected by the limiter, with both links closed and interrupted; otherwise cross-connected links, translated iff UDP; writers are rate-wrapped iff the limiter says so and stat-wrapped per direction iff the policy flag is on and the counter exists; no wrapping without such a user |
| `Links.CounterNameRoundTrip` | app/mydispatcher/default.go:255-264 | the counter name gives back the user and the direction it counts |
| `Links.CounterNamesDistinct` | app/mydispatcher/default.go:254-271 | different users or directions never share a counter |
| `UdpFilter.Record` | app/mydispatcher/default.go:182-185 | every looked-up IP maps to the domain; other entries are kept; nothing else is added |
| `UdpFilter.UplinkPacket` | app/mydispatcher/default.go:160-191 | only the address may change: a pool IP (with sniffing on and a non-empty reverse lookup) becomes the domain it stands for, and nothing else is rewritten; a domain-addressed datagram creates the table and records every IP its lookup returns against the domain; every entry the lookup did not return keeps its domain, and every key comes from the old table or the lookup; otherwise the table is unchanged, and it never loses a key |
| `UdpFilter.UplinkRewriteIgnoresTable` | app/mydispatcher/default.go:164-174 | the uplink address rewrite gives the same datagram whatever the table holds |
| `UdpFilter.Uplink` | app/mydispatcher/default.go:159-193 | the batch keeps its length and payloads, every buffer is rewritten exactly as it would be on its own, the table never loses a key |
| `UdpFilter.UplinkKeysFromLookups` | app/mydispatcher/default.go:176-186 | every key of the table after a batch was in the table before or was returned by the lookup of some buffer of the batch |
| `UdpFilter.DownlinkPacket` | app/mydispatcher/default.go:195-215 | only the address may change: a recorded IP is restored to its domain, a domain becomes its fake IP whenever a fake-DNS engine exists, and no other datagram changes; without a table, IP-addressed datagrams pass untouched |
| `UdpFilter.Downlink` | app/mydispatcher/default.go:194-217 | the batch keeps its length and payloads; in each buffer a recorded IP is restored to its domain and, with a fake-DNS engine, a domain becomes its fake IP; any other buffer passes unchanged |
| `UdpFilter.KeptThrough` | app/mydispatcher/default.go:159-191 | an entry that no buffer of the batch looked up keeps its domain through the batch |
| `UdpFilter.UplinkRecordsLast` | app/mydispatcher/default.go:155-191 | after a batch, every IP some buffer's lookup returned maps to the domain of the last such buffer |
| `UdpFilter.RecordedDomainRestored` | app/mydispatcher/default.go:180-207 | a reply from any IP the uplink resolved a domain to comes back addressed to that domain |
| `UdpFilter.FakeIpRoundTrip` | app/mydispatcher/default.go:165-213 | with a consistent engine, a datagram to a fake IP goes up to its domain, and the reply from that domain comes back from the same fake IP |
| `UdpFilter.UplinkWithoutSniffingForwards` | app/mydispatcher/default.go:166 | with sniffing off the uplink filter rewrites no address |
| `Routing.DetourShape` | app/mydispatcher/default.go:522-530 | the detour starts with the inbound tag and ends with the outbound tag |
| `Routing.DetourNamesRoute` | app/mydispatcher/default.go:524-530 | with an inbound tag, the detour determines whether the route was forced (`==>`), picked (`->`) or a fallback (`>>`) |
| `Routing.Annotate` | app/mydispatcher/default.go:520-533 | a missing record stays missing; a handler without a tag leaves the record alone; otherwise the detour is the tag alone (no inbound tag) or exactly inbound tag, separator, handler tag (`==>`, `->` or `>>`), nothing in between |
| `Routing.HostsRewrite` | app/mydispatcher/default.go:446-457 | nothing changes unless a domain destination is mapped; then the destination takes the mapped address, and the field in effect is rewritten: `RouteTarget` if it was the destination (`Target` kept), else `Target` (`RouteTarget` kept) |
| `Routing.RoutedDispatch` | app/mydispatcher/default.go:444-536 | a blocked user aborts; otherwise delivery happens iff the first candidate in precedence order resolves, to that handler; an unresolved forced tag aborts with no fallback; every abort abandons the link; a delivery clears the forced tag, keeps the inbound and content descriptors (with the sniffed protocol), and carries the rewritten outbound and annotated access record |
| `Routing.HandlerPrecedence` | app/mydispatcher/default.go:477-518 | forced tag over router pick over same-inbound-tag handler over default handler; none resolving aborts with no handler |
| `Routing.BlockedBeforeLookup` | app/mydispatcher/default.go:462-472 | a blocked user is aborted whatever the outbound manager and router hold |
| `Dispatcher.RunBackground` | app/mydispatcher/default.go:328-350 | without sniffing, routes the unchanged session; with sniffing, sniffs through a replay reader (metadata-only yields the metadata outcome), applies the override and routes the replay link |
| `Dispatcher.Dispatch` | app/mydispatcher/default.go:308-353 | a device-limit rejection is returned with the user's email and both links abandoned, and nothing is routed; otherwise the open inbound link (downlink reader, uplink writer) is returned, sniffing runs iff the request enables it, and the background body runs on the outbound link with a fresh outbound descriptor targeting the destination |
| `Dispatcher.DispatchLink` | app/mydispatcher/default.go:356-396 | an error iff the destination is invalid, whatever the session, link and reads hold; otherwise the same background body over the supplied link, sniffing iff the request enables it |
| `Dispatcher.RouteOnlyKeepsTarget` | app/mydispatcher/default.go:343-347 | after a route-only override (non-fakedns) the handler receives the original target, even if the hosts table maps the sniffed domain |
| `Dispatcher.NoOverrideKeepsTarget` | app/mydispatcher/default.go:339-348 | without an overriding sniff, no route target is set and the target is the requested destination, changed at most by the hosts table |
| `Dispatcher.UnsniffedKeepsTarget` | app/mydispatcher/default.go:327-328 | with sniffing off nothing is sniffed, no route target is set, and the handler gets the caller's link with the requested destination as target, changed at most by the hosts table |
| `Dispatcher.SniffedBytesReachHandler` | app/mydispatcher/default.go:330-335 | the handler's first read returns exactly the bytes the pipe delivered while sniffing, once; if none were delivered, the read goes to the pipe |

## Left out

- The UDP translation filters are a separate module (`UdpFilter`). On the pipes, `GetLink`
  only records that they are installed (`Pipe.translated`). The request's sniffing flag, which
  the uplink filter reads, is passed to the filter directly.
- The reads of the outbound pipe are an oracle script (`SniffOracles.traffic`) beside the
  link. The entry points require it to agree with the link: the script of a fresh `Dispatch`
  link is not interrupted, and for `DispatchLink` it is interrupted exactly when the supplied
  pipe reader is.
- Goroutines. The background body of `Dispatch`/`DispatchLink` runs to its end before the
  model returns; the inbound link is returned regardless of how it ends.
- Pipes and buffers. `pipe.New` and the pipe options are reduced to two `Pipe` values, and a
  reader to a script of read outcomes (`Replay.Source`). The pipe package is not part of this
  model. Three assumptions stand in for it: a read past the end of the script reports the end
  of the stream, a read after an interrupt reports a closed pipe, and the timed and untimed
  reads draw from the same script. The 100 ms timeout, buffer release and the mutex are not
  modelled.
- The protocol sniffers (`NewSniffer`, `SniffMetadata`, `Sniff`) are oracles: the metadata
  outcome and a classifier over payloads. `sniffer.go` is not part of this model. The
  composite result follows its upstream definition: domain and protocol-for-domain from the
  first argument, protocol from the second. A composite does not offer `IsProtoSubsetOf`.
- Context cancellation is a check index from which `ctx.Done()` is observed. The context
  values themselves are the explicit `Session` record.
- The collaborators' internals are oracles, passed as `Features.Dispatcher`. These are the
  limiter, rule manager, router, outbound manager, DNS, fake DNS, hosts lookup, policy, stats
  and `net.ParseAddress`. `Destination.String()`, `ip.String()` and `IP().String()` are not
  modelled: the oracles receive the destination or address, and the table is keyed by IP.
- `GetFakeIPForDomain` is taken as its first element. The source indexes `[0]` without a
  check; an empty answer would panic, and that is not modelled.
- Logging is left out, except the detour value and whether an access record exists.
  Error-message text is left out too; the device-limit error carries the user's email.
- `init`, `Init`, `Type`, `Start` and `Close` registration boilerplate.
- Links.GetLink: the source address is passed to the limiter as `Source.Address.IP().String()`,
  which panics for a domain source address. The model accepts any address and hands it to the
  limiter oracle as it is.
- The panic on an invalid destination in `Dispatch` is a precondition. The nil dereferences
  the source would hit are preconditions too: `routedDispatch` needs an inbound descriptor,
  and the sniffing body needs the outbound reader to be a pipe reader.
- Text.ToLower: lowers ASCII letters only; `strings.ToLower` also maps non-ASCII letters,
  which is not modelled.
- `Destination.IsValid` comes from the net package, which is not part of this model. It is
  taken as "the network is known".
