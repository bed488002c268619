/**
 * LAN discovery of the desktop CopyDrop server (`NetworkManager`): the brute-force
 * subnet scans, the UDP broadcast reply, the mDNS/DNS-SD keyword search and the
 * choice of the local address. Every socket, HTTP, UDP and mDNS call is an input:
 * a `Network` answers port and HTTP probes, a listing function answers mDNS queries.
 */
module Discovery {
  import opened Wrappers
  import opened Seqs
  import opened KotlinText

  const DefaultPort: int := 8080

  /** Ports tried, in order, for every address of the quick scan. */
  const QuickScanPorts: seq<int> := [8080, 3000, 5000, 8000]

  /** Host octets every quick scan tries after the neighbourhood of the device. */
  const CommonOctets: seq<int> := [1, 2, 10, 100, 101, 200, 254]

  /** Used as the device's last octet when it is not a number. */
  const FallbackOctet: int := 100

  /** Ports tried, in order, by the full scan (the outer loop there). */
  const ScanPorts: seq<int> := [8080, 3000, 5000, 8000, 9090, 8888, 7777]

  /**
   * The full scan's ranges 1..10, 100..120, 150..170, 20..30 and 200..210, laid end
   * to end in the order the range loop and the octet loop visit them.
   */
  const ScanOctets: seq<int> := [
    1, 2, 3, 4, 5, 6, 7, 8, 9, 10,
    100, 101, 102, 103, 104, 105, 106, 107, 108, 109, 110, 111, 112, 113, 114, 115, 116, 117, 118, 119, 120,
    150, 151, 152, 153, 154, 155, 156, 157, 158, 159, 160, 161, 162, 163, 164, 165, 166, 167, 168, 169, 170,
    20, 21, 22, 23, 24, 25, 26, 27, 28, 29, 30,
    200, 201, 202, 203, 204, 205, 206, 207, 208, 209, 210]

  datatype Probe = Probe(address: string, port: int)

  /** What an HTTP GET of `/` gives: a status and a body (`""` when absent), or an exception. */
  datatype HttpReply = Reply(code: int, body: string) | Threw

  /** The network as the scans see it: TCP connect results and HTTP answers. */
  datatype Network = Network(portOpen: (string, int) -> bool, httpGet: (string, int) -> HttpReply)

  datatype DiscoveryResult = DiscoveryResult(serverFound: bool, address: Option<string>, port: int, scannedCount: int)

  /** `"$subnet.$octet"`: the subnet, a dot, and a last part free of dots. */
  function HostAddress(subnet: string, octet: int): (a: string)
    ensures |a| > |subnet| + 1 && a[..|subnet| + 1] == subnet + "." && '.' !in a[|subnet| + 1..]
  {
    subnet + "." + IntToString(octet)
  }

  /** The addresses of a subnet, by host octet. */
  function SubnetHosts(subnet: string): int -> string
  {
    octet => HostAddress(subnet, octet)
  }

  /**
   * `localAddress.substringBeforeLast(".")`: the text before the last dot, or the
   * whole address when it has none.
   */
  function Subnet(local: string): (s: string)
    ensures s <= local
    ensures '.' in local <==> |s| < |local|
    ensures '.' in local ==> local[|s|] == '.' && '.' !in local[|s| + 1..]
  {
    SubstringBeforeLast(local, '.')
  }

  /** `localAddress.substringAfterLast(".").toIntOrNull() ?: 100`, always an `Int`. */
  function LastOctet(local: string): (r: int)
    ensures IsInt32(r)
  {
    ParseInt32(SubstringAfterLast(local, '.')).GetOr(FallbackOctet)
  }

  /** `testCopyDropServer`: a keyword in the lower-cased body or a 2xx status; on an exception, the port check again. */
  predicate CopyDropServerAnswers(net: Network, p: Probe)
  {
    match net.httpGet(p.address, p.port)
    case Reply(code, body) =>
      Contains(Lower(body), "copydrop") || Contains(Lower(body), "clipboard") || 200 <= code <= 299
    case Threw => net.portOpen(p.address, p.port)
  }

  /** `testHttpServer`: any 2xx or 4xx status; an exception is a rejection. */
  predicate HttpServerAnswers(net: Network, p: Probe)
  {
    match net.httpGet(p.address, p.port)
    case Reply(code, _) => 200 <= code <= 299 || 400 <= code <= 499
    case Threw => false
  }

  /** Which acceptance test a scan applies after the port check. */
  datatype Check = CopyDropCheck | HttpCheck

  predicate ServerAnswers(net: Network, check: Check, p: Probe)
  {
    match check
    case CopyDropCheck => CopyDropServerAnswers(net, p)
    case HttpCheck => HttpServerAnswers(net, p)
  }

  /** A pair ends a scan when its port is open and the scan's test accepts it. */
  predicate Accepts(net: Network, check: Check, p: Probe)
  {
    net.portOpen(p.address, p.port) && ServerAnswers(net, check, p)
  }

  function Acceptance(net: Network, check: Check): Probe -> bool
  {
    p => Accepts(net, check, p)
  }

  // ---------------------------------------------------------------------------
  // Candidate addresses and probe orders

  /** The values of `[lo, hi)` that are valid host octets 1..254, ascending. */
  function NeighbourOctets(lo: int, hi: int): seq<int>
    decreases hi - lo
  {
    if hi <= lo then []
    else NeighbourOctets(lo, hi - 1) + (if 1 <= hi - 1 <= 254 then [hi - 1] else [])
  }

  /** `quickScanIps` before `distinct()`: `last-5 .. last+5` within 1..254, then the common octets. */
  function QuickScanOctets(lastOctet: int): seq<int>
  {
    NeighbourOctets(lastOctet - 5, lastOctet + 6) + CommonOctets
  }

  /** The candidate octets whose address is not the device's own, in order. */
  function RemoteOctets(host: int -> string, local: string, octets: seq<int>): seq<int>
  {
    if |octets| == 0 then []
    else
      var last := octets[|octets| - 1];
      RemoteOctets(host, local, octets[..|octets| - 1])
      + (if host(last) == local then [] else [last])
  }

  /** One (address, port) pair, or nothing for the device's own address, which is never probed. */
  function Cell(host: int -> string, local: string, octet: int, port: int): seq<Probe>
  {
    var a := host(octet);
    if a == local then [] else [Probe(a, port)]
  }

  /** Every port on one address, in order. */
  function AddressProbes(address: string, ports: seq<int>): seq<Probe>
  {
    seq(|ports|, k requires 0 <= k < |ports| => Probe(address, ports[k]))
  }

  /** The pairs tried for one candidate octet: one per port, or none for the device's own address. */
  function AddressBlock(host: int -> string, local: string, octet: int, ports: seq<int>): seq<Probe>
  {
    var a := host(octet);
    if a == local then [] else AddressProbes(a, ports)
  }

  /** Address-outer, port-inner: one block of pairs per candidate octet. */
  function IpOuterBlocks(host: int -> string, local: string, octets: seq<int>, ports: seq<int>): seq<seq<Probe>>
  {
    seq(|octets|, i requires 0 <= i < |octets| => AddressBlock(host, local, octets[i], ports))
  }

  /** The pairs tried for one port, address by address. */
  function OctetsRow(host: int -> string, local: string, port: int, octets: seq<int>): seq<seq<Probe>>
  {
    seq(|octets|, i requires 0 <= i < |octets| => Cell(host, local, octets[i], port))
  }

  /** Port-outer, address-inner: one block of pairs per port. */
  function PortOuterBlocks(host: int -> string, local: string, ports: seq<int>, octets: seq<int>): seq<seq<Probe>>
  {
    seq(|ports|, p requires 0 <= p < |ports| => Concat(OctetsRow(host, local, ports[p], octets)))
  }

  /** Every pair `startDiscoveryWithDetails` tries for a device at `local`, in order. */
  function QuickScanProbes(local: string): seq<Probe>
  {
    Concat(IpOuterBlocks(SubnetHosts(Subnet(local)), local, Distinct(QuickScanOctets(LastOctet(local))), QuickScanPorts))
  }

  /** Every pair `startDiscovery` tries for a device at `local`, in order. */
  function ScanProbes(local: string): seq<Probe>
  {
    Concat(PortOuterBlocks(SubnetHosts(Subnet(local)), local, ScanPorts, ScanOctets))
  }

  // ---------------------------------------------------------------------------
  // The other discovery channels

  /** The datagram sent to 255.255.255.255 on port 9876. */
  const DiscoveryRequest: string := "COPYDROP_DISCOVERY"
  const BroadcastAddress: string := "255.255.255.255"
  const BroadcastPort: int := 9876
  const ReplyMarker: string := "COPYDROP_SERVER:"

  /**
   * The reply parse in `findServerByBroadcast`: after the marker there must be
   * exactly one `:`; the text before it is the address, the text after it the
   * port, or 8080 when it is not an `Int`.
   */
  function ParseServerReply(response: string): (r: Option<Probe>)
    ensures r.Some? <==> StartsWith(response, ReplyMarker) && Count(response[|ReplyMarker|..], ':') == 1
    ensures r.Some? ==>
              && ':' !in r.value.address
              && StartsWith(response, ReplyMarker + r.value.address + ":")
              && r.value.port == ParseInt32(response[|ReplyMarker| + |r.value.address| + 1..]).GetOr(DefaultPort)
  {
    if StartsWith(response, ReplyMarker) then
      var rest := response[|ReplyMarker|..];
      var parts := Split(rest, ':');
      if |parts| == 2 then
        JoinSplit(rest, ':');
        assert rest == parts[0] + ":" + parts[1];
        assert response == ReplyMarker + parts[0] + ":" + parts[1];
        assert response[|ReplyMarker| + |parts[0]| + 1..] == parts[1];
        Some(Probe(parts[0], ParseInt32(parts[1]).GetOr(DefaultPort)))
      else None
    else None
  }

  /** A DNS-SD service instance as JmDNS reports it; `properties` is `None` when reading them threw. */
  datatype ServiceInfo = ServiceInfo(
    name: string,
    properties: Option<seq<(string, Option<string>)>>,
    hostAddresses: seq<string>,
    port: int)

  /** Service types queried, in order. */
  const ServiceTypes: seq<string> := [
    "_copydrop._tcp.local.", "_http._tcp.local.", "_clipboard._tcp.local.",
    "_copyservice._tcp.local.", "_macdrop._tcp.local."]

  /** `"$prop=${getPropertyString(prop)}"`; a missing value prints as `null`. */
  function PropertyString(p: (string, Option<string>)): string
  {
    p.0 + "=" + p.1.GetOr("null")
  }

  function PropertyStrings(ps: seq<(string, Option<string>)>): seq<string>
  {
    seq(|ps|, i requires 0 <= i < |ps| => PropertyString(ps[i]))
  }

  /** The lower-cased `k=v` text of the TXT record, space separated; empty when reading it threw. */
  function PropertyText(props: Option<seq<(string, Option<string>)>>): string
  {
    match props
    case None => ""
    case Some(ps) => Lower(Join(PropertyStrings(ps), ' '))
  }

  /** The keyword test of `findServerByBonjour`. */
  predicate ServiceMatches(s: ServiceInfo)
  {
    var name := Lower(s.name);
    var text := PropertyText(s.properties);
    Contains(name, "copydrop") || Contains(name, "clipboard") || Contains(name, "copy")
    || Contains(text, "copydrop") || Contains(text, "clipboard")
  }

  /**
   * The first instance satisfying `matches` over the service types in order,
   * each listing in its own order; a type whose query threw (`None`) is skipped.
   */
  function FirstListed(types: seq<string>, list: string -> Option<seq<ServiceInfo>>, matches: ServiceInfo -> bool)
    : (r: Option<ServiceInfo>)
    ensures r.Some? ==> matches(r.value)
    ensures r.None? <==>
              forall t, j :: 0 <= t < |types| && list(types[t]).Some? && 0 <= j < |list(types[t]).value|
                ==> !matches(list(types[t]).value[j])
  {
    if |types| == 0 then None
    else
      var rest := FirstListed(types[1..], list, matches);
      assert forall t :: 1 <= t < |types| ==> types[t] == types[1..][t - 1];
      match list(types[0])
      case None => rest
      case Some(services) =>
        var k := FirstWhere(services, matches);
        if k < |services| then Some(services[k]) else rest
  }

  /**
   * Instance `j` of the listing of type `t` matches, and no instance listed before
   * it (in an earlier type, or earlier in the same listing) does.
   */
  predicate FirstMatchAt(types: seq<string>, list: string -> Option<seq<ServiceInfo>>, matches: ServiceInfo -> bool,
                         t: int, j: int)
  {
    && 0 <= t < |types| && list(types[t]).Some? && 0 <= j < |list(types[t]).value|
    && matches(list(types[t]).value[j])
    && (forall u, i :: 0 <= u < t && list(types[u]).Some? && 0 <= i < |list(types[u]).value|
          ==> !matches(list(types[u]).value[i]))
    && (forall i :: 0 <= i < j ==> !matches(list(types[t]).value[i]))
  }

  /** The instance `findServerByBonjour` settles on: the first over `ServiceTypes` that carries a keyword. */
  function BonjourMatch(list: string -> Option<seq<ServiceInfo>>): Option<ServiceInfo>
  {
    FirstListed(ServiceTypes, list, ServiceMatches)
  }

  /** The query loop of `findServerByBonjour`: type by type, listing by listing, stopping at the first match. */
  method SearchListings(types: seq<string>, list: string -> Option<seq<ServiceInfo>>, matches: ServiceInfo -> bool)
    returns (found: Option<ServiceInfo>)
    ensures found == FirstListed(types, list, matches)
  {
    var t := 0;
    while t < |types|
      invariant 0 <= t <= |types|
      invariant FirstListed(types, list, matches) == FirstListed(types[t..], list, matches)
    {
      assert types[t..][0] == types[t] && types[t..][1..] == types[t + 1..];
      var listing := list(types[t]);
      if listing.Some? {
        var services := listing.value;
        var i := FindFirst(services, matches);
        if i < |services| {
          return Some(services[i]);
        }
      }
      t := t + 1;
    }
    return None;
  }

  /** An address of a network interface; `hostAddress` can be absent. */
  datatype InetAddress = InetAddress(hostAddress: Option<string>, isLoopback: bool)

  /** The filter of `getLocalIpAddress`: not loopback, and a host address without `:` (IPv4). */
  predicate LocalCandidate(a: InetAddress)
  {
    !a.isLoopback && a.hostAddress.Some? && ':' !in a.hostAddress.value
  }

  /**
   * The candidate loop of `startDiscoveryWithDetails`: `last-5 .. last+5` kept
   * when within 1..254, then the common octets (duplicates are removed later).
   */
  method QuickScanCandidates(lastOctet: int) returns (quickScanIps: seq<int>)
    ensures quickScanIps == QuickScanOctets(lastOctet)
  {
    quickScanIps := [];
    var i := lastOctet - 5;
    while i <= lastOctet + 5
      invariant lastOctet - 5 <= i <= lastOctet + 6
      invariant quickScanIps == NeighbourOctets(lastOctet - 5, i)
    {
      if 1 <= i <= 254 {
        quickScanIps := quickScanIps + [i];
      }
      i := i + 1;
    }
    quickScanIps := quickScanIps + CommonOctets;
  }

  /**
   * The inner loop of the quick scan: the ports of one address in order, up to
   * the first accepted pair; `k` pairs were rejected before it (all of them when
   * `k == |ports|`).
   */
  method ScanAddress(address: string, ports: seq<int>, accept: Probe -> bool) returns (k: nat)
    ensures k == FirstWhere(AddressProbes(address, ports), accept)
  {
    ghost var probes := AddressProbes(address, ports);
    k := 0;
    while k < |ports|
      invariant k <= |ports|
      invariant FirstWhere(probes, accept) >= k
    {
      var probe := Probe(address, ports[k]);
      assert probes[k] == probe;
      if accept(probe) {
        FirstWhereHit(probes, accept, k);
        return k;
      }
      FirstWhereSkip(probes, accept, k);
      k := k + 1;
    }
  }

  /**
   * The address-outer, port-inner scan loop: every port on every candidate octet
   * except the device's own address, counting each pair tried, up to and including
   * the first pair that `accept` accepts.
   */
  method IpOuterScan(host: int -> string, local: string, ips: seq<int>, ports: seq<int>, accept: Probe -> bool)
    returns (found: Option<Probe>, scannedCount: int)
    ensures var all := Concat(IpOuterBlocks(host, local, ips, ports));
            var k := FirstWhere(all, accept);
            if k < |all| then found == Some(all[k]) && scannedCount == k + 1
            else found == None && scannedCount == |all|
  {
    ghost var blocks := IpOuterBlocks(host, local, ips, ports);
    ghost var all := Concat(blocks);
    scannedCount := 0;
    var j := 0;
    while j < |ips|
      invariant 0 <= j <= |ips|
      invariant scannedCount == |Concat(blocks[..j])|
      invariant FirstWhere(all, accept) >= scannedCount
    {
      var testAddress := host(ips[j]);
      IpOuterStep(host, local, ips, ports, accept, j);
      if testAddress != local {
        var k := ScanAddress(testAddress, ports, accept);
        if k < |ports| {
          return Some(Probe(testAddress, ports[k])), scannedCount + k + 1;
        }
        scannedCount := scannedCount + |ports|;
      }
      j := j + 1;
    }
    assert blocks[..j] == blocks;
    return None, scannedCount;
  }

  /** What candidate `j` of the address-outer order adds to a scan that found nothing before it. */
  lemma IpOuterStep(host: int -> string, local: string, ips: seq<int>, ports: seq<int>, accept: Probe -> bool, j: nat)
    requires j < |ips|
    requires FirstWhere(Concat(IpOuterBlocks(host, local, ips, ports)), accept)
             >= |Concat(IpOuterBlocks(host, local, ips, ports)[..j])|
    ensures var blocks := IpOuterBlocks(host, local, ips, ports);
            var all := Concat(blocks);
            var n := |Concat(blocks[..j])|;
            var k := FirstWhere(AddressProbes(host(ips[j]), ports), accept);
            if host(ips[j]) == local then |Concat(blocks[..j + 1])| == n
            else if k < |ports| then FirstWhere(all, accept) == n + k < |all| && all[n + k] == Probe(host(ips[j]), ports[k])
            else |Concat(blocks[..j + 1])| == n + |ports| && FirstWhere(all, accept) >= n + |ports|
  {
    var blocks := IpOuterBlocks(host, local, ips, ports);
    var n := |Concat(blocks[..j])|;
    FirstWhereBlock(blocks, j, accept);
    assert blocks[j] == AddressBlock(host, local, ips[j], ports);
    if host(ips[j]) != local {
      var probes := AddressProbes(host(ips[j]), ports);
      assert blocks[j] == probes;
      var k := FirstWhere(probes, accept);
      if k < |ports| {
        assert blocks[j][k] == Probe(host(ips[j]), ports[k]);
        ConcatAtPosition(blocks, j, k, n + k);
      }
    }
  }

  /**
   * The inner loop of the full scan: one port on every octet in order, skipping
   * the device's own address, up to the first accepted pair.
   */
  method ScanPort(host: int -> string, local: string, port: int, octets: seq<int>, accept: Probe -> bool)
    returns (found: Option<Probe>)
    ensures var row := Concat(OctetsRow(host, local, port, octets));
            var k := FirstWhere(row, accept);
            found == if k < |row| then Some(row[k]) else None
  {
    ghost var cells := OctetsRow(host, local, port, octets);
    ghost var row := Concat(cells);
    ghost var seen := 0;
    var oi := 0;
    while oi < |octets|
      invariant 0 <= oi <= |octets|
      invariant seen == |Concat(cells[..oi])| <= |row|
      invariant FirstWhere(row, accept) >= seen
    {
      var testAddress := host(octets[oi]);
      FirstWhereBlock(cells, oi, accept);
      if testAddress != local {
        var probe := Probe(testAddress, port);
        assert cells[oi] == [probe];
        ConcatAtPosition(cells, oi, 0, seen);
        if accept(probe) {
          FirstWhereHit(row, accept, seen);
          return Some(probe);
        }
        seen := seen + 1;
      } else {
        assert cells[oi] == [];
      }
      oi := oi + 1;
    }
    assert cells[..oi] == cells;
    return None;
  }

  /**
   * The port-outer, address-inner scan loop: for every port, every octet except
   * the device's own address, up to the first pair that `accept` accepts.
   */
  method PortOuterScan(host: int -> string, local: string, ports: seq<int>, octets: seq<int>, accept: Probe -> bool)
    returns (found: Option<Probe>)
    ensures var all := Concat(PortOuterBlocks(host, local, ports, octets));
            var k := FirstWhere(all, accept);
            found == if k < |all| then Some(all[k]) else None
  {
    ghost var blocks := PortOuterBlocks(host, local, ports, octets);
    ghost var all := Concat(blocks);
    ghost var seen := 0;
    var pi := 0;
    while pi < |ports|
      invariant 0 <= pi <= |ports|
      invariant seen == |Concat(blocks[..pi])|
      invariant FirstWhere(all, accept) >= seen
    {
      FirstWhereBlock(blocks, pi, accept);
      assert blocks[pi] == Concat(OctetsRow(host, local, ports[pi], octets));
      found := ScanPort(host, local, ports[pi], octets, accept);
      if found.Some? {
        ConcatAtPosition(blocks, pi, FirstWhere(blocks[pi], accept), seen + FirstWhere(blocks[pi], accept));
        return found;
      }
      seen := seen + |blocks[pi]|;
      pi := pi + 1;
    }
    assert blocks[..pi] == blocks;
    return None;
  }

  // ---------------------------------------------------------------------------
  // The manager

  class NetworkManager {
    var macServerAddress: Option<string>
    var macServerPort: int

    constructor ()
      ensures macServerAddress == None && macServerPort == DefaultPort
    {
      macServerAddress := None;
      macServerPort := DefaultPort;
    }

    /** `setMacServerAddress` */
    method SetMacServerAddress(address: string, port: int)
      modifies this
      ensures macServerAddress == Some(address) && macServerPort == port
    {
      macServerAddress := Some(address);
      macServerPort := port;
    }

    /**
     * `getLocalIpAddress`: the first address, interface by interface, that passes
     * `LocalCandidate`; `None` when enumeration throws or nothing passes.
     */
    method GetLocalIpAddress(interfaces: Option<seq<seq<InetAddress>>>) returns (r: Option<string>)
      ensures interfaces.None? ==> r.None?
      ensures interfaces.Some? ==>
                var all := Concat(interfaces.value);
                var k := FirstWhere(all, LocalCandidate);
                r == if k < |all| then all[k].hostAddress else None
      ensures r.Some? ==> ':' !in r.value
    {
      if interfaces.None? {
        return None;
      }
      var ifs := interfaces.value;
      ghost var all := Concat(ifs);
      ghost var done: seq<InetAddress> := [];
      var n := 0;
      while n < |ifs|
        invariant 0 <= n <= |ifs|
        invariant done == Concat(ifs[..n]) && done <= all
        invariant forall i :: 0 <= i < |done| ==> !LocalCandidate(done[i])
      {
        var addresses := ifs[n];
        ConcatSnoc(ifs, n);
        ConcatPrefix(ifs, n + 1);
        var m := 0;
        while m < |addresses|
          invariant 0 <= m <= |addresses|
          invariant done == Concat(ifs[..n]) + addresses[..m] && done <= all
          invariant forall i :: 0 <= i < |done| ==> !LocalCandidate(done[i])
        {
          var address := addresses[m];
          assert addresses[..m + 1] == addresses[..m] + [address];
          if !address.isLoopback && address.hostAddress.Some? && ':' !in address.hostAddress.value {
            FirstWhereAfter(all, LocalCandidate, done, address);
            return address.hostAddress;
          }
          done := done + [address];
          m := m + 1;
        }
        assert addresses[..m] == addresses;
        n := n + 1;
      }
      assert ifs[..n] == ifs;
      FirstWhereNone(all, LocalCandidate);
      return None;
    }

    /**
     * `startDiscoveryWithDetails`: builds the candidate octets, then tries every
     * port of `QuickScanPorts` on every distinct candidate address except the
     * device's own, counting each pair tried; the first pair whose port is open
     * and that `testCopyDropServer` accepts ends the scan and becomes the server.
     */
    method StartDiscoveryWithDetails(localAddress: Option<string>, net: Network) returns (r: DiscoveryResult)
      modifies this
      ensures localAddress.None? ==>
                r == DiscoveryResult(false, None, 0, 0)
                && macServerAddress == old(macServerAddress) && macServerPort == old(macServerPort)
      ensures localAddress.Some? ==>
                var probes := QuickScanProbes(localAddress.value);
                var k := FirstWhere(probes, Acceptance(net, CopyDropCheck));
                if k < |probes| then
                  r == DiscoveryResult(true, Some(probes[k].address), probes[k].port, k + 1)
                  && macServerAddress == Some(probes[k].address) && macServerPort == probes[k].port
                else
                  r == DiscoveryResult(false, None, 0, |probes|)
                  && macServerAddress == old(macServerAddress) && macServerPort == old(macServerPort)
    {
      if localAddress.None? {
        return DiscoveryResult(false, None, 0, 0);
      }
      var local := localAddress.value;
      var subnet := SubstringBeforeLast(local, '.');
      var lastOctet := ParseInt32(SubstringAfterLast(local, '.')).GetOr(FallbackOctet);

      var ips := QuickScanCandidates(lastOctet);
      var found, scannedCount := IpOuterScan(SubnetHosts(subnet), local, Distinct(ips), QuickScanPorts, Acceptance(net, CopyDropCheck));
      if found.Some? {
        macServerAddress := Some(found.value.address);
        macServerPort := found.value.port;
        return DiscoveryResult(true, Some(found.value.address), found.value.port, scannedCount);
      }
      return DiscoveryResult(false, None, 0, scannedCount);
    }

    /**
     * `startDiscovery`: port-outer, then the ranges in order; skips the device's
     * own address and accepts the first pair whose port is open and whose HTTP
     * status is 2xx or 4xx.
     */
    method StartDiscovery(localAddress: Option<string>, net: Network) returns (r: Option<string>)
      modifies this
      ensures localAddress.None? ==>
                r == None && macServerAddress == old(macServerAddress) && macServerPort == old(macServerPort)
      ensures localAddress.Some? ==>
                var probes := ScanProbes(localAddress.value);
                var k := FirstWhere(probes, Acceptance(net, HttpCheck));
                if k < |probes| then
                  r == Some(probes[k].address)
                  && macServerAddress == r && macServerPort == probes[k].port
                else
                  r == None && macServerAddress == old(macServerAddress) && macServerPort == old(macServerPort)
    {
      if localAddress.None? {
        return None;
      }
      var local := localAddress.value;
      var subnet := SubstringBeforeLast(local, '.');
      var found := PortOuterScan(SubnetHosts(subnet), local, ScanPorts, ScanOctets, Acceptance(net, HttpCheck));
      if found.Some? {
        macServerAddress := Some(found.value.address);
        macServerPort := found.value.port;
        return Some(found.value.address);
      }
      return None;
    }

    /**
     * `findServerByBroadcast` after the datagram `DiscoveryRequest` has gone out:
     * `reply` is the text received, or `None` when the receive timed out or the
     * socket threw. A well-formed reply becomes the server.
     */
    method FindServerByBroadcast(reply: Option<string>) returns (r: Option<string>)
      modifies this
      ensures var parsed := if reply.Some? then ParseServerReply(reply.value) else None;
              if parsed.Some? then
                r == Some(parsed.value.address)
                && macServerAddress == r && macServerPort == parsed.value.port
              else
                r == None && macServerAddress == old(macServerAddress) && macServerPort == old(macServerPort)
    {
      if reply.None? {
        return None;
      }
      var parsed := ParseServerReply(reply.value);
      if parsed.Some? {
        macServerAddress := Some(parsed.value.address);
        macServerPort := parsed.value.port;
        return Some(parsed.value.address);
      }
      return None;
    }

    /**
     * `findServerByBonjour`: queries every service type in order and stops at
     * the first instance whose name or TXT text carries a keyword; that instance
     * becomes the server only if it has a host address and a positive port.
     */
    method FindServerByBonjour(localAddress: Option<string>, list: string -> Option<seq<ServiceInfo>>)
      returns (r: Option<string>)
      modifies this
      ensures var m := BonjourMatch(list);
              if localAddress.Some? && m.Some? && |m.value.hostAddresses| > 0 && m.value.port > 0 then
                r == Some(m.value.hostAddresses[0])
                && macServerAddress == r && macServerPort == m.value.port
              else
                r == None && macServerAddress == old(macServerAddress) && macServerPort == old(macServerPort)
    {
      if localAddress.None? {
        return None;
      }
      var foundService := SearchListings(ServiceTypes, list, ServiceMatches);
      if foundService.Some? {
        var service := foundService.value;
        if |service.hostAddresses| > 0 && service.port > 0 {
          macServerAddress := Some(service.hostAddresses[0]);
          macServerPort := service.port;
          return Some(service.hostAddresses[0]);
        }
      }
      return None;
    }
  }
}
