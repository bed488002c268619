/**
 * What the discovery orders and parsers of `Discovery` guarantee: which octets a
 * quick scan tries, the shape of both probe orders, that the device's own address
 * is never probed, and the broadcast reply format.
 */
module DiscoveryProperties {
  import opened Wrappers
  import opened Seqs
  import opened KotlinText
  import opened Discovery

  // ---------------------------------------------------------------------------
  // Candidate octets

  /** The neighbourhood holds exactly the valid host octets of `[lo, hi)`, in ascending order. */
  lemma {:induction false} NeighbourOctetsSpec(lo: int, hi: int)
    ensures forall i :: 0 <= i < |NeighbourOctets(lo, hi)| ==> lo <= NeighbourOctets(lo, hi)[i] < hi && 1 <= NeighbourOctets(lo, hi)[i] <= 254
    ensures forall i, j :: 0 <= i < j < |NeighbourOctets(lo, hi)| ==> NeighbourOctets(lo, hi)[i] < NeighbourOctets(lo, hi)[j]
    ensures forall x :: lo <= x < hi && 1 <= x <= 254 ==> x in NeighbourOctets(lo, hi)
    decreases hi - lo
  {
    if lo < hi {
      NeighbourOctetsSpec(lo, hi - 1);
      var init := NeighbourOctets(lo, hi - 1);
      var r := NeighbourOctets(lo, hi);
      if 1 <= hi - 1 <= 254 {
        assert r == init + [hi - 1];
        forall i | 0 <= i < |r|
          ensures lo <= r[i] < hi && 1 <= r[i] <= 254
        {
          if i < |init| {
            assert r[i] == init[i];
          }
        }
        forall i, j | 0 <= i < j < |r|
          ensures r[i] < r[j]
        {
          assert r[i] == init[i];
          if j < |init| {
            assert r[j] == init[j];
          }
        }
        forall x | lo <= x < hi && 1 <= x <= 254
          ensures x in r
        {
          if x < hi - 1 {
            assert x in init;
          } else {
            assert r[|init|] == x;
          }
        }
      } else {
        assert r == init;
      }
    }
  }

  /**
   * `quickScanIps.distinct()`: the neighbourhood of the device, then the common
   * octets it does not already hold, in their listed order.
   */
  lemma QuickScanCandidatesDistinct(lastOctet: int)
    ensures Distinct(QuickScanOctets(lastOctet))
            == NeighbourOctets(lastOctet - 5, lastOctet + 6) + Without(CommonOctets, NeighbourOctets(lastOctet - 5, lastOctet + 6))
  {
    var n := NeighbourOctets(lastOctet - 5, lastOctet + 6);
    NeighbourOctetsSpec(lastOctet - 5, lastOctet + 6);
    assert NoDuplicates(CommonOctets);
    DistinctAppend(n, CommonOctets);
  }

  /** Well inside `1..254`, the neighbourhood is every octet of `[lo, hi)`. */
  lemma {:induction false} NeighbourOctetsInside(lo: int, hi: int)
    requires 1 <= lo <= hi <= 255
    ensures |NeighbourOctets(lo, hi)| == hi - lo
    ensures forall i :: 0 <= i < hi - lo ==> NeighbourOctets(lo, hi)[i] == lo + i
    decreases hi - lo
  {
    if lo < hi {
      NeighbourOctetsInside(lo, hi - 1);
    }
  }

  /**
   * Away from the edges of `1..254` the quick scan starts with the device's own
   * octet and its ten neighbours, in ascending order.
   */
  lemma QuickScanStartsWithNeighbours(lastOctet: int)
    requires 6 <= lastOctet <= 249
    ensures var d := Distinct(QuickScanOctets(lastOctet));
            && 11 <= |d|
            && forall i :: 0 <= i < 11 ==> d[i] == lastOctet - 5 + i
  {
    QuickScanCandidatesDistinct(lastOctet);
    NeighbourOctetsInside(lastOctet - 5, lastOctet + 6);
  }

  /** The quick scan tries at most 18 distinct octets, each at most once. */
  lemma QuickScanOctetsBound(lastOctet: int)
    ensures var d := Distinct(QuickScanOctets(lastOctet));
            |d| <= 18 && NoDuplicates(d)
  {
    NeighbourOctetsSpec(lastOctet - 5, lastOctet + 6);
    NeighbourOctetsLength(lastOctet - 5, lastOctet + 6);
  }

  lemma {:induction false} NeighbourOctetsLength(lo: int, hi: int)
    ensures |NeighbourOctets(lo, hi)| <= if lo < hi then hi - lo else 0
    decreases hi - lo
  {
    if lo < hi {
      NeighbourOctetsLength(lo, hi - 1);
    }
  }

  // ---------------------------------------------------------------------------
  // The device's own address

  /** `RemoteOctets` keeps exactly the octets whose address is not the device's own, in order. */
  lemma {:induction false} RemoteOctetsSpec(host: int -> string, local: string, octets: seq<int>)
    ensures var r := RemoteOctets(host, local, octets);
            && |r| <= |octets|
            && (forall i :: 0 <= i < |r| ==> host(r[i]) != local && r[i] in octets)
            && (forall x :: x in octets && host(x) != local ==> x in r)
  {
    if |octets| > 0 {
      var init := octets[..|octets| - 1];
      RemoteOctetsSpec(host, local, init);
      assert octets == init + [octets[|octets| - 1]];
    }
  }

  /** Parsing `"$subnet.$octet"` back gives the subnet and the octet. */
  lemma HostAddressParts(subnet: string, octet: int)
    requires IsInt32(octet)
    ensures Subnet(HostAddress(subnet, octet)) == subnet
    ensures LastOctet(HostAddress(subnet, octet)) == octet
  {
    var digits := IntToString(octet);
    assert '.' !in digits;
    assert HostAddress(subnet, octet) == subnet + ['.'] + digits;
    SplitAtLastOf(subnet, digits, '.');
    ParseIntToString(octet);
  }

  /** The quick scan never probes the device's own address, and only its listed ports. */
  lemma QuickScanNeverProbesSelf(local: string)
    ensures forall q :: 0 <= q < |QuickScanProbes(local)| ==>
              QuickScanProbes(local)[q].address != local && QuickScanProbes(local)[q].port in QuickScanPorts
  {
    var host := SubnetHosts(Subnet(local));
    var octets := Distinct(QuickScanOctets(LastOctet(local)));
    var blocks := IpOuterBlocks(host, local, octets, QuickScanPorts);
    var ok := (p: Probe) => p.address != local && p.port in QuickScanPorts;
    forall j, k | 0 <= j < |blocks| && 0 <= k < |blocks[j]|
      ensures ok(blocks[j][k])
    {
      assert blocks[j] == AddressBlock(host, local, octets[j], QuickScanPorts);
    }
    ConcatForall(blocks, ok);
  }

  /** Neither does the full scan, and it probes only its listed ports. */
  lemma FullScanNeverProbesSelf(local: string)
    ensures forall q :: 0 <= q < |ScanProbes(local)| ==>
              ScanProbes(local)[q].address != local && ScanProbes(local)[q].port in ScanPorts
  {
    var host := SubnetHosts(Subnet(local));
    var blocks := PortOuterBlocks(host, local, ScanPorts, ScanOctets);
    var ok := (p: Probe) => p.address != local && p.port in ScanPorts;
    forall j | 0 <= j < |blocks|
      ensures forall k :: 0 <= k < |blocks[j]| ==> ok(blocks[j][k])
    {
      var cells := OctetsRow(host, local, ScanPorts[j], ScanOctets);
      var okHere := (p: Probe) => p.address != local && p.port == ScanPorts[j];
      forall i, k | 0 <= i < |cells| && 0 <= k < |cells[i]|
        ensures okHere(cells[i][k])
      {
        assert cells[i] == Cell(host, local, ScanOctets[i], ScanPorts[j]);
      }
      ConcatForall(cells, okHere);
      assert blocks[j] == Concat(cells);
    }
    ConcatForall(blocks, ok);
  }

  // ---------------------------------------------------------------------------
  // Shape of the two probe orders

  /** One block of all ports per remote octet. */
  function RemoteBlocks(host: int -> string, remote: seq<int>, ports: seq<int>): seq<seq<Probe>>
  {
    seq(|remote|, i requires 0 <= i < |remote| => AddressProbes(host(remote[i]), ports))
  }

  /** Skipping the device's own address leaves, in order, one block of all ports per remote octet. */
  lemma {:induction false} IpOuterIsRemoteBlocks(host: int -> string, local: string, octets: seq<int>, ports: seq<int>)
    ensures Concat(IpOuterBlocks(host, local, octets, ports))
            == Concat(RemoteBlocks(host, RemoteOctets(host, local, octets), ports))
  {
    if |octets| > 0 {
      var n := |octets|;
      var init := octets[..n - 1];
      var last := octets[n - 1];
      IpOuterIsRemoteBlocks(host, local, init, ports);
      var blocks := IpOuterBlocks(host, local, octets, ports);
      assert blocks[..n - 1] == IpOuterBlocks(host, local, init, ports);
      var r := RemoteOctets(host, local, init);
      assert blocks[n - 1] == AddressBlock(host, local, last, ports);
      if host(last) != local {
        assert RemoteOctets(host, local, octets) == r + [last];
        var rb := RemoteBlocks(host, r + [last], ports);
        assert rb[..|r|] == RemoteBlocks(host, r, ports);
        assert rb[|r|] == AddressProbes(host(last), ports);
      } else {
        assert RemoteOctets(host, local, octets) == r;
      }
    }
  }

  /** The address-outer order: pair `i * |ports| + k` is port `k` on the `i`-th remote octet. */
  lemma IpOuterShape(host: int -> string, local: string, octets: seq<int>, ports: seq<int>, i: nat, k: nat)
    requires i < |RemoteOctets(host, local, octets)| && k < |ports|
    ensures var all := Concat(IpOuterBlocks(host, local, octets, ports));
            var remote := RemoteOctets(host, local, octets);
            && |all| == |remote| * |ports|
            && i * |ports| + k < |all|
            && all[i * |ports| + k] == Probe(host(remote[i]), ports[k])
  {
    var remote := RemoteOctets(host, local, octets);
    IpOuterIsRemoteBlocks(host, local, octets, ports);
    ConcatUniform(RemoteBlocks(host, remote, ports), |ports|, i, k);
  }

  /** The quick scan's order: pair `i * 4 + k` is port `k` of `QuickScanPorts` on the `i`-th remote candidate. */
  lemma QuickScanShape(local: string, i: nat, k: nat)
    requires i < |RemoteOctets(SubnetHosts(Subnet(local)), local, Distinct(QuickScanOctets(LastOctet(local))))|
    requires k < |QuickScanPorts|
    ensures var remote := RemoteOctets(SubnetHosts(Subnet(local)), local, Distinct(QuickScanOctets(LastOctet(local))));
            && |QuickScanProbes(local)| == |remote| * 4
            && QuickScanProbes(local)[i * 4 + k] == Probe(HostAddress(Subnet(local), remote[i]), QuickScanPorts[k])
  {
    var host := SubnetHosts(Subnet(local));
    var octets := Distinct(QuickScanOctets(LastOctet(local)));
    var remote := RemoteOctets(host, local, octets);
    IpOuterShape(host, local, octets, QuickScanPorts, i, k);
    assert |QuickScanPorts| == 4 && i * |QuickScanPorts| + k == i * 4 + k;
    assert host(remote[i]) == HostAddress(Subnet(local), remote[i]);
  }

  /** When at most one candidate is the device's own address, skipping it drops at most one. */
  lemma {:induction false} RemoteOctetsDropAtMostOne(host: int -> string, local: string, octets: seq<int>)
    requires NoDuplicates(octets)
    requires forall x, y :: x in octets && y in octets && host(x) == local && host(y) == local ==> x == y
    ensures |RemoteOctets(host, local, octets)| + 1 >= |octets|
    ensures (forall x :: x in octets ==> host(x) != local) ==> |RemoteOctets(host, local, octets)| == |octets|
  {
    if |octets| > 0 {
      var n := |octets|;
      var init := octets[..n - 1];
      var last := octets[n - 1];
      assert octets == init + [last];
      assert NoDuplicates(init);
      RemoteOctetsDropAtMostOne(host, local, init);
      if host(last) == local {
        forall x | x in init
          ensures host(x) != local
        {
          var m :| 0 <= m < |init| && init[m] == x;
          assert octets[m] == x != last;
        }
      }
    }
  }

  /**
   * The quick scan always tries at least six remote octets (the common octets but
   * possibly the device's own), four ports each, whatever the local address.
   */
  lemma QuickScanLength(local: string)
    ensures var remote := RemoteOctets(SubnetHosts(Subnet(local)), local, Distinct(QuickScanOctets(LastOctet(local))));
            && |remote| >= 6
            && |QuickScanProbes(local)| == |remote| * 4
  {
    var host := SubnetHosts(Subnet(local));
    var octets := Distinct(QuickScanOctets(LastOctet(local)));
    QuickScanCandidatesCover(LastOctet(local));
    OwnAddressOnce(local, octets);
    RemoteOctetsDropAtMostOne(host, local, octets);
    IpOuterLength(host, local, octets, QuickScanPorts);
  }

  /** The address-outer order tries every port on every remote octet. */
  lemma IpOuterLength(host: int -> string, local: string, octets: seq<int>, ports: seq<int>)
    ensures |Concat(IpOuterBlocks(host, local, octets, ports))| == |RemoteOctets(host, local, octets)| * |ports|
  {
    IpOuterIsRemoteBlocks(host, local, octets, ports);
    ConcatUniformLength(RemoteBlocks(host, RemoteOctets(host, local, octets), ports), |ports|);
  }

  /** The quick-scan candidates are host octets in 1..254, all seven common octets among them. */
  lemma QuickScanCandidatesCover(lastOctet: int)
    ensures var octets := Distinct(QuickScanOctets(lastOctet));
            && |octets| >= 7 && NoDuplicates(octets)
            && forall x :: x in octets ==> 1 <= x <= 254
  {
    var neighbours := NeighbourOctets(lastOctet - 5, lastOctet + 6);
    var octets := Distinct(QuickScanOctets(lastOctet));
    assert QuickScanOctets(lastOctet) == neighbours + CommonOctets;
    CommonOctetsFacts();
    forall x | x in CommonOctets
      ensures x in octets
    {
      assert x in QuickScanOctets(lastOctet);
    }
    CoverLength(CommonOctets, octets);
    forall x | x in octets
      ensures 1 <= x <= 254
    {
      assert x in neighbours + CommonOctets;
      if x in neighbours {
        NeighbourOctetsSpec(lastOctet - 5, lastOctet + 6);
        var i :| 0 <= i < |neighbours| && neighbours[i] == x;
      }
    }
  }

  /** The seven common octets are distinct host octets. */
  lemma CommonOctetsFacts()
    ensures NoDuplicates(CommonOctets)
    ensures forall x :: x in CommonOctets ==> 1 <= x <= 254
  {
  }

  /** At most one host octet of the device's subnet names the device's own address. */
  lemma OwnAddressOnce(local: string, octets: seq<int>)
    requires forall x :: x in octets ==> 1 <= x <= 254
    ensures forall x, y ::
              x in octets && y in octets && SubnetHosts(Subnet(local))(x) == local && SubnetHosts(Subnet(local))(y) == local
              ==> x == y
  {
    var host := SubnetHosts(Subnet(local));
    forall x, y | x in octets && y in octets && host(x) == local && host(y) == local
      ensures x == y
    {
      HostAddressParts(Subnet(local), x);
      HostAddressParts(Subnet(local), y);
    }
  }

  /** With a row of single cells, one port across the remote octets. */
  lemma {:induction false} OctetsRowIsRemote(host: int -> string, local: string, port: int, octets: seq<int>)
    ensures var remote := RemoteOctets(host, local, octets);
            var row := Concat(OctetsRow(host, local, port, octets));
            |row| == |remote| && forall i :: 0 <= i < |remote| ==> row[i] == Probe(host(remote[i]), port)
  {
    if |octets| > 0 {
      var n := |octets|;
      var init := octets[..n - 1];
      OctetsRowIsRemote(host, local, port, init);
      var cells := OctetsRow(host, local, port, octets);
      assert cells[..n - 1] == OctetsRow(host, local, port, init);
    }
  }

  /**
   * The full scan's order: with `m` remote octets, pair `p * m + i` is port `p` of
   * `ScanPorts` on the `i`-th remote octet of the ranges.
   */
  lemma FullScanShape(local: string, p: nat, i: nat)
    requires var remote := RemoteOctets(SubnetHosts(Subnet(local)), local, ScanOctets);
             p < |ScanPorts| && i < |remote|
    ensures var remote := RemoteOctets(SubnetHosts(Subnet(local)), local, ScanOctets);
            && |ScanProbes(local)| == 7 * |remote|
            && ScanProbes(local)[p * |remote| + i] == Probe(HostAddress(Subnet(local), remote[i]), ScanPorts[p])
  {
    var host := SubnetHosts(Subnet(local));
    var remote := RemoteOctets(host, local, ScanOctets);
    var blocks := PortOuterBlocks(host, local, ScanPorts, ScanOctets);
    forall j | 0 <= j < |blocks|
      ensures |blocks[j]| == |remote|
      ensures forall x :: 0 <= x < |remote| ==> blocks[j][x] == Probe(host(remote[x]), ScanPorts[j])
    {
      OctetsRowIsRemote(host, local, ScanPorts[j], ScanOctets);
    }
    ConcatUniform(blocks, |remote|, p, i);
  }

  /** The full scan tries every port on every remote octet of its ranges. */
  lemma FullScanLength(local: string)
    ensures |ScanProbes(local)| == 7 * |RemoteOctets(SubnetHosts(Subnet(local)), local, ScanOctets)|
  {
    var host := SubnetHosts(Subnet(local));
    var remote := RemoteOctets(host, local, ScanOctets);
    var blocks := PortOuterBlocks(host, local, ScanPorts, ScanOctets);
    forall j | 0 <= j < |blocks|
      ensures |blocks[j]| == |remote|
    {
      OctetsRowIsRemote(host, local, ScanPorts[j], ScanOctets);
    }
    ConcatUniformLength(blocks, |remote|);
  }

  // ---------------------------------------------------------------------------
  // Acceptance of a probe

  /**
   * The acceptance rules after an open port: `testHttpServer` takes exactly the
   * 2xx and 4xx statuses; `testCopyDropServer` takes every 2xx status and, when
   * the request throws, falls back to the port check; a closed port is never
   * accepted by either scan.
   */
  lemma AcceptanceRules(net: Network, p: Probe)
    ensures !net.portOpen(p.address, p.port) ==> !Accepts(net, CopyDropCheck, p) && !Accepts(net, HttpCheck, p)
    ensures net.portOpen(p.address, p.port) && net.httpGet(p.address, p.port).Reply? ==>
              var code := net.httpGet(p.address, p.port).code;
              (Accepts(net, HttpCheck, p) <==> 200 <= code <= 299 || 400 <= code <= 499)
              && (200 <= code <= 299 ==> Accepts(net, CopyDropCheck, p))
    ensures net.httpGet(p.address, p.port).Threw? ==>
              !Accepts(net, HttpCheck, p) && (Accepts(net, CopyDropCheck, p) <==> net.portOpen(p.address, p.port))
  {
  }

  /** A body naming the product in any letter case makes an open port a CopyDrop server, whatever the status. */
  lemma KeywordBodyAccepted(net: Network, p: Probe, code: int, before: string, after: string)
    requires net.portOpen(p.address, p.port)
    requires net.httpGet(p.address, p.port) == Reply(code, before + "CopyDrop" + after)
    ensures Accepts(net, CopyDropCheck, p)
  {
    LowerAppend(before + "CopyDrop", after);
    LowerAppend(before, "CopyDrop");
    assert Lower("CopyDrop") == "copydrop";
    ContainsInfix(Lower(before), "copydrop", Lower(after));
  }

  // ---------------------------------------------------------------------------
  // The mDNS keyword match

  /** An instance whose name carries `Copy` in any letter case matches, whatever its TXT record. */
  lemma NameKeywordMatches(before: string, after: string, props: Option<seq<(string, Option<string>)>>,
                           hosts: seq<string>, port: int)
    ensures ServiceMatches(ServiceInfo(before + "Copy" + after, props, hosts, port))
  {
    LowerAppend(before + "Copy", after);
    LowerAppend(before, "Copy");
    assert Lower("Copy") == "copy";
    ContainsInfix(Lower(before), "copy", Lower(after));
  }

  /** A TXT value carrying `Clipboard` in any letter case makes the instance match, whatever its name. */
  lemma PropertyKeywordMatches(name: string, key: string, before: string, after: string, hosts: seq<string>, port: int)
    ensures ServiceMatches(ServiceInfo(name, Some([(key, Some(before + "Clipboard" + after))]), hosts, port))
  {
    var value := before + "Clipboard" + after;
    var text := key + "=" + before + "Clipboard" + after;
    assert PropertyString((key, Some(value))) == key + "=" + value == text;
    assert PropertyStrings([(key, Some(value))])[0] == text;
    assert text == (key + "=" + before) + "Clipboard" + after;
    LowerAppend((key + "=" + before) + "Clipboard", after);
    LowerAppend(key + "=" + before, "Clipboard");
    assert Lower("Clipboard") == "clipboard";
    ContainsInfix(Lower(key + "=" + before), "clipboard", Lower(after));
  }

  /** What `FirstListed` finds is the first match in listing order. */
  lemma {:induction false} FirstListedIsFirst(types: seq<string>, list: string -> Option<seq<ServiceInfo>>,
                                              matches: ServiceInfo -> bool)
    ensures FirstListed(types, list, matches).Some? ==>
              exists t, j :: FirstMatchAt(types, list, matches, t, j)
                             && FirstListed(types, list, matches).value == list(types[t]).value[j]
  {
    if |types| > 0 {
      var r := FirstListed(types, list, matches);
      var rest := FirstListed(types[1..], list, matches);
      FirstListedIsFirst(types[1..], list, matches);
      var listing := list(types[0]);
      if listing.Some? && FirstWhere(listing.value, matches) < |listing.value| {
        assert FirstMatchAt(types, list, matches, 0, FirstWhere(listing.value, matches));
      } else if rest.Some? {
        assert r == rest;
        var t', j :| FirstMatchAt(types[1..], list, matches, t', j) && rest.value == list(types[1..][t']).value[j];
        assert types[1..][t'] == types[t' + 1];
        forall u, i | 0 <= u < t' + 1 && list(types[u]).Some? && 0 <= i < |list(types[u]).value|
          ensures !matches(list(types[u]).value[i])
        {
          if u > 0 {
            assert types[u] == types[1..][u - 1];
          }
        }
        assert FirstMatchAt(types, list, matches, t' + 1, j);
      }
    }
  }

  /** Conversely, the first match in listing order is what `FirstListed` finds. */
  lemma {:induction false} FirstListedAt(types: seq<string>, list: string -> Option<seq<ServiceInfo>>,
                                         matches: ServiceInfo -> bool, t: int, j: int)
    requires FirstMatchAt(types, list, matches, t, j)
    ensures FirstListed(types, list, matches) == Some(list(types[t]).value[j])
  {
    var listing := list(types[0]);
    if t == 0 {
      FirstWhereAtLeast(listing.value, matches, j);
      FirstWhereHit(listing.value, matches, j);
    } else {
      if listing.Some? {
        FirstWhereNone(listing.value, matches);
      }
      assert types[1..][t - 1] == types[t];
      forall u, i | 0 <= u < t - 1 && list(types[1..][u]).Some? && 0 <= i < |list(types[1..][u]).value|
        ensures !matches(list(types[1..][u]).value[i])
      {
        assert types[1..][u] == types[u + 1];
      }
      FirstListedAt(types[1..], list, matches, t - 1, j);
    }
  }

  /** A matching instance heading the first type's listing is the one settled on. */
  lemma FirstTypeWins(list: string -> Option<seq<ServiceInfo>>, s: ServiceInfo, rest: seq<ServiceInfo>)
    requires list(ServiceTypes[0]) == Some([s] + rest) && ServiceMatches(s)
    ensures BonjourMatch(list) == Some(s)
  {
    assert ([s] + rest)[0] == s;
    assert FirstWhere([s] + rest, ServiceMatches) == 0;
  }

  // ---------------------------------------------------------------------------
  // The broadcast reply

  /** A reply with one `:` after the marker: the address before it, the parsed port after it or 8080. */
  lemma ServerReplyParts(address: string, tail: string)
    requires ':' !in address && ':' !in tail
    ensures ParseServerReply(ReplyMarker + address + ":" + tail)
            == Some(Probe(address, ParseInt32(tail).GetOr(DefaultPort)))
  {
    var response := ReplyMarker + address + ":" + tail;
    assert response[|ReplyMarker|..] == address + [':'] + tail;
    SplitTwo(address, tail, ':');
  }

  /** What the desktop server announces, `COPYDROP_SERVER:<address>:<port>`, parses back to itself. */
  lemma ServerReplyRoundTrip(address: string, port: int)
    requires ':' !in address && IsInt32(port)
    ensures ParseServerReply(ReplyMarker + address + ":" + IntToString(port)) == Some(Probe(address, port))
  {
    assert ':' !in IntToString(port);
    ServerReplyParts(address, IntToString(port));
    ParseIntToString(port);
  }

  lemma ServerReplyExample()
    ensures ParseServerReply("COPYDROP_SERVER:10.0.0.5:9090") == Some(Probe("10.0.0.5", 9090))
  {
    assert IntToString(9090) == "9090";
    assert "COPYDROP_SERVER:10.0.0.5:9090" == ReplyMarker + "10.0.0.5" + ":" + IntToString(9090);
    ServerReplyRoundTrip("10.0.0.5", 9090);
  }

  /** A port that is not a number falls back to 8080. */
  lemma ServerReplyBadPort()
    ensures ParseServerReply("COPYDROP_SERVER:10.0.0.5:http") == Some(Probe("10.0.0.5", DefaultPort))
  {
    assert "COPYDROP_SERVER:10.0.0.5:http" == ReplyMarker + "10.0.0.5" + ":" + "http";
    ServerReplyParts("10.0.0.5", "http");
  }

  /** An address with colons of its own (IPv6) makes the reply malformed. */
  lemma ServerReplyIpv6Rejected()
    ensures ParseServerReply(ReplyMarker + "fe80::1:8080") == None
  {
    var response := ReplyMarker + "fe80::1:8080";
    assert response[|ReplyMarker|..] == "fe80::1:8080";
    assert Count("fe80::1:8080", ':') == 3;
  }

  /** Without the marker, nothing is found. */
  lemma ServerReplyWithoutMarker()
    ensures ParseServerReply("HELLO:10.0.0.5:8080") == None
  {
  }

  /**
   * The text after the last `.` (the whole address when it has no `.`) that is
   * not an `Int` makes the scan centre on `.100`.
   */
  lemma LastOctetFallback(subnet: string, tail: string)
    requires '.' !in tail && ParseInt32(tail).None?
    ensures LastOctet(subnet + "." + tail) == FallbackOctet
    ensures LastOctet(tail) == FallbackOctet
  {
    SplitAtLastOf(subnet, tail, '.');
  }

  /** When that text is an `Int`, the scan centres on its value, with or without a `.` before it. */
  lemma LastOctetParsed(subnet: string, tail: string)
    requires '.' !in tail && ParseInt32(tail).Some?
    ensures LastOctet(subnet + "." + tail) == ParseInt32(tail).value
    ensures LastOctet(tail) == ParseInt32(tail).value
  {
    SplitAtLastOf(subnet, tail, '.');
  }

  lemma LastOctetOfAddress()
    ensures LastOctet("192.168.1.7") == 7
  {
  }

  lemma LastOctetOfNumeral()
    ensures LastOctet("7") == 7
  {
  }

  lemma LastOctetNotANumber()
    ensures LastOctet("192.168.1.x") == FallbackOctet
  {
  }

  lemma LastOctetOfHostName()
    ensures LastOctet("localhost") == FallbackOctet
  {
  }
}
