# CopyDrop Android client: a verified model of its core

CopyDrop keeps the clipboard of an Android phone in step with the clipboard of a
desktop computer. This project models the four parts of the Android client that decide
what happens, and proves properties of them in Dafny:

- **LAN discovery** (`Discovery` module, with `DiscoveryProperties`). The client looks for the desktop server in four ways:
  - the quick scan of `startDiscoveryWithDetails`: the device's neighbourhood plus a few common host octets, with every port on each address in turn and a `scannedCount`;
  - the full port-outer scan of `startDiscovery`;
  - the UDP broadcast reply `COPYDROP_SERVER:<ip>:<port>`;
  - the mDNS/DNS-SD keyword search of RFC 6763.

  The module also covers the HTTP acceptance rules, the choice of the local IPv4 address, and the remembered server address and port.
- **Sync engine** (`Sync` module). It covers:
  - the `ConnectionState` machine driven by `connect`, the socket listener and `disconnect`, including the URL that OkHttp refuses, which leaves CONNECTING with no socket;
  - the posted 2000 ms reconnect;
  - the single `lastHash`, which suppresses both repeated sends and echoed receives;
  - the AES-256-GCM frame `IV(12) || ciphertext || tag(16)` (section 7.1 of NIST SP 800-38D: a 96-bit IV and a 128-bit tag);
  - the `sha256:<hex>` hash string.
- **Clipboard de-duplicator** (`Clipboard` module). It covers:
  - the listener that decides whether a clipboard change is emitted (the `lastClipboardHash` and `isUpdatingFromRemote` filter);
  - the first-item, non-empty read of the primary clip;
  - the write of remote text;
  - the TEXT/URL classifier;
  - the MD5-or-`hashCode` hash string.
- **Pairing over Bluetooth LE** (`Pairing` module). It covers:
  - the `scanning` flag of `startScan`/`stopScan`;
  - the GATT callbacks;
  - the decoding of the pairing offer, whose `ws://<ip>:<port>/ws` URL is split into address and port;
  - the success path, which persists the key and the expiry, then starts the sync, then stops the service; when the sync service cannot be started, the key stays persisted and only the stop follows.

Support modules:
- `Wrappers` holds `Option`.
- `Seqs` holds concatenation, Kotlin's `distinct()` and first-match search.
- `KotlinText` holds the Kotlin `String` operations the code relies on: `startsWith`, `contains`, `lowercase`, `split`, `removePrefix`/`removeSuffix`, `substringBeforeLast`/`AfterLast`, `toIntOrNull`/`toInt` and `toString`.
- `Hex` holds `%02x` formatting.

Every call into the platform is a parameter of the model. The calls are:
sockets, HTTP, UDP, JmDNS, OkHttp's URL parser, the cipher, SHA-256, MD5, the JSON reader and writer, `Base64.decode`, `SecureRandom`, the clock and the Bluetooth stack.
Their results enter the model in one of two ways:
- as function-valued parameters, such as `Network` (what `isPortOpen` and an HTTP `GET /` answer), a listing function for mDNS queries, and an `Aead` pair;
- as `const` fields of the classes.

Two inputs are method arguments: the random IV of each frame and the current time.
The GCM guarantee is the hypothesis `Sync.Sound(aead)`: a sealed text is 16 bytes longer than the plain text and opens back to it.

Where the code and its own comments or surrounding description differ, the model follows the code:
- `disconnect` does not cancel a reconnect that `onFailure` already posted (`Sync.DisconnectDuringRetry`);
- `onCharacteristicRead` never compares `exp` with the clock;
- `handleIncomingMessage` has no filter on the sender;
- `startDiscovery` accepts any 2xx or 4xx status, not only a CopyDrop answer.

Source paths below are relative to the repository root.

## Model

| member | source | states |
|---|---|---|
| Seqs.Distinct | app/src/main/java/com/copydrop/android/network/NetworkManager.kt:253 | `distinct()` gives a list without repeats, no longer than its input, holding exactly the input's elements |
| Seqs.DistinctOfNoDuplicates | app/src/main/java/com/copydrop/android/network/NetworkManager.kt:253 | de-duplicating a list that has no repeats leaves it unchanged |
| Seqs.DistinctSnoc | app/src/main/java/com/copydrop/android/network/NetworkManager.kt:253 | appending an element keeps it in `distinct()` only when it is new |
| Seqs.DistinctAppend | app/src/main/java/com/copydrop/android/network/NetworkManager.kt:253 | de-duplicating two repeat-free lists laid end to end keeps the first whole, then the elements of the second not in the first, in order |
| Seqs.DistinctKeepsFirstOccurrenceOrder | app/src/main/java/com/copydrop/android/network/NetworkManager.kt:253 | `distinct()` lists elements in the order of their first occurrence |
| Seqs.FirstIndex | app/src/main/java/com/copydrop/android/network/NetworkManager.kt:253 | the first position of an element: it holds the element and no earlier position does |
| Seqs.FirstWhere | app/src/main/java/com/copydrop/android/network/NetworkManager.kt:253-272 | the first position whose element passes a test, or the length when none does: everything before it fails the test |
| Seqs.FindFirst | app/src/main/java/com/copydrop/android/network/NetworkManager.kt:119-142 | the loop that stops at the first element passing a test returns `FirstWhere` |
| Seqs.FirstWhereBlock | app/src/main/java/com/copydrop/android/network/NetworkManager.kt:253-272 | in a list of blocks laid end to end, a first hit inside block `j` is the first hit overall at that block's offset; a block without a hit pushes the first hit past it |
| Seqs.ConcatUniform | app/src/main/java/com/copydrop/android/network/NetworkManager.kt:253-256 | blocks of equal length `m` laid end to end put element `k` of block `j` at `j * m + k` |
| KotlinText.RemovePrefix | app/src/main/java/com/copydrop/android/service/BleDiscoveryService.kt:158 | `removePrefix` drops the prefix exactly when the text starts with it, otherwise returns the text |
| KotlinText.RemoveSuffix | app/src/main/java/com/copydrop/android/service/BleDiscoveryService.kt:158 | `removeSuffix` drops the suffix exactly when the text ends with it, otherwise returns the text |
| KotlinText.LowerAppend | app/src/main/java/com/copydrop/android/network/NetworkManager.kt:120 | `lowercase()` distributes over concatenation |
| KotlinText.ContainsInfix | app/src/main/java/com/copydrop/android/network/NetworkManager.kt:134-138 | a text contains every piece it is built around |
| KotlinText.Split | app/src/main/java/com/copydrop/android/network/NetworkManager.kt:203 | `split` yields one more piece than there are delimiters, and no piece holds the delimiter |
| KotlinText.JoinSplit | app/src/main/java/com/copydrop/android/network/NetworkManager.kt:203 | joining the pieces of `split` with the delimiter gives the text back |
| KotlinText.SplitJoin | app/src/main/java/com/copydrop/android/service/BleDiscoveryService.kt:158 | splitting a join of delimiter-free pieces gives the pieces back |
| KotlinText.SplitAfterPiece | app/src/main/java/com/copydrop/android/service/BleDiscoveryService.kt:158 | a delimiter-free piece and a delimiter split off as the first piece |
| KotlinText.SplitNoDelimiter | app/src/main/java/com/copydrop/android/service/BleDiscoveryService.kt:158-159 | a text without the delimiter splits into itself alone |
| KotlinText.SplitTwo | app/src/main/java/com/copydrop/android/network/NetworkManager.kt:203-204 | two delimiter-free pieces around one delimiter split into exactly those two pieces |
| KotlinText.LastIndexOf | app/src/main/java/com/copydrop/android/network/NetworkManager.kt:235-236 | the position of the last occurrence of a character, or -1: no later position holds it |
| KotlinText.SplitAtLast | app/src/main/java/com/copydrop/android/network/NetworkManager.kt:235-236 | `substringBeforeLast`, the character and `substringAfterLast` rebuild the text, and the part after holds no such character |
| KotlinText.SplitAtLastOf | app/src/main/java/com/copydrop/android/network/NetworkManager.kt:235-236 | for `a`, then the delimiter, then a delimiter-free `b`, the parts before and after the last delimiter are `a` and `b` |
| KotlinText.NatToString | app/src/main/java/com/copydrop/android/network/NetworkManager.kt:74 | a natural number prints as a non-empty string of decimal digits |
| KotlinText.NatToStringValue | app/src/main/java/com/copydrop/android/network/NetworkManager.kt:74 | the printed digits read back as the number |
| KotlinText.IntToString | app/src/main/java/com/copydrop/android/network/NetworkManager.kt:74 | an `Int` prints as a non-empty string of digits and a sign |
| KotlinText.ParseInt32 | app/src/main/java/com/copydrop/android/network/NetworkManager.kt:236 | `toIntOrNull` succeeds exactly on an optional sign followed by digits whose value fits in 32 bits, and gives that value |
| KotlinText.ParseIntToString | app/src/main/java/com/copydrop/android/service/ClipboardManager.kt:102 | every `Int` printed in decimal parses back to itself |
| Hex.HexDigit | app/src/main/java/com/copydrop/android/network/WebSocketManager.kt:191 | a nibble prints as a lower-case hex digit |
| Hex.HexDigitValue | app/src/main/java/com/copydrop/android/network/WebSocketManager.kt:191 | a lower-case hex digit reads as a nibble |
| Hex.HexDigitRoundTrip | app/src/main/java/com/copydrop/android/network/WebSocketManager.kt:191 | a printed nibble reads back as itself |
| Hex.Hex | app/src/main/java/com/copydrop/android/network/WebSocketManager.kt:191 | `joinToString("") { "%02x" }` gives two lower-case hex digits per byte |
| Hex.Unhex | app/src/main/java/com/copydrop/android/service/ClipboardManager.kt:100 | reading hex text back gives one byte per two digits |
| Hex.UnhexHex | app/src/main/java/com/copydrop/android/service/ClipboardManager.kt:100 | printing bytes to hex and reading them back gives the bytes |
| Hex.HexInjective | app/src/main/java/com/copydrop/android/network/WebSocketManager.kt:191 | different byte strings print differently |
| Discovery.ParseServerReply | app/src/main/java/com/copydrop/android/network/NetworkManager.kt:200-209 | a UDP reply is accepted exactly when it starts with `COPYDROP_SERVER:` and exactly one `:` follows the marker; the address is the colon-free text up to that `:`, the port is what follows it as an `Int` or 8080 |
| Discovery.FirstListed | app/src/main/java/com/copydrop/android/network/NetworkManager.kt:115-151 | the instance found passes the keyword test, and none is found exactly when no instance of any readable listing passes it; `FirstListedIsFirst` and `FirstListedAt` show it is the first match in listing order |
| Discovery.SearchListings | app/src/main/java/com/copydrop/android/network/NetworkManager.kt:115-151 | the type-by-type, instance-by-instance loop with its two breaks, skipping a type whose query threw, returns `FirstListed` |
| Discovery.QuickScanCandidates | app/src/main/java/com/copydrop/android/network/NetworkManager.kt:239-247 | the loop that builds `quickScanIps` returns `last-5 .. last+5` within 1..254, then 1, 2, 10, 100, 101, 200, 254 |
| Discovery.ScanAddress | app/src/main/java/com/copydrop/android/network/NetworkManager.kt:256-259 | the port loop of one address stops at the first accepted port, having rejected exactly the ports before it |
| Discovery.IpOuterScan | app/src/main/java/com/copydrop/android/network/NetworkManager.kt:253-274 | the address-outer scan returns the first accepted pair of the address-outer order with the device's own address left out, and counts the pairs tried including the accepted one; it counts them all when none is accepted |
| Discovery.IpOuterStep | app/src/main/java/com/copydrop/android/network/NetworkManager.kt:254-259 | what one candidate adds: nothing for the device's own address; a hit at its first accepted port; otherwise all its ports, and the first hit lies beyond them |
| Discovery.ScanPort | app/src/main/java/com/copydrop/android/network/NetworkManager.kt:72-83 | one port across the octets, skipping the device's own address, returns the first accepted address |
| Discovery.PortOuterScan | app/src/main/java/com/copydrop/android/network/NetworkManager.kt:71-86 | the port-outer scan returns the first accepted pair of the port-outer order |
| Discovery.HostAddress | app/src/main/java/com/copydrop/android/network/NetworkManager.kt:254 | `"$subnet.$ip"` is the subnet, a dot, then a last part without dots, so the subnet and the octet read back from it (`HostAddressParts`) |
| Discovery.Subnet | app/src/main/java/com/copydrop/android/network/NetworkManager.kt:235 | `substringBeforeLast(".")` is a prefix of the address, shorter than it exactly when the address has a dot, and then followed by the last dot of the address |
| Discovery.LastOctet | app/src/main/java/com/copydrop/android/network/NetworkManager.kt:236 | the scan centre is always an `Int`: the number after the last dot, or 100 (`LastOctetParsed`, `LastOctetFallback`) |
| Discovery.CopyDropServerAnswers | app/src/main/java/com/copydrop/android/network/NetworkManager.kt:343-369 | `testCopyDropServer`, as its body: a reply whose lower-cased body contains `copydrop` or `clipboard`, or whose status is 2xx; after an exception, the port check; its consequences are stated by `AcceptanceRules` and `KeywordBodyAccepted` |
| Discovery.HttpServerAnswers | app/src/main/java/com/copydrop/android/network/NetworkManager.kt:321-338 | `testHttpServer`, as its body: a 2xx or 4xx status; an exception is a rejection; stated by `AcceptanceRules` |
| Discovery.Accepts | app/src/main/java/com/copydrop/android/network/NetworkManager.kt:255-257 | as its body: a pair ends a scan when its port is open and the scan's test accepts it; the quick scan uses `testCopyDropServer`, the full scan `testHttpServer` (`AcceptanceRules`) |
| Discovery.PropertyString | app/src/main/java/com/copydrop/android/network/NetworkManager.kt:126 | as its body: one TXT entry prints as `key=value`, a missing value as `key=null` |
| Discovery.PropertyText | app/src/main/java/com/copydrop/android/network/NetworkManager.kt:123-131 | as its body: the entries joined by spaces and lower-cased; empty when reading them threw (`PropertyKeywordMatches`) |
| Discovery.ServiceMatches | app/src/main/java/com/copydrop/android/network/NetworkManager.kt:120-138 | as its body: the lower-cased name contains `copydrop`, `clipboard` or `copy`, or the TXT text contains `copydrop` or `clipboard` (`NameKeywordMatches`, `PropertyKeywordMatches`) |
| Discovery.FirstMatchAt | app/src/main/java/com/copydrop/android/network/NetworkManager.kt:115-145 | as its body: an instance of a readable listing passes the test and no instance listed before it, in an earlier type or earlier in its listing, does |
| Discovery.BonjourMatch | app/src/main/java/com/copydrop/android/network/NetworkManager.kt:104-145 | as its body: the instance settled on is the first over the five service types, in order, that passes `ServiceMatches` (`FirstListedIsFirst`, `FirstTypeWins`) |
| Discovery.LocalCandidate | app/src/main/java/com/copydrop/android/network/NetworkManager.kt:293 | as its body: an address qualifies when it is not loopback and has a host address without `:` |
| Discovery.NeighbourOctets | app/src/main/java/com/copydrop/android/network/NetworkManager.kt:242-244 | as its body: the values of a range that lie in 1..254, ascending (`NeighbourOctetsSpec`) |
| Discovery.QuickScanOctets | app/src/main/java/com/copydrop/android/network/NetworkManager.kt:239-247 | as its body: the neighbourhood `last-5 .. last+5`, then 1, 2, 10, 100, 101, 200, 254 (`QuickScanCandidatesDistinct`) |
| Discovery.RemoteOctets | app/src/main/java/com/copydrop/android/network/NetworkManager.kt:254-255 | as its body: the candidates whose address is not the device's own, in order (`RemoteOctetsSpec`) |
| Discovery.QuickScanProbes | app/src/main/java/com/copydrop/android/network/NetworkManager.kt:249-257 | as its body: every quick-scan port on each distinct remote candidate in turn (`QuickScanShape`, `QuickScanLength`) |
| Discovery.ScanProbes | app/src/main/java/com/copydrop/android/network/NetworkManager.kt:59-75 | as its body: for each of the seven ports in turn, every remote octet of the five ranges (`FullScanShape`, `FullScanLength`) |
| Discovery.NetworkManager.constructor | app/src/main/java/com/copydrop/android/network/NetworkManager.kt:29-30 | no server is known and the port is 8080 |
| Discovery.NetworkManager.SetMacServerAddress | app/src/main/java/com/copydrop/android/network/NetworkManager.kt:374-378 | the given address and port become the server |
| Discovery.NetworkManager.GetLocalIpAddress | app/src/main/java/com/copydrop/android/network/NetworkManager.kt:284-302 | the first address, interface by interface, that is not loopback and has a host address without `:`; nothing when enumeration throws or no address qualifies |
| Discovery.NetworkManager.StartDiscoveryWithDetails | app/src/main/java/com/copydrop/android/network/NetworkManager.kt:228-279 | without a local address: not found, count 0, server unchanged. Otherwise the first pair of `QuickScanProbes` that is open and passes `testCopyDropServer` is found, with count = its position + 1, and becomes the server. When no pair qualifies: not found, count = number of pairs, server unchanged |
| Discovery.NetworkManager.StartDiscovery | app/src/main/java/com/copydrop/android/network/NetworkManager.kt:52-93 | without a local address nothing; otherwise the first pair of `ScanProbes` that is open and passes `testHttpServer` becomes the server and its address is returned; otherwise nothing and the server is unchanged |
| Discovery.NetworkManager.FindServerByBroadcast | app/src/main/java/com/copydrop/android/network/NetworkManager.kt:177-223 | a well-formed reply sets the server to its address and port and returns the address; a timeout, an exception or a malformed reply change nothing |
| Discovery.NetworkManager.FindServerByBonjour | app/src/main/java/com/copydrop/android/network/NetworkManager.kt:98-172 | the first keyword-matching instance becomes the server only when there is a local address, the instance has a host address and its port is positive; otherwise nothing changes |
| DiscoveryProperties.NeighbourOctetsSpec | app/src/main/java/com/copydrop/android/network/NetworkManager.kt:242-244 | the neighbourhood holds exactly the octets 1..254 of its range, strictly ascending |
| DiscoveryProperties.NeighbourOctetsInside | app/src/main/java/com/copydrop/android/network/NetworkManager.kt:242-244 | a range inside 1..254 is kept whole: element `i` is `lo + i` |
| DiscoveryProperties.NeighbourOctetsLength | app/src/main/java/com/copydrop/android/network/NetworkManager.kt:242-244 | the neighbourhood is no longer than its range |
| DiscoveryProperties.QuickScanCandidatesDistinct | app/src/main/java/com/copydrop/android/network/NetworkManager.kt:239-253 | the distinct candidates are the neighbourhood followed by the common octets not already in it, in order |
| DiscoveryProperties.QuickScanStartsWithNeighbours | app/src/main/java/com/copydrop/android/network/NetworkManager.kt:242-253 | for a last octet in 6..249 the distinct candidates start with the eleven octets `last-5 .. last+5` (`.50` gives 45..55 first) |
| DiscoveryProperties.QuickScanOctetsBound | app/src/main/java/com/copydrop/android/network/NetworkManager.kt:239-253 | at most 18 distinct candidates, without repeats |
| DiscoveryProperties.RemoteOctetsSpec | app/src/main/java/com/copydrop/android/network/NetworkManager.kt:255 | the octets kept are exactly the candidates whose address is not the device's own |
| DiscoveryProperties.HostAddressParts | app/src/main/java/com/copydrop/android/network/NetworkManager.kt:235-236 | the subnet and the last octet of `"$subnet.$i"` are `subnet` and `i` |
| DiscoveryProperties.QuickScanNeverProbesSelf | app/src/main/java/com/copydrop/android/network/NetworkManager.kt:253-257 | no pair of the quick scan is the device's own address, and every port is one of 8080, 3000, 5000, 8000 |
| DiscoveryProperties.FullScanNeverProbesSelf | app/src/main/java/com/copydrop/android/network/NetworkManager.kt:71-75 | no pair of the full scan is the device's own address, and every port is one of the seven scan ports |
| DiscoveryProperties.IpOuterIsRemoteBlocks | app/src/main/java/com/copydrop/android/network/NetworkManager.kt:253-257 | the address-outer order is every port on each remote candidate in turn |
| DiscoveryProperties.IpOuterShape | app/src/main/java/com/copydrop/android/network/NetworkManager.kt:253-257 | pair `i * P + k` is port `k` on remote candidate `i`, where `P` is the number of ports, and there are `P` pairs per remote candidate |
| DiscoveryProperties.QuickScanShape | app/src/main/java/com/copydrop/android/network/NetworkManager.kt:249-257 | the quick scan tries four pairs per remote candidate, pair `4i + k` being port `k` of 8080, 3000, 5000, 8000 on the `i`-th remote candidate, so an exhausted scan counts four per distinct non-local candidate |
| DiscoveryProperties.QuickScanCandidatesCover | app/src/main/java/com/copydrop/android/network/NetworkManager.kt:239-253 | the distinct candidates are host octets in 1..254 without repeats, at least seven of them because all seven common octets are among them |
| DiscoveryProperties.OwnAddressOnce | app/src/main/java/com/copydrop/android/network/NetworkManager.kt:254-255 | at most one host octet gives the device's own address `"$subnet.$ip"` |
| DiscoveryProperties.RemoteOctetsDropAtMostOne | app/src/main/java/com/copydrop/android/network/NetworkManager.kt:254-255 | when at most one candidate is the device's own address, skipping it drops at most one candidate, and none when none is |
| DiscoveryProperties.QuickScanLength | app/src/main/java/com/copydrop/android/network/NetworkManager.kt:239-257 | for every local address the quick scan tries four pairs per remote candidate and at least six remote candidates, so at least 24 pairs |
| DiscoveryProperties.IpOuterLength | app/src/main/java/com/copydrop/android/network/NetworkManager.kt:253-257 | the address-outer order tries every port on every remote candidate: remote candidates times ports pairs |
| DiscoveryProperties.CommonOctetsFacts | app/src/main/java/com/copydrop/android/network/NetworkManager.kt:247 | the seven common octets are distinct and lie in 1..254 |
| DiscoveryProperties.FullScanLength | app/src/main/java/com/copydrop/android/network/NetworkManager.kt:59-75 | for every local address the full scan tries seven pairs per remote octet of the five ranges |
| DiscoveryProperties.OctetsRowIsRemote | app/src/main/java/com/copydrop/android/network/NetworkManager.kt:72-75 | one port across the octets tries exactly the remote octets, in order |
| DiscoveryProperties.FullScanShape | app/src/main/java/com/copydrop/android/network/NetworkManager.kt:59-75 | the full scan tries `7R` pairs for `R` remote octets of the five ranges, pair `pR + i` being scan port `p` on the `i`-th of them |
| DiscoveryProperties.AcceptanceRules | app/src/main/java/com/copydrop/android/network/NetworkManager.kt:75-77 | a closed port is never accepted; after an open port and a reply, `testHttpServer` accepts exactly 2xx and 4xx and `testCopyDropServer` accepts every 2xx; when the request throws, only `testCopyDropServer` accepts, exactly when the port is open |
| DiscoveryProperties.KeywordBodyAccepted | app/src/main/java/com/copydrop/android/network/NetworkManager.kt:356-361 | a body containing `CopyDrop` in any case makes an open port a CopyDrop server whatever its status |
| DiscoveryProperties.NameKeywordMatches | app/src/main/java/com/copydrop/android/network/NetworkManager.kt:120-136 | an instance name containing `Copy` in any case matches, whatever its TXT record |
| DiscoveryProperties.PropertyKeywordMatches | app/src/main/java/com/copydrop/android/network/NetworkManager.kt:123-138 | a TXT value containing `Clipboard` in any case makes the instance match, whatever its name |
| DiscoveryProperties.FirstListedIsFirst | app/src/main/java/com/copydrop/android/network/NetworkManager.kt:115-145 | an instance found is the first match: it sits in a readable listing, and every instance before it in that listing and in the listings of earlier types fails the test |
| DiscoveryProperties.FirstListedAt | app/src/main/java/com/copydrop/android/network/NetworkManager.kt:115-145 | conversely, the first match in listing order is the instance found |
| DiscoveryProperties.FirstTypeWins | app/src/main/java/com/copydrop/android/network/NetworkManager.kt:115-145 | a matching instance heading the `_copydrop._tcp.local.` listing is the one settled on |
| DiscoveryProperties.ServerReplyParts | app/src/main/java/com/copydrop/android/network/NetworkManager.kt:201-206 | `COPYDROP_SERVER:<a>:<t>` with colon-free parts reads as address `a` and port `t` as an `Int`, or 8080 |
| DiscoveryProperties.ServerReplyRoundTrip | app/src/main/java/com/copydrop/android/network/NetworkManager.kt:201-206 | a reply printed from a colon-free address and an `Int` port parses back to both |
| DiscoveryProperties.ServerReplyExample | app/src/main/java/com/copydrop/android/network/NetworkManager.kt:201-206 | `COPYDROP_SERVER:10.0.0.5:9090` names 10.0.0.5 on port 9090 |
| DiscoveryProperties.ServerReplyBadPort | app/src/main/java/com/copydrop/android/network/NetworkManager.kt:206 | a port that is not a number falls back to 8080 |
| DiscoveryProperties.ServerReplyIpv6Rejected | app/src/main/java/com/copydrop/android/network/NetworkManager.kt:203-204 | an IPv6 reply has more than two parts and is refused |
| DiscoveryProperties.ServerReplyWithoutMarker | app/src/main/java/com/copydrop/android/network/NetworkManager.kt:201 | a reply without the marker is refused |
| DiscoveryProperties.LastOctetFallback | app/src/main/java/com/copydrop/android/network/NetworkManager.kt:236 | an address whose text after the last dot, or whole text when there is no dot, is not a number scans around 100 |
| DiscoveryProperties.LastOctetParsed | app/src/main/java/com/copydrop/android/network/NetworkManager.kt:236 | when that text is an `Int`, the scan centres on its value, with or without a dot before it |
| DiscoveryProperties.LastOctetOfAddress | app/src/main/java/com/copydrop/android/network/NetworkManager.kt:236 | `192.168.1.7` scans around 7 |
| DiscoveryProperties.LastOctetOfNumeral | app/src/main/java/com/copydrop/android/network/NetworkManager.kt:236 | the dotless numeral `7` scans around 7 |
| DiscoveryProperties.LastOctetNotANumber | app/src/main/java/com/copydrop/android/network/NetworkManager.kt:236 | `192.168.1.x` scans around 100 |
| DiscoveryProperties.LastOctetOfHostName | app/src/main/java/com/copydrop/android/network/NetworkManager.kt:236 | `localhost`, without a dot, scans around 100 |
| Sync.Sound | app/src/main/java/com/copydrop/android/network/WebSocketManager.kt:145-150 | the hypothesis on the cipher, as its body: AES/GCM with a 128-bit tag seals a plain text into one 16 bytes longer that opens back to it under the same key and 12-byte IV |
| Sync.Encrypt | app/src/main/java/com/copydrop/android/network/WebSocketManager.kt:140-161 | a frame exists exactly when the cipher seals; it is the 12-byte IV followed by the sealed bytes, 12 + plain + 16 bytes long under GCM |
| Sync.Decrypt | app/src/main/java/com/copydrop/android/network/WebSocketManager.kt:166-183 | a frame under 28 bytes is refused; otherwise the first 12 bytes are the IV and the rest is opened with it |
| Sync.EncryptDecrypt | app/src/main/java/com/copydrop/android/network/WebSocketManager.kt:140-183 | under GCM, decrypting a frame `encrypt` produced gives the plain text back |
| Sync.HashString | app/src/main/java/com/copydrop/android/network/WebSocketManager.kt:188-193 | the hash string is 71 characters: `sha256:` and 64 lower-case hex digits |
| Sync.HashStringInjective | app/src/main/java/com/copydrop/android/network/WebSocketManager.kt:188-193 | equal hash strings come from equal digests |
| Sync.SocketUrl | app/src/main/java/com/copydrop/android/network/WebSocketManager.kt:55 | the URL starts with `ws://`, ends with `/ws`, and between them holds `address:port` |
| Sync.Fields | app/src/main/java/com/copydrop/android/network/WebSocketManager.kt:102-108 | a sent message carries exactly the keys `t`, `from`, `type`, `payload`, `hash` |
| Sync.Incoming | app/src/main/java/com/copydrop/android/network/WebSocketManager.kt:119-126 | an inbound frame is read exactly when it decrypts, parses and carries both `payload` and `hash`, and then gives those two values |
| Sync.SentFrameReadsBack | app/src/main/java/com/copydrop/android/network/WebSocketManager.kt:102-126 | under GCM, with the same key and a JSON reader that reads back what the writer writes, a sent frame reads back as its payload and hash |
| Sync.WebSocketManager.constructor | app/src/main/java/com/copydrop/android/network/WebSocketManager.kt:27-45 | DISCONNECTED, no socket, a key of 32 zero bytes, no `lastHash`, nothing received; no socket or reconnect yet, so `Opened` holds |
| Sync.WebSocketManager.SetEncryptionKey | app/src/main/java/com/copydrop/android/network/WebSocketManager.kt:32-34 | the decoded bytes become the key; when `Base64.decode` throws, `threw` and the key stays; nothing else changes |
| Sync.UrlAccepted | app/src/main/java/com/copydrop/android/network/WebSocketManager.kt:58-62 | as its body: `Request.Builder().url` is given the whole string `ws://$a:$p/ws`, and OkHttp's parser decides on that string, not on the address and port apart |
| Sync.PortOutOfRangeRefused | app/src/main/java/com/copydrop/android/network/WebSocketManager.kt:58-62 | under OkHttp's port check (`PortChecked`), a plain host (no `/`, `\`, `?`, `#`, `@`, `:`, `[` or `]`) with a port outside 1..65535 is refused |
| Sync.PortInPathExample | app/src/main/java/com/copydrop/android/network/WebSocketManager.kt:58 | address `h/x` and port 0 build `ws://h/x:0/ws`, and `h/x` is not a plain host, so the port check says nothing about it: the `:0` is in the path |
| Sync.WebSocketManager.Opened | app/src/main/java/com/copydrop/android/network/WebSocketManager.kt:60-76 | as its body: every socket and every posted reconnect has an endpoint whose URL OkHttp took |
| Sync.WebSocketManager.Connect | app/src/main/java/com/copydrop/android/network/WebSocketManager.kt:54-62 | CONNECTING in every case; a new socket to the endpoint exactly when OkHttp takes the URL string `ws://$a:$p/ws`; otherwise `threw`, no socket and the other state unchanged; it keeps `Opened` |
| Sync.WebSocketManager.OnOpen | app/src/main/java/com/copydrop/android/network/WebSocketManager.kt:63-65 | CONNECTED, nothing else changes |
| Sync.WebSocketManager.OnFailure | app/src/main/java/com/copydrop/android/network/WebSocketManager.kt:71-77 | RECONNECTING, and exactly one reconnect to that socket's own endpoint is posted; it keeps `Opened` |
| Sync.WebSocketManager.OnClosed | app/src/main/java/com/copydrop/android/network/WebSocketManager.kt:79-81 | DISCONNECTED, nothing else changes |
| Sync.WebSocketManager.FireReconnect | app/src/main/java/com/copydrop/android/network/WebSocketManager.kt:74-76 | the oldest posted reconnect runs `connect` with its endpoint: CONNECTING, and a new socket unless the URL is refused; under `Opened` it is never refused, since the endpoint was taken before |
| Sync.OpenedPortsInRange | app/src/main/java/com/copydrop/android/network/WebSocketManager.kt:57-76 | under `Opened` and OkHttp's port check, every socket and every posted reconnect to a plain host has a port in 1..65535 |
| Sync.WebSocketManager.Disconnect | app/src/main/java/com/copydrop/android/network/WebSocketManager.kt:88-91 | closes the current socket if there is one and reports DISCONNECTED; posted reconnects stay |
| Sync.WebSocketManager.SendClipboard | app/src/main/java/com/copydrop/android/network/WebSocketManager.kt:96-114 | a text whose hash is `lastHash` changes nothing; otherwise the hash becomes `lastHash` before encryption, and the frame is sent only when encryption succeeds and a socket exists |
| Sync.WebSocketManager.HandleIncomingMessage | app/src/main/java/com/copydrop/android/network/WebSocketManager.kt:119-134 | a readable message whose hash differs from `lastHash` becomes `receivedClipboard` and `lastHash`; an unreadable one or a repeated hash changes nothing |
| Sync.SendTwice | app/src/main/java/com/copydrop/android/network/WebSocketManager.kt:97-113 | the same text sent twice in a row gives at most one frame |
| Sync.ReceiveThenEcho | app/src/main/java/com/copydrop/android/network/WebSocketManager.kt:96-130 | text whose hash was just received is not sent back |
| Sync.FailThenRetry | app/src/main/java/com/copydrop/android/network/WebSocketManager.kt:71-76 | a failure, then the timer: CONNECTING again, to the same endpoint |
| Sync.DisconnectDuringRetry | app/src/main/java/com/copydrop/android/network/WebSocketManager.kt:71-91 | `disconnect` after a failure does not stop the posted reconnect: the manager is CONNECTING again after it |
| Sync.SendAndReceive | app/src/main/java/com/copydrop/android/network/WebSocketManager.kt:96-134 | a text sent by one client reaches another with the same key as its `receivedClipboard` |
| Clipboard.DetermineClipboardType | app/src/main/java/com/copydrop/android/service/ClipboardManager.kt:86-91 | URL exactly for content starting with `http://` or `https://`, TEXT otherwise, never IMAGE |
| Clipboard.GetClipboardContent | app/src/main/java/com/copydrop/android/service/ClipboardManager.kt:46-65 | content exists exactly when the clip has items and item 0 has non-empty text; it is that text, stamped with the clock, classified, with an empty device id |
| Clipboard.Wrap32 | app/src/main/java/com/copydrop/android/service/ClipboardManager.kt:102 | JVM `Int` wrap-around: a 32-bit value congruent to the input modulo 2^32 |
| Clipboard.JavaHashCode | app/src/main/java/com/copydrop/android/service/ClipboardManager.kt:102 | `hashCode()` is a 32-bit value |
| Clipboard.GenerateHash | app/src/main/java/com/copydrop/android/service/ClipboardManager.kt:96-104 | with MD5, 32 lower-case hex digits that read back as the digest; without it, the decimal `hashCode()` |
| Clipboard.ClipboardManager.constructor | app/src/main/java/com/copydrop/android/service/ClipboardManager.kt:19-23 | nothing emitted, an empty `lastClipboardHash`, the flag down |
| Clipboard.ClipboardManager.StartMonitoring | app/src/main/java/com/copydrop/android/service/ClipboardManager.kt:28-29 | registers one more listener and changes nothing else |
| Clipboard.ClipboardManager.OnPrimaryClipChanged | app/src/main/java/com/copydrop/android/service/ClipboardManager.kt:29-40 | a change is emitted exactly when no remote update is in progress, the content is readable and non-empty, and its hash differs from `lastClipboardHash`, which it then becomes; otherwise nothing changes |
| Clipboard.ClipboardManager.SetClipboardContent | app/src/main/java/com/copydrop/android/service/ClipboardManager.kt:70-81 | a successful write records the content and its hash, and a change reported during the write is not emitted; a failed write keeps the hash; the flag is down on return either way |
| Clipboard.NoEchoOfRemoteText | app/src/main/java/com/copydrop/android/service/ClipboardManager.kt:29-81 | remote text written to the clipboard is not emitted when the clipboard reports it |
| Clipboard.RepeatedChangeEmitsOnce | app/src/main/java/com/copydrop/android/service/ClipboardManager.kt:33-37 | the same clip reported twice is emitted at most once |
| Clipboard.OnlyFirstItemRead | app/src/main/java/com/copydrop/android/service/ClipboardManager.kt:49-51 | items after the first never change what is read |
| Clipboard.NonTextFirstItem | app/src/main/java/com/copydrop/android/service/ClipboardManager.kt:51-59 | a clip whose first item has no text reads as nothing |
| Clipboard.ClassifierExamples | app/src/main/java/com/copydrop/android/service/ClipboardManager.kt:88 | `https://…` and `http://…` are URLs; `ftp://…` and text with a URL inside are TEXT |
| Clipboard.JavaHashCodeExamples | app/src/main/java/com/copydrop/android/service/ClipboardManager.kt:102 | `"".hashCode()` is 0 and `"ab".hashCode()` is 3105 |
| Clipboard.GenerateHashSeparates | app/src/main/java/com/copydrop/android/service/ClipboardManager.kt:96-100 | distinct MD5 digests give distinct hash strings |
| Pairing.ParseWsUrl | app/src/main/java/com/copydrop/android/service/BleDiscoveryService.kt:158-160 | the URL is read exactly when, after the optional `ws://` and `/ws` are dropped, splitting on `:` gives two pieces or more and piece 1 is an `Int`; the address is piece 0, without `:` |
| Pairing.ParseSocketUrl | app/src/main/java/com/copydrop/android/service/BleDiscoveryService.kt:158-160 | the URL `connect` opens parses back to its address and port |
| Pairing.ParseWsUrlExample | app/src/main/java/com/copydrop/android/service/BleDiscoveryService.kt:153-160 | `ws://192.168.0.12:8080/ws` reads as 192.168.0.12 and 8080 |
| Pairing.SocketUrlExample | app/src/main/java/com/copydrop/android/network/WebSocketManager.kt:55 | `connect("192.168.0.12", 8080)` opens `ws://192.168.0.12:8080/ws` |
| Pairing.ExtraPiecesIgnored | app/src/main/java/com/copydrop/android/service/BleDiscoveryService.kt:158-160 | pieces after the port are ignored |
| Pairing.NoPortRefused | app/src/main/java/com/copydrop/android/service/BleDiscoveryService.kt:158-160 | a URL without `:` is refused |
| Pairing.BadPortRefused | app/src/main/java/com/copydrop/android/service/BleDiscoveryService.kt:160 | a port that is not an `Int` is refused |
| Pairing.DecodeOffer | app/src/main/java/com/copydrop/android/service/BleDiscoveryService.kt:150-160 | an offer is decoded exactly when the value is a JSON object with `ws`, `key_b64` and `exp` and the URL parses, and then carries that address, port, key and expiry |
| Pairing.BleDiscoveryService.constructor | app/src/main/java/com/copydrop/android/service/BleDiscoveryService.kt:29-50 | not scanning, no GATT connection, nothing persisted, no effect yet |
| Pairing.BleDiscoveryService.StartScan | app/src/main/java/com/copydrop/android/service/BleDiscoveryService.kt:72-87 | without a scanner nothing; otherwise `scanning` and a scan started |
| Pairing.BleDiscoveryService.StopScan | app/src/main/java/com/copydrop/android/service/BleDiscoveryService.kt:89-95 | stops the scan only when `scanning`, and always leaves it false |
| Pairing.BleDiscoveryService.OnStartCommand | app/src/main/java/com/copydrop/android/service/BleDiscoveryService.kt:29-41 | the start action goes to the foreground and then scans; the stop action stops the scan and then the service; any other action does nothing |
| Pairing.BleDiscoveryService.OnScanResult | app/src/main/java/com/copydrop/android/service/BleDiscoveryService.kt:98-102 | stops scanning before it connects to the device found |
| Pairing.BleDiscoveryService.OnScanFailed | app/src/main/java/com/copydrop/android/service/BleDiscoveryService.kt:104-107 | the service stops itself |
| Pairing.BleDiscoveryService.OnConnectionStateChange | app/src/main/java/com/copydrop/android/service/BleDiscoveryService.kt:111-123 | connected: discover services; disconnected: close and stop; other states: nothing |
| Pairing.BleDiscoveryService.OnServicesDiscovered | app/src/main/java/com/copydrop/android/service/BleDiscoveryService.kt:125-141 | reads the offer characteristic when discovery succeeded and it exists; otherwise stops |
| Pairing.BleDiscoveryService.OnCharacteristicRead | app/src/main/java/com/copydrop/android/service/BleDiscoveryService.kt:143-191 | a successful read of a well-formed offer persists its key and expiry, then starts the sync with the offer unless `startForegroundService` throws, then stops; a failed read or a malformed offer persists nothing, starts nothing, and only stops |
| Pairing.BleDiscoveryService.OnDestroy | app/src/main/java/com/copydrop/android/service/BleDiscoveryService.kt:45-50 | stops the scan, then closes the GATT connection if there is one |
| Pairing.StopScanTwice | app/src/main/java/com/copydrop/android/service/BleDiscoveryService.kt:89-95 | `stopScan` is idempotent |
| Pairing.RefusedSyncKeepsSession | app/src/main/java/com/copydrop/android/service/BleDiscoveryService.kt:163-186 | a well-formed offer whose sync service cannot be started leaves the key and expiry persisted, starts no sync, and stops |
| Pairing.MalformedOfferPersistsNothing | app/src/main/java/com/copydrop/android/service/BleDiscoveryService.kt:183-186 | a malformed offer persists nothing and starts no sync |
| Pairing.PairWith | app/src/main/java/com/copydrop/android/service/BleDiscoveryService.kt:98-182 | scan result, connection, discovery and read of a good offer leave the scan stopped, the key and expiry persisted, and a sync started with the offer's endpoint, key and expiry |

## Left out

- Sockets, HTTP, UDP, JmDNS, Bluetooth LE and GATT, and SharedPreferences are not executed. Their results are inputs:
  - a `Network` answers the port and HTTP probes;
  - a listing function answers mDNS queries;
  - the broadcast reply is a parameter;
  - Bluetooth calls are recorded as an ordered list of `Effect`s.
- The cipher, SHA-256, MD5, the JSON reader and writer, the UTF-8 codec and `Base64.decode` are function parameters.
  - The only property assumed of the cipher is `Sync.Sound`.
  - `Sync.WebSocketManager.SetEncryptionKey` takes the bytes `Base64.decode` returned, or `None` when it threw.
  - `Sync.WebSocketManager.Connect` reads OkHttp's URL parser, applied to the whole URL string, from the parameter `urlParses`. The parser's port check is the hypothesis `Sync.PortChecked`, stated only for plain hosts: for an address holding `/`, `\`, `?` or `#` the authority ends early and `:$port` lands in the path, so no port rule is assumed for it.
- `SecureRandom` and `System.currentTimeMillis` become method arguments: the IV and `now`. Nonce uniqueness is probabilistic and is not stated.
- Coroutines, `withContext`, `@Volatile`, the socket timeouts and the 2000 ms delay are not modelled. A posted reconnect is an entry of a first-in-first-out `pending` queue, fired by `FireReconnect`. Callbacks run one at a time.
- Notifications (`updateNotification`, `createNotification`) and log output have no effect on the model.
- A caught exception becomes `None`, `Threw` or an ignored branch; the code handles every exception type it catches the same way, so types are not distinguished. Two exceptions are not caught and reach the caller: OkHttp's URL check in `connect` and `Base64.decode` in `setEncryptionKey`. `Sync.WebSocketManager.Connect` and `Sync.WebSocketManager.SetEncryptionKey` report them as `threw`; what the caller then does is outside this model.
- `lowercase()` maps ASCII letters only. Every keyword the code looks for is ASCII.
- Clipboard.JavaHashCode: works on the model's characters, not UTF-16 code units. It agrees with `String.hashCode` when all characters are in the Basic Multilingual Plane.
- Discovery.NetworkManager.StartDiscoveryWithDetails: `lastOctet - 5 .. lastOctet + 5` is computed without 32-bit wrap-around. Near the ends of the `Int` range the wrapped range is empty, and the unbounded one holds no octet in 1..254, so the candidates are the same.
- KotlinText.ParseInt32: reads ASCII digits only. On the JVM `toIntOrNull` and `toInt` also accept other Unicode decimal digits, so a UDP reply port (NetworkManager.kt:206) or a BLE offer port (BleDiscoveryService.kt:160) written in such digits is refused here but read there. The 1024-byte UDP receive buffer (NetworkManager.kt:195), which cuts a longer reply before it is parsed, is not modelled either: the reply is a string parameter.
- Discovery.CopyDropServerAnswers: after an HTTP exception, the second `isPortOpen` call is assumed to give the same answer as the first, because the network is a function.
- Clipboard.ClipboardManager.OnPrimaryClipChanged: models one listener. After several `startMonitoring` calls, each registered listener runs this same body in turn.
- Pairing.DecodeOffer: `getString` converting a non-string value, and `getLong` truncating a fractional number, are left to the JSON reader parameter. `exp` is an unbounded integer.
- Pairing.BleDiscoveryService.OnStartCommand: `startForeground` is assumed not to throw, since no caller catches it. The adapter and scanner lookup is the single argument `hasScanner`.
- Discovery.NetworkManager.SetMacServerAddress: the default argument `port = 8080` has no member of its own; a call without a port is `SetMacServerAddress(address, DefaultPort)`.
- Sync.WebSocketManager.Disconnect: `webSocket` stays set after `close`, so later sends still hand frames to the closed socket, as in the code. What OkHttp then does with them is not modelled.
- `stopMonitoring` has an empty body, so listeners registered by `startMonitoring` stay registered; the model has nothing to change for it.
- The other files of the repository are not part of this model:
  - `MainActivity.kt`, `MainViewModel.kt` and `CopyDropApplication.kt`: user interface, permissions and notification channels;
  - `ClipboardSyncService.kt` and `NetworkService.kt`: service plumbing;
  - `CopyDropApi.kt`: an interface with no logic;
  - `SecurityManager.kt`: wrappers over AES-CBC and Base64;
  - `ClipboardData.kt`: used only for `ClipboardData` and `ClipboardType`.
