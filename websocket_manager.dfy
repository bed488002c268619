/**
 * The sync engine of `WebSocketManager`: the connection-state machine driven by
 * `connect`, the socket listener and `disconnect`; the single `lastHash` that
 * suppresses both repeated sends and echoed receives; and the AES-256-GCM frame
 * layout `IV(12) || ciphertext || tag(16)` of section 5.2.1.1 and 7.1 of NIST
 * SP 800-38D, with the cipher itself as a pair of functions.
 */
module Sync {
  import opened Wrappers
  import opened Hex
  import opened KotlinText

  /** Bytes of the GCM initialisation vector (96 bits). */
  const IvLength: nat := 12
  /** Bytes of the GCM authentication tag (128 bits). */
  const TagLength: nat := 16

  /** The random IV drawn for each frame. */
  type Nonce = s: seq<byte> | |s| == IvLength witness [0, 0, 0, 0, 0, 0, 0, 0, 0, 0, 0, 0]

  /** A SHA-256 digest (section 6.2 of FIPS 180-4: eight 32-bit words). */
  type Digest = s: seq<byte> | |s| == 32 witness seq(32, i => 0)

  datatype ConnectionState = Disconnected | Connecting | Connected | Reconnecting

  /**
   * AES/GCM/NoPadding with a 128-bit tag, as `Cipher` provides it: `seal(key, iv,
   * plain)` is `doFinal` in encrypt mode, `open(key, iv, sealed)` in decrypt mode;
   * `None` is a thrown exception (a key of the wrong length, a tag that does not
   * match).
   */
  datatype Aead = Aead(
    seal: (seq<byte>, seq<byte>, seq<byte>) -> Option<seq<byte>>,
    open: (seq<byte>, seq<byte>, seq<byte>) -> Option<seq<byte>>)

  /** What GCM guarantees: the sealed text is the plain text plus a 16-byte tag, and it opens to the plain text. */
  ghost predicate Sound(aead: Aead)
  {
    forall key, iv, plain :: |iv| == IvLength && aead.seal(key, iv, plain).Some? ==>
      |aead.seal(key, iv, plain).value| == |plain| + TagLength
      && aead.open(key, iv, aead.seal(key, iv, plain).value) == Some(plain)
  }

  /** `encrypt`: the IV followed by the ciphertext and tag; `None` when the cipher throws. */
  function Encrypt(aead: Aead, key: seq<byte>, iv: Nonce, plain: seq<byte>): (r: Option<seq<byte>>)
    ensures r.Some? <==> aead.seal(key, iv, plain).Some?
    ensures r.Some? ==> |r.value| >= IvLength && r.value[..IvLength] == iv && r.value[IvLength..] == aead.seal(key, iv, plain).value
    ensures r.Some? && Sound(aead) ==> |r.value| == IvLength + |plain| + TagLength
  {
    match aead.seal(key, iv, plain)
    case None => None
    case Some(sealed) => Some(iv + sealed)
  }

  /**
   * `decrypt`: a frame shorter than an IV and a tag is refused; otherwise the
   * first 12 bytes are the IV and the rest is opened with it.
   */
  function Decrypt(aead: Aead, key: seq<byte>, data: seq<byte>): (r: Option<seq<byte>>)
    ensures |data| < IvLength + TagLength ==> r.None?
    ensures |data| >= IvLength + TagLength ==> r == aead.open(key, data[..IvLength], data[IvLength..])
  {
    if |data| < IvLength + TagLength then None
    else aead.open(key, data[..IvLength], data[IvLength..])
  }

  /** What `encrypt` produces, `decrypt` gives back. */
  lemma EncryptDecrypt(aead: Aead, key: seq<byte>, iv: Nonce, plain: seq<byte>)
    requires Sound(aead)
    requires aead.seal(key, iv, plain).Some?
    ensures Decrypt(aead, key, Encrypt(aead, key, iv, plain).value) == Some(plain)
  {
    var frame := Encrypt(aead, key, iv, plain).value;
    assert |frame| >= IvLength + TagLength;
  }

  /** `sha256(text)`: `"sha256:"` and the digest in lower-case hex. */
  function HashString(digest: Digest): (h: string)
    ensures |h| == 71
    ensures StartsWith(h, "sha256:")
    ensures forall i :: 7 <= i < |h| ==> IsLowerHex(h[i])
  {
    "sha256:" + Hex.Hex(digest)
  }

  /** Two texts share a hash string only when their digests agree. */
  lemma HashStringInjective(a: Digest, b: Digest)
    requires HashString(a) == HashString(b)
    ensures a == b
  {
    assert HashString(a)[7..] == Hex.Hex(a);
    assert HashString(b)[7..] == Hex.Hex(b);
    HexInjective(a, b);
  }

  /** `"ws://$serverAddress:$serverPort/ws"` */
  function SocketUrl(address: string, port: int): (url: string)
    ensures StartsWith(url, "ws://") && EndsWith(url, "/ws")
    ensures |url| >= 8 && url[5..|url| - 3] == address + ":" + IntToString(port)
  {
    "ws://" + address + ":" + IntToString(port) + "/ws"
  }

  /** The object `sendClipboard` serialises. */
  datatype Message = Message(t: int, from: string, kind: string, payload: string, hash: string)

  /**
   * The string view `JSONObject.getString` gives of each key of a serialised
   * `Message`; `"type"` is the JSON key of `kind`.
   */
  function Fields(m: Message): (f: map<string, string>)
    ensures f.Keys == {"t", "from", "type", "payload", "hash"}
  {
    map["t" := IntToString(m.t), "from" := m.from, "type" := m.kind,
        "payload" := m.payload, "hash" := m.hash]
  }

  /** The payload and hash of an incoming message. */
  datatype Received = Received(payload: string, hash: string)

  /**
   * The body of `handleIncomingMessage` up to its comparison: decrypt, parse the
   * UTF-8 JSON object, read `"payload"` and `"hash"`; `None` when any step fails.
   */
  function Incoming(aead: Aead, key: seq<byte>, parse: seq<byte> -> Option<map<string, string>>, data: seq<byte>): (r: Option<Received>)
    ensures r.Some? <==>
              Decrypt(aead, key, data).Some?
              && parse(Decrypt(aead, key, data).value).Some?
              && "payload" in parse(Decrypt(aead, key, data).value).value
              && "hash" in parse(Decrypt(aead, key, data).value).value
    ensures r.Some? ==>
              var json := parse(Decrypt(aead, key, data).value).value;
              r.value == Received(json["payload"], json["hash"])
  {
    match Decrypt(aead, key, data)
    case None => None
    case Some(plain) =>
      match parse(plain)
      case None => None
      case Some(json) =>
        if "payload" in json && "hash" in json then Some(Received(json["payload"], json["hash"])) else None
  }

  /**
   * A frame sent for a message reads back as that message's payload and hash,
   * given a JSON parser that reads back what the serialiser writes.
   */
  lemma SentFrameReadsBack(aead: Aead, key: seq<byte>, iv: Nonce,
                           serialize: Message -> seq<byte>, parse: seq<byte> -> Option<map<string, string>>, m: Message)
    requires Sound(aead)
    requires parse(serialize(m)) == Some(Fields(m))
    requires aead.seal(key, iv, serialize(m)).Some?
    ensures Incoming(aead, key, parse, Encrypt(aead, key, iv, serialize(m)).value) == Some(Received(m.payload, m.hash))
  {
    EncryptDecrypt(aead, key, iv, serialize(m));
  }

  /** Where a socket was opened to. */
  datatype Endpoint = Endpoint(address: string, port: int)

  /**
   * Whether OkHttp's `Request.Builder().url` takes `ws://$address:$port/ws`
   * (`urlParses`, the parser itself); otherwise it throws
   * `IllegalArgumentException`. The parser ends the authority at the first `/`,
   * `\`, `?` or `#`, so for an address holding one of those the `:$port` text
   * lands in the path and is not read as a port.
   */
  predicate UrlAccepted(urlParses: string -> bool, address: string, port: int)
  {
    urlParses(SocketUrl(address, port))
  }

  /**
   * A character that changes how OkHttp splits `$address:$port`: one of the four
   * that end the authority, the `@` that ends user information, the `:` of a
   * port and the brackets of an IPv6 literal.
   */
  predicate AuthorityMark(c: char)
  {
    c == '/' || c == '\\' || c == '?' || c == '#' || c == '@' || c == ':' || c == '[' || c == ']'
  }

  /** An address OkHttp reads whole as the URL's host, so the text after its `:` is the port. */
  predicate PlainHost(address: string)
  {
    forall i :: 0 <= i < |address| ==> !AuthorityMark(address[i])
  }

  /**
   * The port check of OkHttp's URL parser: for a plain host it takes the URL
   * only when the port text is a number in 1..65535.
   */
  ghost predicate PortChecked(urlParses: string -> bool)
  {
    forall address, port :: PlainHost(address) && urlParses(SocketUrl(address, port)) ==> 1 <= port <= 65535
  }

  /** For a plain host, a port outside 1..65535 makes `connect` throw. */
  lemma PortOutOfRangeRefused(urlParses: string -> bool, address: string, port: int)
    requires PortChecked(urlParses) && PlainHost(address)
    requires port < 1 || port > 65535
    ensures !UrlAccepted(urlParses, address, port)
  {
  }

  /**
   * For an address that ends the authority early the URL string is not the
   * one with the port separated out: `h/x` with port 0 gives `ws://h/x:0/ws`,
   * host `h`, path `/x:0/ws`, which OkHttp takes with the default port.
   */
  lemma PortInPathExample()
    ensures SocketUrl("h/x", 0) == "ws://h/x:0/ws"
    ensures !PlainHost("h/x")
  {
    assert AuthorityMark("h/x"[1]);
  }

  /**
   * `WebSocketManager`. Every `connect` opens a new socket with its own listener
   * and the listener of an older socket is never detached, so callbacks name
   * the socket they belong to by its index in `sockets`.
   */
  class WebSocketManager {
    /**
     * The platform: the cipher, SHA-256 of the UTF-8 text, the JSON writer and
     * reader, `Build.MODEL`, and which URL strings OkHttp's URL parser takes.
     */
    const aead: Aead
    const sha256: string -> Digest
    const serialize: Message -> seq<byte>
    const parse: seq<byte> -> Option<map<string, string>>
    const deviceModel: string
    const urlParses: string -> bool

    var state: ConnectionState
    /** Every socket `connect` created, oldest first; `webSocket` is the last one. */
    var sockets: seq<Endpoint>
    /** Reconnects posted by `onFailure` that have not fired yet, in firing order. */
    var pending: seq<Endpoint>
    /** Frames handed to `webSocket.send`, in order. */
    var sent: seq<seq<byte>>
    /** Sockets `disconnect` asked to close (code 1000). */
    var closed: seq<nat>
    var encryptionKey: seq<byte>
    var lastHash: Option<string>
    var receivedClipboard: Option<string>

    /** Every socket was created for a URL OkHttp took, and so was every posted reconnect's. */
    predicate Opened()
      reads this
    {
      && (forall e :: e in sockets ==> UrlAccepted(urlParses, e.address, e.port))
      && (forall e :: e in pending ==> UrlAccepted(urlParses, e.address, e.port))
    }

    constructor (aead: Aead, sha256: string -> Digest, serialize: Message -> seq<byte>,
                 parse: seq<byte> -> Option<map<string, string>>, deviceModel: string, urlParses: string -> bool)
      ensures this.aead == aead && this.sha256 == sha256 && this.serialize == serialize
      ensures this.parse == parse && this.deviceModel == deviceModel && this.urlParses == urlParses
      ensures state == Disconnected && sockets == [] && pending == [] && sent == [] && closed == []
      ensures encryptionKey == seq(32, i => 0) && lastHash == None && receivedClipboard == None
      ensures Opened()
    {
      this.aead := aead;
      this.sha256 := sha256;
      this.serialize := serialize;
      this.parse := parse;
      this.deviceModel := deviceModel;
      this.urlParses := urlParses;
      state := Disconnected;
      sockets := [];
      pending := [];
      sent := [];
      closed := [];
      encryptionKey := seq(32, i => 0);
      lastHash := None;
      receivedClipboard := None;
    }

    /**
     * `setEncryptionKey`, given what `Base64.decode` returned for the string, or
     * `None` when it threw; the exception reaches the caller and the key stays.
     */
    method SetEncryptionKey(decoded: Option<seq<byte>>) returns (threw: bool)
      modifies this
      ensures threw <==> decoded.None?
      ensures encryptionKey == if decoded.Some? then decoded.value else old(encryptionKey)
      ensures state == old(state) && sockets == old(sockets) && pending == old(pending) && sent == old(sent)
      ensures closed == old(closed) && lastHash == old(lastHash) && receivedClipboard == old(receivedClipboard)
    {
      if decoded.None? {
        return true;
      }
      encryptionKey := decoded.value;
      return false;
    }

    /**
     * `connect`: CONNECTING, then a new socket to `SocketUrl(address, port)` when
     * OkHttp takes that URL; otherwise `url` throws to the caller, no socket is
     * created and the state stays CONNECTING.
     */
    method Connect(address: string, port: int) returns (threw: bool)
      modifies this
      ensures threw <==> !UrlAccepted(urlParses, address, port)
      ensures state == Connecting && sockets == old(sockets) + if threw then [] else [Endpoint(address, port)]
      ensures pending == old(pending) && sent == old(sent) && closed == old(closed)
      ensures encryptionKey == old(encryptionKey) && lastHash == old(lastHash) && receivedClipboard == old(receivedClipboard)
      ensures old(Opened()) ==> Opened()
    {
      state := Connecting;
      if !UrlAccepted(urlParses, address, port) {
        return true;
      }
      sockets := sockets + [Endpoint(address, port)];
      return false;
    }

    /** `onOpen` of socket `i`'s listener. */
    method OnOpen(i: nat)
      requires i < |sockets|
      modifies this
      ensures state == Connected
      ensures sockets == old(sockets) && pending == old(pending) && sent == old(sent) && closed == old(closed)
      ensures encryptionKey == old(encryptionKey) && lastHash == old(lastHash) && receivedClipboard == old(receivedClipboard)
    {
      state := Connected;
    }

    /** `onFailure` of socket `i`'s listener: RECONNECTING, and one reconnect to that socket's endpoint posted. */
    method OnFailure(i: nat)
      requires i < |sockets|
      modifies this
      ensures state == Reconnecting && pending == old(pending) + [old(sockets)[i]]
      ensures sockets == old(sockets) && sent == old(sent) && closed == old(closed)
      ensures encryptionKey == old(encryptionKey) && lastHash == old(lastHash) && receivedClipboard == old(receivedClipboard)
      ensures old(Opened()) ==> Opened()
    {
      state := Reconnecting;
      pending := pending + [sockets[i]];
    }

    /** `onClosed` of socket `i`'s listener. */
    method OnClosed(i: nat)
      requires i < |sockets|
      modifies this
      ensures state == Disconnected
      ensures sockets == old(sockets) && pending == old(pending) && sent == old(sent) && closed == old(closed)
      ensures encryptionKey == old(encryptionKey) && lastHash == old(lastHash) && receivedClipboard == old(receivedClipboard)
    {
      state := Disconnected;
    }

    /**
     * The oldest posted reconnect fires after its 2000 ms: it runs `connect` again
     * with that endpoint, which OkHttp took before and so takes again.
     */
    method FireReconnect() returns (threw: bool)
      requires |pending| > 0
      modifies this
      ensures threw <==> !UrlAccepted(urlParses, old(pending)[0].address, old(pending)[0].port)
      ensures state == Connecting && sockets == old(sockets) + (if threw then [] else [old(pending)[0]])
      ensures pending == old(pending)[1..]
      ensures sent == old(sent) && closed == old(closed)
      ensures encryptionKey == old(encryptionKey) && lastHash == old(lastHash) && receivedClipboard == old(receivedClipboard)
      ensures old(Opened()) ==> !threw && Opened()
    {
      var target := pending[0];
      pending := pending[1..];
      threw := Connect(target.address, target.port);
    }

    /** `disconnect` (and `cleanup`): closes the current socket, if any, and reports DISCONNECTED; posted reconnects stay. */
    method Disconnect()
      modifies this
      ensures state == Disconnected
      ensures closed == if |sockets| > 0 then old(closed) + [|sockets| - 1] else old(closed)
      ensures sockets == old(sockets) && pending == old(pending) && sent == old(sent)
      ensures encryptionKey == old(encryptionKey) && lastHash == old(lastHash) && receivedClipboard == old(receivedClipboard)
    {
      if |sockets| > 0 {
        closed := closed + [|sockets| - 1];
      }
      state := Disconnected;
    }

    /**
     * `sendClipboard`, with the clock and the random IV as parameters: nothing
     * when the text's hash is `lastHash`; otherwise the hash becomes `lastHash`
     * and the encrypted message goes to the socket, if encryption succeeds and
     * a socket was ever created.
     */
    method SendClipboard(text: string, now: int, iv: Nonce)
      modifies this
      ensures var hash := HashString(sha256(text));
              var frame := Encrypt(aead, encryptionKey, iv, serialize(Message(now, "android-" + deviceModel, "text", text, hash)));
              if old(lastHash) == Some(hash) then
                lastHash == old(lastHash) && sent == old(sent)
              else
                lastHash == Some(hash)
                && sent == old(sent) + (if frame.Some? && |sockets| > 0 then [frame.value] else [])
      ensures state == old(state) && sockets == old(sockets) && pending == old(pending) && closed == old(closed)
      ensures encryptionKey == old(encryptionKey) && receivedClipboard == old(receivedClipboard)
    {
      var hash := HashString(sha256(text));
      if lastHash == Some(hash) {
        return;
      }
      lastHash := Some(hash);
      var json := Message(now, "android-" + deviceModel, "text", text, hash);
      var encrypted := Encrypt(aead, encryptionKey, iv, serialize(json));
      if encrypted.Some? && |sockets| > 0 {
        sent := sent + [encrypted.value];
      }
    }

    /**
     * `handleIncomingMessage` (`onMessage` of any listener): a readable message
     * whose hash is not `lastHash` becomes `receivedClipboard` and its hash
     * `lastHash`; anything else changes nothing.
     */
    method HandleIncomingMessage(data: seq<byte>)
      modifies this
      ensures var msg := Incoming(aead, encryptionKey, parse, data);
              if msg.Some? && old(lastHash) != Some(msg.value.hash) then
                lastHash == Some(msg.value.hash) && receivedClipboard == Some(msg.value.payload)
              else
                lastHash == old(lastHash) && receivedClipboard == old(receivedClipboard)
      ensures state == old(state) && sockets == old(sockets) && pending == old(pending) && sent == old(sent)
      ensures closed == old(closed) && encryptionKey == old(encryptionKey)
    {
      var msg := Incoming(aead, encryptionKey, parse, data);
      if msg.Some? && lastHash != Some(msg.value.hash) {
        lastHash := Some(msg.value.hash);
        receivedClipboard := Some(msg.value.payload);
      }
    }
  }

  // ---------------------------------------------------------------------------
  // Runs of the manager

  /** The same text sent twice in a row produces at most one frame, and the second send changes nothing. */
  method SendTwice(m: WebSocketManager, text: string, now1: int, iv1: Nonce, now2: int, iv2: Nonce)
    modifies m
    ensures |m.sent| <= |old(m.sent)| + 1
    ensures m.lastHash == Some(HashString(m.sha256(text)))
  {
    m.SendClipboard(text, now1, iv1);
    ghost var between := m.sent;
    m.SendClipboard(text, now2, iv2);
    assert m.sent == between;
  }

  /**
   * Under OkHttp's port check, every socket the manager opened, and every
   * reconnect it posted, to a plain host uses a port in 1..65535.
   */
  lemma OpenedPortsInRange(m: WebSocketManager)
    requires m.Opened() && PortChecked(m.urlParses)
    ensures forall e :: e in m.sockets && PlainHost(e.address) ==> 1 <= e.port <= 65535
    ensures forall e :: e in m.pending && PlainHost(e.address) ==> 1 <= e.port <= 65535
  {
  }

  /** Text whose hash was just received is not sent back: the shared `lastHash` suppresses the echo. */
  method ReceiveThenEcho(m: WebSocketManager, data: seq<byte>, text: string, now: int, iv: Nonce)
    requires var msg := Incoming(m.aead, m.encryptionKey, m.parse, data);
             msg.Some? && msg.value.hash == HashString(m.sha256(text))
    modifies m
    ensures m.sent == old(m.sent)
    ensures m.lastHash == Some(HashString(m.sha256(text)))
  {
    m.HandleIncomingMessage(data);
    m.SendClipboard(text, now, iv);
  }

  /** A failure reconnects to the same endpoint: RECONNECTING, then CONNECTING again once the timer fires. */
  method FailThenRetry(m: WebSocketManager, i: nat)
    requires i < |m.sockets| && m.pending == [] && m.Opened()
    modifies m
    ensures m.state == Connecting
    ensures m.sockets == old(m.sockets) + [old(m.sockets)[i]] && m.pending == []
  {
    m.OnFailure(i);
    assert m.state == Reconnecting;
    var _ := m.FireReconnect();
  }

  /** `disconnect` does not cancel a posted reconnect: the manager is CONNECTING again after the timer. */
  method DisconnectDuringRetry(m: WebSocketManager, i: nat)
    requires i < |m.sockets| && m.Opened()
    modifies m
    ensures m.state == Connecting
    ensures |m.sockets| == |old(m.sockets)| + 1
  {
    m.OnFailure(i);
    ghost var posted := m.pending;
    m.Disconnect();
    assert m.state == Disconnected && m.pending == posted;
    var _ := m.FireReconnect();
  }

  /**
   * Two managers with the same key and platform: a text sent by one arrives at
   * the other as its `receivedClipboard`, unless the receiver already holds that hash.
   */
  method SendAndReceive(sender: WebSocketManager, receiver: WebSocketManager, text: string, now: int, iv: Nonce)
    requires sender != receiver
    requires Sound(sender.aead) && receiver.aead == sender.aead && receiver.encryptionKey == sender.encryptionKey
    requires receiver.parse == sender.parse && |sender.sockets| > 0
    requires sender.lastHash != Some(HashString(sender.sha256(text)))
    requires receiver.lastHash != Some(HashString(sender.sha256(text)))
    requires var m := Message(now, "android-" + sender.deviceModel, "text", text, HashString(sender.sha256(text)));
             sender.parse(sender.serialize(m)) == Some(Fields(m))
             && sender.aead.seal(sender.encryptionKey, iv, sender.serialize(m)).Some?
    modifies sender, receiver
    ensures receiver.receivedClipboard == Some(text)
    ensures receiver.lastHash == sender.lastHash == Some(HashString(sender.sha256(text)))
  {
    var m := Message(now, "android-" + sender.deviceModel, "text", text, HashString(sender.sha256(text)));
    SentFrameReadsBack(sender.aead, sender.encryptionKey, iv, sender.serialize, sender.parse, m);
    sender.SendClipboard(text, now, iv);
    var frame := sender.sent[|sender.sent| - 1];
    receiver.HandleIncomingMessage(frame);
  }
}
