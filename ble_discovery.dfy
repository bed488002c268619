/**
 * Pairing over Bluetooth LE (`BleDiscoveryService`): the scan and its `scanning`
 * flag, the GATT callbacks, and the decoding of the pairing offer the desktop
 * publishes, `{"ws": "ws://<ip>:<port>/ws", "key_b64": …, "exp": …}`, whose
 * success path persists the session key and expiry before it starts the sync.
 */
module Pairing {
  import opened Wrappers
  import opened Hex
  import opened KotlinText
  import Sync

  /**
   * `ws.removePrefix("ws://").removeSuffix("/ws").split(":")`, then piece 0 as
   * the address and piece 1 through `toInt()` as the port; later pieces are
   * ignored. `None` is the exception a missing piece or a bad port throws.
   */
  function ParseWsUrl(ws: string): (r: Option<Sync.Endpoint>)
    ensures var parts := Split(RemoveSuffix(RemovePrefix(ws, "ws://"), "/ws"), ':');
            r.Some? <==> |parts| >= 2 && ParseInt32(parts[1]).Some?
    ensures var parts := Split(RemoveSuffix(RemovePrefix(ws, "ws://"), "/ws"), ':');
            r.Some? ==> r.value == Sync.Endpoint(parts[0], ParseInt32(parts[1]).value) && ':' !in r.value.address
  {
    var wsInfo := Split(RemoveSuffix(RemovePrefix(ws, "ws://"), "/ws"), ':');
    if |wsInfo| < 2 then None
    else
      match ParseInt32(wsInfo[1])
      case None => None
      case Some(port) => Some(Sync.Endpoint(wsInfo[0], port))
  }

  /** The URL `connect` opens parses back to the address and port it was built from. */
  lemma ParseSocketUrl(address: string, port: int)
    requires ':' !in address && IsInt32(port)
    ensures ParseWsUrl(Sync.SocketUrl(address, port)) == Some(Sync.Endpoint(address, port))
  {
    var digits := IntToString(port);
    var hostPort := address + [':'] + digits;
    var url := Sync.SocketUrl(address, port);
    assert url == "ws://" + (hostPort + "/ws");
    assert url[..5] == "ws://";
    assert RemovePrefix(url, "ws://") == hostPort + "/ws";
    assert (hostPort + "/ws")[|hostPort|..] == "/ws";
    assert RemoveSuffix(hostPort + "/ws", "/ws") == hostPort;
    assert ':' !in digits;
    SplitTwo(address, digits, ':');
    ParseIntToString(port);
  }

  /** The example URL written beside the parse: `ws://192.168.0.12:8080/ws`. */
  lemma ParseWsUrlExample()
    ensures ParseWsUrl("ws://192.168.0.12:8080/ws") == Some(Sync.Endpoint("192.168.0.12", 8080))
  {
    SocketUrlExample();
    ParseSocketUrl("192.168.0.12", 8080);
  }

  /** `connect("192.168.0.12", 8080)` opens `ws://192.168.0.12:8080/ws`. */
  lemma SocketUrlExample()
    ensures Sync.SocketUrl("192.168.0.12", 8080) == "ws://192.168.0.12:8080/ws"
  {
    assert IntToString(8080) == "8080";
  }

  /** Pieces after the port are ignored: `"ws://<ip>:<port>:<more>/ws"` reads as `<ip>` and `<port>`. */
  lemma ExtraPiecesIgnored(address: string, port: string, more: string)
    requires ':' !in address && ':' !in port && ParseInt32(port).Some?
    ensures ParseWsUrl("ws://" + address + ":" + port + ":" + more + "/ws")
            == Some(Sync.Endpoint(address, ParseInt32(port).value))
  {
    var inner := address + [':'] + (port + [':'] + more);
    var ws := "ws://" + address + ":" + port + ":" + more + "/ws";
    assert ws == "ws://" + (inner + "/ws");
    assert ws[..5] == "ws://";
    assert RemovePrefix(ws, "ws://") == inner + "/ws";
    assert (inner + "/ws")[|inner|..] == "/ws";
    assert RemoveSuffix(inner + "/ws", "/ws") == inner;
    SplitAfterPiece(address, port + [':'] + more, ':');
    SplitAfterPiece(port, more, ':');
  }

  /** Without a `:` there is no second piece, and the offer is refused. */
  lemma NoPortRefused(ws: string)
    requires ':' !in ws
    ensures ParseWsUrl(ws) == None
  {
    var rest := RemoveSuffix(RemovePrefix(ws, "ws://"), "/ws");
    assert forall i :: 0 <= i < |rest| ==> rest[i] in ws;
    SplitNoDelimiter(rest, ':');
  }

  /** A port that is not an `Int` refuses the offer. */
  lemma BadPortRefused(address: string, port: string)
    requires ':' !in address && ':' !in port && ParseInt32(port).None?
    ensures ParseWsUrl("ws://" + address + ":" + port + "/ws") == None
  {
    var inner := address + [':'] + port;
    var ws := "ws://" + address + ":" + port + "/ws";
    assert ws == "ws://" + (inner + "/ws");
    assert ws[..5] == "ws://";
    assert RemovePrefix(ws, "ws://") == inner + "/ws";
    assert (inner + "/ws")[|inner|..] == "/ws";
    assert RemoveSuffix(inner + "/ws", "/ws") == inner;
    SplitTwo(address, port, ':');
  }

  /**
   * The offer object as `JSONObject` reads it: each field `None` when its
   * `getString`/`getLong` throws (missing, or not convertible).
   */
  datatype OfferJson = OfferJson(ws: Option<string>, keyB64: Option<string>, exp: Option<int>)

  /** A decoded pairing offer. */
  datatype Offer = Offer(ip: string, port: int, keyB64: string, exp: int)

  /**
   * The `try` block of `onCharacteristicRead` up to its first side effect:
   * `json` is `None` when the value is not a JSON object.
   */
  function DecodeOffer(json: Option<OfferJson>): (r: Option<Offer>)
    ensures r.Some? <==>
              json.Some? && json.value.ws.Some? && json.value.keyB64.Some? && json.value.exp.Some?
              && ParseWsUrl(json.value.ws.value).Some?
    ensures r.Some? ==>
              var endpoint := ParseWsUrl(json.value.ws.value).value;
              r.value == Offer(endpoint.address, endpoint.port, json.value.keyB64.value, json.value.exp.value)
  {
    if json.None? || json.value.ws.None? || json.value.keyB64.None? || json.value.exp.None? then None
    else
      match ParseWsUrl(json.value.ws.value)
      case None => None
      case Some(endpoint) => Some(Offer(endpoint.address, endpoint.port, json.value.keyB64.value, json.value.exp.value))
  }

  /** Side effects of the service on the platform, in the order it performs them. */
  datatype Effect =
    | ForegroundStarted
    | ScanStarted
    | ScanStopped
    | GattConnect(device: string)
    | DiscoverServices
    | ReadCharacteristic
    | GattClosed
    | Persisted(keyB64: string, exp: int)
    | SyncStarted(offer: Offer)
    | StoppedSelf

  const ActionStartScan: string := "start_scan"
  const ActionStopScan: string := "stop_scan"

  /** `BluetoothProfile.STATE_DISCONNECTED` and `STATE_CONNECTED`. */
  const StateDisconnected: int := 0
  const StateConnected: int := 2

  class BleDiscoveryService {
    /** The offer JSON reader (UTF-8 decoding included). */
    const parse: seq<byte> -> Option<OfferJson>

    var scanning: bool
    /** The device `connectGatt` was called on, if any. */
    var gatt: Option<string>
    /** `session_key_b64` and `session_exp` in the `copydrop` shared preferences. */
    var sessionKey: Option<string>
    var sessionExp: Option<int>
    var effects: seq<Effect>

    constructor (parse: seq<byte> -> Option<OfferJson>)
      ensures this.parse == parse
      ensures !scanning && gatt == None && sessionKey == None && sessionExp == None && effects == []
    {
      this.parse := parse;
      scanning := false;
      gatt := None;
      sessionKey := None;
      sessionExp := None;
      effects := [];
    }

    /** `startScan`: nothing without a Bluetooth LE scanner; otherwise `scanning` and a scan started. */
    method StartScan(hasScanner: bool)
      modifies this
      ensures scanning == (old(scanning) || hasScanner)
      ensures effects == old(effects) + if hasScanner then [ScanStarted] else []
      ensures gatt == old(gatt) && sessionKey == old(sessionKey) && sessionExp == old(sessionExp)
    {
      if !hasScanner {
        return;
      }
      scanning := true;
      effects := effects + [ScanStarted];
    }

    /** `stopScan`: acts only while `scanning`, and leaves it false. */
    method StopScan()
      modifies this
      ensures !scanning
      ensures effects == old(effects) + if old(scanning) then [ScanStopped] else []
      ensures gatt == old(gatt) && sessionKey == old(sessionKey) && sessionExp == old(sessionExp)
    {
      if scanning {
        effects := effects + [ScanStopped];
        scanning := false;
      }
    }

    /** `onStartCommand`: the start action scans in the foreground, the stop action stops; others do nothing. */
    method OnStartCommand(action: Option<string>, hasScanner: bool)
      modifies this
      ensures action == Some(ActionStartScan) ==>
                scanning == (old(scanning) || hasScanner)
                && effects == old(effects) + [ForegroundStarted] + (if hasScanner then [ScanStarted] else [])
      ensures action == Some(ActionStopScan) ==>
                !scanning && effects == old(effects) + (if old(scanning) then [ScanStopped] else []) + [StoppedSelf]
      ensures action != Some(ActionStartScan) && action != Some(ActionStopScan) ==>
                scanning == old(scanning) && effects == old(effects)
      ensures gatt == old(gatt) && sessionKey == old(sessionKey) && sessionExp == old(sessionExp)
    {
      if action == Some(ActionStartScan) {
        effects := effects + [ForegroundStarted];
        StartScan(hasScanner);
      } else if action == Some(ActionStopScan) {
        StopScan();
        effects := effects + [StoppedSelf];
      }
    }

    /** `onScanResult`: stop scanning first, then connect to the device found. */
    method OnScanResult(device: string)
      modifies this
      ensures !scanning && gatt == Some(device)
      ensures effects == old(effects) + (if old(scanning) then [ScanStopped] else []) + [GattConnect(device)]
      ensures sessionKey == old(sessionKey) && sessionExp == old(sessionExp)
    {
      StopScan();
      gatt := Some(device);
      effects := effects + [GattConnect(device)];
    }

    /** `onScanFailed`: the service stops itself. */
    method OnScanFailed()
      modifies this
      ensures effects == old(effects) + [StoppedSelf]
      ensures scanning == old(scanning) && gatt == old(gatt) && sessionKey == old(sessionKey) && sessionExp == old(sessionExp)
    {
      effects := effects + [StoppedSelf];
    }

    /**
     * `onConnectionStateChange`: discover services once connected; close and stop
     * once disconnected; the intermediate states do nothing.
     */
    method OnConnectionStateChange(newState: int)
      modifies this
      ensures newState == StateConnected ==> effects == old(effects) + [DiscoverServices]
      ensures newState == StateDisconnected ==> effects == old(effects) + [GattClosed, StoppedSelf]
      ensures newState != StateConnected && newState != StateDisconnected ==> effects == old(effects)
      ensures scanning == old(scanning) && gatt == old(gatt) && sessionKey == old(sessionKey) && sessionExp == old(sessionExp)
    {
      if newState == StateConnected {
        effects := effects + [DiscoverServices];
      } else if newState == StateDisconnected {
        effects := effects + [GattClosed, StoppedSelf];
      }
    }

    /** `onServicesDiscovered`: read the offer characteristic when it is there, otherwise stop. */
    method OnServicesDiscovered(success: bool, hasCharacteristic: bool)
      modifies this
      ensures effects == old(effects) + if success && hasCharacteristic then [ReadCharacteristic] else [StoppedSelf]
      ensures scanning == old(scanning) && gatt == old(gatt) && sessionKey == old(sessionKey) && sessionExp == old(sessionExp)
    {
      if success && hasCharacteristic {
        effects := effects + [ReadCharacteristic];
      } else {
        effects := effects + [StoppedSelf];
      }
    }

    /**
     * `onCharacteristicRead`: with a successful read of a well-formed offer, the
     * key and expiry are persisted, then the sync is started with the offer,
     * then the service stops. When `startForegroundService` throws
     * (`startRefused`), the catch only stops the service, so the key stays
     * persisted without a sync. A failed read or a malformed offer only stops
     * the service.
     */
    method OnCharacteristicRead(success: bool, value: seq<byte>, startRefused: bool)
      modifies this
      ensures var offer := DecodeOffer(parse(value));
              if success && offer.Some? then
                && sessionKey == Some(offer.value.keyB64) && sessionExp == Some(offer.value.exp)
                && effects == old(effects) + [Persisted(offer.value.keyB64, offer.value.exp)]
                              + (if startRefused then [] else [SyncStarted(offer.value)]) + [StoppedSelf]
              else
                sessionKey == old(sessionKey) && sessionExp == old(sessionExp) && effects == old(effects) + [StoppedSelf]
      ensures scanning == old(scanning) && gatt == old(gatt)
    {
      if !success {
        effects := effects + [StoppedSelf];
        return;
      }
      var offer := DecodeOffer(parse(value));
      if offer.None? {
        effects := effects + [StoppedSelf];
        return;
      }
      var o := offer.value;
      sessionKey := Some(o.keyB64);
      sessionExp := Some(o.exp);
      effects := effects + [Persisted(o.keyB64, o.exp)];
      if !startRefused {
        effects := effects + [SyncStarted(o)];
      }
      effects := effects + [StoppedSelf];
    }

    /** `onDestroy`: stop the scan, close the GATT connection if there is one. */
    method OnDestroy()
      modifies this
      ensures !scanning
      ensures effects == old(effects) + (if old(scanning) then [ScanStopped] else []) + (if gatt.Some? then [GattClosed] else [])
      ensures gatt == old(gatt) && sessionKey == old(sessionKey) && sessionExp == old(sessionExp)
    {
      StopScan();
      if gatt.Some? {
        effects := effects + [GattClosed];
      }
    }
  }

  /** `stopScan` is idempotent: a second call changes nothing. */
  method StopScanTwice(s: BleDiscoveryService)
    modifies s
    ensures !s.scanning
    ensures s.effects == old(s.effects) + if old(s.scanning) then [ScanStopped] else []
  {
    s.StopScan();
    ghost var once := s.effects;
    s.StopScan();
    assert s.effects == once;
  }

  /** A read of a malformed offer persists nothing. */
  method MalformedOfferPersistsNothing(s: BleDiscoveryService, value: seq<byte>, startRefused: bool)
    requires DecodeOffer(s.parse(value)).None?
    modifies s
    ensures s.sessionKey == old(s.sessionKey) && s.sessionExp == old(s.sessionExp)
    ensures forall i :: |old(s.effects)| <= i < |s.effects| ==> !s.effects[i].SyncStarted?
  {
    s.OnCharacteristicRead(true, value, startRefused);
  }

  /**
   * A well-formed offer whose sync service cannot be started leaves the session
   * persisted, starts no sync, and stops the service.
   */
  method RefusedSyncKeepsSession(s: BleDiscoveryService, value: seq<byte>, ws: string, keyB64: string, exp: int)
    requires s.parse(value) == Some(OfferJson(Some(ws), Some(keyB64), Some(exp)))
    requires ParseWsUrl(ws).Some?
    modifies s
    ensures s.sessionKey == Some(keyB64) && s.sessionExp == Some(exp)
    ensures s.effects == old(s.effects) + [Persisted(keyB64, exp), StoppedSelf]
  {
    s.OnCharacteristicRead(true, value, true);
  }

  /** The whole pairing of a found device: the sync it starts carries the offer's endpoint, key and expiry. */
  method PairWith(s: BleDiscoveryService, device: string, value: seq<byte>, ws: string, keyB64: string, exp: int)
    requires s.parse(value) == Some(OfferJson(Some(ws), Some(keyB64), Some(exp)))
    requires ParseWsUrl(ws).Some?
    modifies s
    ensures !s.scanning && s.gatt == Some(device)
    ensures s.sessionKey == Some(keyB64) && s.sessionExp == Some(exp)
    ensures var e := ParseWsUrl(ws).value;
            |s.effects| >= 3 && s.effects[|s.effects| - 2] == SyncStarted(Offer(e.address, e.port, keyB64, exp))
  {
    s.OnScanResult(device);
    s.OnConnectionStateChange(StateConnected);
    s.OnServicesDiscovered(true, true);
    s.OnCharacteristicRead(true, value, false);
  }
}
