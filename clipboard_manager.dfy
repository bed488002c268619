/**
 * The local clipboard de-duplicator of `ClipboardManager`: which clipboard-change
 * events are emitted, the `lastClipboardHash` / `isUpdatingFromRemote` filter,
 * the first-item read of the primary clip and the TEXT/URL classifier. MD5
 * (RFC 1321) is a function supplied by the platform.
 */
module Clipboard {
  import opened Wrappers
  import opened Hex
  import opened KotlinText

  datatype ClipboardType = Text | Image | Url

  /** `ClipboardData`; `deviceId` keeps its default `""` everywhere it is built here. */
  datatype ClipboardData = ClipboardData(content: string, timestamp: int, kind: ClipboardType, deviceId: string)

  /** One item of a clip: `item.text`, absent for a non-text item. */
  datatype ClipItem = ClipItem(text: Option<string>)

  /** What reading `primaryClip` gives: no clip, a clip with its items, or an exception. */
  datatype PrimaryClip = NoClip | Clip(items: seq<ClipItem>) | Unreadable

  /** An MD5 digest: 128 bits. */
  type Md5Digest = s: seq<byte> | |s| == 16 witness seq(16, i => 0)

  /** `determineClipboardType`: URL exactly for `http://` and `https://` content. */
  function DetermineClipboardType(content: string): (t: ClipboardType)
    ensures t == Url <==> StartsWith(content, "http://") || StartsWith(content, "https://")
    ensures t != Image
  {
    if StartsWith(content, "http://") || StartsWith(content, "https://") then Url else Text
  }

  /**
   * `getClipboardContent`, reading `now` as the clock: the text of item 0 when the
   * clip has items and that text is not empty, `None` otherwise or when reading throws.
   */
  function GetClipboardContent(primary: PrimaryClip, now: int): (r: Option<ClipboardData>)
    ensures r.Some? <==> primary.Clip? && |primary.items| > 0 && primary.items[0].text.GetOr("") != ""
    ensures r.Some? ==>
              && r.value.content == primary.items[0].text.value
              && r.value.timestamp == now
              && r.value.kind == DetermineClipboardType(r.value.content)
              && r.value.deviceId == ""
  {
    if primary.Clip? && |primary.items| > 0 then
      var content := primary.items[0].text.GetOr("");
      if content != "" then Some(ClipboardData(content, now, DetermineClipboardType(content), "")) else None
    else None
  }

  /** Two's-complement wrap-around of a JVM `Int`. */
  function Wrap32(x: int): (r: int)
    ensures IsInt32(r)
    ensures (r - x) % 0x1_0000_0000 == 0
  {
    (x + 0x8000_0000) % 0x1_0000_0000 - 0x8000_0000
  }

  /** `String.hashCode`: `h = 31 * h + c` over the characters, in `Int` arithmetic. */
  function JavaHashCode(s: string): (h: int)
    ensures IsInt32(h)
  {
    if |s| == 0 then 0 else Wrap32(31 * JavaHashCode(s[..|s| - 1]) + s[|s| - 1] as int)
  }

  /**
   * `generateHash`: the MD5 of the text in lower-case hex, or, when `MD5` is not
   * available (`md5` gives `None`), the decimal `hashCode`.
   */
  function GenerateHash(md5: string -> Option<Md5Digest>, content: string): (h: string)
    ensures md5(content).Some? ==> |h| == 32 && forall i :: 0 <= i < |h| ==> IsLowerHex(h[i])
    ensures md5(content).Some? ==> Unhex(h) == md5(content).value
    ensures md5(content).None? ==> ParseInt32(h) == Some(JavaHashCode(content))
  {
    match md5(content)
    case Some(d) =>
      UnhexHex(d);
      Hex.Hex(d)
    case None =>
      ParseIntToString(JavaHashCode(content));
      IntToString(JavaHashCode(content))
  }

  class ClipboardManager {
    const md5: string -> Option<Md5Digest>

    /** `_clipboardData`: the last emitted local clipboard change. */
    var clipboardData: Option<ClipboardData>
    var lastClipboardHash: string
    var isUpdatingFromRemote: bool
    /** How many change listeners `startMonitoring` has registered. */
    var listeners: nat
    /** Texts handed to `setPrimaryClip`, in order. */
    var writes: seq<string>

    constructor (md5: string -> Option<Md5Digest>)
      ensures this.md5 == md5
      ensures clipboardData == None && lastClipboardHash == "" && !isUpdatingFromRemote
      ensures listeners == 0 && writes == []
    {
      this.md5 := md5;
      clipboardData := None;
      lastClipboardHash := "";
      isUpdatingFromRemote := false;
      listeners := 0;
      writes := [];
    }

    /** `startMonitoring`: registers one more change listener. */
    method StartMonitoring()
      modifies this
      ensures listeners == old(listeners) + 1
      ensures clipboardData == old(clipboardData) && lastClipboardHash == old(lastClipboardHash)
      ensures isUpdatingFromRemote == old(isUpdatingFromRemote) && writes == old(writes)
    {
      listeners := listeners + 1;
    }

    /**
     * The listener body, run when the primary clip changes to `primary` at time
     * `now`: ignored while a remote update is being written; otherwise the
     * readable non-empty content is emitted when its hash differs from the last
     * one, which it then becomes.
     */
    method OnPrimaryClipChanged(primary: PrimaryClip, now: int)
      requires listeners > 0
      modifies this
      ensures var clip := GetClipboardContent(primary, now);
              if !old(isUpdatingFromRemote) && clip.Some? && GenerateHash(md5, clip.value.content) != old(lastClipboardHash) then
                lastClipboardHash == GenerateHash(md5, clip.value.content) && clipboardData == clip
              else
                lastClipboardHash == old(lastClipboardHash) && clipboardData == old(clipboardData)
      ensures isUpdatingFromRemote == old(isUpdatingFromRemote) && listeners == old(listeners) && writes == old(writes)
    {
      if !isUpdatingFromRemote {
        var clipData := GetClipboardContent(primary, now);
        if clipData.Some? && clipData.value.content != "" {
          var currentHash := GenerateHash(md5, clipData.value.content);
          if currentHash != lastClipboardHash {
            lastClipboardHash := currentHash;
            clipboardData := clipData;
          }
        }
      }
    }

    /**
     * `setClipboardContent`: writes `content` to the clipboard and records its
     * hash, so the change it causes is not emitted again. `written` says whether
     * `setPrimaryClip` succeeded; when it throws, nothing is written and the hash
     * is kept. When `notifyNow` holds, the platform delivers the change
     * notification while the write is in progress, and the listener ignores it.
     * Either way the flag is down again on return.
     */
    method SetClipboardContent(content: string, written: bool, notifyNow: bool, now: int)
      requires notifyNow ==> listeners > 0
      modifies this
      ensures !isUpdatingFromRemote
      ensures writes == old(writes) + if written then [content] else []
      ensures lastClipboardHash == if written then GenerateHash(md5, content) else old(lastClipboardHash)
      ensures clipboardData == old(clipboardData) && listeners == old(listeners)
    {
      isUpdatingFromRemote := true;
      if written {
        writes := writes + [content];
        if notifyNow {
          OnPrimaryClipChanged(Clip([ClipItem(Some(content))]), now);
        }
        lastClipboardHash := GenerateHash(md5, content);
      }
      isUpdatingFromRemote := false;
    }
  }

  /** A text the client just received from the desktop is not emitted when the clipboard reports its change. */
  method NoEchoOfRemoteText(m: ClipboardManager, content: string, now: int)
    requires m.listeners > 0
    modifies m
    ensures m.clipboardData == old(m.clipboardData)
    ensures m.lastClipboardHash == GenerateHash(m.md5, content)
  {
    m.SetClipboardContent(content, true, false, now);
    m.OnPrimaryClipChanged(Clip([ClipItem(Some(content))]), now);
  }

  /** The same clip reported twice emits at most once: the second change leaves everything as the first did. */
  method RepeatedChangeEmitsOnce(m: ClipboardManager, primary: PrimaryClip, now1: int, now2: int)
    requires m.listeners > 0 && !m.isUpdatingFromRemote
    modifies m
    ensures var clip := GetClipboardContent(primary, now1);
            m.clipboardData == if clip.Some? && GenerateHash(m.md5, clip.value.content) != old(m.lastClipboardHash) then clip else old(m.clipboardData)
  {
    m.OnPrimaryClipChanged(primary, now1);
    ghost var first := m.clipboardData;
    m.OnPrimaryClipChanged(primary, now2);
    assert m.clipboardData == first;
  }

  // ---------------------------------------------------------------------------
  // Properties of the pure parts

  /** Only item 0 of a clip is read: later items never change what is reported. */
  lemma OnlyFirstItemRead(first: ClipItem, rest1: seq<ClipItem>, rest2: seq<ClipItem>, now: int)
    ensures GetClipboardContent(Clip([first] + rest1), now) == GetClipboardContent(Clip([first] + rest2), now)
  {
  }

  /** A clip whose item 0 is not text reports nothing, whatever follows it. */
  lemma NonTextFirstItem(rest: seq<ClipItem>, now: int)
    ensures GetClipboardContent(Clip([ClipItem(None)] + rest), now) == None
  {
  }

  lemma ClassifierExamples()
    ensures DetermineClipboardType("https://example.com") == Url
    ensures DetermineClipboardType("http://10.0.0.5:8080") == Url
    ensures DetermineClipboardType("ftp://example.com") == Text
    ensures DetermineClipboardType("see http://example.com") == Text
  {
    assert "https://example.com"[..8] == "https://";
    assert "http://10.0.0.5:8080"[..7] == "http://";
    assert "ftp://example.com"[..7][0] != "http://"[0];
    assert "ftp://example.com"[..8][0] != "https://"[0];
    assert "see http://example.com"[..7][0] != "http://"[0];
    assert "see http://example.com"[..8][0] != "https://"[0];
  }

  /** `"".hashCode() == 0` and `"ab".hashCode() == 97 * 31 + 98`. */
  lemma JavaHashCodeExamples()
    ensures JavaHashCode("") == 0
    ensures JavaHashCode("ab") == 3105
  {
    assert "ab"[..1] == "a";
    assert "a"[..0] == "";
  }

  /** Distinct MD5 digests give distinct hashes, so a changed text is emitted unless its digest collides. */
  lemma GenerateHashSeparates(md5: string -> Option<Md5Digest>, a: string, b: string)
    requires md5(a).Some? && md5(b).Some? && md5(a) != md5(b)
    ensures GenerateHash(md5, a) != GenerateHash(md5, b)
  {
  }
}
