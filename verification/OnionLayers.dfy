/**
 * Onion packets: a padded message wrapped once for each node of a path, peeled one
 * layer at a time. A message's content is given by its UTF-8 bytes.
 */
module OnionLayers {
  import opened Basics
  import opened BigEndian
  import opened Primitives

  const PADDED: nat := 512
  const MAX_CONTENT: nat := PADDED - 4
  const NONCE: nat := 12
  const LAYER: nat := NONCE + 16

  datatype Node = Node(id: string, publicKey: Bytes)

  datatype Packet = Packet(packetId: string, payload: Bytes, layersRemaining: int, routePath: seq<string>, circuitId: string)

  datatype Result<+T> = Ok(value: T) | MessageTooLarge | PayloadTooShort | DecryptFailed | Malformed

  /** Text handed out, or the whole payload decoded leniently where the source gives up on finding a header. */
  datatype Content = Text(utf8: Bytes) | Lenient(payload: Bytes)

  function Ids(path: seq<Node>): (ids: seq<string>)
    ensures |ids| == |path|
  {
    seq(|path|, i requires 0 <= i < |path| => path[i].id)
  }

  /** What is encrypted innermost: the length, the content, noise up to 512 bytes. */
  predicate IsPadded(padded: Bytes, content: Bytes)
  {
    && |content| <= MAX_CONTENT && |padded| == PADDED
    && padded[..4] == LengthBytes(|content|) && padded[4..4 + |content|] == content
  }

  /** The payload with the layers for path[i..] on it. */
  function Wrapped(c: Crypto, padded: Bytes, path: seq<Node>, nonces: nat -> Bytes, i: nat): Bytes
    requires i <= |path|
    decreases |path| - i
  {
    if i == |path| then padded
    else nonces(i) + c.encrypt(c.sha256(path[i].publicKey), nonces(i), Wrapped(c, padded, path, nonces, i + 1))
  }

  /** wrapMessage. Noise, nonces and identifiers are random. */
  method WrapMessage(c: Crypto, content: Bytes, path: seq<Node>, noise: nat -> bv8, nonces: nat -> Bytes,
                     packetId: string, circuitId: string)
    returns (r: Result<Packet>, ghost inner: Bytes)
    requires forall i :: |nonces(i)| == NONCE
    ensures r == MessageTooLarge <==> |content| > 508
    ensures r.Ok? <==> |content| <= 508
    ensures r.Ok? ==> IsPadded(inner, content)
    ensures r.Ok? ==> r.value == Packet(packetId, Wrapped(c, inner, path, nonces, 0), |path|, Ids(path), circuitId)
  {
    if |content| > MAX_CONTENT { return MessageTooLarge, []; }
    var padded := Pad(content, noise);
    inner := padded[..];
    var payload := padded[..];
    var i := |path|;
    while i > 0
      invariant 0 <= i <= |path|
      invariant payload == Wrapped(c, inner, path, nonces, i)
    {
      i := i - 1;
      var ct := c.encrypt(c.sha256(path[i].publicKey), nonces(i), payload);
      payload := nonces(i) + ct;
    }
    return Ok(Packet(packetId, payload, |path|, Ids(path), circuitId)), inner;
  }

  method Pad(content: Bytes, noise: nat -> bv8) returns (padded: array<bv8>)
    requires |content| <= MAX_CONTENT
    ensures fresh(padded) && IsPadded(padded[..], content)
  {
    hide ByteAt;
    var n := |content|;
    padded := new bv8[PADDED](_ => 0);
    padded[0], padded[1], padded[2], padded[3] := ByteAt(n, 0x1000000), ByteAt(n, 0x10000), ByteAt(n, 0x100), ByteAt(n, 1);
    forall k | 0 <= k < n { padded[4 + k] := content[k]; }
    for i := 4 + n to PADDED
      invariant padded[..4] == LengthBytes(n) && padded[4..4 + n] == content
    {
      padded[i] := noise(i);
    }
  }

  /** unwrapLayer, under the key the peeling node presents. */
  function UnwrapLayer(c: Crypto, packet: Packet, nodeKey: Bytes): Result<Packet> {
    if |packet.payload| < LAYER then PayloadTooShort
    else match c.decrypt(c.sha256(nodeKey), packet.payload[..NONCE], packet.payload[NONCE..])
      case None => DecryptFailed
      case Some(plain) =>
        Ok(packet.(payload := plain, layersRemaining := packet.layersRemaining - 1,
                   routePath := if |packet.routePath| > 1 then packet.routePath[1..] else []))
  }

  /** extractContent; `valid` says whether bytes are well-formed UTF-8. */
  function ExtractContent(valid: Bytes -> bool, payload: Bytes): Result<Content> {
    if |payload| == PADDED then
      var n := LengthOf(payload[..4]);
      if n > |payload| - 4 || !valid(payload[4..4 + n]) then Malformed else Ok(Text(payload[4..4 + n]))
    else if |payload| > 4 then
      var n := LengthOf(payload[..4]);
      if n <= |payload| - 4 && n < PADDED && valid(payload[4..4 + n]) then Ok(Text(payload[4..4 + n]))
      else Ok(Lenient(payload))
    else Ok(Lenient(payload))
  }

  /** The first k nodes of a path each peel a layer. */
  function Peeled(c: Crypto, packet: Packet, path: seq<Node>, k: nat): Result<Packet>
    requires k <= |path|
  {
    if k == 0 then Ok(packet)
    else match Peeled(c, packet, path, k - 1)
      case Ok(before) => UnwrapLayer(c, before, path[k - 1].publicKey)
      case failure => failure
  }

  /** The hop-by-hop fallback of routeMessage: every node of the path peels, then the content is read. */
  method RouteLocally(c: Crypto, valid: Bytes -> bool, packet: Packet, path: seq<Node>) returns (r: Result<Content>)
    ensures r == match Peeled(c, packet, path, |path|)
      case Ok(last) => ExtractContent(valid, last.payload)
      case PayloadTooShort => PayloadTooShort
      case MessageTooLarge => MessageTooLarge
      case DecryptFailed => DecryptFailed
      case Malformed => Malformed
    ensures !(forall k :: 0 <= k < |path| ==> OpensAt(c, packet, path, k)) ==> r == PayloadTooShort || r == DecryptFailed
  {
    hide OpensAt;
    RoutedIff(c, packet, path, |path|);
    var current := packet;
    for i := 0 to |path|
      invariant Peeled(c, packet, path, i) == Ok(current)
    {
      match UnwrapLayer(c, current, path[i].publicKey) {
        case Ok(next) => current := next;
        case PayloadTooShort =>
          FailureStays(c, packet, path, i + 1, |path|);
          return PayloadTooShort;
        case DecryptFailed =>
          FailureStays(c, packet, path, i + 1, |path|);
          return DecryptFailed;
      }
    }
    return ExtractContent(valid, current.payload);
  }

  /** A layer opens for a node exactly if there is room for nonce and tag, and it authenticates under the digest of
      the key the node presents. */
  predicate Opens(c: Crypto, payload: Bytes, nodeKey: Bytes) {
    |payload| >= 28 && c.decrypt(c.sha256(nodeKey), payload[..12], payload[12..]).Some?
  }

  /** Routing ends at the first node for which its layer does not open, and answers why. */
  lemma RefusedAtFirst(c: Crypto, packet: Packet, path: seq<Node>, k: nat)
    requires k < |path| && Peeled(c, packet, path, k).Ok?
    requires !Opens(c, Peeled(c, packet, path, k).value.payload, path[k].publicKey)
    ensures Peeled(c, packet, path, |path|)
      == if |Peeled(c, packet, path, k).value.payload| < 28 then PayloadTooShort else DecryptFailed
  {
    FailureStays(c, packet, path, k + 1, |path|);
  }

  /** The k-th node of the path is reached, and its layer opens for it. */
  predicate OpensAt(c: Crypto, packet: Packet, path: seq<Node>, k: nat)
    requires k < |path|
  {
    Peeled(c, packet, path, k).Ok? && Opens(c, Peeled(c, packet, path, k).value.payload, path[k].publicKey)
  }

  /** So what is routed through has opened layer by layer, and any other packet is refused. */
  lemma {:induction false} RoutedIff(c: Crypto, packet: Packet, path: seq<Node>, n: nat)
    requires n <= |path|
    ensures Peeled(c, packet, path, n).Ok? <==> forall k :: 0 <= k < n ==> OpensAt(c, packet, path, k)
  {
    if n > 0 {
      hide Peeled, OpensAt;
      RoutedIff(c, packet, path, n - 1);
      OnePeel(c, packet, path, n - 1);
    }
  }

  /** One peel: the layer's plaintext is what is left, with one layer and one place of the route less. */
  lemma OnePeel(c: Crypto, packet: Packet, path: seq<Node>, k: nat)
    requires k < |path|
    ensures var before, after := Peeled(c, packet, path, k), Peeled(c, packet, path, k + 1);
      && (after.Ok? <==> OpensAt(c, packet, path, k)) && (after.Ok? ==> before.Ok?)
      && (after.Ok? ==>
            && c.decrypt(c.sha256(path[k].publicKey), before.value.payload[..12], before.value.payload[12..]) == Some(after.value.payload)
            && after.value.layersRemaining == before.value.layersRemaining - 1
            && after.value.routePath == (if |before.value.routePath| > 1 then before.value.routePath[1..] else []))
  {}

  lemma {:induction false} FailureStays(c: Crypto, packet: Packet, path: seq<Node>, k: nat, n: nat)
    requires k <= n <= |path| && !Peeled(c, packet, path, k).Ok?
    ensures Peeled(c, packet, path, n) == Peeled(c, packet, path, k)
  {
    if k < n { FailureStays(c, packet, path, k, n - 1); }
  }

  /** Each layer costs 28 bytes, so an intermediate payload is never mistaken for a padded one. */
  lemma {:induction false} WrappedLength(c: Crypto, padded: Bytes, path: seq<Node>, nonces: nat -> Bytes, i: nat)
    requires c.TagIs16Bytes() && i <= |path| && forall j :: |nonces(j)| == NONCE
    ensures |Wrapped(c, padded, path, nonces, i)| == |padded| + 28 * (|path| - i)
    decreases |path| - i
  {
    if i < |path| { WrappedLength(c, padded, path, nonces, i + 1); }
  }

  /** After k peels exactly the first k layers are gone, and the route still to go is the path from k on. */
  lemma {:induction false} PeeledSoFar(c: Crypto, packet: Packet, padded: Bytes, path: seq<Node>,
      nonces: nat -> Bytes, k: nat)
    requires c.DecryptUndoesEncrypt() && c.TagIs16Bytes() && forall j :: |nonces(j)| == NONCE
    requires packet.payload == Wrapped(c, padded, path, nonces, 0)
    requires packet.layersRemaining == |path| && packet.routePath == Ids(path)
    requires k <= |path|
    ensures Peeled(c, packet, path, k)
      == Ok(packet.(payload := Wrapped(c, padded, path, nonces, k), layersRemaining := |path| - k, routePath := Ids(path)[k..]))
  {
    hide Wrapped, UnwrapLayer, Ids;
    if k == 0 {
      assert Ids(path)[0..] == Ids(path);
    } else {
      PeeledSoFar(c, packet, padded, path, nonces, k - 1);
      OneLayer(c, packet.(payload := Wrapped(c, padded, path, nonces, k - 1), layersRemaining := |path| - (k - 1),
                          routePath := Ids(path)[k - 1..]), padded, path, nonces, k - 1);
      assert Ids(path)[k - 1..][1..] == Ids(path)[k..];
      assert k == |path| ==> Ids(path)[k..] == [];
    }
  }

  lemma OneLayer(c: Crypto, packet: Packet, padded: Bytes, path: seq<Node>, nonces: nat -> Bytes, k: nat)
    requires c.DecryptUndoesEncrypt() && c.TagIs16Bytes() && forall j :: |nonces(j)| == NONCE
    requires k < |path| && packet.payload == Wrapped(c, padded, path, nonces, k)
    ensures UnwrapLayer(c, packet, path[k].publicKey)
      == Ok(packet.(payload := Wrapped(c, padded, path, nonces, k + 1), layersRemaining := packet.layersRemaining - 1,
                    routePath := if |packet.routePath| > 1 then packet.routePath[1..] else []))
  {
    var key, nonce, inner := c.sha256(path[k].publicKey), nonces(k), Wrapped(c, padded, path, nonces, k + 1);
    var ct := c.encrypt(key, nonce, inner);
    assert packet.payload == nonce + ct;
    assert packet.payload[..NONCE] == nonce && packet.payload[NONCE..] == ct;
  }

  /** Of a padded payload exactly the text its header measures is handed out, if it fits and is well-formed. */
  lemma ExtractIff(valid: Bytes -> bool, payload: Bytes, text: Bytes)
    requires |payload| == 512
    ensures ExtractContent(valid, payload) == Ok(Text(text)) <==>
      |text| <= 508 && payload[..4] == LengthBytes(|text|) && payload[4..4 + |text|] == text && valid(text)
    ensures ExtractContent(valid, payload) == Malformed || ExtractContent(valid, payload).Ok?
  {
    hide LengthBytes, LengthOf;
    HeaderIs(payload[..4]);
    if |text| <= 508 { LengthRoundTrip(|text|); }
  }

  /** A payload of any other length is read leniently: a text of fewer than 512 bytes that its header measures and that
      is well-formed, and otherwise the whole payload. */
  lemma ExtractOtherIff(valid: Bytes -> bool, payload: Bytes, text: Bytes)
    requires |payload| != 512
    ensures ExtractContent(valid, payload) == Ok(Text(text)) <==>
      |text| < 512 && 4 + |text| <= |payload| && |payload| > 4 && payload[..4] == LengthBytes(|text|)
      && payload[4..4 + |text|] == text && valid(text)
    ensures ExtractContent(valid, payload) == Ok(Lenient(payload))
      || (ExtractContent(valid, payload).Ok? && ExtractContent(valid, payload).value.Text?)
  {
    hide LengthBytes, LengthOf;
    if |payload| > 4 { HeaderIs(payload[..4]); }
    if |text| < 512 { LengthRoundTrip(|text|); }
  }

  lemma ExtractPadded(valid: Bytes -> bool, padded: Bytes, content: Bytes)
    requires IsPadded(padded, content) && valid(content)
    ensures ExtractContent(valid, padded) == Ok(Text(content))
  {
    hide LengthBytes, LengthOf;
    LengthRoundTrip(|content|);
  }

  /** Any content that fits, along any path: 28 bytes a layer, no layer left, the content back. */
  lemma RoundTrip(c: Crypto, valid: Bytes -> bool, packet: Packet, padded: Bytes, content: Bytes, path: seq<Node>,
      nonces: nat -> Bytes)
    requires c.DecryptUndoesEncrypt() && c.TagIs16Bytes() && forall j :: |nonces(j)| == NONCE
    requires IsPadded(padded, content) && valid(content)
    requires packet.payload == Wrapped(c, padded, path, nonces, 0)
    requires packet.layersRemaining == |path| && packet.routePath == Ids(path)
    ensures |packet.payload| == 512 + 28 * |path|
    ensures var last := Peeled(c, packet, path, |path|);
      && last.Ok? && last.value.layersRemaining == 0 && last.value.routePath == []
      && last.value.packetId == packet.packetId && last.value.circuitId == packet.circuitId
      && ExtractContent(valid, last.value.payload) == Ok(Text(content))
  {
    hide IsPadded, ExtractContent, Wrapped, Peeled, Ids;
    WrappedLength(c, padded, path, nonces, 0);
    PaddedLength(padded, content);
    PeeledSoFar(c, packet, padded, path, nonces, |path|);
    NoLayersLeft(c, padded, path, nonces);
    ExtractPadded(valid, padded, content);
  }

  lemma NoLayersLeft(c: Crypto, padded: Bytes, path: seq<Node>, nonces: nat -> Bytes)
    ensures Wrapped(c, padded, path, nonces, |path|) == padded && Ids(path)[|path|..] == []
  {}

  lemma PaddedLength(padded: Bytes, content: Bytes)
    requires IsPadded(padded, content)
    ensures |padded| == PADDED
  {}

  /** Wrapping and then peeling hop by hop: any content that fits arrives along any path; any other is refused. */
  method WrapThenRoute(c: Crypto, valid: Bytes -> bool, content: Bytes, path: seq<Node>, noise: nat -> bv8,
      nonces: nat -> Bytes)
    returns (r: Result<Content>)
    requires c.DecryptUndoesEncrypt() && c.TagIs16Bytes() && forall j :: |nonces(j)| == NONCE
    requires valid(content)
    ensures r == if |content| <= 508 then Ok(Text(content)) else MessageTooLarge
  {
    hide *;
    var wrapped;
    ghost var inner;
    wrapped, inner := WrapMessage(c, content, path, noise, nonces, "", "");
    if !wrapped.Ok? { return MessageTooLarge; }
    RoundTrip(c, valid, wrapped.value, inner, content, path, nonces);
    r := RouteLocally(c, valid, wrapped.value, path);
  }
}
