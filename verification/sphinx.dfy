/**
 * The packet facade of the Sphinx mix-network packet format: building a
 * packet from a route and a message, and peeling one layer of it at a relay.
 *
 * The facade only wires together operations that live elsewhere: building
 * and unwrapping the routing header, building and unwrapping the payload,
 * key derivation, HMAC-SHA256 and Curve25519 arithmetic. Those are not part
 * of this model; they are the uninterpreted fields of `Primitives`, so every
 * property below holds whatever they compute.
 */
module Sphinx {
  import opened Bytes

  datatype Result<+T, +E> = Ok(value: T) | Err(error: E)

  /** A Curve25519 point in compressed Montgomery form. */
  datatype MontgomeryPoint = MontgomeryPoint(bytes: seq<uint8>)

  /** The group element α carried in a header. */
  type PublicKey = MontgomeryPoint

  /** The Diffie-Hellman result a sender and one relay share. */
  type SharedKey = MontgomeryPoint

  /** A Curve25519 scalar, as its little-endian bytes. */
  datatype Scalar = Scalar(bytes: seq<uint8>)

  datatype NodeAddress = NodeAddress(bytes: seq<uint8>)

  datatype MixNode = MixNode(address: NodeAddress, pubKey: PublicKey)

  datatype Destination = Destination(address: NodeAddress)

  /** One step of a route: a relay to pass through, or the final destination. */
  datatype RouteElement = ForwardHop(mixNode: MixNode) | FinalHop(destination: Destination)

  /** β with its integrity MAC γ, as the header module lays them out. */
  datatype EncapsulatedRoutingInformation = EncapsulatedRoutingInformation(encRoutingInfo: seq<uint8>, integrityMac: seq<uint8>)

  /** A header: the per-hop group element α and the encrypted routing information. */
  datatype SphinxHeader = SphinxHeader(sharedSecret: PublicKey, routingInfo: EncapsulatedRoutingInformation)

  datatype SphinxPacket = SphinxPacket(header: SphinxHeader, payload: seq<uint8>)

  datatype PayloadKey = PayloadKey(bytes: seq<uint8>)

  /** The keys one relay derives from its shared key. */
  datatype RoutingKeys = RoutingKeys(streamCipherKey: seq<uint8>, headerIntegrityHmacKey: seq<uint8>, payloadKey: PayloadKey)

  /** Why the header module refused to unwrap a header (for instance a MAC mismatch). */
  datatype HeaderError = HeaderError(reason: string)

  /** The two ways `create_packet` refuses a route (both panics in the source). */
  datatype RouteError = EmptyRoute | LastHopNotFinal

  /** HMAC-SHA256 output: 32 bytes. */
  type HmacSha256Output = s: seq<uint8> | |s| == 32 witness seq(32, _ => 0)

  /** The operations the facade calls but does not define. */
  datatype Primitives = Primitives(
    // header::create: the first header and the payload key of every hop
    createHeader: (Scalar, seq<RouteElement>) -> (SphinxHeader, seq<PayloadKey>),
    // payload::create: the padded, layered payload
    createPayload: (seq<uint8>, seq<PayloadKey>, NodeAddress) -> seq<uint8>,
    // keys::KeyMaterial::compute_shared_key: α times the node's secret scalar
    computeSharedKey: (PublicKey, Scalar) -> SharedKey,
    // keys::RoutingKeys::derive
    deriveRoutingKeys: SharedKey -> RoutingKeys,
    // header::process_header: MAC check and one layer of β
    processHeader: (SphinxHeader, RoutingKeys) -> Result<(EncapsulatedRoutingInformation, NodeAddress), HeaderError>,
    // unwrap_payload::unwrap_payload: one layer of the payload
    unwrapPayload: (seq<uint8>, PayloadKey) -> seq<uint8>,
    // compute_keyed_hmac over SHA-256, keyed by its first argument
    keyedHmac: (seq<uint8>, seq<uint8>) -> HmacSha256Output,
    // Scalar::from_bytes_mod_order
    scalarFromBytesModOrder: seq<uint8> -> Scalar,
    // MontgomeryPoint * Scalar
    mul: (MontgomeryPoint, Scalar) -> MontgomeryPoint
  )

  /** A route `create_packet` accepts: non-empty and ending in the destination. */
  predicate EndsAtDestination(route: seq<RouteElement>)
  {
    |route| > 0 && route[|route| - 1].FinalHop?
  }

  /**
   * Builds a packet. The header is the one `header::create` returns; the
   * payload is built from the message, the payload keys from that same call
   * and the address of the last route element, which must be the destination.
   */
  function CreatePacket(p: Primitives, initialSecret: Scalar, message: seq<uint8>, route: seq<RouteElement>)
    : (r: Result<SphinxPacket, RouteError>)
    ensures r.Ok? <==> EndsAtDestination(route)
    ensures r == Err(EmptyRoute) <==> route == []
    ensures r == Err(LastHopNotFinal) <==> route != [] && route[|route| - 1].ForwardHop?
    ensures r.Ok? ==>
      var (header, payloadKeys) := p.createHeader(initialSecret, route);
      var destination := route[|route| - 1].destination;
      r.value == SphinxPacket(header, p.createPayload(message, payloadKeys, destination.address))
  {
    var (header, payloadKeys) := p.createHeader(initialSecret, route);
    if |route| == 0 then
      Err(EmptyRoute)
    else
      match route[|route| - 1]
      case FinalHop(destination) =>
        Ok(SphinxPacket(header, p.createPayload(message, payloadKeys, destination.address)))
      case ForwardHop(_) =>
        Err(LastHopNotFinal)
  }

  /**
   * The blinded group element for the next hop: α times the scalar made of
   * the first 32 bytes of HMAC-SHA256 keyed by α's bytes over the shared key's
   * bytes, reduced modulo the group order.
   */
  function BlindTheSharedSecret(p: Primitives, sharedSecret: PublicKey, sharedKey: SharedKey): (blinded: PublicKey)
    ensures exists factor: Scalar :: blinded == p.mul(sharedSecret, factor)
    ensures blinded == p.mul(sharedSecret, p.scalarFromBytesModOrder(p.keyedHmac(sharedSecret.bytes, sharedKey.bytes)))
  {
    var hmacFull := p.keyedHmac(sharedSecret.bytes, sharedKey.bytes);
    var hmac := hmacFull[..32];
    assert hmac == hmacFull;
    var blindingFactor := p.scalarFromBytesModOrder(hmac);
    p.mul(sharedSecret, blindingFactor)
  }

  /**
   * Peels one layer at a relay. One shared key, α times the node's secret,
   * yields the routing keys for both the header and the payload. A header the
   * header module refuses yields no packet (the source panics there). Otherwise
   * the next packet carries the blinded α, the next routing information, the
   * payload with one layer removed, and the next hop's address is returned as
   * the header module produced it.
   */
  function ProcessPacket(p: Primitives, packet: SphinxPacket, nodeSecretKey: Scalar)
    : (r: Result<(SphinxPacket, NodeAddress), HeaderError>)
    ensures
      var alpha := packet.header.sharedSecret;
      var sharedKey := p.computeSharedKey(alpha, nodeSecretKey);
      var keys := p.deriveRoutingKeys(sharedKey);
      var unwrapped := p.processHeader(packet.header, keys);
      && (r.Err? <==> unwrapped.Err?)
      && (r.Err? ==> r.error == unwrapped.error)
      && (r.Ok? ==>
            var (next, address) := r.value;
            && next.header.sharedSecret == BlindTheSharedSecret(p, alpha, sharedKey)
            && next.header.routingInfo == unwrapped.value.0
            && next.payload == p.unwrapPayload(packet.payload, keys.payloadKey)
            && address == unwrapped.value.1)
  {
    var sharedSecret := packet.header.sharedSecret;
    var sharedKey := p.computeSharedKey(sharedSecret, nodeSecretKey);
    var routingKeys := p.deriveRoutingKeys(sharedKey);
    match p.processHeader(packet.header, routingKeys)
    case Err(error) => Err(error)
    case Ok((nextHopEncapsulatedRoutingInfo, nextHopAddr)) =>
      var unwrappedPayload := p.unwrapPayload(packet.payload, routingKeys.payloadKey);
      var newSharedSecret := BlindTheSharedSecret(p, sharedSecret, sharedKey);
      Ok((SphinxPacket(SphinxHeader(newSharedSecret, nextHopEncapsulatedRoutingInfo), unwrappedPayload), nextHopAddr))
  }

  /**
   * The header of a packet does not depend on the message: two packets built
   * with the same secret and route have the same header.
   */
  lemma HeaderIndependentOfMessage(p: Primitives, initialSecret: Scalar, route: seq<RouteElement>, m1: seq<uint8>, m2: seq<uint8>)
    ensures CreatePacket(p, initialSecret, m1, route).Ok? == CreatePacket(p, initialSecret, m2, route).Ok?
    ensures CreatePacket(p, initialSecret, m1, route).Ok? ==>
      CreatePacket(p, initialSecret, m1, route).value.header == CreatePacket(p, initialSecret, m2, route).value.header
  {
  }

  /**
   * What a relay does with the header, and whether it accepts the packet,
   * does not depend on the payload.
   */
  lemma HeaderProcessingIgnoresPayload(p: Primitives, a: SphinxPacket, b: SphinxPacket, nodeSecretKey: Scalar)
    requires a.header == b.header
    ensures ProcessPacket(p, a, nodeSecretKey).Ok? == ProcessPacket(p, b, nodeSecretKey).Ok?
    ensures ProcessPacket(p, a, nodeSecretKey).Ok? ==>
      && ProcessPacket(p, a, nodeSecretKey).value.0.header == ProcessPacket(p, b, nodeSecretKey).value.0.header
      && ProcessPacket(p, a, nodeSecretKey).value.1 == ProcessPacket(p, b, nodeSecretKey).value.1
  {
  }

  /**
   * The payload a relay forwards depends only on α, the relay's secret and the
   * payload it received, not on the routing information.
   */
  lemma PayloadProcessingIgnoresRoutingInfo(p: Primitives, a: SphinxPacket, b: SphinxPacket, nodeSecretKey: Scalar)
    requires a.header.sharedSecret == b.header.sharedSecret && a.payload == b.payload
    requires ProcessPacket(p, a, nodeSecretKey).Ok? && ProcessPacket(p, b, nodeSecretKey).Ok?
    ensures ProcessPacket(p, a, nodeSecretKey).value.0.payload == ProcessPacket(p, b, nodeSecretKey).value.0.payload
    ensures ProcessPacket(p, a, nodeSecretKey).value.0.header.sharedSecret == ProcessPacket(p, b, nodeSecretKey).value.0.header.sharedSecret
  {
  }
}
