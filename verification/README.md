# Sphinx packet facade and per-hop delay codec

This Dafny project models two parts of a Rust implementation of the Sphinx
mix-network packet format:

- **The per-hop delay** (`src/header/delays.rs`). A `Delay` is a u64 count of
  nanoseconds. It is written into each routing block as eight big-endian bytes
  and read back from them. The model proves that:
  - the delay serialiser produces exactly `DELAY_LENGTH` = 8 bytes, most
    significant first;
  - decoding inverts encoding, and encoding inverts decoding, so every 8-byte
    string is the encoding of exactly one delay;
  - the `Duration` view spans exactly the delay's nanoseconds.
- **The packet facade** (`src/lib.rs`). `create_packet` checks the route's
  shape and then assembles a packet from the header and payload builders.
  `process_packet` peels one layer at a relay. It derives one shared key from α
  and the node's secret and uses it for both the header and the payload. It
  blinds α for the next hop and returns the next packet and the next hop's
  address. The model proves the wiring:
  - which route shapes fail;
  - which outputs feed which inputs;
  - that the header does not depend on the message;
  - that what the relay does with the header does not depend on the payload.

The modules the facade calls are outside this model: header building and
processing, payload building and unwrapping, key derivation, HMAC-SHA256 and
Curve25519 arithmetic. They are the function-valued fields of
`Sphinx.Primitives`, a parameter of every facade operation. Every property
stated about the facade therefore holds for any implementation of them.

Files:
- `bytes.dfy`: module `Bytes`. It defines u8/u32/u64 and big-endian encoding
  and decoding (the `byteorder` crate's `BigEndian`), with their inverse lemmas.
- `delays.dfy`: module `Delays`, for `src/header/delays.rs`.
- `sphinx.dfy`: module `Sphinx`, for `src/lib.rs`.

Where the code and the design description of the format differ, the model
follows the code:
- `blind_the_shared_secret` keys the HMAC with α's bytes over the shared key's
  bytes. The design description puts them the other way round (HMAC keyed by
  the shared secret over α).
- `create_packet` checks only the last route element. It does not reject a
  `FinalHop` earlier in the route.
- `process_packet` returns the next packet and address but no delay, and it
  panics rather than returning an error. The model returns `Err` where the
  source panics.

`src/header/delays.rs` does not compile as written. The struct is the tuple
`Delay(u64)`, but `to_bytes` reads `self.value`, `from_bytes` builds
`Self { value: … }` and is followed by a stray second body
`Delay(BigEndian::read_u64(..))`, and `generate` calls a `Delay::new` that does
not exist. The model gives `Delay` its single u64 field and the
one-field meaning both bodies agree on.

## Model

| member | source | states |
|---|---|---|
| Bytes.EncodeBE | src/header/delays.rs:25 | the big-endian encoding of a value below 256^n has exactly n bytes |
| Bytes.DecodeBE | src/header/delays.rs:31 | the value read from n big-endian bytes is below 256^n, so 8 bytes always give a u64 |
| Bytes.EncodeBEAt | src/header/delays.rs:23-27 | byte i of an n-byte big-endian encoding of v is (v / 256^(n-1-i)) % 256 |
| Bytes.DecodeEncode | src/header/delays.rs:23-36 | reading back what was written gives the original value |
| Bytes.EncodeDecode | src/header/delays.rs:29-36 | writing back what was read gives the original bytes, for every byte string |
| Delays.NewFromNanos | src/header/delays.rs:11-17 | `to_nanos(new_from_nanos(v)) == v` for every u64 v |
| Delays.NanosDetermineDelay | src/header/delays.rs:11-17 | rebuilding a delay from its nanosecond count gives the same delay |
| Delays.ToDuration | src/header/delays.rs:19-21 | the duration's seconds and sub-second nanoseconds (below 10^9) span exactly `to_nanos()` nanoseconds |
| Delays.ToBytes | src/header/delays.rs:23-27 | a zeroed 8-byte buffer filled by a loop holds the delay most significant byte first (byte i = (v / 256^(7-i)) % 256), and `from_bytes` of it gives back the delay |
| Delays.FromBytes | src/header/delays.rs:29-36 | every 8-byte input decodes to a delay below 2^64, and the delay's encoding is exactly that input |
| Delays.FromBytesInjective | src/header/delays.rs:29-36 | two 8-byte inputs that decode to the same delay are equal |
| Sphinx.CreatePacket | src/lib.rs:22-34 | fails with `EmptyRoute` exactly on an empty route and with `LastHopNotFinal` exactly when the last element is a forward hop; otherwise the header is the one `header::create` returns and the payload is `payload::create` of the message, the payload keys from that same call and the final element's address |
| Sphinx.HeaderIndependentOfMessage | src/lib.rs:22-34 | two packets built with the same secret and route but different messages have the same header and both succeed or both fail |
| Sphinx.BlindTheSharedSecret | src/lib.rs:79-88 | the new α is α times `Scalar::from_bytes_mod_order` of the first 32 bytes of HMAC keyed with α's bytes over the shared key's bytes |
| Sphinx.ProcessPacket | src/lib.rs:44-77 | one shared key `compute_shared_key(α, secret)` yields the routing keys for both header and payload; fails exactly when header processing fails, with its error; otherwise the next header has the blinded α and the next routing information, the payload is unwrapped with the payload key, and the address is the one header processing produced |
| Sphinx.HeaderProcessingIgnoresPayload | src/lib.rs:49-76 | packets with the same header are accepted or refused alike and give the same next header and address, whatever their payloads |
| Sphinx.PayloadProcessingIgnoresRoutingInfo | src/lib.rs:49-65 | packets with the same α and payload, both accepted, give the same next payload and the same blinded α, whatever their routing information |

## Left out

- Header building and processing (`header::create`, `header::process_header`) are not part of this model. Payload building and unwrapping (`payload::create`, `unwrap_payload`) and key derivation (`keys`) are not part of it either. Their source is not available; they are uninterpreted fields of `Primitives`.
- Curve25519 scalar multiplication, `Scalar::from_bytes_mod_order` and HMAC-SHA256 are foreign-crate cryptography. They are uninterpreted too; HMAC-SHA256's output is only known to be 32 bytes long.
- `src/crypto/mod.rs` (AES-128-CTR keystream and keyed HMAC wrappers) is not part of this model. Nothing in the modelled code calls the keystream, and HMAC appears only as a `Primitives` field.
- `generate` and `generate_from_average_duration` in `src/header/delays.rs` are left out. They sample floating-point exponential delays from a thread-local random generator.
- `Hop` in `src/lib.rs` is left out: a floating-point field that nothing uses.
- Replay detection (the TODO in `process_packet`) is left out. It is state outside this code.
- Panics inside the uninterpreted modules (for instance if `header::create` itself rejected a route) are not modelled. Only the facade's own panics are modelled, as `Err` results.
- Zeroising key material on drop and constant-time comparisons are left out. They are side-channel concerns a functional model cannot express.
- `NODE_ADDRESS_LENGTH` and the payload size come from a constants module whose source is not available. Addresses and payloads are byte strings of unconstrained length.
