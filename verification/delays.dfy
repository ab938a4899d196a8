/**
 * The per-hop delay carried in each routing block of a Sphinx header:
 * a u64 count of nanoseconds, serialised as eight big-endian bytes.
 */
module Delays {
  import opened Bytes

  /** Width of the serialised delay field, in bytes. */
  const DELAY_LENGTH: nat := 8

  /** Nanoseconds in one second, as `std::time::Duration` counts them. */
  const NANOS_PER_SEC: nat := 1_000_000_000

  /** A delay of `value` nanoseconds. */
  datatype Delay = Delay(value: uint64)

  /** `std::time::Duration`: whole seconds plus the nanoseconds below one second. */
  datatype Duration = Duration(secs: uint64, subsecNanos: uint32)

  /** The nanoseconds a duration spans (`Duration::as_nanos`). */
  function AsNanos(dur: Duration): nat
  {
    dur.secs as nat * NANOS_PER_SEC + dur.subsecNanos as nat
  }

  /** Builds the delay of `value` nanoseconds. */
  function NewFromNanos(value: uint64): (d: Delay)
    ensures ToNanos(d) == value
  {
    Delay(value)
  }

  /** The nanosecond count of a delay. */
  function ToNanos(d: Delay): (nanos: uint64)
  {
    d.value
  }

  /** A delay is determined by its nanosecond count. */
  lemma NanosDetermineDelay(d: Delay)
    ensures NewFromNanos(ToNanos(d)) == d
  {
  }

  /**
   * The delay as a `Duration` (`Duration::from_nanos`): the seconds and the
   * sub-second nanoseconds together span exactly the delay.
   */
  function ToDuration(d: Delay): (dur: Duration)
    ensures dur.subsecNanos as nat < NANOS_PER_SEC
    ensures AsNanos(dur) == ToNanos(d) as nat
  {
    Duration((d.value as nat / NANOS_PER_SEC) as uint64, (d.value as nat % NANOS_PER_SEC) as uint32)
  }

  /**
   * Serialises a delay: a zeroed DELAY_LENGTH-byte buffer is filled with the
   * value, most significant byte first.
   */
  method ToBytes(d: Delay) returns (bytes: seq<uint8>)
    ensures |bytes| == DELAY_LENGTH
    ensures forall i :: 0 <= i < DELAY_LENGTH ==>
      bytes[i] as nat == d.value as nat / Pow256(DELAY_LENGTH - 1 - i) % 256
    ensures d.value as nat < Pow256(DELAY_LENGTH) && bytes == EncodeBE(d.value as nat, DELAY_LENGTH)
    ensures FromBytes(bytes) == d
  {
    var buf := new uint8[DELAY_LENGTH](_ => 0);
    var rest: nat := d.value as nat;
    var written := 0;
    while written < DELAY_LENGTH
      invariant written <= DELAY_LENGTH
      invariant rest == d.value as nat / Pow256(written)
      invariant forall j :: DELAY_LENGTH - written <= j < DELAY_LENGTH ==>
        buf[j] as nat == d.value as nat / Pow256(DELAY_LENGTH - 1 - j) % 256
    {
      buf[DELAY_LENGTH - 1 - written] := (rest % 256) as uint8;
      DivDiv(d.value as nat, Pow256(written), 256);
      rest := rest / 256;
      written := written + 1;
    }
    bytes := buf[..];
    Pow256Eight();
    forall i | 0 <= i < DELAY_LENGTH
      ensures bytes[i] == EncodeBE(d.value as nat, DELAY_LENGTH)[i]
    {
      EncodeBEAt(d.value as nat, DELAY_LENGTH, i);
    }
    DecodeEncode(d.value as nat, DELAY_LENGTH);
  }

  /**
   * Reads a delay back from its DELAY_LENGTH bytes. Every byte string of
   * that length decodes, and it is the serialisation of what it decodes to.
   */
  function FromBytes(bytes: seq<uint8>): (d: Delay)
    requires |bytes| == DELAY_LENGTH
    ensures d.value as nat < Pow256(DELAY_LENGTH) && EncodeBE(d.value as nat, DELAY_LENGTH) == bytes
  {
    Pow256Eight();
    EncodeDecode(bytes);
    Delay(DecodeBE(bytes) as uint64)
  }

  /** Distinct serialisations decode to distinct delays. */
  lemma FromBytesInjective(a: seq<uint8>, b: seq<uint8>)
    requires |a| == DELAY_LENGTH && |b| == DELAY_LENGTH
    ensures FromBytes(a) == FromBytes(b) ==> a == b
  {
  }
}
