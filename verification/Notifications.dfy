/** The wire encoders of the websocket hub: the frame length prefix and the MessagePack timestamp. */
module Notifications {
  import opened Common

  newtype Byte = x: int | 0 <= x < 256

  // ----- Length-prefixed frames

  /** Seven bits per byte, least significant group first; all but the last byte carry the top bit. */
  function Prefix(size: nat): (p: seq<Byte>)
    ensures p != []
  {
    if size < 128 then [size as Byte] else [(128 + size % 128) as Byte] + Prefix(size / 128)
  }

  function Frame(payload: seq<Byte>): seq<Byte> {
    Prefix(|payload|) + payload
  }

  /**
   * On an unsigned size, the mask `0x7f` and the shift by seven are remainder and quotient by 128, and setting the top
   * bit of a seven-bit part adds 128.
   */
  method Serialize(payload: seq<Byte>) returns (frame: seq<Byte>)
    ensures frame == Frame(payload)
  {
    var size: nat := |payload|;
    var lenBuf: seq<Byte> := [];
    while true
      invariant lenBuf + Prefix(size) == Prefix(|payload|)
      decreases size
    {
      var sizePart := size % 128;
      size := size / 128;
      if size > 0 {
        sizePart := sizePart + 128;
      }
      ghost var done := lenBuf;
      lenBuf := lenBuf + [sizePart as Byte];
      if size == 0 {
        break;
      }
      assert done + ([sizePart as Byte] + Prefix(size)) == lenBuf + Prefix(size);
    }
    frame := lenBuf + payload;
  }

  /** The reader's side: a length and what follows it, or nothing when the bytes run out. */
  function ReadLength(bytes: seq<Byte>): Option<(nat, seq<Byte>)> {
    if bytes == [] then None
    else if bytes[0] < 128 then Some((bytes[0] as nat, bytes[1..]))
    else
      match ReadLength(bytes[1..])
      case None => None
      case Some((n, rest)) => Some((bytes[0] as nat - 128 + 128 * n, rest))
  }

  lemma {:induction false} ReadLengthShortens(bytes: seq<Byte>)
    ensures ReadLength(bytes).Some? ==> |ReadLength(bytes).value.1| < |bytes|
  {
    if bytes != [] && bytes[0] >= 128 { ReadLengthShortens(bytes[1..]); }
  }

  function ReadFrames(bytes: seq<Byte>): Option<seq<seq<Byte>>>
    decreases |bytes|
  {
    if bytes == [] then Some([])
    else
      ReadLengthShortens(bytes);
      match ReadLength(bytes)
      case None => None
      case Some((n, rest)) =>
        if |rest| < n then None
        else
          match ReadFrames(rest[n..])
          case None => None
          case Some(more) => Some([rest[..n]] + more)
  }

  function Stream(payloads: seq<seq<Byte>>): seq<Byte> {
    if payloads == [] then [] else Frame(payloads[0]) + Stream(payloads[1..])
  }

  lemma {:induction false} ReadLengthOfPrefix(n: nat, rest: seq<Byte>)
    ensures ReadLength(Prefix(n) + rest) == Some((n, rest))
  {
    var bytes := Prefix(n) + rest;
    if n < 128 {
      assert bytes[1..] == rest;
    } else {
      assert bytes[1..] == Prefix(n / 128) + rest;
      ReadLengthOfPrefix(n / 128, rest);
    }
  }

  /** Any list of payloads is recovered from the concatenation of its frames. */
  lemma {:induction false} StreamIsUniquelyDecodable(payloads: seq<seq<Byte>>)
    ensures ReadFrames(Stream(payloads)) == Some(payloads)
  {
    if payloads != [] {
      var first, later := payloads[0], Stream(payloads[1..]);
      StreamIsUniquelyDecodable(payloads[1..]);
      var bytes := Stream(payloads);
      assert bytes == Prefix(|first|) + (first + later);
      ReadLengthOfPrefix(|first|, first + later);
      assert (first + later)[..|first|] == first && (first + later)[|first|..] == later;
      assert [first] + payloads[1..] == payloads;
    }
  }

  /** No length prefix is the beginning of another one. */
  lemma PrefixFree(m: nat, n: nat)
    requires Prefix(m) <= Prefix(n)
    ensures m == n
  {
    var rest := Prefix(n)[|Prefix(m)|..];
    assert Prefix(m) + rest == Prefix(n) + [];
    ReadLengthOfPrefix(m, rest);
    ReadLengthOfPrefix(n, []);
  }

  /** No byte string that reads as the same length is shorter. */
  lemma {:induction false} PrefixIsMinimal(bytes: seq<Byte>, n: nat)
    requires ReadLength(bytes) == Some((n, []))
    ensures |Prefix(n)| <= |bytes|
  {
    if bytes[0] >= 128 {
      var m := ReadLength(bytes[1..]).value.0;
      assert n / 128 == m && n % 128 == bytes[0] as int - 128;
      PrefixIsMinimal(bytes[1..], m);
      if n >= 128 { assert Prefix(n) == [(128 + n % 128) as Byte] + Prefix(m); }
    }
  }

  // ----- The 64-bit timestamp of the MessagePack specification, "Timestamp extension type"

  /** Seconds and nanoseconds are the two's complement bits of the source's i64 values. */
  function PackedDate(seconds: bv64, nanos: bv64): bv64 {
    (nanos << 34) | seconds
  }

  function BigEndian(v: bv64): (bs: seq<bv8>)
    ensures |bs| == 8
  {
    [((v >> 56) & 0xff) as bv8, ((v >> 48) & 0xff) as bv8, ((v >> 40) & 0xff) as bv8, ((v >> 32) & 0xff) as bv8,
     ((v >> 24) & 0xff) as bv8, ((v >> 16) & 0xff) as bv8, ((v >> 8) & 0xff) as bv8, (v & 0xff) as bv8]
  }

  function FromBigEndian(bs: seq<bv8>): bv64
    requires |bs| == 8
  {
    (bs[0] as bv64 << 56) | (bs[1] as bv64 << 48) | (bs[2] as bv64 << 40) | (bs[3] as bv64 << 32)
    | (bs[4] as bv64 << 24) | (bs[5] as bv64 << 16) | (bs[6] as bv64 << 8) | (bs[7] as bv64)
  }

  function SerializeDate(seconds: bv64, nanos: bv64): (bs: seq<bv8>)
    ensures |bs| == 8
  {
    BigEndian(PackedDate(seconds, nanos))
  }

  /** How a reader splits the eight bytes: a 34-bit count of seconds below a 30-bit count of nanoseconds. */
  function ReadDate(bs: seq<bv8>): (bv64, bv64)
    requires |bs| == 8
  {
    SplitWord(FromBigEndian(bs))
  }

  function SplitWord(v: bv64): (bv64, bv64) {
    (v & 0x3_ffff_ffff, v >> 34)
  }

  lemma BigEndianRoundTrip(v: bv64)
    ensures FromBigEndian(BigEndian(v)) == v
  {
  }

  lemma PackedWordSplits(seconds: bv64, nanos: bv64)
    ensures ((((nanos << 34) | seconds) & 0x3_ffff_ffff) == seconds && (((nanos << 34) | seconds) >> 34) == nanos)
            <==> (seconds < 0x4_0000_0000 && nanos < 0x4000_0000)
  {
  }

  lemma ReadAfterSerialize(seconds: bv64, nanos: bv64)
    ensures ReadDate(SerializeDate(seconds, nanos)) == SplitWord(PackedDate(seconds, nanos))
  {
    BigEndianRoundTrip(PackedDate(seconds, nanos));
  }

  /**
   * The reader gets the packed pair back just when seconds fit 34 bits and nanoseconds 30 bits,
   * whatever the sign bit of the packed word. A date before 1970 (sign bit of seconds set) and a
   * leap second (nanoseconds from 2^30 on) are the inputs it loses.
   */
  lemma DateRoundTrip(seconds: bv64, nanos: bv64)
    ensures ReadDate(SerializeDate(seconds, nanos)) == (seconds, nanos)
            <==> (seconds < 0x4_0000_0000 && nanos < 0x4000_0000)
  {
    ReadAfterSerialize(seconds, nanos);
    PackedWordSplits(seconds, nanos);
  }

  /** The round trip covers words whose sign bit the shift has set. */
  lemma SignBitIsCovered(seconds: bv64, nanos: bv64)
    requires seconds < 0x4_0000_0000 && 0x2000_0000 <= nanos < 0x4000_0000
    ensures PackedDate(seconds, nanos) >= 0x8000_0000_0000_0000
    ensures ReadDate(SerializeDate(seconds, nanos)) == (seconds, nanos)
  {
    DateRoundTrip(seconds, nanos);
  }
}
