/** Bytes, fixed-width integers and stored checksums (util/coding.h, util/coding.cc). */
module Coding {
  import opened Wrappers
  import opened Crc32c

  type Octet = n: int | 0 <= n < 256

  // ----- checksums -----

  function Bits(data: seq<Octet>): seq<Byte> {
    seq(|data|, i requires 0 <= i < |data| => data[i] as Byte)
  }

  /** EncodeFixed32, and its four bytes as numbers. */
  function Fixed32(x: bv32): (r: seq<Octet>)
    ensures |r| == 4
  {
    [Low(x) as int, Low(x >> 8) as int, Low(x >> 16) as int, Low(x >> 24) as int]
  }

  /** DecodeFixed32. */
  function FromFixed32(h: seq<Octet>): bv32
    requires |h| == 4
  {
    Load32(h[0] as Byte, h[1] as Byte, h[2] as Byte, h[3] as Byte)
  }

  lemma LoadLow(x: bv32)
    ensures Load32(Low(x), Low(x >> 8), Low(x >> 16), Low(x >> 24)) == x
  {
  }

  lemma ByteAsInt(b: Byte)
    ensures (b as int) as Byte == b
  {
  }

  lemma Fixed32RoundTrip(x: bv32)
    ensures FromFixed32(Fixed32(x)) == x
  {
    LoadLow(x);
    ByteAsInt(Low(x));
    ByteAsInt(Low(x >> 8));
    ByteAsInt(Low(x >> 16));
    ByteAsInt(Low(x >> 24));
  }

  /** h is the masked checksum of type and payload. */
  ghost predicate IsSeal(h: seq<Octet>, t: Octet, payload: seq<Octet>) {
    && |h| == 4
    && forall k {:trigger Unfold(k)} :: k == IN_SEAL && Unfold(k) ==>
        Unmask(FromFixed32(h)) == Extended(0, Bits([t] + payload))
  }

  lemma SealIsRight(crc: bv32, t: Octet, payload: seq<Octet>, h: seq<Octet>)
    requires crc == Extended(Extended(0, Bits([t])), Bits(payload)) && h == Fixed32(Mask(crc))
    ensures IsSeal(h, t, payload)
  {
    assert Bits([t] + payload) == Bits([t]) + Bits(payload);
    ExtendSplits(0, Bits([t]), Bits(payload));
    Fixed32RoundTrip(Mask(crc));
    UnmaskUndoesMask(crc);
  }

  /** The checksum the log writer stores: the one of the type byte, extended over the payload, masked. */
  method Seal(tables: Tables, t: Octet, payload: seq<Octet>, address: nat) returns (h: seq<Octet>)
    requires AreTables(tables)
    ensures IsSeal(h, t, payload)
  {
    var typeCrc := Extend(tables, 0, Bits([t]), address);
    var crc := Extend(tables, typeCrc, Bits(payload), address);
    h := Fixed32(Mask(crc));
    SealIsRight(crc, t, payload, h);
  }

  lemma CheckIsRight(h: seq<Octet>, t: Octet, payload: seq<Octet>, expected: bv32, actual: bv32)
    requires |h| == 4 && expected == Unmask(FromFixed32(h)) && actual == Extended(0, Bits([t] + payload))
    ensures expected == actual <==> IsSeal(h, t, payload)
  {
    assert Unfold(IN_SEAL);
  }

  /** The check the log reader makes: one checksum over type byte and payload. */
  method Check(tables: Tables, h: seq<Octet>, t: Octet, payload: seq<Octet>, address: nat) returns (ok: bool)
    requires AreTables(tables) && |h| == 4
    ensures ok <==> IsSeal(h, t, payload)
  {
    var expected := Unmask(FromFixed32(h));
    var actual := Extend(tables, 0, Bits([t] + payload), address);
    CheckIsRight(h, t, payload, expected, actual);
    ok := expected == actual;
  }
}
