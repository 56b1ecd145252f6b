/** The packet format: header layout, sealing, and the checksum the receiver recomputes. */
module Packet {
  import opened Words
  import opened Crc

  const PACKET_MAGIC: nat := 0x544B4350
  const PACKET_VERSION: byte := 2
  const HEADER_SIZE: nat := 32

  type int64 = t: int | -TWO_63 <= t < TWO_63

  datatype PacketHeader = PacketHeader(
    magic: nat, version: byte, checksumKind: byte, headerSize: nat,
    payloadSize: nat, checksum: nat, sequence: nat, timestamp: int64)
  {
    /** Every field is within the width the packet gives it. */
    ghost predicate Fits() {
      && magic < TWO_32 && headerSize < 65536 && payloadSize < TWO_32 && checksum < TWO_32
      && sequence < TWO_64
    }
  }

  /** Two's complement, 64 bits. */
  function Unsigned64(t: int64): (r: nat)
    ensures r < TWO_64 && r == t % 0x1_0000_0000_0000_0000
  {
    if t < 0 then t + TWO_64 else t
  }

  function Signed64(v: nat): int64
    requires v < TWO_64
  {
    if v < TWO_63 then v else v - TWO_64
  }

  /** The in-memory image of a header. */
  function HeaderBytes(h: PacketHeader): (r: seq<byte>)
    ensures |r| == HEADER_SIZE
  {
    BeforeChecksum(h) + Le(h.checksum, 4) + AfterChecksum(h)
  }

  function BeforeChecksum(h: PacketHeader): (r: seq<byte>)
    ensures |r| == 12
  {
    Le(h.magic, 4) + [h.version, h.checksumKind] + Le(h.headerSize, 2) + Le(h.payloadSize, 4)
  }

  function AfterChecksum(h: PacketHeader): (r: seq<byte>)
    ensures |r| == 16
  {
    Le(h.sequence, 8) + Le(Unsigned64(h.timestamp), 8)
  }

  function ReadHeader(record: seq<byte>): PacketHeader
    requires |record| >= HEADER_SIZE
  {
    FieldSizes();
    PacketHeader(
      FromLe(record[0..4]), record[4], record[5], FromLe(record[6..8]), FromLe(record[8..12]),
      FromLe(record[12..16]), FromLe(record[16..24]), Signed64(FromLe(record[24..32])))
  }

  lemma HeaderSlices(h: PacketHeader, rest: seq<byte>)
    ensures var r := HeaderBytes(h) + rest;
      && r[0..4] == Le(h.magic, 4) && r[4] == h.version && r[5] == h.checksumKind && r[6..8] == Le(h.headerSize, 2)
      && r[8..12] == Le(h.payloadSize, 4) && r[12..16] == Le(h.checksum, 4) && r[16..24] == Le(h.sequence, 8)
      && r[24..32] == Le(Unsigned64(h.timestamp), 8)
  {
  }

  /** read_header gives back every field write_header stored. */
  lemma ReadHeaderOfHeaderBytes(h: PacketHeader, rest: seq<byte>)
    requires h.Fits()
    ensures ReadHeader(HeaderBytes(h) + rest) == h
  {
    HeaderSlices(h, rest);
    FieldSizes();
    FromLeOfLe(h.magic, 4);
    FromLeOfLe(h.headerSize, 2);
    FromLeOfLe(h.payloadSize, 4);
    FromLeOfLe(h.checksum, 4);
    FromLeOfLe(h.sequence, 8);
    FromLeOfLe(Unsigned64(h.timestamp), 8);
  }

  lemma FieldSizes()
    ensures Pow2(8 * 2) == 65536 && Pow2(8 * 4) == TWO_32 && Pow2(8 * 8) == TWO_64
  {
    Pow2Of8();
    Pow2Adds(8, 8);
    Pow2Of32();
    Pow2Of64();
  }

  lemma FieldsBeforeChecksum(record: seq<byte>)
    requires |record| >= HEADER_SIZE
    ensures BeforeChecksum(ReadHeader(record)) == record[..12]
  {
    LeOfFromLe(record[0..4]);
    LeOfFromLe(record[6..8]);
    LeOfFromLe(record[8..12]);
    assert record[..12] == record[0..4] + [record[4], record[5]] + record[6..8] + record[8..12];
  }

  lemma FieldsAfterChecksum(record: seq<byte>)
    requires |record| >= HEADER_SIZE
    ensures AfterChecksum(ReadHeader(record)) == record[16..32]
  {
    FieldSizes();
    LeOfFromLe(record[16..24]);
    LeOfFromLe(record[24..32]);
    TwoHalves(record, record[16..24], record[24..32]);
  }

  lemma TwoHalves(record: seq<byte>, first: seq<byte>, second: seq<byte>)
    requires |record| >= HEADER_SIZE && first == record[16..24] && second == record[24..32]
    ensures first + second == record[16..32]
  {
  }

  /** No bytes of a header are lost by reading it: the fields determine the image. */
  lemma HeaderBytesOfReadHeader(record: seq<byte>)
    requires |record| >= HEADER_SIZE
    ensures HeaderBytes(ReadHeader(record)) == record[..HEADER_SIZE]
  {
    FieldsBeforeChecksum(record);
    FieldsAfterChecksum(record);
    LeOfFromLe(record[12..16]);
    Reassembled(record, BeforeChecksum(ReadHeader(record)), record[12..16], AfterChecksum(ReadHeader(record)));
  }

  lemma Reassembled(record: seq<byte>, before: seq<byte>, field: seq<byte>, after: seq<byte>)
    requires |record| >= HEADER_SIZE
    requires before == record[..12] && field == record[12..16] && after == record[16..32]
    ensures before + field + after == record[..HEADER_SIZE]
  {
  }

  // ------------------------------------------------------------ sealing

  /** The header write_header builds; the payload size is truncated to its 32-bit field. */
  function NewHeader(kind: ChecksumKind, sequence: nat, timestamp: int64, payloadLength: nat): PacketHeader {
    PacketHeader(PACKET_MAGIC, PACKET_VERSION, KindCode(kind), HEADER_SIZE, payloadLength % TWO_32, 0, sequence, timestamp)
  }

  /** The record patch_checksum leaves behind. */
  function Patched(record: seq<byte>, checksum: nat): seq<byte>
    requires |record| >= HEADER_SIZE
  {
    record[..12] + Le(checksum, 4) + record[16..]
  }

  /** The sealed packet: its checksum covers the whole record with a zero in the checksum field. */
  function Sealed(kind: ChecksumKind, sequence: nat, timestamp: int64, payload: seq<byte>): (r: seq<byte>)
    ensures |r| == HEADER_SIZE + |payload|
  {
    var unsealed := HeaderBytes(NewHeader(kind, sequence, timestamp, |payload|)) + payload;
    Patched(unsealed, Value(Compute(kind, unsealed)))
  }

  method WriteHeader(record: array<byte>, sequence: nat, timestamp: int64, kind: ChecksumKind)
    requires record.Length >= HEADER_SIZE
    modifies record
    ensures record[..] == HeaderBytes(NewHeader(kind, sequence, timestamp, record.Length - HEADER_SIZE))
                          + old(record[HEADER_SIZE..])
  {
    var header := HeaderBytes(NewHeader(kind, sequence, timestamp, record.Length - HEADER_SIZE));
    Copy(record, 0, header);
    assert Overwritten(old(record[..]), 0, header) == header + old(record[..])[HEADER_SIZE..];
  }

  method PatchChecksum(record: array<byte>, checksum: Word32)
    requires record.Length >= HEADER_SIZE
    modifies record
    ensures record[..] == Patched(old(record[..]), Value(checksum))
  {
    var bytes := Le(Value(checksum), 4);
    Copy(record, 12, bytes);
    assert Overwritten(old(record[..]), 12, bytes) == Patched(old(record[..]), Value(checksum));
  }

  method SealPacket(record: array<byte>, sequence: nat, timestamp: int64, checksum: Checksum)
    requires record.Length >= HEADER_SIZE && checksum.Valid()
    modifies record
    ensures record[..] == Sealed(checksum.kind, sequence, timestamp, old(record[HEADER_SIZE..]))
  {
    WriteHeader(record, sequence, timestamp, checksum.kind);
    var state := checksum.Update(Begin(), record[..]);
    PatchChecksum(record, Finish(state));
  }

  // ------------------------------------------------------------ verification

  /** What the receiver hashes: the header with its checksum field cleared, then the payload. */
  function Hashed(record: seq<byte>): (r: seq<byte>)
    requires |record| >= HEADER_SIZE
    ensures |r| == |record|
  {
    HeaderBytes(ReadHeader(record).(checksum := 0)) + record[HEADER_SIZE..]
  }

  /** packet_checksum: the cleared header first, then the payload in place. */
  method PacketChecksum(record: seq<byte>, checksum: Checksum) returns (r: Word32)
    requires |record| >= HEADER_SIZE && checksum.Valid()
    ensures r == Compute(checksum.kind, Hashed(record))
  {
    var header := ReadHeader(record).(checksum := 0);
    var state := checksum.Update(Begin(), HeaderBytes(header));
    state := checksum.Update(state, record[HEADER_SIZE..]);
    ReferenceAdds(Polynomial(checksum.kind), Begin(), HeaderBytes(header), record[HEADER_SIZE..]);
    r := Finish(state);
  }

  lemma LeOfZero()
    ensures Le(0, 4) == [0, 0, 0, 0]
  {
    assert Le(0, 1) == [0] + Le(0, 0);
    assert Le(0, 2) == [0] + Le(0, 1);
    assert Le(0, 3) == [0] + Le(0, 2);
  }

  /** Clearing the field in the decoded header clears exactly bytes 12 to 15 of the record. */
  lemma HashedClearsField(record: seq<byte>)
    requires |record| >= HEADER_SIZE
    ensures Hashed(record) == record[..12] + [0, 0, 0, 0] + record[16..]
  {
    FieldsBeforeChecksum(record);
    FieldsAfterChecksum(record);
    LeOfZero();
    assert record[16..] == record[16..32] + record[32..];
  }

  lemma PatchSetsField(h: PacketHeader, payload: seq<byte>, v: nat)
    ensures Patched(HeaderBytes(h) + payload, v) == HeaderBytes(h.(checksum := v)) + payload
  {
    var r := HeaderBytes(h) + payload;
    assert r[..12] == BeforeChecksum(h) && r[16..] == AfterChecksum(h) + payload;
  }

  /** The receiver reads back what the sender wrote, and recomputes the checksum the sender stored. */
  lemma SealedReadsBack(kind: ChecksumKind, sequence: nat, timestamp: int64, payload: seq<byte>)
    requires sequence < TWO_64
    ensures var r := Sealed(kind, sequence, timestamp, payload);
      && ReadHeader(r) == NewHeader(kind, sequence, timestamp, |payload|).(checksum := ReadHeader(r).checksum)
      && r[HEADER_SIZE..] == payload
      && Value(Compute(kind, Hashed(r))) == ReadHeader(r).checksum
  {
    var h := NewHeader(kind, sequence, timestamp, |payload|);
    var unsealed := HeaderBytes(h) + payload;
    var v := Value(Compute(kind, unsealed));
    var sealed := h.(checksum := v);
    Pow2Of32();
    PatchSetsField(h, payload, v);
    ReadHeaderOfHeaderBytes(sealed, payload);
    assert sealed.(checksum := 0) == h;
    assert (HeaderBytes(sealed) + payload)[HEADER_SIZE..] == payload;
  }

  // ------------------------------------------------------------ corruption is detected

  lemma HashedKeepsDamage(r: seq<byte>, s: seq<byte>)
    requires |r| == |s| >= HEADER_SIZE && r != s && r[12..16] == s[12..16]
    ensures Hashed(r) != Hashed(s)
  {
    HashedClearsField(r);
    HashedClearsField(s);
    forall k | 12 <= k < 16
      ensures r[k] == s[k]
    {
      assert r[k] == r[12..16][k - 12];
    }
    var i :| 0 <= i < |r| && r[i] != s[i];
    assert Hashed(r)[i] == r[i] && Hashed(s)[i] == s[i];
  }

  lemma HashedKeepsBit(r: seq<byte>, s: seq<byte>, i: nat, k: nat, j: nat)
    requires |r| == |s| >= HEADER_SIZE && k < |r| && j < 8 && i == 8 * k + j
    requires MessageBits(r)[i] == MessageBits(s)[i]
    ensures |Hashed(r)| == |Hashed(s)| == |r| && MessageBits(Hashed(r))[i] == MessageBits(Hashed(s))[i]
  {
    HashedClearsField(r);
    HashedClearsField(s);
    var x, y := Hashed(r), Hashed(s);
    assert (x[k] == r[k] && y[k] == s[k]) || x[k] == y[k];
    MessageBitAt(x, i, k, j);
    MessageBitAt(y, i, k, j);
    MessageBitAt(r, i, k, j);
    MessageBitAt(s, i, k, j);
  }

  lemma HashedKeepsBurst(r: seq<byte>, s: seq<byte>, from: nat)
    requires |r| == |s| >= HEADER_SIZE && DifferWithinBurst(r, s, from)
    ensures |Hashed(r)| == |Hashed(s)| && DifferWithinBurst(Hashed(r), Hashed(s), from)
  {
    var x, y := MessageBits(Hashed(r)), MessageBits(Hashed(s));
    assert |x| == |y| == 8 * |r|;
    forall i | 0 <= i < |x| && !(from <= i < from + 32)
      ensures x[i] == y[i]
    {
      assert MessageBits(r)[i] == MessageBits(s)[i];
      HashedKeepsBit(r, s, i, i / 8, i % 8);
    }
  }

  /** Damage inside 32 consecutive bits that leaves the checksum field alone changes the recomputed checksum. */
  lemma BurstChangesChecksum(kind: ChecksumKind, r: seq<byte>, s: seq<byte>, from: nat)
    requires |r| == |s| >= HEADER_SIZE && r != s
    requires DifferWithinBurst(r, s, from) && r[12..16] == s[12..16]
    ensures Compute(kind, Hashed(r)) != Compute(kind, Hashed(s))
  {
    var x, y := Hashed(r), Hashed(s);
    HashedKeepsDamage(r, s);
    HashedKeepsBurst(r, s, from);
    BurstDetected(kind, Begin(), x, y, from);
    if Compute(kind, x) == Compute(kind, y) {
      FinishInjective(Reference(Polynomial(kind), Begin(), x), Reference(Polynomial(kind), Begin(), y));
      assert false;
    }
  }

  /** A packet damaged in transit within 32 consecutive bits, in the checksum field or away from it, fails its check. */
  lemma DamageDetected(kind: ChecksumKind, sequence: nat, timestamp: int64, payload: seq<byte>, s: seq<byte>, from: nat)
    requires sequence < TWO_64
    requires var r := Sealed(kind, sequence, timestamp, payload);
      && |s| == |r| && s != r && DifferWithinBurst(r, s, from)
      && (s[12..16] == r[12..16] || (s[..12] == r[..12] && s[16..] == r[16..]))
    ensures Value(Compute(kind, Hashed(s))) != ReadHeader(s).checksum
  {
    var r := Sealed(kind, sequence, timestamp, payload);
    SealedReadsBack(kind, sequence, timestamp, payload);
    if s[12..16] == r[12..16] {
      BurstChangesChecksum(kind, r, s, from);
      if Value(Compute(kind, Hashed(s))) == ReadHeader(s).checksum {
        ValueInjective(Compute(kind, Hashed(s)), Compute(kind, Hashed(r)));
        assert false;
      }
    } else {
      HashedClearsField(r);
      HashedClearsField(s);
      if ReadHeader(r).checksum == ReadHeader(s).checksum {
        FieldDetermines(r, s);
        assert false;
      }
    }
  }

  lemma FieldDetermines(r: seq<byte>, s: seq<byte>)
    requires |r| == |s| >= HEADER_SIZE && r[..12] == s[..12] && r[16..] == s[16..]
    requires ReadHeader(r).checksum == ReadHeader(s).checksum
    ensures r == s
  {
    LeOfFromLe(s[12..16]);
    LeOfFromLe(r[12..16]);
    assert s == s[..12] + s[12..16] + s[16..] && r == r[..12] + r[12..16] + r[16..];
  }
}
