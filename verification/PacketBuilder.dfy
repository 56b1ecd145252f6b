/** Assembling a packet in place, generating and hashing the payload chunk by chunk. */
module PacketBuilder {
  import opened Words
  import opened Crc
  import opened Packet
  import opened PayloadGenerator

  const CHUNK_BYTES: nat := 8192

  class PacketBuilder {
    const generator: PayloadGenerator
    const checksum: Checksum

    constructor (generator: PayloadGenerator, checksum: Checksum)
      ensures this.generator == generator && this.checksum == checksum
    {
      this.generator := generator;
      this.checksum := checksum;
    }

    /** The chunked build leaves exactly the packet that sealing the whole payload at once would. */
    method Build(record: array<byte>, sequence: nat, now: int64)
      requires record.Length >= HEADER_SIZE && checksum.Valid()
      modifies record, generator
      ensures var n := record.Length - HEADER_SIZE; var g := old(generator.state);
        && record[..] == Sealed(checksum.kind, sequence, now, g.Bytes(n))
        && generator.state == g.After(n)
    {
      WriteHeader(record, sequence, now, checksum.kind);
      ghost var base := record[..];
      var state := checksum.Update(Begin(), record[..HEADER_SIZE]);
      ghost var payload;
      state, payload := BuildPayload(record, record.Length - HEADER_SIZE, state);
      ghost var built := record[..];
      PatchChecksum(record, Finish(state));
      BuildIsSeal(checksum.kind, sequence, now, base, payload, built, state);
    }

    /** The chunk loop: the payload and the hash over header and payload. */
    method BuildPayload(record: array<byte>, n: nat, start: Word32) returns (state: Word32, ghost payload: seq<byte>)
      requires record.Length == HEADER_SIZE + n && checksum.Valid()
      requires start == Reference(Polynomial(checksum.kind), Begin(), record[..HEADER_SIZE])
      modifies record, generator
      ensures payload == old(generator.state).Bytes(n)
      ensures record[..] == Overwritten(old(record[..]), HEADER_SIZE, payload)
      ensures state == Reference(Polynomial(checksum.kind), Begin(), old(record[..])[..HEADER_SIZE] + payload)
      ensures generator.state == old(generator.state).After(n)
    {
      ghost var base, g := record[..], generator.state;
      state := start;
      var done := 0;
      ghost var blocks := 0;
      NothingBuilt(base, g);
      assert base[..HEADER_SIZE] == record[..HEADER_SIZE];
      while done < n
        invariant done <= n && (done == BLOCK_BYTES * blocks || done == n)
        invariant Building(record, base, g, done, state)
      {
        var size := if n - done < CHUNK_BYTES then n - done else CHUNK_BYTES;
        var next := done + size;
        state := BuildChunk(record, base, g, blocks, done, size, next, state);
        done, blocks := next, blocks + 128;
      }
      assert done == n;
      payload := g.Bytes(n);
    }

    /** The first `done` payload bytes are generated and hashed. */
    ghost predicate Building(record: array<byte>, base: seq<byte>, g: Generator, done: nat, state: Word32)
      reads record, generator
    {
      && checksum.Valid()
      && HEADER_SIZE + done <= record.Length == |base|
      && record[..] == Overwritten(base, HEADER_SIZE, g.Bytes(done))
      && state == Reference(Polynomial(checksum.kind), Begin(), base[..HEADER_SIZE] + g.Bytes(done))
      && generator.state == g.After(done)
    }

    /** Generates one chunk in place. */
    method FillChunk(record: array<byte>, lo: nat, size: nat) returns (chunk: seq<byte>)
      requires lo + size <= record.Length
      modifies record, generator
      ensures chunk == old(generator.state).Bytes(size) && generator.state == old(generator.state).After(size)
      ensures record[..] == Overwritten(old(record[..]), lo, chunk)
    {
      ghost var before, bytes := record[..], generator.state.Bytes(size);
      generator.Fill(record, lo, size);
      chunk := record[lo..lo + size];
      WrittenPiece(before, lo, bytes);
    }

    /** The body of the chunk loop: generate in place, then hash what was just written. */
    method BuildChunk(record: array<byte>, ghost base: seq<byte>, ghost g: Generator,
                      ghost blocks: nat, done: nat, size: nat, next: nat, state: Word32) returns (r: Word32)
      requires Building(record, base, g, done, state)
      requires next == done + size && HEADER_SIZE + next <= record.Length && done == BLOCK_BYTES * blocks
      modifies record, generator
      ensures Building(record, base, g, next, r)
    {
      ghost var current := record[..];
      var lo := HEADER_SIZE + done;
      var chunk := FillChunk(record, lo, size);
      r := checksum.Update(state, chunk);
      ChunksInvisible(g, done, blocks, size, next);
      PieceContinues(base, current, record[..], g.Bytes(done), g.Bytes(next), lo, chunk);
      HashContinues(Polynomial(checksum.kind), Begin(), base[..HEADER_SIZE], g.Bytes(done), g.Bytes(next), chunk);
    }
  }

  lemma BuildIsSeal(kind: ChecksumKind, sequence: nat, now: int64, base: seq<byte>, payload: seq<byte>,
                    built: seq<byte>, state: Word32)
    requires |base| == HEADER_SIZE + |payload| && built == Overwritten(base, HEADER_SIZE, payload)
    requires base[..HEADER_SIZE] == HeaderBytes(NewHeader(kind, sequence, now, |payload|))
    requires state == Reference(Polynomial(kind), Begin(), base[..HEADER_SIZE] + payload)
    ensures Patched(built, Value(Finish(state))) == Sealed(kind, sequence, now, payload)
  {
    BehindHeader(base, payload, built);
    assert Finish(state) == Compute(kind, built);
  }

  lemma BehindHeader(base: seq<byte>, payload: seq<byte>, built: seq<byte>)
    requires |base| == HEADER_SIZE + |payload| && built == Overwritten(base, HEADER_SIZE, payload)
    ensures built == base[..HEADER_SIZE] + payload
  {
  }

  lemma WrittenPiece(before: seq<byte>, lo: nat, bytes: seq<byte>)
    requires lo + |bytes| <= |before|
    ensures Overwritten(before, lo, bytes)[lo..lo + |bytes|] == bytes
  {
  }

  lemma NothingBuilt(base: seq<byte>, g: Generator)
    requires |base| >= HEADER_SIZE
    ensures Overwritten(base, HEADER_SIZE, g.Bytes(0)) == base
    ensures base[..HEADER_SIZE] + g.Bytes(0) == base[..HEADER_SIZE] && g.After(0) == g
  {
  }

  /** Writing a chunk right behind what is written continues the record. */
  lemma PieceContinues(base: seq<byte>, current: seq<byte>, after: seq<byte>,
                       sofar: seq<byte>, all: seq<byte>, lo: nat, chunk: seq<byte>)
    requires all == sofar + chunk && lo == HEADER_SIZE + |sofar| && lo + |chunk| <= |base|
    requires current == Overwritten(base, HEADER_SIZE, sofar) && after == Overwritten(current, lo, chunk)
    ensures after == Overwritten(base, HEADER_SIZE, all)
  {
    OverwrittenAdds(base, HEADER_SIZE, sofar, lo, chunk);
  }

  /** Hashing the next chunk continues the hash. */
  lemma HashContinues(p: Word32, c: Word32, header: seq<byte>, sofar: seq<byte>, all: seq<byte>, chunk: seq<byte>)
    requires all == sofar + chunk
    ensures Reference(p, Reference(p, c, header + sofar), chunk) == Reference(p, c, header + all)
  {
    ReferenceAdds(p, c, header + sofar, chunk);
    Regrouped(header, sofar, chunk);
  }

  lemma Regrouped(a: seq<byte>, b: seq<byte>, c: seq<byte>)
    ensures (a + b) + c == a + (b + c)
  {
  }
}
