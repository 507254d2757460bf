/** Large values of the ledger: written as chunks, and read back in buffers of any size. */
module LedgerValues {

  const CHUNK_BYTES := 0x4_0000

  datatype Chunk = Chunk(position: nat, bytes: string)

  /** The rows of a value, in the order of their positions. `D` stands for the checksum. */
  datatype StoredValue<D> = StoredValue(size: nat, checksum: D, chunks: seq<Chunk>)

  datatype Outcome = Data(bytes: string) | End | Corrupt

  function Joined(chunks: seq<Chunk>): string {
    if chunks == [] then "" else Joined(chunks[..|chunks| - 1]) + chunks[|chunks| - 1].bytes
  }

  function ChunkSize(left: int): int {
    if left < CHUNK_BYTES then left else CHUNK_BYTES
  }

  /** Chunk `i` begins where the one before it ended, and is as long as it must be. */
  predicate Fits(size: nat, chunks: seq<Chunk>, i: nat)
    requires i < |chunks|
  {
    && chunks[i].position == |Joined(chunks[..i])|
    && 0 < |chunks[i].bytes| == ChunkSize(size - chunks[i].position)
  }

  /** What the writer leaves for `raw`. */
  ghost predicate Stores<D(!new)>(v: StoredValue<D>, raw: string, hash: string -> D) {
    && v.size == |raw| && v.checksum == hash(raw) && Joined(v.chunks) == raw
    && forall i | 0 <= i < |v.chunks| :: Fits(v.size, v.chunks, i)
  }

  lemma JoinedMore(chunks: seq<Chunk>, i: nat)
    requires i < |chunks|
    ensures Joined(chunks[..i + 1]) == Joined(chunks[..i]) + chunks[i].bytes
  {
    assert chunks[..i + 1][..i] == chunks[..i];
  }

  lemma FitsStill(size: nat, chunks: seq<Chunk>, more: seq<Chunk>, i: nat)
    requires i < |chunks| <= |more| && more[..|chunks|] == chunks && Fits(size, chunks, i)
    ensures Fits(size, more, i)
  {
    assert more[..i] == more[..|chunks|][..i] == chunks[..i] && more[i] == more[..|chunks|][i];
  }

  method Write<D(!new)>(raw: string, hash: string -> D) returns (v: StoredValue<D>)
    ensures Stores(v, raw, hash)
  {
    var chunks: seq<Chunk>, position := [], 0;
    while position < |raw|
      invariant 0 <= position <= |raw| && Joined(chunks) == raw[..position]
      invariant forall i | 0 <= i < |chunks| :: Fits(|raw|, chunks, i)
    {
      var end := position + ChunkSize(|raw| - position);
      var more := chunks + [Chunk(position, raw[position..end])];
      forall i | 0 <= i < |more| ensures Fits(|raw|, more, i) {
        assert more[..|chunks|] == chunks;
        if i < |chunks| {
          FitsStill(|raw|, chunks, more, i);
        }
      }
      assert more[..|more| - 1] == chunks && raw[..end] == raw[..position] + raw[position..end];
      chunks, position := more, end;
    }
    assert raw[..position] == raw;
    v := StoredValue(|raw|, hash(raw), chunks);
  }

  class ValueReader<D(==, !new)> {
    const value: StoredValue<D>
    const hash: string -> D
    var row: nat
    var position: nat
    var pending: string
    var done: bool
    // All bytes read so far from the rows, as the running hash has them.
    var hashed: string
    ghost var delivered: string

    ghost predicate Valid()
      reads this
    {
      && row <= |value.chunks| && position == |hashed|
      && hashed == Joined(value.chunks[..row]) == delivered + pending
      && (done ==> pending == "" && row == |value.chunks| && Intact())
    }

    /** The rows are complete and have the checksum. */
    ghost predicate Intact()
      reads this
    {
      |hashed| == value.size && hash(hashed) == value.checksum
    }

    constructor (value: StoredValue<D>, hash: string -> D)
      ensures Valid() && delivered == "" && this.value == value && this.hash == hash && row == 0 && !done
    {
      this.value, this.hash := value, hash;
      row, position, pending, done, hashed, delivered := 0, 0, "", false, "", "";
    }

    /** The next row does not continue the bytes so far, or they are all there with another checksum. */
    ghost predicate Broken()
      reads this
    {
      if row < |value.chunks| then !Fits(value.size, value.chunks, row)
      else |Joined(value.chunks)| != value.size || hash(Joined(value.chunks)) != value.checksum
    }

    /** Takes the next row, if there is one. */
    method Refill() returns (outcome: Outcome)
      requires Valid() && pending == ""
      modifies this`row, this`position, this`pending, this`hashed, this`done
      ensures Valid() && (outcome.Data? ==> pending != "") && (!outcome.Data? ==> pending == "" && row == old(row))
      ensures outcome.End? ==> done
      ensures outcome.Corrupt? ==> Broken()
    {
      assert value.chunks[..|value.chunks|] == value.chunks;
      if done {
        return End;
      }
      if row == |value.chunks| {
        if position != value.size || hash(hashed) != value.checksum {
          return Corrupt;
        }
        done := true;
        return End;
      }
      var chunk := value.chunks[row];
      if chunk.position != position || |chunk.bytes| == 0 || |chunk.bytes| != ChunkSize(value.size - position) {
        return Corrupt;
      }
      JoinedMore(value.chunks, row);
      pending, position, hashed, row := chunk.bytes, position + |chunk.bytes|, hashed + chunk.bytes, row + 1;
      outcome := Data("");
    }

    /** The next bytes, at most `n`. The end is reached only when all rows were there, in order, and have
        the checksum; and only rows that the writer did not leave like this are called corrupt. */
    method Read(n: nat) returns (outcome: Outcome)
      requires Valid() && n > 0
      modifies this
      ensures Valid() && delivered <= Joined(value.chunks)
      ensures outcome.Data? ==> 0 < |outcome.bytes| <= n && delivered == old(delivered) + outcome.bytes
      ensures !outcome.Data? ==> delivered == old(delivered)
      ensures outcome.End? ==> delivered == Joined(value.chunks) && |delivered| == value.size && hash(delivered) == value.checksum
      ensures outcome.Corrupt? ==> Broken()
    {
      hide Fits;
      outcome := Data("");
      if pending == "" {
        outcome := Refill();
      }
      JoinedPrefix(value.chunks, row);
      if !outcome.Data? {
        assert value.chunks[..|value.chunks|] == value.chunks;
        return;
      }
      var bytes := Deliver(n);
      outcome := Data(bytes);
    }

    method Deliver(n: nat) returns (bytes: string)
      requires Valid() && pending != "" && n > 0
      modifies this`delivered, this`pending
      ensures Valid() && 0 < |bytes| <= n && delivered == old(delivered) + bytes && delivered + pending == hashed
    {
      hide Fits;
      var size := if n < |pending| then n else |pending|;
      bytes := pending[..size];
      assert pending == pending[..size] + pending[size..];
      delivered, pending := delivered + pending[..size], pending[size..];
    }

    /** What the writer left is never called corrupt. */
    lemma StoredIsIntact(raw: string)
      requires Stores(value, raw, hash) && row <= |value.chunks|
      ensures !Broken()
    {
    }
  }

  lemma {:induction false} JoinedPrefix(chunks: seq<Chunk>, n: nat)
    requires n <= |chunks|
    ensures Joined(chunks[..n]) <= Joined(chunks)
    decreases |chunks| - n
  {
    if n < |chunks| {
      JoinedMore(chunks, n);
      JoinedPrefix(chunks, n + 1);
    } else {
      assert chunks[..n] == chunks;
    }
  }

  /** Whether a stored value has these bytes, whatever the size of the buffer. */
  method ValueEquals<D(==, !new)>(v: StoredValue<D>, content: string, hash: string -> D, raw: string, buffer: nat) returns (equal: bool)
    requires Stores(v, content, hash) && |content| == |raw| && buffer > 0
    ensures equal <==> content == raw
  {
    var reader := new ValueReader(v, hash);
    var position := 0;
    equal := true;
    while true
      invariant fresh(reader) && reader.Valid() && reader.value == v && reader.hash == hash
      invariant position == |reader.delivered| && reader.delivered <= content
      invariant equal <==> reader.delivered == raw[..position]
      decreases |content| - position
    {
      var outcome := reader.Read(buffer);
      reader.StoredIsIntact(content);
      match outcome {
        case Data(bytes) =>
          assert raw[..position + |bytes|] == raw[..position] + raw[position..position + |bytes|];
          if bytes != raw[position..position + |bytes|] {
            equal := false;
          }
          position := position + |bytes|;
        case End =>
          assert raw[..position] == raw;
          return;
        case Corrupt =>
          return;
      }
    }
  }
}
