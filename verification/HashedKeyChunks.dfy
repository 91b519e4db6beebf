/**
 Splitting the 256-bit space of hashed storage keys into `chunkCount` ranges
 (core/lib/types/src/snapshots.rs). Machine integers are subset types, so that every
 multiplication and addition below carries the proof that it does not overflow.
 */
module HashedKeyChunks {

  const U64_MAX: int := 0xFFFF_FFFF_FFFF_FFFF
  const U256_MAX: int := 0xFFFF_FFFF_FFFF_FFFF_FFFF_FFFF_FFFF_FFFF_FFFF_FFFF_FFFF_FFFF_FFFF_FFFF_FFFF_FFFF

  type u64 = x: int | 0 <= x <= U64_MAX
  type u256 = x: int | 0 <= x <= U256_MAX

  // An inclusive range of hashed keys.
  datatype KeyRange = KeyRange(start: u256, end: u256) {
    predicate Contains(key: u256) {
      start <= key <= end
    }

    function Size(): int {
      end - start + 1
    }
  }

  // The addition of U256 values and whether it overflowed.
  function OverflowingAdd(a: u256, b: u256): (u256, bool) {
    if a + b <= U256_MAX then (a + b, false) else (a + b - U256_MAX - 1, true)
  }

  // The source panics unless `chunkId < chunkCount`.
  function UniformHashedKeysChunk(chunkId: u64, chunkCount: u64): KeyRange
    requires chunkId < chunkCount
  {
    QuotientFits(chunkCount);
    StartFits(chunkId, chunkCount);
    var whole: u256 := U256_MAX / chunkCount;
    var stride: u256 := if whole < U256_MAX then whole + 1 else whole;
    var strideMinusOne: u256 := if whole < U256_MAX then stride - 1 else stride;
    var start: u256 := stride * chunkId;
    var (sum, isOverflow) := OverflowingAdd(strideMinusOne, start);
    var end: u256 := if isOverflow then U256_MAX else sum;
    KeyRange(start, end)
  }

  lemma QuotientFits(n: u64)
    requires 0 < n
    ensures 0 <= U256_MAX / n <= U256_MAX
    ensures U256_MAX / n == U256_MAX <==> n == 1
    ensures n * (U256_MAX / n) <= U256_MAX < n * (U256_MAX / n) + n
  {
    var q := U256_MAX / n;
    assert U256_MAX == n * q + U256_MAX % n;
    if n >= 2 {
      assert q * 2 <= q * n;
    }
  }

  // A product of the stride with a chunk number stays within 256 bits, because the number of chunks
  // has only 64 bits.
  lemma StartFits(i: u64, n: u64)
    requires i < n
    ensures var q := U256_MAX / n;
            0 <= (if q < U256_MAX then q + 1 else q) * i <= U256_MAX
  {
    var q := U256_MAX / n;
    QuotientFits(n);
    if n == 1 {
      assert q * i == 0;
    } else {
      assert n <= q by {
        if q < n {
          assert n * (q + 1) <= n * n <= U64_MAX * U64_MAX by {
            MulMono(n, q + 1, n);
            MulMono(n, n, U64_MAX);
            MulMono(U64_MAX, n, U64_MAX);
          }
        }
      }
      MulMono(q + 1, i, n - 1);
      assert (q + 1) * (n - 1) == n * q - q + n - 1;
    }
  }

  lemma MulMono(a: int, b: int, c: int)
    requires 0 <= a && b <= c
    ensures a * b <= a * c
  {
  }

  // The common size of all chunks but the last one.
  function Stride(n: u64): int
    requires 0 < n
  {
    U256_MAX / n + 1
  }

  // Closed form of a chunk: multiples of the stride, the last chunk cut at the end of the space.
  lemma ChunkClosedForm(i: u64, n: u64)
    requires i < n
    ensures UniformHashedKeysChunk(i, n).start == Stride(n) * i
    ensures UniformHashedKeysChunk(i, n).end == if i == n - 1 then U256_MAX else Stride(n) * (i + 1) - 1
    ensures Stride(n) * (n - 1) <= U256_MAX < Stride(n) * n
  {
    var q := U256_MAX / n;
    QuotientFits(n);
    StartFits(i, n);
    StartFits(n - 1, n);
    assert (q + 1) * n == n * q + n;
    assert (q + 1) * (i + 1) == (q + 1) * i + (q + 1);
    assert (q + 1) * n == (q + 1) * (n - 1) + (q + 1);
    if i < n - 1 {
      MulMono(q + 1, i + 1, n - 1);
    }
  }

  // The chunk that a key falls into.
  function ChunkOf(key: u256, n: u64): (i: u64)
    requires 0 < n
    ensures i < n
  {
    DivisionBracket(key, n);
    key / Stride(n)
  }

  lemma DivisionBracket(key: u256, n: u64)
    requires 0 < n
    ensures 0 <= key / Stride(n) < n
    ensures Stride(n) * (key / Stride(n)) <= key < Stride(n) * (key / Stride(n) + 1)
  {
    var s := Stride(n);
    QuotientFits(n);
    var i := key / s;
    assert key == s * i + key % s;
    assert s * (i + 1) == s * i + s;
    assert i < n by {
      ChunkClosedForm(n - 1, n);
      if n <= i { MulMono(s, n, i); }
    }
    if i < 0 { MulMono(s, i + 1, 0); }
  }

  /** The chunks do not intersect and jointly cover the key space: each key lies in exactly one chunk. */
  lemma ChunksPartitionKeys(key: u256, i: u64, n: u64)
    requires i < n
    ensures UniformHashedKeysChunk(i, n).Contains(key) <==> i == ChunkOf(key, n)
  {
    var s := Stride(n);
    var c := ChunkOf(key, n);
    DivisionBracket(key, n);
    ChunkClosedForm(i, n);
    ChunkClosedForm(c, n);
    QuotientFits(n);
    if i < c {
      MulMono(s, i + 1, c);
    } else if c < i {
      MulMono(s, c + 1, i);
    }
  }

  /** Consecutive chunks touch, the first starts at zero and the last ends at the last key. */
  lemma ChunksAreContiguous(i: u64, n: u64)
    requires i < n
    ensures UniformHashedKeysChunk(0, n).start == 0
    ensures UniformHashedKeysChunk(n - 1, n).end == U256_MAX
    ensures i + 1 < n ==> UniformHashedKeysChunk(i, n).end + 1 == UniformHashedKeysChunk(i + 1, n).start
  {
    ChunkClosedForm(0, n);
    ChunkClosedForm(n - 1, n);
    ChunkClosedForm(i, n);
    if i + 1 < n {
      ChunkClosedForm(i + 1, n);
    }
  }

  /** Chunk sizes are equal except for the last chunk, which is smaller by less than the number of chunks. */
  lemma ChunkSizesAreUniform(i: u64, j: u64, n: u64)
    requires i <= j < n
    ensures var a, b := UniformHashedKeysChunk(i, n).Size(), UniformHashedKeysChunk(j, n).Size();
            0 < b <= a && a - b < n && (j < n - 1 ==> a == b)
  {
    var s := Stride(n);
    ChunkClosedForm(i, n);
    ChunkClosedForm(j, n);
    QuotientFits(n);
    assert s * (i + 1) == s * i + s;
    assert s * (j + 1) == s * j + s;
    assert s * n == n * (U256_MAX / n) + n;
    assert s * n == s * (n - 1) + s;
  }
}
