/**
 Splitting of pubdata into EIP-4844 blobs (core/lib/basic_types/src/basic_fri_types.rs:19-96).
 */
module Eip4844Blobs {
  import opened Wrappers

  type byte = x: int | 0 <= x < 256

  const BLOB_CHUNK_SIZE: nat := 31
  // FIELD_ELEMENTS_PER_BLOB of EIP-4844.
  const ELEMENTS_PER_4844_BLOCK: nat := 4096
  const MAX_4844_BLOBS_PER_BLOCK: nat := 16
  const EIP_4844_BLOB_SIZE: nat := 126976

  // A literal keeps the arithmetic below linear; it is the product of the two factors.
  lemma BlobSizeIsProduct()
    ensures EIP_4844_BLOB_SIZE == BLOB_CHUNK_SIZE * ELEMENTS_PER_4844_BLOCK
  {
  }

  type Blob = seq<byte>
  datatype Result<+T> = Ok(value: T) | Err(received: nat)

  // Sixteen slots, as the source's array type demands.
  type Blobs = s: seq<Option<Blob>> | |s| == MAX_4844_BLOBS_PER_BLOCK
    witness seq(MAX_4844_BLOBS_PER_BLOCK, i => None)

  function Zeros(n: nat): seq<byte> {
    seq(n, i => 0)
  }

  // `slice.chunks(size)`: full chunks, then what is left.
  function Chunks(payload: seq<byte>): seq<Blob> {
    if payload == [] then []
    else if |payload| <= EIP_4844_BLOB_SIZE then [payload]
    else [payload[..EIP_4844_BLOB_SIZE]] + Chunks(payload[EIP_4844_BLOB_SIZE..])
  }

  // `blob.resize(size, 0)`
  function Resized(blob: Blob): Blob {
    if |blob| <= EIP_4844_BLOB_SIZE then blob + Zeros(EIP_4844_BLOB_SIZE - |blob|) else blob[..EIP_4844_BLOB_SIZE]
  }

  // The bytes of all present blobs, one after the other.
  function Encode(blobs: Blobs): seq<byte> {
    Concat(blobs, |blobs|)
  }

  function Concat(blobs: seq<Option<Blob>>, n: nat): seq<byte>
    requires n <= |blobs|
  {
    if n == 0 then [] else Concat(blobs, n - 1) + if blobs[n - 1].Some? then blobs[n - 1].value else []
  }

  // Number of blobs needed for a payload.
  function BlobCount(payload: seq<byte>): nat {
    (|payload| + EIP_4844_BLOB_SIZE - 1) / EIP_4844_BLOB_SIZE
  }

  function Padded(payload: seq<byte>): seq<byte> {
    payload + Zeros(BlobCount(payload) * EIP_4844_BLOB_SIZE - |payload|)
  }

  // Blob `i` of a padded payload.
  function Piece(padded: seq<byte>, i: nat): Blob
    requires (i + 1) * EIP_4844_BLOB_SIZE <= |padded|
  {
    padded[i * EIP_4844_BLOB_SIZE..(i + 1) * EIP_4844_BLOB_SIZE]
  }

  // What the source calls its invariants: full blobs without a gap.
  ghost predicate WellFormed(blobs: Blobs) {
    && (forall i :: 0 <= i < |blobs| && blobs[i].Some? ==> |blobs[i].value| == EIP_4844_BLOB_SIZE)
    && (forall i, j :: 0 <= i < j < |blobs| && blobs[j].Some? ==> blobs[i].Some?)
  }

  // ---------- Decoding ----------

  lemma {:induction false} ChunksOfPayload(payload: seq<byte>, i: nat)
    requires i < BlobCount(payload)
    ensures |Chunks(payload)| == BlobCount(payload)
    ensures var last := i == BlobCount(payload) - 1;
            && i * EIP_4844_BLOB_SIZE < |payload|
            && (!last ==> (i + 1) * EIP_4844_BLOB_SIZE < |payload|)
            && Chunks(payload)[i] ==
                 if last then payload[i * EIP_4844_BLOB_SIZE..]
                 else payload[i * EIP_4844_BLOB_SIZE..(i + 1) * EIP_4844_BLOB_SIZE]
    decreases |payload|
  {
    if |payload| > EIP_4844_BLOB_SIZE {
      var rest := payload[EIP_4844_BLOB_SIZE..];
      assert BlobCount(rest) == BlobCount(payload) - 1;
      ChunksOfPayload(rest, if i == 0 then 0 else i - 1);
    }
  }

  lemma PaddedLength(payload: seq<byte>)
    ensures |payload| <= BlobCount(payload) * EIP_4844_BLOB_SIZE < |payload| + EIP_4844_BLOB_SIZE
    ensures |Padded(payload)| == BlobCount(payload) * EIP_4844_BLOB_SIZE
    ensures BlobCount(Padded(payload)) == BlobCount(payload)
  {
  }

  // The chunks with the last one resized are the pieces of the padded payload.
  lemma {:induction false} ResizedChunkIsPiece(payload: seq<byte>, i: nat)
    requires i < BlobCount(payload)
    ensures |Chunks(payload)| == BlobCount(payload) && (i + 1) * EIP_4844_BLOB_SIZE <= |Padded(payload)|
    ensures var chunk := Chunks(payload)[i];
            (if i == BlobCount(payload) - 1 then Resized(chunk) else chunk) == Piece(Padded(payload), i)
  {
    ChunksOfPayload(payload, i);
    PaddedLength(payload);
  }

  // What decoding has to return: the padded payload in full pieces, unless it is above sixteen blob sizes.
  function Decoding(payload: seq<byte>): Result<Blobs> {
    if |payload| <= MAX_4844_BLOBS_PER_BLOCK * EIP_4844_BLOB_SIZE
    then Ok(Decoded(payload))
    else Err(BlobCount(payload))
  }

  /** Decoding fails exactly above sixteen blob sizes, with the number of blobs that it would take. Otherwise the padded
      payload is cut into full blobs, which fill the slots from the first one on. */
  method Decode(payload: seq<byte>) returns (r: Result<Blobs>)
    ensures r.Ok? <==> |payload| <= 16 * 126976
    ensures r.Err? ==> (r.received - 1) * 126976 < |payload| <= r.received * 126976
    ensures r == Decoding(payload)
  {
    if payload == [] {
      assert Decoded(payload) == seq(MAX_4844_BLOBS_PER_BLOCK, i => None);
      return Ok(seq(MAX_4844_BLOBS_PER_BLOCK, i => None));
    }
    var chunks := Chunks(payload);
    ChunksOfPayload(payload, 0);
    PaddedLength(payload);
    chunks := chunks[|chunks| - 1 := Resized(chunks[|chunks| - 1])];
    if |chunks| > MAX_4844_BLOBS_PER_BLOCK {
      return Err(|chunks|);
    }
    var slots: seq<Option<Blob>> := seq(MAX_4844_BLOBS_PER_BLOCK, i => None);
    for i := 0 to |chunks|
      invariant |slots| == MAX_4844_BLOBS_PER_BLOCK
      invariant forall j :: 0 <= j < i ==> slots[j] == Some(chunks[j])
      invariant forall j :: i <= j < |slots| ==> slots[j] == None
    {
      slots := slots[i := Some(chunks[i])];
    }
    forall i | 0 <= i < |chunks| ensures chunks[i] == Piece(Padded(payload), i) {
      ResizedChunkIsPiece(payload, i);
    }
    assert slots == Decoded(payload);
    r := Ok(slots);
  }

  // The pieces of the padded payload in the first slots.
  function Decoded(payload: seq<byte>): Blobs
    requires |payload| <= MAX_4844_BLOBS_PER_BLOCK * EIP_4844_BLOB_SIZE
  {
    PaddedLength(payload);
    seq(MAX_4844_BLOBS_PER_BLOCK, i requires 0 <= i =>
      if i < BlobCount(payload) then Some(Piece(Padded(payload), i)) else None)
  }

  /** What decoding returns is always well formed: a gapless run of full blobs. */
  lemma DecodedIsWellFormed(payload: seq<byte>)
    requires |payload| <= MAX_4844_BLOBS_PER_BLOCK * EIP_4844_BLOB_SIZE
    ensures WellFormed(Decoded(payload))
  {
    PaddedLength(payload);
  }

  // ---------- Round trips ----------

  lemma {:induction false} ConcatPieces(blobs: seq<Option<Blob>>, padded: seq<byte>, count: nat, n: nat)
    requires n <= |blobs| && |padded| == count * EIP_4844_BLOB_SIZE && count <= |blobs|
    requires forall i :: 0 <= i < |blobs| ==>
               blobs[i] == if i < count then Some(Piece(padded, i)) else None
    ensures Concat(blobs, n) == if n < count then padded[..n * EIP_4844_BLOB_SIZE] else padded
  {
    if n > 0 {
      ConcatPieces(blobs, padded, count, n - 1);
    }
  }

  /** Encoding what was decoded gives the payload back, followed by as few zeros as it takes to fill the last blob. */
  lemma EncodeAfterDecode(payload: seq<byte>)
    requires |payload| <= MAX_4844_BLOBS_PER_BLOCK * EIP_4844_BLOB_SIZE
    ensures Encode(Decoded(payload)) == Padded(payload)
    ensures var bytes := Encode(Decoded(payload));
            && payload <= bytes && |bytes| < |payload| + 126976 && |bytes| % 126976 == 0
            && forall i :: |payload| <= i < |bytes| ==> bytes[i] == 0
  {
    PaddedLength(payload);
    ConcatPieces(Decoded(payload), Padded(payload), BlobCount(payload), MAX_4844_BLOBS_PER_BLOCK);
  }

  // Number of present blobs.
  function Present(blobs: seq<Option<Blob>>, n: nat): nat
    requires n <= |blobs|
  {
    if n == 0 then 0 else Present(blobs, n - 1) + if blobs[n - 1].Some? then 1 else 0
  }

  lemma {:induction false} ConcatOfWellFormed(blobs: Blobs, n: nat, i: nat)
    requires WellFormed(blobs) && i < n <= |blobs|
    ensures Present(blobs, n) <= n && |Concat(blobs, n)| == Present(blobs, n) * EIP_4844_BLOB_SIZE
    ensures blobs[i].Some? <==> i < Present(blobs, n)
    ensures blobs[i].Some? ==> Concat(blobs, n)[i * EIP_4844_BLOB_SIZE..(i + 1) * EIP_4844_BLOB_SIZE] == blobs[i].value
  {
    if n > 1 {
      ConcatOfWellFormed(blobs, n - 1, if i < n - 1 then i else n - 2);
      PresentPrefix(blobs, n - 1);
    }
  }

  lemma {:induction false} PresentPrefix(blobs: Blobs, n: nat)
    requires WellFormed(blobs) && n < |blobs|
    ensures blobs[n].Some? ==> Present(blobs, n) == n
  {
    if n > 0 && blobs[n].Some? {
      PresentPrefix(blobs, n - 1);
    }
  }

  // Well-formed blobs never exceed the limit.
  lemma {:induction false} WellFormedFits(blobs: Blobs)
    requires WellFormed(blobs)
    ensures |Encode(blobs)| <= MAX_4844_BLOBS_PER_BLOCK * EIP_4844_BLOB_SIZE
    ensures BlobCount(Encode(blobs)) == Present(blobs, |blobs|) && Padded(Encode(blobs)) == Encode(blobs)
  {
    ConcatOfWellFormed(blobs, |blobs|, 0);
  }

  lemma WellFormedIsDecoded(blobs: Blobs)
    requires WellFormed(blobs)
    ensures Decoding(Encode(blobs)) == Ok(blobs)
  {
    var payload := Encode(blobs);
    WellFormedFits(blobs);
    forall i | 0 <= i < |blobs| ensures Decoded(payload)[i] == blobs[i] {
      ConcatOfWellFormed(blobs, |blobs|, i);
    }
    assert Decoded(payload) == blobs;
  }

  /** Decoding what was encoded gives the blobs back if and only if they are a gapless run of full blobs. */
  lemma DecodeAfterEncode(blobs: Blobs)
    ensures Decoding(Encode(blobs)) == Ok(blobs) <==> WellFormed(blobs)
  {
    var payload := Encode(blobs);
    if WellFormed(blobs) {
      WellFormedIsDecoded(blobs);
    } else if |payload| <= MAX_4844_BLOBS_PER_BLOCK * EIP_4844_BLOB_SIZE {
      DecodedIsWellFormed(payload);
    }
  }
}
