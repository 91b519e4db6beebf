/**
 Names of snapshot objects in the object store (core/lib/object_store/src/objects.rs).
 All of them live in one bucket, so a snapshot is safe only if no two objects share a name.
 */
module ObjectKeys {

  predicate IsDigit(c: char) {
    '0' <= c <= '9'
  }

  predicate AllDigits(s: string) {
    forall i :: 0 <= i < |s| ==> IsDigit(s[i])
  }

  function Digit(d: nat): (c: char)
    requires d < 10
    ensures IsDigit(c) && c as int - '0' as int == d
  {
    ('0' as int + d) as char
  }

  // Decimal rendering of a number.
  function Decimal(n: nat): (s: string)
    ensures AllDigits(s) && s != []
    ensures Number(s) == n && (s[0] == '0' ==> n == 0)
  {
    if n < 10 then [Digit(n)]
    else
      var s := Decimal(n / 10) + [Digit(n % 10)];
      assert s[..|s| - 1] == Decimal(n / 10);
      s
  }

  // The number that a string of digits denotes.
  function Number(s: string): nat
    requires AllDigits(s)
  {
    if s == [] then 0
    else Number(s[..|s| - 1]) * 10 + (s[|s| - 1] as int - '0' as int)
  }

  // Left padding with zeros up to `width` characters.
  function ZeroPad(s: string, width: nat): string
    decreases width - |s|
  {
    if |s| >= width then s else ZeroPad("0" + s, width)
  }

  lemma {:induction false} ZeroPadKeepsNumber(s: string, width: nat)
    requires AllDigits(s)
    ensures AllDigits(ZeroPad(s, width)) && Number(ZeroPad(s, width)) == Number(s)
    decreases width - |s|
  {
    if |s| < width {
      LeadingZero(s);
      ZeroPadKeepsNumber("0" + s, width);
    }
  }

  /** A number is padded with zeros up to the width, and not cut if it is wider. */
  lemma {:induction false} ZeroPadShape(s: string, width: nat)
    ensures var padded := ZeroPad(s, width);
            && |padded| == (if |s| < width then width else |s|)
            && padded[|padded| - |s|..] == s
            && forall i :: 0 <= i < |padded| - |s| ==> padded[i] == '0'
    decreases width - |s|
  {
    if |s| < width {
      ZeroPadShape("0" + s, width);
      var padded := ZeroPad(s, width);
      var from := |padded| - |s| - 1;
      assert padded[from..] == "0" + s;
      assert padded[from] == '0' && padded[from + 1..] == padded[from..][1..];
    }
  }

  lemma {:induction false} LeadingZero(s: string)
    requires AllDigits(s)
    ensures AllDigits("0" + s) && Number("0" + s) == Number(s)
  {
    if s != [] {
      LeadingZero(s[..|s| - 1]);
      assert ("0" + s)[..|s|] == "0" + s[..|s| - 1];
    }
  }

  // Number of digits that a string starts with.
  function LeadingDigits(s: string): nat {
    if s == [] || !IsDigit(s[0]) then 0 else 1 + LeadingDigits(s[1..])
  }

  lemma {:induction false} LeadingDigitsOfRun(a: string, x: string)
    requires AllDigits(a)
    requires x != [] && !IsDigit(x[0])
    ensures LeadingDigits(a + x) == |a|
  {
    if a == [] {
      assert a + x == x;
    } else {
      LeadingDigitsOfRun(a[1..], x);
      assert (a + x)[1..] == a[1..] + x;
    }
  }

  // A run of digits ends at the first other character, so equal strings have equal runs.
  lemma DigitRunsAgree(a: string, x: string, b: string, y: string)
    requires AllDigits(a) && AllDigits(b)
    requires x != [] && !IsDigit(x[0]) && y != [] && !IsDigit(y[0])
    requires a + x == b + y
    ensures a == b && x == y
  {
    LeadingDigitsOfRun(a, x);
    LeadingDigitsOfRun(b, y);
    assert a == (a + x)[..|a|] && b == (b + y)[..|b|];
    assert x == (a + x)[|a|..] && y == (b + y)[|b|..];
  }

  const BATCH_PREFIX: string := "snapshot_l1_batch_"
  const CHUNK_INFIX: string := "_storage_logs_part_"
  const DEPS_SUFFIX: string := "_factory_deps.proto.gzip"
  const EXTENSION: string := ".proto.gzip"
  // Prefix of stored paths; the bucket of storage snapshots.
  const STORAGE_PREFIX: string := "storage_logs_snapshots/"

  function ChunkKey(batch: nat, chunkId: nat): string {
    BATCH_PREFIX + (Decimal(batch) + (CHUNK_INFIX + (ZeroPad(Decimal(chunkId), 4) + EXTENSION)))
  }

  function DepsKey(batch: nat): string {
    BATCH_PREFIX + (Decimal(batch) + DEPS_SUFFIX)
  }

  // Paths recorded in the snapshot metadata.
  function ChunkPath(batch: nat, chunkId: nat): string {
    STORAGE_PREFIX + ChunkKey(batch, chunkId)
  }

  function DepsPath(batch: nat): string {
    STORAGE_PREFIX + DepsKey(batch)
  }

  lemma SamePrefix(p: string, a: string, b: string)
    requires p + a == p + b
    ensures a == b
  {
    assert a == (p + a)[|p|..] && b == (p + b)[|p|..];
  }

  /** Chunk objects of different batches or chunk numbers never share a path, although the number is
      padded and neither number is bounded in length. */
  lemma ChunkPathsAreUnique(b: nat, i: nat, c: nat, j: nat)
    ensures ChunkPath(b, i) == ChunkPath(c, j) <==> b == c && i == j
  {
    if ChunkPath(b, i) == ChunkPath(c, j) {
      var p, q := ZeroPad(Decimal(i), 4), ZeroPad(Decimal(j), 4);
      SamePrefix(STORAGE_PREFIX, ChunkKey(b, i), ChunkKey(c, j));
      var x, y := CHUNK_INFIX + (p + EXTENSION), CHUNK_INFIX + (q + EXTENSION);
      SamePrefix(BATCH_PREFIX, Decimal(b) + x, Decimal(c) + y);
      DigitRunsAgree(Decimal(b), x, Decimal(c), y);
      SamePrefix(CHUNK_INFIX, p + EXTENSION, q + EXTENSION);
      ZeroPadKeepsNumber(Decimal(i), 4);
      ZeroPadKeepsNumber(Decimal(j), 4);
      DigitRunsAgree(p, EXTENSION, q, EXTENSION);
    }
  }

  /** The factory dependencies of a batch never share a path with a chunk or with another batch's. */
  lemma DepsPathsAreUnique(b: nat, c: nat, j: nat)
    ensures DepsPath(b) != ChunkPath(c, j)
    ensures DepsPath(b) == DepsPath(c) <==> b == c
  {
    var q := ZeroPad(Decimal(j), 4);
    assert DEPS_SUFFIX[1] != (CHUNK_INFIX + (q + EXTENSION))[1];
    if DepsPath(b) == ChunkPath(c, j) {
      SamePrefix(STORAGE_PREFIX, DepsKey(b), ChunkKey(c, j));
      SamePrefix(BATCH_PREFIX, Decimal(b) + DEPS_SUFFIX, Decimal(c) + (CHUNK_INFIX + (q + EXTENSION)));
      DigitRunsAgree(Decimal(b), DEPS_SUFFIX, Decimal(c), CHUNK_INFIX + (q + EXTENSION));
    }
    if DepsPath(b) == DepsPath(c) {
      SamePrefix(STORAGE_PREFIX, DepsKey(b), DepsKey(c));
      SamePrefix(BATCH_PREFIX, Decimal(b) + DEPS_SUFFIX, Decimal(c) + DEPS_SUFFIX);
      DigitRunsAgree(Decimal(b), DEPS_SUFFIX, Decimal(c), DEPS_SUFFIX);
    }
  }

  /** An example of a name. */
  lemma ChunkPathExample()
    ensures ChunkPath(42, 97)
            == "storage_logs_snapshots/" + "snapshot_l1_batch_42" + "_storage_logs_part_0097" + ".proto.gzip"
    ensures DepsPath(42) == "storage_logs_snapshots/" + "snapshot_l1_batch_42" + "_factory_deps.proto.gzip"
  {
    assert Decimal(4) == "4" && Decimal(9) == "9";
    assert Decimal(42) == "42" && Decimal(97) == "97";
    var number := Decimal(97);
    assert ZeroPad("00" + number, 4) == "00" + number;
    assert "0" + ("0" + number) == "00" + number;
    assert ZeroPad("0" + number, 4) == "00" + number;
    assert ZeroPad(number, 4) == "0097";
  }
}
