/**
 Job statistics of the circuit provers (core/lib/basic_types/src/basic_fri_types.rs:206-354).

 Rows of the job table become entries; entries are added up per protocol version and per circuit and round. All
 narrowing casts of the source are written out. The additions wrap at 64 bits, as a release build does.
 */
module ProverStats {
  import opened Wrappers

  const TWO_TO_THE_8: int := 0x100
  const TWO_TO_THE_16: int := 0x1_0000
  const TWO_TO_THE_32: int := 0x1_0000_0000
  const TWO_TO_THE_64: int := 0x1_0000_0000_0000_0000
  type u8 = x: int | 0 <= x < TWO_TO_THE_8
  type u32 = x: int | 0 <= x < TWO_TO_THE_32
  type usize = x: int | 0 <= x < TWO_TO_THE_64
  type i16 = x: int | -0x8000 <= x < 0x8000
  type i32 = x: int | -0x8000_0000 <= x < 0x8000_0000
  type i64 = x: int | -0x8000_0000_0000_0000 <= x < 0x8000_0000_0000_0000

  // Version0 to Version25
  const LAST_PROTOCOL_VERSION: int := 25
  type ProtocolVersionId = x: int | 0 <= x <= LAST_PROTOCOL_VERSION

  datatype Version = Version(minor: ProtocolVersionId, patch: u32)
  datatype Key = Key(circuitId: u8, aggregationRound: u8)

  datatype Status = Queued | InProgress
  datatype Jobs = Jobs(queued: usize, inProgress: usize) {
    function Of(status: Status): usize {
      if status == Queued then queued else inProgress
    }

    function Plus(other: Jobs): Jobs {
      Jobs((queued + other.queued) % TWO_TO_THE_64, (inProgress + other.inProgress) % TWO_TO_THE_64)
    }
  }

  const NO_JOBS := Jobs(0, 0)

  datatype Entry = Entry(key: Key, version: Version, jobs: Jobs)
  type Stats = map<Key, Jobs>

  // ---------- Entries from table rows ----------

  datatype Row = Row(circuitId: i16, aggregationRound: i16, protocolVersion: i32, patch: i32,
                     status: string, count: i64)

  // The source panics where this is None: on an unknown status or protocol version.
  function NewEntry(row: Row): Option<Entry> {
    var minor := row.protocolVersion % TWO_TO_THE_16;
    var count: usize := row.count % TWO_TO_THE_64;
    if row.status !in {"queued", "in_progress"} || minor > LAST_PROTOCOL_VERSION then None
    else
      Some(Entry(
             Key(if row.aggregationRound == 2 then 2 else row.circuitId % TWO_TO_THE_8,
                 row.aggregationRound % TWO_TO_THE_8),
             Version(minor, row.patch % TWO_TO_THE_32),
             if row.status == "queued" then Jobs(count, 0) else Jobs(0, count)))
  }

  function StatusName(status: Status): string {
    if status == Queued then "queued" else "in_progress"
  }

  // ---------- Aggregation ----------

  predicate IsDefaultKey(key: Key) {
    match key.aggregationRound
    case 0 => 1 <= key.circuitId <= 15 || key.circuitId == 255
    case 1 => 3 <= key.circuitId <= 18
    case 2 => key.circuitId == 2
    case 3 => key.circuitId == 255
    case 4 => key.circuitId == 1
    case _ => false
  }

  function DefaultKeys(): set<Key> {
    set c: u8, r: u8 | 0 <= c < TWO_TO_THE_8 && 0 <= r < TWO_TO_THE_8 && IsDefaultKey(Key(c, r)) :: Key(c, r)
  }

  lemma DefaultKeysAre(key: Key)
    ensures key in DefaultKeys() <==> IsDefaultKey(key)
  {
    assert key == Key(key.circuitId, key.aggregationRound);
  }

  // The keys of some circuits in one round.
  function Circuits(round: u8, first: u8, last: u8): set<Key> {
    set c: u8 | first <= c <= last :: Key(c, round)
  }

  lemma {:induction false} CircuitsCount(round: u8, first: u8, last: u8)
    requires first <= last
    ensures |Circuits(round, first, last)| == last as int - first as int + 1
    decreases last
  {
    if first == last {
      assert Circuits(round, first, last) == {Key(first, round)};
    } else {
      CircuitsCount(round, first, last - 1);
      assert Circuits(round, first, last) == Circuits(round, first, last - 1) + {Key(last, round)};
    }
  }

  const SINGLE_KEYS: set<Key> := {Key(255, 0), Key(2, 2), Key(255, 3), Key(1, 4)}

  lemma SingleKeysCount()
    ensures |SINGLE_KEYS| == 4
  {
  }

  lemma DisjointCount(a: set<Key>, b: set<Key>, c: set<Key>)
    requires a !! b && a !! c && b !! c
    ensures |a + b + c| == |a| + |b| + |c|
  {
    assert a + b !! c;
  }

  // The keys of the first rounds, and those that are on their own.
  lemma DefaultKeysUnion()
    ensures DefaultKeys() == Circuits(0, 1, 15) + Circuits(1, 3, 18) + SINGLE_KEYS
  {
    forall key: Key ensures key in DefaultKeys() <==> key in Circuits(0, 1, 15) + Circuits(1, 3, 18) + SINGLE_KEYS {
      DefaultKeysAre(key);
    }
  }

  /** By default there are 35 keys: fifteen basic circuits and the extra one, sixteen leaf circuits, and one circuit in
      each of the three rounds after them. */
  lemma DefaultKeysCount()
    ensures |DefaultKeys()| == 35
  {
    DefaultKeysUnion();
    var basic, leaf := Circuits(0, 1, 15), Circuits(1, 3, 18);
    CircuitsCount(0, 1, 15);
    CircuitsCount(1, 3, 18);
    assert basic !! leaf && basic !! SINGLE_KEYS && leaf !! SINGLE_KEYS;
    DisjointCount(basic, leaf, SINGLE_KEYS);
    SingleKeysCount();
  }

  function DefaultStats(): Stats {
    map key | key in DefaultKeys() :: NO_JOBS
  }

  function Added(stats: Stats, key: Key, jobs: Jobs): Stats {
    stats[key := (if key in stats then stats[key] else NO_JOBS).Plus(jobs)]
  }

  function Aggregated(mapping: map<Version, Stats>, entry: Entry): map<Version, Stats> {
    var stats := if entry.version in mapping then mapping[entry.version] else DefaultStats();
    mapping[entry.version := Added(stats, entry.key, entry.jobs)]
  }

  function Aggregate(entries: seq<Entry>): map<Version, Stats> {
    if entries == [] then map[] else Aggregated(Aggregate(entries[..|entries| - 1]), entries[|entries| - 1])
  }

  class CircuitProverStats {
    var stats: Stats

    constructor ()
      ensures stats == DefaultStats()
    {
      stats := map[];
      new;
      for circuit := 1 to 16
        invariant forall k :: k in stats <==> k.aggregationRound == 0 && 1 <= k.circuitId < circuit
        invariant forall k :: k in stats ==> stats[k] == NO_JOBS
      {
        stats := stats[Key(circuit, 0) := NO_JOBS];
      }
      stats := stats[Key(255, 0) := NO_JOBS];
      for circuit := 3 to 19
        invariant forall k :: k in stats <==>
                              || (k.aggregationRound == 0 && IsDefaultKey(k))
                              || (k.aggregationRound == 1 && 3 <= k.circuitId < circuit)
        invariant forall k :: k in stats ==> stats[k] == NO_JOBS
      {
        stats := stats[Key(circuit, 1) := NO_JOBS];
      }
      stats := stats[Key(2, 2) := NO_JOBS];
      stats := stats[Key(255, 3) := NO_JOBS];
      stats := stats[Key(1, 4) := NO_JOBS];
      forall key: Key ensures key in stats <==> key in DefaultKeys() {
        DefaultKeysAre(key);
      }
    }

    method Add(key: Key, jobs: Jobs)
      modifies this
      ensures stats == Added(old(stats), key, jobs)
    {
      if key !in stats {
        stats := stats[key := NO_JOBS];
      }
      stats := stats[key := stats[key].(queued := (stats[key].queued + jobs.queued) % TWO_TO_THE_64)];
      stats := stats[key := stats[key].(inProgress := (stats[key].inProgress + jobs.inProgress) % TWO_TO_THE_64)];
    }
  }

  /** Collecting entries gives one statistics object per version seen, each with the aggregated numbers. */
  method FromEntries(entries: seq<Entry>) returns (mapping: map<Version, CircuitProverStats>)
    ensures forall v :: v in mapping ==> fresh(mapping[v])
    ensures forall v, w :: v in mapping && w in mapping && v != w ==> mapping[v] != mapping[w]
    ensures mapping.Keys == Aggregate(entries).Keys
    ensures forall v :: v in mapping ==> mapping[v].stats == Aggregate(entries)[v]
  {
    mapping := map[];
    for i := 0 to |entries|
      invariant forall v :: v in mapping ==> fresh(mapping[v])
      invariant forall v, w :: v in mapping && w in mapping && v != w ==> mapping[v] != mapping[w]
      invariant mapping.Keys == Aggregate(entries[..i]).Keys
      invariant forall v :: v in mapping ==> mapping[v].stats == Aggregate(entries[..i])[v]
    {
      var entry := entries[i];
      assert entries[..i + 1][..i] == entries[..i];
      if entry.version !in mapping {
        var stats := new CircuitProverStats();
        mapping := mapping[entry.version := stats];
      }
      mapping[entry.version].Add(entry.key, entry.jobs);
    }
    assert entries[..|entries|] == entries;
  }

  // ---------- What the aggregate means ----------

  datatype Cell = Cell(version: Version, key: Key)

  function CellOf(entry: Entry): Cell {
    Cell(entry.version, entry.key)
  }

  // Exact number of jobs with a status among the entries of one version and key.
  function JobsIn(entries: seq<Entry>, cell: Cell, status: Status): nat {
    if entries == [] then 0
    else
      var last := entries[|entries| - 1];
      JobsIn(entries[..|entries| - 1], cell, status) + if CellOf(last) == cell then last.jobs.Of(status) else 0
  }

  function AllJobs(entries: seq<Entry>, status: Status): nat {
    if entries == [] then 0
    else AllJobs(entries[..|entries| - 1], status) + entries[|entries| - 1].jobs.Of(status)
  }

  ghost predicate Seen(entries: seq<Entry>, version: Version) {
    exists i :: 0 <= i < |entries| && entries[i].version == version
  }

  ghost predicate SeenIn(entries: seq<Entry>, cell: Cell) {
    exists i :: 0 <= i < |entries| && CellOf(entries[i]) == cell
  }

  lemma SeenLast(entries: seq<Entry>, cell: Cell)
    requires entries != []
    ensures var last := entries[|entries| - 1];
            var before := entries[..|entries| - 1];
            && (Seen(entries, cell.version) <==> Seen(before, cell.version) || last.version == cell.version)
            && (SeenIn(entries, cell) <==> SeenIn(before, cell) || CellOf(last) == cell)
  {
    var last := entries[|entries| - 1];
    var before := entries[..|entries| - 1];
    assert entries == before + [last];
    assert Seen(before, cell.version) || last.version == cell.version ==> Seen(entries, cell.version);
    assert SeenIn(before, cell) || CellOf(last) == cell ==> SeenIn(entries, cell);
  }

  // What an aggregate holds in a cell.
  function CountAt(mapping: map<Version, Stats>, cell: Cell, status: Status): nat {
    if cell.version in mapping && cell.key in mapping[cell.version]
    then mapping[cell.version][cell.key].Of(status)
    else 0
  }

  // Equal as 64-bit numbers.
  predicate Congruent(a: nat, b: nat) {
    a % TWO_TO_THE_64 == b % TWO_TO_THE_64
  }

  lemma SumsAreCongruent(a: nat, b: nat, c: nat, d: nat)
    requires Congruent(a, c) && Congruent(b, d)
    ensures Congruent(a + b, c + d)
  {
    var shift := a / TWO_TO_THE_64 - c / TWO_TO_THE_64 + b / TWO_TO_THE_64 - d / TWO_TO_THE_64;
    assert a + b == c + d + TWO_TO_THE_64 * shift;
    RemainderIs(a + b, (c + d) / TWO_TO_THE_64 + shift, (c + d) % TWO_TO_THE_64);
  }

  lemma RemainderIs(x: int, quotient: int, remainder: usize)
    requires x == TWO_TO_THE_64 * quotient + remainder
    ensures x % TWO_TO_THE_64 == remainder
  {
  }

  lemma {:induction false} AggregateHas(entries: seq<Entry>, cell: Cell)
    ensures cell.version in Aggregate(entries) <==> Seen(entries, cell.version)
    ensures cell.version in Aggregate(entries) ==>
              (cell.key in Aggregate(entries)[cell.version] <==> IsDefaultKey(cell.key) || SeenIn(entries, cell))
  {
    DefaultKeysAre(cell.key);
    if entries != [] {
      AggregateHas(entries[..|entries| - 1], cell);
      SeenLast(entries, cell);
    }
  }

  lemma CountAfter(mapping: map<Version, Stats>, entry: Entry, cell: Cell, status: Status)
    ensures CountAt(Aggregated(mapping, entry), cell, status) ==
            if CellOf(entry) == cell
            then (CountAt(mapping, cell, status) + entry.jobs.Of(status)) % TWO_TO_THE_64
            else CountAt(mapping, cell, status)
  {
  }

  lemma {:induction false} AggregateCounts(entries: seq<Entry>, cell: Cell, status: Status)
    ensures CountAt(Aggregate(entries), cell, status) == JobsIn(entries, cell, status) % TWO_TO_THE_64
  {
    if entries != [] {
      var before, last := entries[..|entries| - 1], entries[|entries| - 1];
      AggregateCounts(before, cell, status);
      CountAfter(Aggregate(before), last, cell, status);
      SumsAreCongruent(CountAt(Aggregate(before), cell, status), last.jobs.Of(status),
               JobsIn(before, cell, status), last.jobs.Of(status));
    }
  }

  /** A version is present exactly if an entry has it. Its keys are the default ones and those of its entries, and
      each count is the sum over the matching entries. */
  lemma {:induction false} AggregateIsSum(entries: seq<Entry>, cell: Cell, status: Status)
    ensures cell.version in Aggregate(entries) <==> Seen(entries, cell.version)
    ensures cell.version in Aggregate(entries) ==>
              (cell.key in Aggregate(entries)[cell.version] <==> IsDefaultKey(cell.key) || SeenIn(entries, cell))
    ensures CountAt(Aggregate(entries), cell, status) == JobsIn(entries, cell, status) % TWO_TO_THE_64
  {
    AggregateHas(entries, cell);
    AggregateCounts(entries, cell, status);
  }

  // ---------- Conservation ----------

  ghost function SumOver(cells: set<Cell>, f: Cell -> nat): nat {
    if cells == {} then 0
    else
      var cell :| cell in cells;
      f(cell) + SumOver(cells - {cell}, f)
  }

  lemma {:induction false} SumSplits(cells: set<Cell>, cell: Cell, f: Cell -> nat)
    requires cell in cells
    ensures SumOver(cells, f) == f(cell) + SumOver(cells - {cell}, f)
  {
    var first :| first in cells && SumOver(cells, f) == f(first) + SumOver(cells - {first}, f);
    if first != cell {
      SumSplits(cells - {first}, cell, f);
      assert cells - {first} - {cell} == cells - {cell} - {first};
      SumSplits(cells - {cell}, first, f);
    }
  }

  lemma {:induction false} SameSums(cells: set<Cell>, f: Cell -> nat, g: Cell -> nat)
    requires forall cell :: cell in cells ==> f(cell) == g(cell)
    ensures SumOver(cells, f) == SumOver(cells, g)
  {
    if cells != {} {
      var cell :| cell in cells;
      SumSplits(cells, cell, f);
      SumSplits(cells, cell, g);
      SameSums(cells - {cell}, f, g);
    }
  }

  lemma {:induction false} CongruentSums(cells: set<Cell>, f: Cell -> nat, g: Cell -> nat)
    requires forall cell :: cell in cells ==> Congruent(f(cell), g(cell))
    ensures Congruent(SumOver(cells, f), SumOver(cells, g))
  {
    if cells != {} {
      var cell :| cell in cells;
      SumSplits(cells, cell, f);
      SumSplits(cells, cell, g);
      CongruentSums(cells - {cell}, f, g);
      SumsAreCongruent(f(cell), SumOver(cells - {cell}, f), g(cell), SumOver(cells - {cell}, g));
    }
  }

  lemma {:induction false} SumOfNothing(cells: set<Cell>, f: Cell -> nat)
    requires forall cell :: cell in cells ==> f(cell) == 0
    ensures SumOver(cells, f) == 0
  {
    if cells != {} {
      var cell :| cell in cells;
      SumSplits(cells, cell, f);
      SumOfNothing(cells - {cell}, f);
    }
  }

  // Jobs by cell, in a list of entries and in an aggregate.
  function Listed(entries: seq<Entry>, status: Status): Cell -> nat {
    cell => JobsIn(entries, cell, status)
  }

  function Held(mapping: map<Version, Stats>, status: Status): Cell -> nat {
    cell => CountAt(mapping, cell, status)
  }

  lemma {:induction false} ListedJobsAreAllJobs(cells: set<Cell>, entries: seq<Entry>, status: Status)
    requires forall i :: 0 <= i < |entries| ==> CellOf(entries[i]) in cells
    ensures SumOver(cells, Listed(entries, status)) == AllJobs(entries, status)
  {
    if entries == [] {
      SumOfNothing(cells, Listed(entries, status));
    } else {
      var before := entries[..|entries| - 1];
      var cell := CellOf(entries[|entries| - 1]);
      ListedJobsAreAllJobs(cells, before, status);
      SumSplits(cells, cell, Listed(entries, status));
      SumSplits(cells, cell, Listed(before, status));
      SameSums(cells - {cell}, Listed(entries, status), Listed(before, status));
    }
  }

  // All cells of an aggregate.
  ghost function Cells(mapping: map<Version, Stats>): set<Cell> {
    set v, k | v in mapping && k in mapping[v] :: Cell(v, k)
  }

  /** No job is lost or counted twice: all cells of the aggregate together hold all jobs of all entries. */
  lemma {:induction false} JobsAreConserved(entries: seq<Entry>, status: Status)
    ensures var mapping := Aggregate(entries);
            Congruent(SumOver(Cells(mapping), Held(mapping, status)), AllJobs(entries, status))
  {
    var mapping := Aggregate(entries);
    forall i | 0 <= i < |entries| ensures CellOf(entries[i]) in Cells(mapping) {
      AggregateHas(entries, CellOf(entries[i]));
    }
    forall cell: Cell ensures Congruent(Held(mapping, status)(cell), Listed(entries, status)(cell)) {
      AggregateCounts(entries, cell, status);
    }
    CongruentSums(Cells(mapping), Held(mapping, status), Listed(entries, status));
    ListedJobsAreAllJobs(Cells(mapping), entries, status);
  }

  // ---------- Independence of the order ----------

  lemma {:induction false} JobsInConcat(a: seq<Entry>, b: seq<Entry>, cell: Cell, status: Status)
    ensures JobsIn(a + b, cell, status) == JobsIn(a, cell, status) + JobsIn(b, cell, status)
  {
    if b == [] {
      assert a + b == a;
    } else {
      JobsInConcat(a, b[..|b| - 1], cell, status);
      assert (a + b)[..|a + b| - 1] == a + b[..|b| - 1];
    }
  }

  lemma {:induction false} JobsInWithout(entries: seq<Entry>, i: nat, cell: Cell, status: Status)
    requires i < |entries|
    ensures JobsIn(entries, cell, status) == JobsIn(entries[..i] + entries[i + 1..], cell, status)
                                             + JobsIn([entries[i]], cell, status)
  {
    var before, after := entries[..i], entries[i + 1..];
    assert entries == before + ([entries[i]] + after);
    JobsInConcat(before, [entries[i]] + after, cell, status);
    JobsInConcat([entries[i]], after, cell, status);
    JobsInConcat(before, after, cell, status);
  }

  lemma MultisetWithout(entries: seq<Entry>, i: nat)
    requires i < |entries|
    ensures multiset(entries[..i] + entries[i + 1..]) == multiset(entries) - multiset{entries[i]}
  {
    assert entries == entries[..i] + [entries[i]] + entries[i + 1..];
  }

  lemma {:induction false} JobsInOfPermutation(a: seq<Entry>, b: seq<Entry>, cell: Cell, status: Status)
    requires multiset(a) == multiset(b)
    ensures JobsIn(a, cell, status) == JobsIn(b, cell, status)
  {
    if a == [] {
      assert |multiset(b)| == |b|;
    } else {
      assert a[0] in multiset(b);
      var i :| 0 <= i < |b| && b[i] == a[0];
      MultisetWithout(a, 0);
      MultisetWithout(b, i);
      JobsInWithout(a, 0, cell, status);
      JobsInWithout(b, i, cell, status);
      JobsInOfPermutation(a[..0] + a[1..], b[..i] + b[i + 1..], cell, status);
    }
  }

  lemma SeenInPermutation(a: seq<Entry>, b: seq<Entry>, cell: Cell)
    requires multiset(a) == multiset(b)
    ensures Seen(a, cell.version) ==> Seen(b, cell.version)
    ensures SeenIn(a, cell) ==> SeenIn(b, cell)
  {
    forall i | 0 <= i < |a| ensures a[i] in b {
      assert a[i] in multiset(a);
    }
  }

  /** The statistics do not depend on the order of the entries. */
  lemma {:induction false} OrderDoesNotMatter(a: seq<Entry>, b: seq<Entry>)
    requires multiset(a) == multiset(b)
    ensures Aggregate(a) == Aggregate(b)
  {
    forall v, k
      ensures v in Aggregate(a) <==> v in Aggregate(b)
      ensures v in Aggregate(a) ==>
                && (k in Aggregate(a)[v] <==> k in Aggregate(b)[v])
                && (k in Aggregate(a)[v] ==> Aggregate(a)[v][k] == Aggregate(b)[v][k])
    {
      SameCell(a, b, Cell(v, k));
    }
    forall v | v in Aggregate(a) ensures Aggregate(a)[v] == Aggregate(b)[v] {
    }
  }

  lemma {:induction false} SameCell(a: seq<Entry>, b: seq<Entry>, cell: Cell)
    requires multiset(a) == multiset(b)
    ensures cell.version in Aggregate(a) <==> cell.version in Aggregate(b)
    ensures cell.version in Aggregate(a) ==>
              var x, y := Aggregate(a)[cell.version], Aggregate(b)[cell.version];
              && (cell.key in x <==> cell.key in y)
              && (cell.key in x ==> x[cell.key] == y[cell.key])
  {
    SeenInPermutation(a, b, cell);
    SeenInPermutation(b, a, cell);
    AggregateHas(a, cell);
    AggregateHas(b, cell);
    forall status: Status ensures JobsIn(a, cell, status) == JobsIn(b, cell, status) {
      JobsInOfPermutation(a, b, cell, status);
    }
    AggregateCounts(a, cell, Queued);
    AggregateCounts(a, cell, InProgress);
    AggregateCounts(b, cell, Queued);
    AggregateCounts(b, cell, InProgress);
  }

  // ---------- From the job table to the statistics ----------

  function NewEntries(rows: seq<Row>): Option<seq<Entry>> {
    if rows == [] then Some([])
    else
      var before, last := NewEntries(rows[..|rows| - 1]), NewEntry(rows[|rows| - 1]);
      if before.None? || last.None? then None else Some(before.value + [last.value])
  }

  predicate Known(row: Row) {
    row.status in {"queued", "in_progress"} && row.protocolVersion % 0x1_0000 <= 25
  }

  // Jobs of a row that are counted in a cell: those of round 2 under circuit 2, whatever their own circuit is. All
  // numbers are compared after the casts.
  function RowJobs(row: Row, cell: Cell, status: Status): usize {
    var here := && row.protocolVersion % TWO_TO_THE_16 == cell.version.minor
                && row.patch % TWO_TO_THE_32 == cell.version.patch
                && row.aggregationRound % TWO_TO_THE_8 == cell.key.aggregationRound
                && cell.key.circuitId == if row.aggregationRound == 2 then 2 else row.circuitId % TWO_TO_THE_8;
    if here && row.status == StatusName(status) then row.count % TWO_TO_THE_64 else 0
  }

  function TableJobs(rows: seq<Row>, cell: Cell, status: Status): nat {
    if rows == [] then 0 else TableJobs(rows[..|rows| - 1], cell, status) + RowJobs(rows[|rows| - 1], cell, status)
  }

  lemma RowIsCounted(row: Row, cell: Cell, status: Status)
    ensures NewEntry(row).Some? <==> Known(row)
    ensures NewEntry(row).Some? ==>
              var entry := NewEntry(row).value;
              RowJobs(row, cell, status) == if CellOf(entry) == cell then entry.jobs.Of(status) else 0
  {
  }

  lemma {:induction false} RowsAreKnown(rows: seq<Row>)
    ensures NewEntries(rows).Some? <==> forall i :: 0 <= i < |rows| ==> Known(rows[i])
  {
    if rows != [] {
      var before, last := rows[..|rows| - 1], rows[|rows| - 1];
      RowsAreKnown(before);
      assert NewEntry(last).Some? <==> Known(last);
      assert rows == before + [last];
    }
  }

  lemma {:induction false} RowsAreCounted(rows: seq<Row>, cell: Cell, status: Status)
    requires NewEntries(rows).Some?
    ensures JobsIn(NewEntries(rows).value, cell, status) == TableJobs(rows, cell, status)
  {
    if rows != [] {
      var before, last := rows[..|rows| - 1], rows[|rows| - 1];
      RowsAreCounted(before, cell, status);
      RowIsCounted(last, cell, status);
      var entries := NewEntries(rows).value;
      assert entries[..|entries| - 1] == NewEntries(before).value;
    }
  }

  /** For all rows, collecting fails exactly on an unknown status or version, and otherwise the statistics count every
      row once: under its version and round, and under circuit 2 in round 2 and its own circuit in all others. */
  lemma {:induction false} StatisticsMatchTable(rows: seq<Row>, cell: Cell, status: Status)
    ensures NewEntries(rows).Some? <==> forall i :: 0 <= i < |rows| ==> Known(rows[i])
    ensures NewEntries(rows).Some? ==>
              CountAt(Aggregate(NewEntries(rows).value), cell, status) == TableJobs(rows, cell, status) % TWO_TO_THE_64
  {
    RowsAreKnown(rows);
    if NewEntries(rows).Some? {
      EntriesAreCounted(NewEntries(rows).value, rows, cell, status);
    }
  }

  lemma {:induction false} EntriesAreCounted(entries: seq<Entry>, rows: seq<Row>, cell: Cell, status: Status)
    requires NewEntries(rows) == Some(entries)
    ensures CountAt(Aggregate(entries), cell, status) == TableJobs(rows, cell, status) % TWO_TO_THE_64
  {
    RowsAreCounted(rows, cell, status);
    AggregateCounts(entries, cell, status);
  }

  // In round 2 there is no circuit but 2.
  ghost predicate RoundTwoIsCollapsed(mapping: map<Version, Stats>) {
    forall v, k :: v in mapping && k in mapping[v] && k.aggregationRound == 2 ==> k.circuitId == 2
  }

  // The row is of round 2, does not look like it, or is of circuit 2 anyway.
  predicate StaysApart(row: Row) {
    || row.aggregationRound == 2 || row.aggregationRound % TWO_TO_THE_8 != 2
    || row.circuitId % TWO_TO_THE_8 == 2
  }

  lemma {:induction false} EntryOfRow(rows: seq<Row>, i: nat)
    requires NewEntries(rows).Some? && i < |rows|
    ensures |NewEntries(rows).value| == |rows| && NewEntry(rows[i]) == Some(NewEntries(rows).value[i])
  {
    var before := rows[..|rows| - 1];
    if i < |before| {
      EntryOfRow(before, i);
    } else if before != [] {
      EntryOfRow(before, 0);
    }
  }

  lemma {:induction false} StrayRowIsSeen(rows: seq<Row>, i: nat)
    requires NewEntries(rows).Some? && i < |rows| && !StaysApart(rows[i])
    ensures !RoundTwoIsCollapsed(Aggregate(NewEntries(rows).value))
  {
    EntryOfRow(rows, i);
    var entries := NewEntries(rows).value;
    AggregateHas(entries, CellOf(entries[i]));
    assert entries[i].version in Aggregate(entries) && entries[i].key in Aggregate(entries)[entries[i].version];
  }

  lemma {:induction false} SeenKeyIsCollapsed(rows: seq<Row>, cell: Cell)
    requires NewEntries(rows).Some? && forall i :: 0 <= i < |rows| ==> StaysApart(rows[i])
    requires cell.version in Aggregate(NewEntries(rows).value)
    requires cell.key in Aggregate(NewEntries(rows).value)[cell.version] && cell.key.aggregationRound == 2
    ensures cell.key.circuitId == 2
  {
    var entries := NewEntries(rows).value;
    AggregateHas(entries, cell);
    if i :| 0 <= i < |entries| && CellOf(entries[i]) == cell {
      LengthOfEntries(rows);
      EntryOfRow(rows, i);
      assert StaysApart(rows[i]);
    }
  }

  lemma {:induction false} LengthOfEntries(rows: seq<Row>)
    requires NewEntries(rows).Some?
    ensures |NewEntries(rows).value| == |rows|
  {
    if rows != [] {
      EntryOfRow(rows, 0);
    }
  }

  /** In the statistics all circuits of round 2 are collapsed into circuit 2, for every version, if and only if no row
      of another round looks like round 2 after the cast while its circuit does not look like 2. */
  lemma {:induction false} RoundTwoCollapsesIff(rows: seq<Row>)
    requires NewEntries(rows).Some?
    ensures RoundTwoIsCollapsed(Aggregate(NewEntries(rows).value)) <==>
            forall i :: 0 <= i < |rows| ==> StaysApart(rows[i])
  {
    var mapping := Aggregate(NewEntries(rows).value);
    if i :| 0 <= i < |rows| && !StaysApart(rows[i]) {
      StrayRowIsSeen(rows, i);
    } else {
      forall v: Version, k: Key | v in mapping && k in mapping[v] && k.aggregationRound == 2 ensures k.circuitId == 2 {
        SeenKeyIsCollapsed(rows, Cell(v, k));
      }
    }
  }

  // ---------- Rows that the casts do not change ----------

  predicate Fits(row: Row) {
    && 0 <= row.circuitId < TWO_TO_THE_8 && 0 <= row.aggregationRound < TWO_TO_THE_8
    && 0 <= row.protocolVersion < TWO_TO_THE_16 && 0 <= row.patch && 0 <= row.count
  }

  // The jobs of a cell in the table itself.
  function OwnJobs(row: Row, cell: Cell, status: Status): int {
    var here := && row.protocolVersion == cell.version.minor && row.patch == cell.version.patch
                && row.aggregationRound == cell.key.aggregationRound
                && cell.key.circuitId == if row.aggregationRound == 2 then 2 else row.circuitId;
    if here && row.status == StatusName(status) then row.count else 0
  }

  function AllOwnJobs(rows: seq<Row>, cell: Cell, status: Status): int {
    if rows == [] then 0 else AllOwnJobs(rows[..|rows| - 1], cell, status) + OwnJobs(rows[|rows| - 1], cell, status)
  }

  lemma {:induction false} CastsKeepJobs(rows: seq<Row>, cell: Cell, status: Status)
    requires forall i :: 0 <= i < |rows| ==> Fits(rows[i])
    ensures TableJobs(rows, cell, status) == AllOwnJobs(rows, cell, status)
  {
    if rows != [] {
      CastsKeepJobs(rows[..|rows| - 1], cell, status);
      CastKeepsJobs(rows[|rows| - 1], cell, status);
    }
  }

  lemma CastKeepsJobs(row: Row, cell: Cell, status: Status)
    requires Fits(row)
    ensures RowJobs(row, cell, status) == OwnJobs(row, cell, status)
  {
  }

  /** For rows within the range of the casts, and fewer than 2^64 jobs, the statistics are the exact numbers of jobs in
      the table. */
  lemma {:induction false} StatisticsAreExact(rows: seq<Row>, cell: Cell, status: Status)
    requires NewEntries(rows).Some? && forall i :: 0 <= i < |rows| ==> Fits(rows[i])
    requires AllOwnJobs(rows, cell, status) < TWO_TO_THE_64
    ensures CountAt(Aggregate(NewEntries(rows).value), cell, status) == AllOwnJobs(rows, cell, status)
  {
    CastsKeepJobs(rows, cell, status);
    EntriesAreCounted(NewEntries(rows).value, rows, cell, status);
    RemainderIs(TableJobs(rows, cell, status), 0, AllOwnJobs(rows, cell, status));
  }
}
