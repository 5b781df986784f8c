/** `get_logs_chunked`: one request for the whole range, or chunks with a per-block fallback. */
module LogChunks {
  import opened Common

  type Log = nat

  /** A provider that answers truthfully when it answers: logs per block, and which requests succeed. */
  datatype Provider = Provider(logs: nat -> seq<Log>, chunkOk: (nat, nat) -> bool, singleOk: nat -> bool)

  /** The logs of blocks `a` up to but not including `b`. */
  function LogsIn(p: Provider, a: nat, b: nat): seq<Log>
    decreases b - a
  {
    if a >= b then [] else p.logs(a) + LogsIn(p, a + 1, b)
  }

  // ----- Chunk ranges -----

  function Ranges(from: nat, stop: nat, size: nat): seq<(nat, nat)>
    requires size > 0
    decreases stop - from
  {
    if from >= stop then [] else [(from, Min(from + size, stop))] + Ranges(from + size, stop, size)
  }

  /** In order, with no gap and no overlap, none empty, none too long, and all but the last full. */
  ghost predicate Tiles(rs: seq<(nat, nat)>, from: nat, stop: nat, size: nat) {
    && rs != []
    && rs[0].0 == from
    && rs[|rs| - 1].1 == stop
    && (forall i :: 0 <= i < |rs| ==> rs[i].0 < rs[i].1 <= rs[i].0 + size)
    && (forall i, j :: 0 <= i < |rs| && j == i + 1 && j < |rs| ==> rs[i].1 == rs[j].0 == rs[i].0 + size)
  }

  lemma TilesCons(from: nat, stop: nat, size: nat, rest: seq<(nat, nat)>)
    requires size > 0 && Tiles(rest, from + size, stop, size)
    ensures Tiles([(from, from + size)] + rest, from, stop, size)
  {
    var rs := [(from, from + size)] + rest;
    forall i, j | 0 <= i < |rs| && j == i + 1 && j < |rs| ensures rs[i].1 == rs[j].0 == rs[i].0 + size {
      if i > 0 {
        assert rs[i] == rest[i - 1] && rs[j] == rest[j - 1];
      }
    }
  }

  /** The chunk ranges tile the half-open block range. */
  lemma {:induction false} RangesTile(from: nat, stop: nat, size: nat)
    requires size > 0 && from < stop
    ensures Tiles(Ranges(from, stop, size), from, stop, size)
    decreases stop - from
  {
    if from + size < stop {
      RangesTile(from + size, stop, size);
      TilesCons(from, stop, size, Ranges(from + size, stop, size));
    } else {
      assert Ranges(from, stop, size) == [(from, stop)] + [];
    }
  }

  /** The first block of the chunk that holds block `b`. */
  function ChunkStart(from: nat, size: nat, b: nat): (s: nat)
    requires size > 0 && from <= b
    ensures from <= s <= b < s + size
    decreases b - from
  {
    if b < from + size then from else ChunkStart(from + size, size, b)
  }

  /** No chunk's end overflows 64 bits before it is cut to the range: the last chunk's does not. */
  predicate EndsFit(from: nat, stop: nat, size: nat) {
    from < stop ==> size > 0 && ChunkStart(from, size, stop - 1) + size < U64_LIMIT
  }

  lemma EndsFitStep(from: nat, stop: nat, size: nat)
    requires from < stop && EndsFit(from, stop, size)
    ensures from + size < U64_LIMIT && EndsFit(from + size, stop, size)
  {
  }

  method ChunkRanges(from: nat, stop: nat, size: nat) returns (rs: seq<(nat, nat)>)
    requires size > 0 && EndsFit(from, stop, size)
    ensures rs == Ranges(from, stop, size)
  {
    rs := [];
    var start := from;
    while start < stop
      invariant Ranges(from, stop, size) == rs + Ranges(start, stop, size)
      invariant EndsFit(start, stop, size)
      decreases stop - start
    {
      EndsFitStep(start, stop, size);
      var range := (start, Min(start + size, stop));
      Assoc(rs, [range], Ranges(start + size, stop, size));
      rs := rs + [range];
      start := start + size;
    }
  }

  // ----- One chunk -----

  /** What the per-block fallback finds. */
  function Singles(p: Provider, a: nat, b: nat): seq<Log>
    decreases b - a
  {
    if a >= b then [] else (if p.singleOk(a) then p.logs(a) else []) + Singles(p, a + 1, b)
  }

  function Chunk(p: Provider, a: nat, b: nat): seq<Log> {
    if p.chunkOk(a, b) then LogsIn(p, a, b) else Singles(p, a, b)
  }

  method FetchChunk(p: Provider, start: nat, end: nat) returns (logs: seq<Log>)
    requires start <= end
    ensures logs == Chunk(p, start, end)
  {
    if p.chunkOk(start, end) {
      return LogsIn(p, start, end);
    }
    logs := [];
    for block := start to end
      invariant Singles(p, start, end) == logs + Singles(p, block, end)
    {
      if p.singleOk(block) {
        logs := logs + p.logs(block);
      }
    }
  }

  // ----- Sorting the results by starting block -----

  function Insert(x: (nat, seq<Log>), xs: seq<(nat, seq<Log>)>): seq<(nat, seq<Log>)> {
    if xs == [] || x.0 <= xs[0].0 then [x] + xs else [xs[0]] + Insert(x, xs[1..])
  }

  /** A stable sort by key. */
  function SortByKey(xs: seq<(nat, seq<Log>)>): seq<(nat, seq<Log>)> {
    if xs == [] then [] else Insert(xs[0], SortByKey(xs[1..]))
  }

  predicate Increasing(xs: seq<(nat, seq<Log>)>) {
    forall i, j :: 0 <= i < j < |xs| ==> xs[i].0 < xs[j].0
  }

  lemma {:induction false} SortOfSorted(xs: seq<(nat, seq<Log>)>)
    requires Increasing(xs)
    ensures SortByKey(xs) == xs
  {
    if xs != [] {
      SortOfSorted(xs[1..]);
      assert xs == [xs[0]] + xs[1..];
    }
  }

  function Payload(xs: seq<(nat, seq<Log>)>): seq<Log> {
    if xs == [] then [] else xs[0].1 + Payload(xs[1..])
  }

  // ----- The whole range -----

  function Fetched(p: Provider, from: nat, stop: nat, size: nat): seq<Log>
    requires size > 0
    decreases stop - from
  {
    if from >= stop then [] else Chunk(p, from, Min(from + size, stop)) + Fetched(p, from + size, stop, size)
  }

  /** One result per range, keyed by its first block. */
  function Results(p: Provider, rs: seq<(nat, nat)>): (r: seq<(nat, seq<Log>)>)
    ensures |r| == |rs|
  {
    seq(|rs|, i requires 0 <= i < |rs| => (rs[i].0, Chunk(p, rs[i].0, rs[i].1)))
  }

  lemma ResultsCons(p: Provider, r: (nat, nat), rs: seq<(nat, nat)>)
    ensures Results(p, [r] + rs) == [(r.0, Chunk(p, r.0, r.1))] + Results(p, rs)
  {
  }

  lemma IncreasingCons(x: (nat, seq<Log>), xs: seq<(nat, seq<Log>)>)
    requires Increasing(xs) && forall i :: 0 <= i < |xs| ==> x.0 < xs[i].0
    ensures Increasing([x] + xs)
  {
  }

  lemma {:induction false} ResultsOrdered(p: Provider, from: nat, stop: nat, size: nat)
    requires size > 0
    ensures var rs := Results(p, Ranges(from, stop, size));
            && Increasing(rs)
            && (forall i :: 0 <= i < |rs| ==> from <= rs[i].0)
            && Payload(rs) == Fetched(p, from, stop, size)
    decreases stop - from
  {
    if from < stop {
      ResultsOrdered(p, from + size, stop, size);
      var rest := Results(p, Ranges(from + size, stop, size));
      var first := (from, Chunk(p, from, Min(from + size, stop)));
      ResultsCons(p, (from, Min(from + size, stop)), Ranges(from + size, stop, size));
      IncreasingCons(first, rest);
      assert ([first] + rest)[1..] == rest;
    }
  }

  method Flatten(results: seq<(nat, seq<Log>)>) returns (logs: seq<Log>)
    ensures logs == Payload(results)
  {
    logs := [];
    assert results[0..] == results;
    for i := 0 to |results|
      invariant Payload(results) == logs + Payload(results[i..])
    {
      assert results[i..][1..] == results[i + 1..];
      logs := logs + results[i].1;
    }
  }

  /** `get_logs_chunked_concurrent`, for a range with both ends given. */
  method GetLogsChunkedConcurrent(p: Provider, from: nat, stop: nat, size: nat) returns (logs: seq<Log>)
    requires EndsFit(from, stop, size)
    ensures logs == if from < stop then Fetched(p, from, stop, size) else []
  {
    if from >= stop {
      return [];
    }
    var ranges := ChunkRanges(from, stop, size);
    RangesTile(from, stop, size);
    var results: seq<(nat, seq<Log>)> := [];
    for i := 0 to |ranges|
      invariant |results| == i
      invariant forall k :: 0 <= k < i ==> results[k] == (ranges[k].0, Chunk(p, ranges[k].0, ranges[k].1))
    {
      var found := FetchChunk(p, ranges[i].0, ranges[i].1);
      results := results + [(ranges[i].0, found)];
    }
    assert results == Results(p, ranges);
    ResultsOrdered(p, from, stop, size);
    SortOfSorted(results);
    logs := Flatten(SortByKey(results));
  }

  /** `get_logs_chunked`: the direct request covers both ends of the range. */
  method GetLogsChunked(p: Provider, directOk: bool, from: nat, stop: nat, size: nat) returns (logs: seq<Log>)
    requires EndsFit(from, stop, size)
    ensures logs == if directOk then LogsIn(p, from, stop + 1)
                    else if from < stop then Fetched(p, from, stop, size) else []
    ensures from <= stop && (forall b :: from <= b < stop ==> p.singleOk(b)) ==>
              && logs == LogsIn(p, from, if directOk then stop + 1 else stop)
              && (logs == LogsIn(p, from, stop + 1) <==> directOk || p.logs(stop) == [])
    ensures !directOk && from < stop ==> logs == CoveredLogs(p, from, stop, size, from, stop)
  {
    if directOk {
      return LogsIn(p, from, stop + 1);
    }
    logs := GetLogsChunkedConcurrent(p, from, stop, size);
    if from < stop {
      ChunkedExact(p, from, stop, size);
    }
    if from <= stop && (forall b :: from <= b < stop ==> p.singleOk(b)) {
      FallbackDropsLastBlock(p, from, stop, if from < stop then size else 1);
    }
  }

  /** Block `b` is covered if its chunk's request or its own request succeeds. */
  predicate Covered(p: Provider, from: nat, stop: nat, size: nat, b: nat)
    requires size > 0 && from <= b
  {
    var s := ChunkStart(from, size, b);
    p.chunkOk(s, Min(s + size, stop)) || p.singleOk(b)
  }

  /** The logs of the covered blocks from `a` up to `b`, block by block. */
  function CoveredLogs(p: Provider, from: nat, stop: nat, size: nat, a: nat, b: nat): seq<Log>
    requires size > 0 && from <= a
    decreases b - a
  {
    if a >= b then []
    else (if Covered(p, from, stop, size, a) then p.logs(a) else []) + CoveredLogs(p, from, stop, size, a + 1, b)
  }

  lemma {:induction false} CoveredSplit(p: Provider, from: nat, stop: nat, size: nat, a: nat, b: nat, c: nat)
    requires size > 0 && from <= a <= b <= c
    ensures CoveredLogs(p, from, stop, size, a, c)
         == CoveredLogs(p, from, stop, size, a, b) + CoveredLogs(p, from, stop, size, b, c)
    decreases b - a
  {
    if a < b {
      CoveredSplit(p, from, stop, size, a + 1, b, c);
    }
  }

  lemma {:induction false} FirstChunkCovered(p: Provider, from: nat, stop: nat, size: nat, a: nat)
    requires size > 0 && from <= a <= Min(from + size, stop)
    ensures var end := Min(from + size, stop);
            CoveredLogs(p, from, stop, size, a, end)
            == if p.chunkOk(from, end) then LogsIn(p, a, end) else Singles(p, a, end)
    decreases Min(from + size, stop) - a
  {
    if a < Min(from + size, stop) {
      FirstChunkCovered(p, from, stop, size, a + 1);
    }
  }

  lemma {:induction false} LaterChunksSame(p: Provider, from: nat, stop: nat, size: nat, a: nat)
    requires size > 0 && from + size <= a
    ensures CoveredLogs(p, from, stop, size, a, stop) == CoveredLogs(p, from + size, stop, size, a, stop)
    decreases stop - a
  {
    if a < stop {
      LaterChunksSame(p, from, stop, size, a + 1);
    }
  }

  /** The result is the logs of exactly the covered blocks of the half-open range, in block order. */
  lemma {:induction false} ChunkedExact(p: Provider, from: nat, stop: nat, size: nat)
    requires size > 0
    ensures Fetched(p, from, stop, size) == CoveredLogs(p, from, stop, size, from, stop)
    decreases stop - from
  {
    if from < stop {
      var end := Min(from + size, stop);
      FirstChunkCovered(p, from, stop, size, from);
      CoveredSplit(p, from, stop, size, from, end, stop);
      if from + size < stop {
        ChunkedExact(p, from + size, stop, size);
        LaterChunksSame(p, from, stop, size, from + size);
      }
    }
  }

  lemma {:induction false} AllCovered(p: Provider, from: nat, stop: nat, size: nat, a: nat)
    requires size > 0 && from <= a
    requires forall b :: a <= b < stop ==> p.singleOk(b)
    ensures CoveredLogs(p, from, stop, size, a, stop) == LogsIn(p, a, stop)
    decreases stop - a
  {
    if a < stop {
      AllCovered(p, from, stop, size, a + 1);
    }
  }

  lemma {:induction false} LastBlock(p: Provider, a: nat, b: nat)
    requires a <= b
    ensures LogsIn(p, a, b + 1) == LogsIn(p, a, b) + p.logs(b)
    decreases b - a
  {
    if a < b {
      LastBlock(p, a + 1, b);
    } else {
      assert LogsIn(p, b + 1, b + 1) == [];
    }
  }

  /**
   Whichever chunk requests fail, if every single-block request succeeds the result is the logs
   of the range without its last block. It is what the direct request for the inclusive range
   would have given if and only if that block has no logs.
   */
  lemma FallbackDropsLastBlock(p: Provider, from: nat, stop: nat, size: nat)
    requires size > 0 && from <= stop && forall b :: from <= b < stop ==> p.singleOk(b)
    ensures Fetched(p, from, stop, size) == LogsIn(p, from, stop)
    ensures Fetched(p, from, stop, size) == LogsIn(p, from, stop + 1) <==> p.logs(stop) == []
  {
    ChunkedExact(p, from, stop, size);
    AllCovered(p, from, stop, size, from);
    LastBlock(p, from, stop);
    assert p.logs(stop) != [] ==> |LogsIn(p, from, stop + 1)| > |LogsIn(p, from, stop)|;
  }
}
