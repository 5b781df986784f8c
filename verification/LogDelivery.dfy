/** Anvil's two ways of delivering logs: the polled filter and the pushed subscription. */
module LogDelivery {
  import opened Common

  type Hash = nat

  datatype RawLog = RawLog(address: nat, topics: seq<nat>, data: seq<Byte>)
  datatype Block = Block(hash: Hash, number: nat, timestamp: nat, transactions: seq<Hash>)
  datatype Log = Log(
    inner: RawLog, blockHash: Hash, blockNumber: nat, transactionHash: Hash,
    transactionIndex: nat, logIndex: nat, removed: bool, blockTimestamp: nat)

  type Receipts = seq<seq<RawLog>>

  /**
   Filter parameters. Without a filter everything matches; an absent bound or hash, an empty set
   of addresses and an empty set of topics at a position accept anything.
   */
  datatype Params = Params(
    isSome: bool, fromBlock: Option<nat>, toBlock: Option<nat>, blockHash: Option<Hash>,
    addresses: set<nat>, topics: seq<set<nat>>)

  const U32_LIMIT := 0x1_0000_0000

  predicate TopicsMatch(filter: seq<set<nat>>, topics: seq<nat>) {
    forall i :: 0 <= i < |filter| && filter[i] != {} ==> i < |topics| && topics[i] in filter[i]
  }

  predicate AddLog(block: Block, l: RawLog, params: Params) {
    params.isSome ==>
      && (params.fromBlock.Some? ==> params.fromBlock.value <= block.number)
      && (params.toBlock.Some? ==> block.number <= params.toBlock.value)
      && (params.blockHash.Some? ==> params.blockHash.value == block.hash)
      && (params.addresses == {} || l.address in params.addresses)
      && TopicsMatch(params.topics, l.topics)
  }

  // ----- Logs of one block -----

  /** Every log of a block, in order, with the index of its receipt. */
  function AllLogs(receipts: Receipts): seq<(nat, RawLog)> {
    if receipts == [] then []
    else
      var n := |receipts| - 1;
      AllLogs(receipts[..n]) + WithIndex(n, receipts[n])
  }

  function WithIndex(i: nat, logs: seq<RawLog>): (r: seq<(nat, RawLog)>)
    ensures |r| == |logs|
  {
    seq(|logs|, j requires 0 <= j < |logs| => (i, logs[j]))
  }

  lemma {:induction false} ReceiptIndices(receipts: Receipts, p: nat)
    requires p < |AllLogs(receipts)|
    ensures AllLogs(receipts)[p].0 < |receipts|
  {
    var n := |receipts| - 1;
    if p < |AllLogs(receipts[..n])| {
      ReceiptIndices(receipts[..n], p);
    }
  }

  /** A position as the 32-bit index counts it. */
  function Index32(p: nat): (i: nat)
    ensures i < U32_LIMIT
  {
    p % U32_LIMIT
  }

  lemma IndexStep(p: nat)
    ensures Index32(p + 1) == if Index32(p) + 1 == U32_LIMIT then 0 else Index32(p) + 1
  {
  }

  /** The log at position `p` among all logs of its block; the index is 32 bits wide. */
  function Rendered(block: Block, all: seq<(nat, RawLog)>, p: nat): Log
    requires p < |all| && all[p].0 < |block.transactions|
  {
    Log(all[p].1, block.hash, block.number, block.transactions[all[p].0], all[p].0,
        Index32(p), false, block.timestamp)
  }

  predicate Indexed(block: Block, all: seq<(nat, RawLog)>) {
    forall p :: 0 <= p < |all| ==> all[p].0 < |block.transactions|
  }

  /** The matching logs among the first `n`. */
  function Matching(block: Block, all: seq<(nat, RawLog)>, params: Params, n: nat): seq<Log>
    requires n <= |all| && Indexed(block, all)
  {
    if n == 0 then []
    else Matching(block, all, params, n - 1)
         + if AddLog(block, all[n - 1].1, params) then [Rendered(block, all, n - 1)] else []
  }

  lemma {:induction false} MatchingPrefix(block: Block, all: seq<(nat, RawLog)>, more: seq<(nat, RawLog)>,
                                          params: Params, n: nat)
    requires n <= |all| && Indexed(block, all) && Indexed(block, all + more)
    ensures Matching(block, all + more, params, n) == Matching(block, all, params, n)
  {
    if n > 0 {
      MatchingPrefix(block, all, more, params, n - 1);
    }
  }

  predicate Readable(block: Block, receipts: Receipts) {
    |receipts| <= |block.transactions|
  }

  lemma ReadableIndexed(block: Block, receipts: Receipts)
    requires Readable(block, receipts)
    ensures Indexed(block, AllLogs(receipts))
  {
    forall p | 0 <= p < |AllLogs(receipts)| ensures AllLogs(receipts)[p].0 < |block.transactions| {
      ReceiptIndices(receipts, p);
    }
  }

  ghost function Filtered(block: Block, receipts: Receipts, params: Params): seq<Log>
    requires Readable(block, receipts)
  {
    ReadableIndexed(block, receipts);
    Matching(block, AllLogs(receipts), params, |AllLogs(receipts)|)
  }

  lemma MatchingStep(block: Block, all: seq<(nat, RawLog)>, params: Params, n: nat)
    requires n < |all| && Indexed(block, all)
    ensures Matching(block, all, params, n + 1)
         == Matching(block, all, params, n)
            + if AddLog(block, all[n].1, params) then [Rendered(block, all, n)] else []
  {
  }

  /** The inner loop of `filter_logs`: one receipt, with the running 32-bit log index. */
  method FilterReceipt(block: Block, i: nat, receipt: seq<RawLog>, params: Params, start: nat,
                       ghost before: seq<(nat, RawLog)>, sofar: seq<Log>)
      returns (logs: seq<Log>, logIndex: nat)
    requires i < |block.transactions| && start == Index32(|before|)
    requires Indexed(block, before) && Indexed(block, before + WithIndex(i, receipt))
    requires sofar == Matching(block, before, params, |before|)
    ensures var all := before + WithIndex(i, receipt);
            logs == Matching(block, all, params, |all|) && logIndex == Index32(|all|)
  {
    logs, logIndex := sofar, start;
    ghost var all := before + WithIndex(i, receipt);
    MatchingPrefix(block, before, WithIndex(i, receipt), params, |before|);
    var transactionHash := block.transactions[i];
    for j := 0 to |receipt|
      invariant logs == Matching(block, all, params, |before| + j)
      invariant logIndex == Index32(|before| + j)
    {
      assert all[|before| + j] == (i, receipt[j]);
      MatchingStep(block, all, params, |before| + j);
      IndexStep(|before| + j);
      if AddLog(block, receipt[j], params) {
        logs := logs + [Log(receipt[j], block.hash, block.number, transactionHash, i, logIndex, false,
                            block.timestamp)];
      }
      logIndex := if logIndex + 1 == U32_LIMIT then 0 else logIndex + 1;
    }
  }

  /** `filter_logs`. A receipt without a transaction would index out of bounds. */
  method FilterLogs(block: Block, receipts: Receipts, params: Params) returns (logs: seq<Log>)
    requires Readable(block, receipts)
    ensures logs == Filtered(block, receipts, params)
  {
    logs := [];
    var logIndex := 0;
    for i := 0 to |receipts|
      invariant Readable(block, receipts[..i])
      invariant logs == Filtered(block, receipts[..i], params)
      invariant logIndex == Index32(|AllLogs(receipts[..i])|)
    {
      ghost var before := AllLogs(receipts[..i]);
      assert receipts[..i + 1][..i] == receipts[..i];
      ReadableIndexed(block, receipts[..i]);
      ReadableIndexed(block, receipts[..i + 1]);
      logs, logIndex := FilterReceipt(block, i, receipts[i], params, logIndex, before, logs);
    }
    assert receipts[..|receipts|] == receipts;
  }

  /** The log at position `p`, once the index cannot wrap, says so itself. */
  lemma RenderedIndex(block: Block, all: seq<(nat, RawLog)>, p: nat)
    requires p < |all| <= U32_LIMIT && all[p].0 < |block.transactions|
    ensures Rendered(block, all, p).logIndex == p
  {
  }

  /** `l` matches and carries its own position, below `n`, among all logs of the block. */
  predicate Placed(block: Block, all: seq<(nat, RawLog)>, params: Params, n: nat, l: Log)
    requires n <= |all| && Indexed(block, all)
  {
    && l.logIndex < n
    && AddLog(block, all[l.logIndex].1, params)
    && l == Rendered(block, all, l.logIndex)
  }

  /** Every log delivered is placed, and positions increase, so none comes twice. */
  lemma {:induction false} MatchingSound(block: Block, all: seq<(nat, RawLog)>, params: Params, n: nat)
    requires n <= |all| <= U32_LIMIT && Indexed(block, all)
    ensures forall l :: l in Matching(block, all, params, n) ==> Placed(block, all, params, n, l)
    ensures forall i, j :: 0 <= i < j < |Matching(block, all, params, n)| ==>
              Matching(block, all, params, n)[i].logIndex < Matching(block, all, params, n)[j].logIndex
  {
    if n > 0 {
      MatchingSound(block, all, params, n - 1);
      RenderedIndex(block, all, n - 1);
      var before := Matching(block, all, params, n - 1);
      assert forall i :: 0 <= i < |before| ==> before[i] in before;
      assert forall l :: l in before ==> Placed(block, all, params, n, l);
    }
  }

  /** Every matching log is delivered. */
  lemma {:induction false} MatchingComplete(block: Block, all: seq<(nat, RawLog)>, params: Params, n: nat, p: nat)
    requires p < n <= |all| && Indexed(block, all) && AddLog(block, all[p].1, params)
    ensures Rendered(block, all, p) in Matching(block, all, params, n)
  {
    if p < n - 1 {
      MatchingComplete(block, all, params, n - 1, p);
    }
  }

  // ----- Block lookups -----

  datatype Storage = Storage(blocks: map<Hash, Block>, receipts: map<Hash, Receipts>)

  predicate Found(storage: Storage, h: Hash) {
    h in storage.blocks && h in storage.receipts
  }

  predicate WellFormed(storage: Storage) {
    forall h :: h in storage.blocks && h in storage.receipts ==>
      Readable(storage.blocks[h], storage.receipts[h])
  }

  /** Matching logs by block hash. */
  type Table = map<Hash, seq<Log>>

  /** The matching logs of every block that can be looked up. */
  ghost function TableOf(storage: Storage, params: Params): Table
    requires WellFormed(storage)
  {
    map h | h in storage.blocks && h in storage.receipts :: Filtered(storage.blocks[h], storage.receipts[h], params)
  }

  function LogsOf(table: Table, h: Hash): seq<Log> {
    if h in table then table[h] else []
  }

  /** The logs of several blocks, in order. */
  function Stream(table: Table, hs: seq<Hash>): seq<Log> {
    if hs == [] then [] else Stream(table, hs[..|hs| - 1]) + LogsOf(table, hs[|hs| - 1])
  }

  lemma StreamStep(table: Table, hs: seq<Hash>, h: Hash)
    ensures Stream(table, hs + [h]) == Stream(table, hs) + LogsOf(table, h)
  {
    assert (hs + [h])[..|hs|] == hs;
  }

  lemma {:induction false} StreamSplit(table: Table, a: seq<Hash>, b: seq<Hash>)
    ensures Stream(table, a + b) == Stream(table, a) + Stream(table, b)
  {
    if b == [] {
      assert a + b == a;
    } else {
      var init, h := b[..|b| - 1], b[|b| - 1];
      StreamSplit(table, a, init);
      assert a + b == (a + init) + [h] && b == init + [h];
      StreamStep(table, a + init, h);
      StreamStep(table, init, h);
      Assoc(Stream(table, a), Stream(table, init), LogsOf(table, h));
    }
  }

  /** Appending the logs of one more block to a stream already delivered behind `start`. */
  lemma Extend(table: Table, start: seq<Log>, logs: seq<Log>, hs: seq<Hash>, h: Hash, more: seq<Log>)
    requires logs == start + Stream(table, hs) && more == LogsOf(table, h)
    ensures logs + more == start + Stream(table, hs + [h])
  {
    StreamStep(table, hs, h);
    Assoc(start, Stream(table, hs), more);
  }

  lemma StreamOne(table: Table, h: Hash)
    ensures Stream(table, [h]) == LogsOf(table, h)
  {
    assert [h][..0] == [];
  }

  lemma StreamHead(table: Table, hs: seq<Hash>)
    requires hs != []
    ensures Stream(table, hs) == LogsOf(table, hs[0]) + Stream(table, hs[1..])
  {
    StreamSplit(table, [hs[0]], hs[1..]);
    StreamOne(table, hs[0]);
    assert [hs[0]] + hs[1..] == hs;
  }

  /** Both listeners look a block up the same way. */
  method Lookup(storage: Storage, params: Params, h: Hash, ghost table: Table) returns (logs: seq<Log>)
    requires WellFormed(storage) && table == TableOf(storage, params)
    ensures logs == LogsOf(table, h)
    ensures !Found(storage, h) ==> logs == []
  {
    logs := [];
    if h in storage.blocks && h in storage.receipts {
      logs := FilterLogs(storage.blocks[h], storage.receipts[h], params);
    }
  }

  // ----- Pull: the polled filter -----

  class LogsFilter {
    const storage: Storage
    const params: Params
    ghost const table: Table
    /** Block notifications not yet taken. */
    var blocks: seq<Hash>
    var historic: Option<seq<Log>>

    ghost predicate Valid() {
      WellFormed(storage) && table == TableOf(storage, params)
    }

    constructor (storage: Storage, params: Params, historic: Option<seq<Log>>)
      requires WellFormed(storage)
      ensures Valid() && table == TableOf(storage, params) && this.historic == historic && blocks == []
    {
      this.storage, this.params, this.historic, blocks := storage, params, historic, [];
      table := TableOf(storage, params);
    }

    method Notify(h: Hash)
      modifies this`blocks
      ensures blocks == old(blocks) + [h]
    {
      blocks := blocks + [h];
    }

    /** The loop of `poll`: takes every pending notification. */
    method Drain(start: seq<Log>) returns (logs: seq<Log>)
      requires Valid()
      modifies this`blocks
      ensures logs == start + Stream(table, old(blocks)) && blocks == []
    {
      logs := start;
      ghost var taken: seq<Hash> := [];
      while blocks != []
        invariant taken + blocks == old(blocks)
        invariant logs == start + Stream(table, taken)
        decreases |blocks|
      {
        var h := blocks[0];
        assert taken + blocks == (taken + [h]) + blocks[1..];
        blocks := blocks[1..];
        var more := Lookup(storage, params, h, table);
        Extend(table, start, logs, taken, h, more);
        logs := logs + more;
        taken := taken + [h];
      }
      assert taken == old(blocks);
    }

    /** All the logs since the last poll; the historic ones come out once. */
    method Poll() returns (logs: seq<Log>)
      requires Valid()
      modifies this
      ensures logs == (if old(historic).Some? then old(historic).value else []) + Stream(table, old(blocks))
      ensures blocks == [] && historic == None
    {
      logs := if historic.Some? then historic.value else [];
      historic := None;
      logs := Drain(logs);
    }
  }

  // ----- Push: the subscription -----

  datatype PollResult = Ready(log: Log) | Ended | Pending

  /** Notifications in the channel and logs in the queue. */
  datatype Feed = Feed(blocks: seq<Hash>, queued: seq<Log>)

  /** The answer when nothing is queued and the channel is empty. */
  function Idle(closed: bool): PollResult {
    if closed then Ended else Pending
  }

  /** The loop of `poll`, up to a non-empty queue or an answer that is no log. */
  function Fill(storage: Storage, table: Table, closed: bool, f: Feed): (r: (Feed, Option<PollResult>))
    ensures if r.0.queued == [] then r.1.Some? && !r.1.value.Ready? else r.1.None?
    ensures if f.queued != [] then r.0 == f else r.1.None? ==> |r.0.blocks| < |f.blocks|
    decreases |f.blocks|
  {
    if f.queued != [] then (f, None)
    else if f.blocks == [] then (f, Some(Idle(closed)))
    else if !Found(storage, f.blocks[0]) then (Feed(f.blocks[1..], []), Some(Pending))
    else Fill(storage, table, closed, Feed(f.blocks[1..], LogsOf(table, f.blocks[0])))
  }

  function PollOnce(storage: Storage, table: Table, closed: bool, f: Feed): (r: (Feed, PollResult))
    ensures !r.1.Ready? ==> r.0.queued == []
    ensures r.1.Ready? ==>
              if f.queued == [] then |r.0.blocks| < |f.blocks| else r.0.blocks == f.blocks && |r.0.queued| < |f.queued|
  {
    var (g, r) := Fill(storage, table, closed, f);
    if r.Some? then (g, r.value) else (g.(queued := g.queued[1..]), Ready(g.queued[0]))
  }

  class LogsSubscription {
    const storage: Storage
    const params: Params
    ghost const table: Table
    var blocks: seq<Hash>
    var closed: bool
    var queued: seq<Log>

    ghost predicate Valid() {
      WellFormed(storage) && table == TableOf(storage, params)
    }

    ghost function Now(): Feed
      reads this
    {
      Feed(blocks, queued)
    }

    constructor (storage: Storage, params: Params)
      requires WellFormed(storage)
      ensures Valid() && this.storage == storage && this.params == params
      ensures blocks == [] && queued == [] && !closed
    {
      this.storage, this.params, blocks, closed, queued := storage, params, [], false, [];
      table := TableOf(storage, params);
    }

    method Notify(h: Hash)
      modifies this`blocks
      ensures blocks == old(blocks) + [h]
    {
      blocks := blocks + [h];
    }

    /** The sending side is dropped: what is in the channel can still be read. */
    method Close()
      modifies this`closed
      ensures closed
    {
      closed := true;
    }

    method FillQueue() returns (r: Option<PollResult>)
      requires Valid()
      modifies this`blocks, this`queued
      ensures (Now(), r) == Fill(storage, table, closed, old(Now()))
    {
      ghost var whole := Fill(storage, table, closed, Now());
      while queued == []
        invariant Fill(storage, table, closed, Now()) == whole
        decreases |blocks|
      {
        if blocks == [] {
          return Some(Idle(closed));
        }
        var h := blocks[0];
        blocks := blocks[1..];
        queued := Lookup(storage, params, h, table);
        if !Found(storage, h) {
          return Some(Pending);
        }
      }
      r := None;
    }

    /**
     The next log, if there is one; none is lost. `Pending` is returned with notifications still unread
     exactly when nothing is queued, a missing block comes before any log, and it is not the last one
     announced.
     */
    method Poll() returns (r: PollResult)
      requires Valid()
      modifies this`blocks, this`queued
      ensures (Now(), r) == PollOnce(storage, table, closed, old(Now()))
      ensures (if r.Ready? then [r.log] else []) + Rest(table, Now()) == old(Rest(table, Now()))
      ensures r.Pending? && blocks != [] <==> old(queued) == [] && exists i :: StallsAt(storage, table, old(blocks), i)
    {
      PollKeeps(storage, table, closed, Now());
      StallExact(storage, table, closed, Now());
      var stop := FillQueue();
      if stop.Some? {
        r := stop.value;
      } else {
        r := Ready(queued[0]);
        queued := queued[1..];
      }
    }
  }

  // ----- What a poll does -----

  /** All the logs a subscription has still to send out. */
  function Rest(table: Table, f: Feed): seq<Log> {
    f.queued + Stream(table, f.blocks)
  }

  predicate Consistent(storage: Storage, table: Table) {
    forall h :: h in table ==> Found(storage, h)
  }

  lemma {:induction false} FillKeeps(storage: Storage, table: Table, closed: bool, f: Feed)
    requires Consistent(storage, table)
    ensures Rest(table, Fill(storage, table, closed, f).0) == Rest(table, f)
    decreases |f.blocks|
  {
    if f.queued == [] && f.blocks != [] {
      StreamHead(table, f.blocks);
      if Found(storage, f.blocks[0]) {
        FillKeeps(storage, table, closed, Feed(f.blocks[1..], LogsOf(table, f.blocks[0])));
      }
    }
  }

  /** No log is lost: what a poll returns and what remains is what there was. */
  lemma PollKeeps(storage: Storage, table: Table, closed: bool, f: Feed)
    requires Consistent(storage, table)
    ensures var (g, r) := PollOnce(storage, table, closed, f);
            (if r.Ready? then [r.log] else []) + Rest(table, g) == Rest(table, f)
  {
    FillKeeps(storage, table, closed, f);
    var (g, stop) := Fill(storage, table, closed, f);
    if stop.None? {
      assert g.queued == [g.queued[0]] + g.queued[1..];
      Assoc([g.queued[0]], g.queued[1..], Stream(table, g.blocks));
    }
  }

  /** A missing block comes before any log, and notifications follow it. */
  predicate StallsAt(storage: Storage, table: Table, hs: seq<Hash>, i: int) {
    && 0 <= i < |hs| - 1
    && !Found(storage, hs[i])
    && forall j :: 0 <= j < i ==> Found(storage, hs[j]) && LogsOf(table, hs[j]) == []
  }

  lemma StallsLater(storage: Storage, table: Table, hs: seq<Hash>)
    requires hs != [] && Found(storage, hs[0]) && LogsOf(table, hs[0]) == []
    ensures (exists i :: StallsAt(storage, table, hs, i)) <==> exists i :: StallsAt(storage, table, hs[1..], i)
  {
    var rest := hs[1..];
    if i :| StallsAt(storage, table, rest, i) {
      assert forall j :: 0 < j <= i + 1 ==> hs[j] == rest[j - 1];
      assert StallsAt(storage, table, hs, i + 1);
    }
    if i :| StallsAt(storage, table, hs, i) {
      assert forall j :: 0 <= j < i ==> rest[j] == hs[j + 1];
      assert StallsAt(storage, table, rest, i - 1);
    }
  }

  lemma {:induction false} StallExact(storage: Storage, table: Table, closed: bool, f: Feed)
    ensures var (g, r) := PollOnce(storage, table, closed, f);
            r.Pending? && g.blocks != [] <==> f.queued == [] && exists i :: StallsAt(storage, table, f.blocks, i)
    decreases |f.blocks|
  {
    if f.queued == [] && f.blocks != [] {
      var logs := LogsOf(table, f.blocks[0]);
      if !Found(storage, f.blocks[0]) {
        assert |f.blocks| > 1 ==> StallsAt(storage, table, f.blocks, 0);
      } else {
        StallExact(storage, table, closed, Feed(f.blocks[1..], logs));
        if logs == [] {
          StallsLater(storage, table, f.blocks);
        }
      }
    }
  }

  // ----- Both deliver the same logs -----

  /** `Shutdown` drops the sending side of both channels; no block is announced after it. */
  datatype Event = NewBlock(hash: Hash) | PollFilter | PollSubscription | Shutdown

  predicate Down(events: seq<Event>) {
    events != [] && (Down(events[..|events| - 1]) || events[|events| - 1].Shutdown?)
  }

  ghost function Announced(events: seq<Event>): seq<Hash> {
    if events == [] then []
    else
      var n := |events| - 1;
      Announced(events[..n]) + if events[n].NewBlock? && !Down(events[..n]) then [events[n].hash] else []
  }

  method PullEvent(filter: LogsFilter, event: Event, down: bool, ghost read: seq<Hash>)
      returns (logs: seq<Log>, ghost read': seq<Hash>)
    requires filter.historic == None && filter.Valid()
    modifies filter
    ensures filter.historic == None
    ensures read' + filter.blocks
         == (read + old(filter.blocks)) + if event.NewBlock? && !down then [event.hash] else []
    ensures Stream(filter.table, read') == Stream(filter.table, read) + logs
  {
    logs, read' := [], read;
    if event.PollFilter? {
      StreamSplit(filter.table, read, filter.blocks);
      read' := read + filter.blocks;
      logs := filter.Poll();
    } else if event.NewBlock? && !down {
      Assoc(read, filter.blocks, [event.hash]);
      filter.Notify(event.hash);
    }
  }

  /** The filter, polled at will: what it returned and what is unread make up all announced logs. */
  method PullRun(storage: Storage, params: Params, events: seq<Event>) returns (pulled: seq<Log>, unread: seq<Hash>)
    requires WellFormed(storage)
    ensures pulled + Stream(TableOf(storage, params), unread) == Stream(TableOf(storage, params), Announced(events))
  {
    var filter := new LogsFilter(storage, params, None);
    pulled := [];
    ghost var table, read := TableOf(storage, params), [];
    var down := false;
    for i := 0 to |events|
      invariant down <==> Down(events[..i])
      invariant fresh(filter) && filter.historic == None && filter.Valid() && filter.table == table
      invariant read + filter.blocks == Announced(events[..i])
      invariant pulled == Stream(table, read)
    {
      assert events[..i + 1][..i] == events[..i];
      var logs;
      logs, read := PullEvent(filter, events[i], down, read);
      pulled := pulled + logs;
      down := down || events[i].Shutdown?;
    }
    assert events[..|events|] == events;
    unread := filter.blocks;
    StreamSplit(table, read, unread);
  }

  /** A subscription, what it has sent out, and whether a poll has said that it ended. */
  datatype Push = Push(feed: Feed, closed: bool, emitted: seq<Log>, ended: bool)

  function PushStep(storage: Storage, table: Table, p: Push, event: Event): Push {
    match event
    case NewBlock(h) => if p.closed then p else p.(feed := p.feed.(blocks := p.feed.blocks + [h]))
    case PollFilter => p
    case PollSubscription =>
      var (g, r) := PollOnce(storage, table, p.closed, p.feed);
      p.(feed := g, emitted := p.emitted + (if r.Ready? then [r.log] else []), ended := p.ended || r.Ended?)
    case Shutdown => p.(closed := true)
  }

  function Pushed(storage: Storage, table: Table, events: seq<Event>): Push {
    if events == [] then Push(Feed([], []), false, [], false)
    else PushStep(storage, table, Pushed(storage, table, events[..|events| - 1]), events[|events| - 1])
  }

  ghost predicate IsSuffix(part: seq<Hash>, all: seq<Hash>) {
    |part| <= |all| && part == all[|all| - |part|..]
  }

  lemma {:induction false} FillSuffix(storage: Storage, table: Table, closed: bool, f: Feed)
    ensures var (g, r) := Fill(storage, table, closed, f);
            && IsSuffix(g.blocks, f.blocks)
            && (r == Some(Ended) ==> closed && g.blocks == [])
    decreases |f.blocks|
  {
    if f.queued == [] && f.blocks != [] && Found(storage, f.blocks[0]) {
      FillSuffix(storage, table, closed, Feed(f.blocks[1..], LogsOf(table, f.blocks[0])));
    }
  }

  lemma RestNotified(table: Table, f: Feed, h: Hash)
    ensures Rest(table, f.(blocks := f.blocks + [h])) == Rest(table, f) + LogsOf(table, h)
  {
    StreamStep(table, f.blocks, h);
    Assoc(f.queued, Stream(table, f.blocks), LogsOf(table, h));
  }

  /** Everything announced is sent out, queued or unread; the end comes only with nothing left. */
  ghost predicate PushInv(table: Table, p: Push, all: seq<Hash>) {
    p.emitted + Rest(table, p.feed) == Stream(table, all) && (p.ended ==> p.closed && p.feed == Feed([], []))
  }

  lemma PollOver(storage: Storage, table: Table, closed: bool, f: Feed)
    ensures PollOnce(storage, table, closed, f).1.Ended? || (closed && f == Feed([], [])) ==>
              closed && PollOnce(storage, table, closed, f).0 == Feed([], [])
  {
    FillSuffix(storage, table, closed, f);
  }

  lemma PollKeepsInv(storage: Storage, table: Table, p: Push, all: seq<Hash>)
    requires Consistent(storage, table) && PushInv(table, p, all)
    ensures PushInv(table, PushStep(storage, table, p, PollSubscription), all)
  {
    var (g, r) := PollOnce(storage, table, p.closed, p.feed);
    var logs := if r.Ready? then [r.log] else [];
    PollOver(storage, table, p.closed, p.feed);
    PollKeeps(storage, table, p.closed, p.feed);
    assert (p.emitted + logs) + Rest(table, g) == Stream(table, all) by {
      Assoc(p.emitted, logs, Rest(table, g));
    }
  }

  lemma NewsKeepsInv(storage: Storage, table: Table, p: Push, h: Hash, all: seq<Hash>)
    requires PushInv(table, p, all) && !p.closed
    ensures PushInv(table, PushStep(storage, table, p, NewBlock(h)), all + [h])
  {
    RestNotified(table, p.feed, h);
    Assoc(p.emitted, Rest(table, p.feed), LogsOf(table, h));
    StreamStep(table, all, h);
  }

  lemma {:induction false} PushedKeeps(storage: Storage, table: Table, events: seq<Event>)
    requires Consistent(storage, table)
    ensures var p := Pushed(storage, table, events);
            PushInv(table, p, Announced(events)) && (p.closed <==> Down(events))
  {
    if events != [] {
      var init, event := events[..|events| - 1], events[|events| - 1];
      PushedKeeps(storage, table, init);
      var p, all := Pushed(storage, table, init), Announced(init);
      if event.PollSubscription? {
        PollKeepsInv(storage, table, p, all);
      } else if event.NewBlock? && !p.closed {
        NewsKeepsInv(storage, table, p, event.hash, all);
      }
      assert all + [] == all;
    }
  }

  /** What is unread is the end of what was announced. */
  lemma {:induction false} PushedSuffix(storage: Storage, table: Table, events: seq<Event>)
    requires Consistent(storage, table)
    ensures IsSuffix(Pushed(storage, table, events).feed.blocks, Announced(events))
  {
    if events != [] {
      var init := events[..|events| - 1];
      PushedSuffix(storage, table, init);
      PushedKeeps(storage, table, init);
      StepSuffix(storage, table, Pushed(storage, table, init), events[|events| - 1], Announced(init));
    }
  }

  lemma StepSuffix(storage: Storage, table: Table, p: Push, event: Event, all: seq<Hash>)
    requires IsSuffix(p.feed.blocks, all)
    ensures var news := if event.NewBlock? && !p.closed then [event.hash] else [];
            IsSuffix(PushStep(storage, table, p, event).feed.blocks, all + news)
  {
    assert all + [] == all;
    if event.PollSubscription? {
      FillSuffix(storage, table, p.closed, p.feed);
      SuffixOfSuffix(all, p.feed.blocks, Fill(storage, table, p.closed, p.feed).0.blocks);
    }
  }

  lemma SuffixOfSuffix(a: seq<Hash>, b: seq<Hash>, c: seq<Hash>)
    requires IsSuffix(b, a) && IsSuffix(c, b)
    ensures IsSuffix(c, a)
  {
  }

  /** The subscription driven through any events. */
  method PushEvents(storage: Storage, params: Params, events: seq<Event>)
      returns (subscription: LogsSubscription, emitted: seq<Log>, ended: bool)
    requires WellFormed(storage)
    ensures fresh(subscription) && subscription.Valid()
    ensures subscription.storage == storage && subscription.params == params
    ensures Push(subscription.Now(), subscription.closed, emitted, ended)
         == Pushed(storage, TableOf(storage, params), events)
  {
    subscription := new LogsSubscription(storage, params);
    emitted, ended := [], false;
    for i := 0 to |events|
      invariant fresh(subscription) && subscription.Valid()
      invariant subscription.storage == storage && subscription.params == params
      invariant Push(subscription.Now(), subscription.closed, emitted, ended)
             == Pushed(storage, TableOf(storage, params), events[..i])
    {
      assert events[..i + 1][..i] == events[..i];
      match events[i]
      case NewBlock(h) =>
        if !subscription.closed {
          subscription.Notify(h);
        }
      case PollFilter =>
      case PollSubscription =>
        var r := subscription.Poll();
        emitted, ended := emitted + (if r.Ready? then [r.log] else []), ended || r.Ended?;
      case Shutdown => subscription.Close();
    }
    assert events[..|events|] == events;
  }

  /**
   The subscription, polled at will: emitted, queued and unread make up all announced logs, and it
   ends only after the shutdown and with all of them emitted.
   */
  method PushRun(storage: Storage, params: Params, events: seq<Event>)
      returns (emitted: seq<Log>, queued: seq<Log>, unread: seq<Hash>, ended: bool)
    requires WellFormed(storage)
    ensures var table := TableOf(storage, params);
            && emitted + queued + Stream(table, unread) == Stream(table, Announced(events))
            && (ended ==> Down(events) && emitted == Stream(table, Announced(events)))
  {
    var subscription;
    subscription, emitted, ended := PushEvents(storage, params, events);
    PushedKeeps(storage, subscription.table, events);
    unread, queued := subscription.blocks, subscription.queued;
    Assoc(emitted, queued, Stream(subscription.table, unread));
  }

  // ----- Polling until there is no log -----

  function PollAll(storage: Storage, table: Table, closed: bool, f: Feed): (Feed, seq<Log>)
    decreases |f.blocks|, |f.queued|
  {
    var (g, r) := PollOnce(storage, table, closed, f);
    if !r.Ready? then (g, [])
    else
      var (end, logs) := PollAll(storage, table, closed, g);
      (end, [r.log] + logs)
  }

  /** What is left unread is all that follows a missing block. */
  ghost predicate LeftBehind(storage: Storage, all: seq<Hash>, unread: seq<Hash>) {
    && IsSuffix(unread, all)
    && (unread != [] ==> |unread| < |all| && !Found(storage, all[|all| - |unread| - 1]))
  }

  lemma LeftInSuffix(storage: Storage, all: seq<Hash>, part: seq<Hash>, unread: seq<Hash>)
    requires IsSuffix(part, all) && LeftBehind(storage, part, unread)
    ensures LeftBehind(storage, all, unread)
  {
  }

  lemma {:induction false} FillLeaves(storage: Storage, table: Table, closed: bool, f: Feed)
    ensures var (g, r) := Fill(storage, table, closed, f);
            r.Some? ==> LeftBehind(storage, f.blocks, g.blocks)
    decreases |f.blocks|
  {
    if f.queued == [] && f.blocks != [] && Found(storage, f.blocks[0]) {
      var g := Feed(f.blocks[1..], LogsOf(table, f.blocks[0]));
      FillLeaves(storage, table, closed, g);
      if Fill(storage, table, closed, g).1.Some? {
        LeftInSuffix(storage, f.blocks, g.blocks, Fill(storage, table, closed, g).0.blocks);
      }
    }
  }

  /** Polling until there is no log loses nothing and leaves nothing queued. */
  lemma {:induction false} PollAllKeeps(storage: Storage, table: Table, closed: bool, f: Feed)
    requires Consistent(storage, table)
    ensures var (end, logs) := PollAll(storage, table, closed, f);
            end.queued == [] && logs + Rest(table, end) == Rest(table, f)
    decreases |f.blocks|, |f.queued|
  {
    PollKeeps(storage, table, closed, f);
    var (g, r) := PollOnce(storage, table, closed, f);
    if r.Ready? {
      PollAllKeeps(storage, table, closed, g);
      var (end, logs) := PollAll(storage, table, closed, g);
      Assoc([r.log], logs, Rest(table, end));
    }
  }

  /** It leaves unread only what follows a missing block. */
  lemma {:induction false} PollAllLeaves(storage: Storage, table: Table, closed: bool, f: Feed)
    ensures LeftBehind(storage, f.blocks, PollAll(storage, table, closed, f).0.blocks)
    decreases |f.blocks|, |f.queued|
  {
    FillSuffix(storage, table, closed, f);
    FillLeaves(storage, table, closed, f);
    var (g, r) := PollOnce(storage, table, closed, f);
    if r.Ready? {
      PollAllLeaves(storage, table, closed, g);
      LeftInSuffix(storage, f.blocks, g.blocks, PollAll(storage, table, closed, g).0.blocks);
    }
  }

  method Exhaust(subscription: LogsSubscription) returns (logs: seq<Log>)
    requires subscription.Valid()
    modifies subscription`blocks, subscription`queued
    ensures (subscription.Now(), logs)
         == PollAll(subscription.storage, subscription.table, subscription.closed, old(subscription.Now()))
  {
    logs := [];
    var going := true;
    ghost var whole := PollAll(subscription.storage, subscription.table, subscription.closed, subscription.Now());
    assert [] + whole.1 == whole.1;
    while going
      invariant !going ==> whole == (subscription.Now(), logs)
      invariant going ==>
                  var now := subscription.Now();
                  var (end, more) := PollAll(subscription.storage, subscription.table, subscription.closed, now);
                  whole == (end, logs + more)
      decreases going, |subscription.blocks|, |subscription.queued|
    {
      ghost var before := subscription.Now();
      var r := subscription.Poll();
      if r.Ready? {
        Assoc(logs, [r.log],
              PollAll(subscription.storage, subscription.table, subscription.closed, subscription.Now()).1);
        logs := logs + [r.log];
      } else {
        assert logs + [] == logs;
        going := false;
      }
    }
  }

  lemma SettledExact(storage: Storage, table: Table, events: seq<Event>)
    requires Consistent(storage, table)
    ensures var p := Pushed(storage, table, events);
            var (end, logs) := PollAll(storage, table, p.closed, p.feed);
            && (p.emitted + logs) + Stream(table, end.blocks) == Stream(table, Announced(events))
            && LeftBehind(storage, Announced(events), end.blocks)
  {
    var p := Pushed(storage, table, events);
    var (end, logs) := PollAll(storage, table, p.closed, p.feed);
    PushedKeeps(storage, table, events);
    PollAllKeeps(storage, table, p.closed, p.feed);
    assert Rest(table, end) == Stream(table, end.blocks);
    Assoc(p.emitted, logs, Stream(table, end.blocks));
    PushedSuffix(storage, table, events);
    PollAllLeaves(storage, table, p.closed, p.feed);
    LeftInSuffix(storage, Announced(events), p.feed.blocks, end.blocks);
  }

  /**
   After any events, polling until there is no log sends out the logs of everything announced,
   unless a missing block keeps what follows it unread.
   */
  method Settle(storage: Storage, params: Params, events: seq<Event>) returns (emitted: seq<Log>, unread: seq<Hash>)
    requires WellFormed(storage)
    ensures var table := TableOf(storage, params);
            emitted + Stream(table, unread) == Stream(table, Announced(events))
    ensures LeftBehind(storage, Announced(events), unread)
    ensures (forall h :: h in Announced(events) ==> Found(storage, h)) ==>
              unread == [] && emitted == Stream(TableOf(storage, params), Announced(events))
  {
    var subscription, sent, ended := PushEvents(storage, params, events);
    SettledExact(storage, subscription.table, events);
    var logs := Exhaust(subscription);
    emitted, unread := sent + logs, subscription.blocks;
  }

  /** A subscription to two blocks of which neither is stored, after one poll. */
  method StalledRun(params: Params, first: Hash, second: Hash) returns (r: PollResult, unread: seq<Hash>)
    ensures r == Pending && unread == [second]
  {
    var subscription := new LogsSubscription(Storage(map[], map[]), params);
    subscription.Notify(first);
    subscription.Notify(second);
    r := subscription.Poll();
    unread := subscription.blocks;
  }

  /**
   Any interleaving of notifications and polls: once both listeners have read every notification,
   what the filter's polls returned is what the subscription emitted followed by its queue.
   */
  method Deliver(storage: Storage, params: Params, events: seq<Event>)
      returns (pulled: seq<Log>, unreadByFilter: seq<Hash>,
               emitted: seq<Log>, queued: seq<Log>, unreadBySubscription: seq<Hash>, ended: bool)
    requires WellFormed(storage)
    ensures pulled + Stream(TableOf(storage, params), unreadByFilter)
         == emitted + queued + Stream(TableOf(storage, params), unreadBySubscription)
         == Stream(TableOf(storage, params), Announced(events))
    ensures unreadByFilter == unreadBySubscription ==> pulled == emitted + queued
    ensures ended ==> Down(events) && emitted == pulled + Stream(TableOf(storage, params), unreadByFilter)
  {
    pulled, unreadByFilter := PullRun(storage, params, events);
    emitted, queued, unreadBySubscription, ended := PushRun(storage, params, events);
    if unreadByFilter == unreadBySubscription {
      SameRest(pulled, emitted + queued, Stream(TableOf(storage, params), unreadByFilter));
    }
  }

  lemma SameRest(a: seq<Log>, b: seq<Log>, rest: seq<Log>)
    requires a + rest == b + rest
    ensures a == b
  {
    assert |a + rest| == |b + rest|;
    assert a == (a + rest)[..|a|] && b == (b + rest)[..|b|];
  }
}
