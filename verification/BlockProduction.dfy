/** Anvil's block producer: one mining task at a time, a backlog, and the node service polling both. */
module BlockProduction {
  import opened Common

  type Transaction = nat
  type Batch = seq<Transaction>

  class BlockProducer {
    /** The backend is here when no block is being mined. */
    var idleBackend: bool
    /** The batch being mined by the single active task. */
    var blockMining: Option<Batch>
    var queued: seq<Batch>

    /** Between polls the backend is either idle or inside the mining task, never both, never lost. */
    ghost predicate Valid()
      reads this
    {
      idleBackend <==> blockMining.None?
    }

    /** Batches accepted and not yet mined: the one in flight, then the backlog. */
    function Outstanding(): seq<Batch>
      reads this
    {
      (if blockMining.Some? then [blockMining.value] else []) + queued
    }

    /** Every outstanding batch waits behind a task in flight. */
    ghost predicate Busy()
      reads this
    {
      Outstanding() != [] ==> blockMining.Some?
    }

    constructor ()
      ensures Valid() && blockMining.None? && queued == []
    {
      idleBackend, blockMining, queued := true, None, [];
    }

    method Enqueue(batch: Batch)
      requires Valid()
      modifies this
      ensures Valid() && Outstanding() == old(Outstanding()) + [batch]
    {
      queued := queued + [batch];
    }

    /**
     `poll_next`; `taskReady` is what polling the mining task gives. The oldest outstanding batch
     comes out when its task is ready; otherwise nothing is lost and a task is in flight.
     */
    method PollNext(taskReady: bool) returns (outcome: Option<Batch>)
      requires Valid()
      modifies this
      ensures Valid()
      ensures outcome.Some? <==> old(Outstanding()) != [] && taskReady
      ensures outcome.Some? ==> old(Outstanding()) == [outcome.value] + Outstanding()
      ensures outcome.None? ==> Outstanding() == old(Outstanding()) && Busy()
    {
      if queued != [] {
        var backend := idleBackend;
        idleBackend := false;
        if backend {
          blockMining := Some(queued[0]);
          queued := queued[1..];
        }
      }
      var mining := blockMining;
      blockMining := None;
      if mining.Some? {
        if taskReady {
          idleBackend := true;
          return mining;
        }
        blockMining := mining;
      }
      return None;
    }
  }

  class NodeService {
    const producer: BlockProducer
    /** Batches whose blocks have been handed to the pool. */
    var mined: seq<Batch>
    /** Every batch the miner has returned. */
    ghost var fed: seq<Batch>

    ghost predicate Valid()
      reads this, producer
    {
      producer.Valid() && fed == mined + producer.Outstanding()
    }

    constructor ()
      ensures Valid() && fresh(producer) && fed == [] && mined == []
    {
      producer := new BlockProducer();
      mined := [];
      fed := [];
    }

    /** The inner loop of `poll`: advance production until it is pending, starting at answer `t`. */
    method Drain(tasks: seq<bool>, t: nat) returns (t': nat)
      requires Valid() && t <= |tasks|
      modifies this, producer
      ensures Valid() && producer.Busy() && fed == old(fed) && old(mined) <= mined
      ensures t <= t' <= |tasks|
      ensures AllReady(tasks) ==>
                && t' - t == |mined| - |old(mined)|
                && (producer.Outstanding() == [] || t' == |tasks|)
    {
      t' := t;
      while true
        invariant Valid() && fed == old(fed) && old(mined) <= mined
        invariant t <= t' <= |tasks|
        invariant AllReady(tasks) ==> t' - t == |mined| - |old(mined)|
        decreases |tasks| - t'
      {
        var taskReady := false;
        ghost var outstanding, was := producer.Outstanding(), mined;
        if producer.Outstanding() != [] && t' < |tasks| {
          taskReady := tasks[t'];
          t' := t' + 1;
        }
        var outcome := producer.PollNext(taskReady);
        if outcome.None? {
          break;
        }
        mined := mined + [outcome.value];
        assert was + outstanding == mined + producer.Outstanding();
      }
    }

    /**
     One `poll`. `tasks` are the answers of the mining task each time it is polled (pending once
     they run out), `ready` the batches the miner returns before it is pending.
     */
    method Poll(tasks: seq<bool>, ready: seq<Batch>)
      requires Valid()
      modifies this, producer
      ensures Valid()
      ensures fed == old(fed) + ready
      ensures old(mined) <= mined
      ensures producer.Busy()
      ensures AllReady(tasks) && |old(producer.Outstanding())| + |ready| <= |tasks| ==>
                mined == fed && producer.Outstanding() == []
    {
      var r := 0;
      var t := Drain(tasks, 0);
      while r < |ready|
        invariant Valid() && producer.Busy() && t <= |tasks| && r <= |ready|
        invariant fed == old(fed) + ready[..r]
        invariant old(mined) <= mined
        invariant AllReady(tasks) ==>
                    && t == |mined| - |old(mined)|
                    && (producer.Outstanding() == [] || t == |tasks|)
      {
        producer.Enqueue(ready[r]);
        fed := fed + [ready[r]];
        r := r + 1;
        t := Drain(tasks, t);
      }
      assert ready[..r] == ready;
    }
  }

  predicate AllReady(tasks: seq<bool>) {
    forall i :: 0 <= i < |tasks| ==> tasks[i]
  }

  /**
   Any run of polls from a fresh node: what the miner returned is, in order, what was mined,
   then the batch in flight, then the backlog, and a backlog never sits behind an idle backend.
   */
  method Drive(tasks: seq<seq<bool>>, ready: seq<seq<Batch>>)
      returns (mined: seq<Batch>, inFlight: Option<Batch>, backlog: seq<Batch>, idle: bool)
    requires |tasks| == |ready|
    ensures Concat(ready) == mined + (if inFlight.Some? then [inFlight.value] else []) + backlog
    ensures backlog != [] ==> inFlight.Some?
    ensures idle <==> inFlight.None?
  {
    var node := new NodeService();
    for i := 0 to |ready|
      invariant node.Valid() && fresh(node) && fresh(node.producer) && node.producer.Busy()
      invariant node.fed == Concat(ready[..i])
    {
      node.Poll(tasks[i], ready[i]);
      assert ready[..i + 1][..i] == ready[..i];
    }
    assert ready[..|ready|] == ready;
    mined, inFlight, backlog, idle :=
      node.mined, node.producer.blockMining, node.producer.queued, node.producer.idleBackend;
  }
}
