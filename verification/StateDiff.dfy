/** `getStateDiff`: the recorded storage accesses folded into one entry per changed slot. */
module StateDiff {
  import opened Common
  import opened Recorder
  import opened Journal
  import opened RecorderInvariant

  datatype SlotDiff = SlotDiff(previousValue: Word, newValue: Word)
  type Diffs = map<Address, map<Word, SlotDiff>>

  function AddAccess(d: Diffs, a: StorageAccess): Diffs {
    if !a.isWrite || a.reverted then d
    else
      var slots := if a.account in d then d[a.account] else map[];
      var entry := if a.slot in slots then slots[a.slot].(newValue := a.newValue)
                   else SlotDiff(a.previousValue, a.newValue);
      d[a.account := slots[a.slot := entry]]
  }

  function Fold(entries: seq<StorageAccess>): Diffs {
    if entries == [] then map[] else AddAccess(Fold(entries[..|entries| - 1]), entries[|entries| - 1])
  }

  predicate Listed(d: Diffs, k: Key) {
    k.account in d && k.slot in d[k.account]
  }

  lemma FoldStep(e: seq<StorageAccess>, a: StorageAccess)
    ensures Fold(e + [a]) == AddAccess(Fold(e), a)
  {
    assert (e + [a])[..|e|] == e;
  }

  /** The innermost loop of `get_recorded_state_diffs`; `before` are the accesses already folded. */
  method AddAccesses(d: Diffs, accesses: seq<StorageAccess>, ghost before: seq<StorageAccess>) returns (diffs: Diffs)
    requires d == Fold(before)
    ensures diffs == Fold(before + accesses)
  {
    diffs := d;
    assert before + [] == before;
    for m := 0 to |accesses|
      invariant diffs == Fold(before + accesses[..m])
    {
      var access := accesses[m];
      assert before + accesses[..m + 1] == (before + accesses[..m]) + [access];
      FoldStep(before + accesses[..m], access);
      if access.isWrite && !access.reverted {
        var slots := if access.account in diffs then diffs[access.account] else map[];
        if access.slot in slots {
          slots := slots[access.slot := slots[access.slot].(newValue := access.newValue)];
        } else {
          slots := slots[access.slot := SlotDiff(access.previousValue, access.newValue)];
        }
        diffs := diffs[access.account := slots];
      }
    }
    assert accesses[..|accesses|] == accesses;
  }

  /** The loop over one list of records. */
  method AddRecords(d: Diffs, list: Records, ghost before: seq<StorageAccess>) returns (diffs: Diffs)
    requires d == Fold(before)
    ensures diffs == Fold(before + Accesses(list))
  {
    diffs := d;
    assert before + [] == before && list[..0] == [];
    for j := 0 to |list|
      invariant diffs == Fold(before + Accesses(list[..j]))
    {
      var record := list[j];
      assert list[..j + 1][..j] == list[..j];
      Assoc(before, Accesses(list[..j]), record.storageAccesses);
      if record.storageAccesses != [] || record.oldBalance != record.newBalance || record.oldNonce != record.newNonce {
        diffs := AddAccesses(diffs, record.storageAccesses, before + Accesses(list[..j]));
      } else {
        assert Accesses(list[..j + 1]) == Accesses(list[..j]);
      }
    }
    assert list[..|list|] == list;
  }

  /** Storage part of `get_recorded_state_diffs`, over the stack of lists of records. */
  method GetRecordedStateDiffs(recorded: Option<Stack>) returns (diffs: Diffs)
    ensures diffs == if recorded.None? then map[] else Fold(Flat(recorded.value))
  {
    diffs := map[];
    if recorded.Some? {
      var stack := recorded.value;
      for i := 0 to |stack|
        invariant diffs == Fold(Flat(stack[..i]))
      {
        assert stack[..i + 1][..i] == stack[..i];
        diffs := AddRecords(diffs, stack[i], Flat(stack[..i]));
      }
      assert stack[..|stack|] == stack;
    }
  }

  ghost predicate Written(e: seq<StorageAccess>, k: Key) {
    exists i :: 0 <= i < |e| && Effective(e[i], k)
  }

  lemma WrittenStep(e: seq<StorageAccess>, k: Key)
    requires e != []
    ensures Written(e, k) <==> Written(e[..|e| - 1], k) || Effective(e[|e| - 1], k)
  {
    var n := |e| - 1;
    if Written(e[..n], k) {
      var i :| 0 <= i < n && Effective(e[..n][i], k);
      assert Effective(e[i], k);
    }
    if Written(e, k) {
      var i :| 0 <= i < |e| && Effective(e[i], k);
      assert i == n || Effective(e[..n][i], k);
    }
  }

  /** A slot is listed exactly when some write of it is not marked reverted. */
  lemma {:induction false} ListedIffWritten(e: seq<StorageAccess>, k: Key)
    ensures Listed(Fold(e), k) <==> Written(e, k)
  {
    if e != [] {
      ListedIffWritten(e[..|e| - 1], k);
      WrittenStep(e, k);
    }
  }

  /** Over chained accesses an entry runs from the value before the first write to the replayed one. */
  lemma {:induction false} FoldSpansReplay(b: Storage, e: seq<StorageAccess>, k: Key)
    requires Chained(b, e, k)
    ensures Listed(Fold(e), k) ==>
              Fold(e)[k.account][k.slot] == SlotDiff(Get(b, k), Get(Replay(b, e), k))
    ensures !Listed(Fold(e), k) ==> Get(Replay(b, e), k) == Get(b, k)
  {
    if e != [] {
      var n := |e| - 1;
      assert Chained(b, e[..n], k) by {
        forall i | 0 <= i < n && Effective(e[..n][i], k)
          ensures e[..n][i].previousValue == Get(Replay(b, e[..n][..i]), k)
        {
          assert e[..n][..i] == e[..i];
          assert Effective(e[i], k);
        }
      }
      FoldSpansReplay(b, e[..n], k);
    }
  }

  // ----- The in-place recorder driven through a run -----

  /** The hooks fired by one operation, in a frame at depth `|s.checkpoints|`. */
  method Fire(c: Cheatcodes, s: Evm, op: Op)
    requires s.checkpoints != [] && c.recorded == s.recorded
    modifies c
    ensures c.recorded == Step(s, op).recorded
  {
    var depth := |s.checkpoints|;
    match op
    case EnterCall(chain, scheme, caller, account, value, data, info) =>
      c.EnterFrame(CallRecord(chain, scheme, caller, account, value, data, info, depth));
    case EnterCreate(chain, caller, account, value, data) =>
      c.EnterFrame(CreateRecord(chain, caller, account, value, data, depth));
    case Leave(kind, outcome, acc) => c.LeaveFrame(kind, depth - 1, outcome == Revert, acc);
    case Sload(account, slot) => c.RecordStorage(ReadAccess(s, account, slot), depth);
    case Sstore(account, slot, written, _) => c.RecordStorage(WriteAccess(s, account, slot, written), depth);
    case SelfDestructOp(chain, accessor, target, value, info) =>
      c.RecordSelfDestruct(SelfDestructRecord(chain, accessor, target, value, info, depth));
    case ExtOp(chain, scheme, accessor, target, info) =>
      c.RecordExt(ExtRecord(chain, scheme, accessor, target, info, depth));
    case VmStore(_, _, _) =>
    case Restart(returning) =>
      if returning {
        var _ := c.StopAndReturn();
      } else {
        c.StartRecording();
      }
  }

  method Record(storage: Storage, ops: seq<Op>) returns (c: Cheatcodes, s: Evm)
    ensures fresh(c) && s == Run(storage, ops).evm && c.recorded == s.recorded
  {
    c := new Cheatcodes();
    s := Init(storage).evm;
    for i := 0 to |ops|
      invariant fresh(c) && s == Run(storage, ops[..i]).evm && c.recorded == s.recorded
    {
      assert ops[..i + 1][..i] == ops[..i];
      if s.checkpoints != [] {
        Fire(c, s, ops[i]);
      }
      s := Step(s, ops[i]);
    }
    assert ops[..|ops|] == ops;
  }

  /** The hooks, run over any sequence of operations, leave the recorder the run says they do. */
  method RecordRun(storage: Storage, ops: seq<Op>) returns (recorded: Option<Stack>, s: Evm)
    ensures s == Run(storage, ops).evm && recorded == s.recorded
  {
    var c;
    c, s := Record(storage, ops);
    recorded := c.recorded;
  }

  /** The records handed out hold the accesses of the flattened view. */
  lemma {:induction false} FlatConcat(stack: Stack)
    ensures Accesses(Concat(stack)) == Flat(stack)
  {
    if stack != [] {
      var n := |stack| - 1;
      FlatConcat(stack[..n]);
      AccessesSplit(Concat(stack[..n]), stack[n]);
    }
  }

  /**
   `stopAndReturnStateDiff` after any run: the accesses in the records returned are those recorded, in
   order and flagged exactly, and replaying them gives the storage on every untainted key.
   */
  method ReturnedByRun(storage: Storage, ops: seq<Op>) returns (records: Records)
    ensures Run(storage, ops).evm.recorded.None? ==> records == []
    ensures var w := Run(storage, ops);
            w.evm.recorded.Some? ==>
              && Accesses(records) == Entries(w.history.log, w.history.reverted)
              && forall k | k !in w.history.tainted ::
                   Get(Replay(w.history.baseline, Accesses(records)), k) == Get(w.evm.storage, k)
  {
    var c, s := Record(storage, ops);
    RunKeepsInv(storage, ops);
    if s.recorded.Some? {
      FlatConcat(s.recorded.value);
    }
    records := c.StopAndReturn();
  }

  /** `getStateDiff` after any run: the net change of every slot not changed behind the recorder's back. */
  method StateDiffOfRun(storage: Storage, ops: seq<Op>) returns (diffs: Diffs)
    ensures var w := Run(storage, ops);
            w.evm.recorded.Some? ==>
              forall k: Key | k !in w.history.tainted ::
                var before, now := Get(w.history.baseline, k), Get(w.evm.storage, k);
                if Listed(diffs, k) then diffs[k.account][k.slot] == SlotDiff(before, now) else before == now
  {
    var recorded, s := RecordRun(storage, ops);
    diffs := GetRecordedStateDiffs(recorded);
    forall k: Key | k !in Run(storage, ops).history.tainted {
      NetDiff(storage, ops, k);
    }
  }

  // ----- Theorems over whole runs -----

  /**
   At every moment of every run, replaying the writes not marked reverted gives the journaled
   storage, on every key not changed behind the recorder's back.
   */
  lemma {:induction false} ReplayIsStorage(storage: Storage, ops: seq<Op>)
    ensures var w := Run(storage, ops);
            w.evm.recorded.Some? ==>
              forall k | k !in w.history.tainted ::
                Get(Replay(w.history.baseline, Flat(w.evm.recorded.value)), k) == Get(w.evm.storage, k)
  {
    RunKeepsInv(storage, ops);
  }

  /** A listed slot goes from its value at the baseline to its current one; unlisted slots did not change. */
  lemma {:induction false} NetDiff(storage: Storage, ops: seq<Op>, k: Key)
    ensures var w := Run(storage, ops);
            var h, now := w.history, Get(w.evm.storage, k);
            w.evm.recorded.Some? && k !in h.tainted ==>
              var d := Fold(Flat(w.evm.recorded.value));
              && (Listed(d, k) ==> d[k.account][k.slot] == SlotDiff(Get(h.baseline, k), now))
              && (!Listed(d, k) ==> now == Get(h.baseline, k))
              && (!h.rewound ==> h.baseline == h.start)
  {
    RunKeepsInv(storage, ops);
    var w := Run(storage, ops);
    if w.evm.recorded.Some? && k !in w.history.tainted {
      FoldSpansReplay(w.history.baseline, Flat(w.evm.recorded.value), k);
    }
  }

  /**
   The recorder's view is the log of recorded accesses in execution order, each flagged reverted
   exactly when a frame live when it was recorded has since ended in revert.
   */
  lemma {:induction false} RevertMarkingExact(storage: Storage, ops: seq<Op>, i: nat)
    ensures var w := Run(storage, ops);
            var h := w.history;
            w.evm.recorded.Some? ==>
              var flat := Flat(w.evm.recorded.value);
              && |flat| == |h.log|
              && (i < |flat| ==>
                    && flat[i].(reverted := false) == h.log[i].access.(reverted := false)
                    && (flat[i].reverted <==> exists id :: id in h.log[i].live && id in h.reverted))
  {
    RunKeepsInv(storage, ops);
    var w := Run(storage, ops);
    var h := w.history;
    if w.evm.recorded.Some? && i < |h.log| {
      var both := h.log[i].live * h.reverted;
      assert forall id :: id in both <==> id in h.log[i].live && id in h.reverted;
      assert both != {} <==> exists id :: id in both;
    }
  }

  /** While the root frame lives, the stack has its one-list-per-frame shape. */
  lemma {:induction false} StackShape(storage: Storage, ops: seq<Op>)
    ensures var w := Run(storage, ops);
            w.evm.recorded.Some? && w.evm.checkpoints != [] ==>
              ShapeInv(w.evm.recorded.value, |w.evm.checkpoints|, w.history.base)
  {
    RunKeepsInv(storage, ops);
  }

  /** From the storage at the (re)start, replay is right exactly where something was written or nothing rewound. */
  lemma {:induction false} ReplayFromStart(storage: Storage, ops: seq<Op>, k: Key)
    ensures var w := Run(storage, ops);
            var h := w.history;
            w.evm.recorded.Some? && k !in h.tainted ==>
              var flat := Flat(w.evm.recorded.value);
              (Get(Replay(h.start, flat), k) == Get(w.evm.storage, k)
               <==> (Get(h.start, k) == Get(h.baseline, k)
                     || Written(flat, k)))
  {
    RunKeepsInv(storage, ops);
    var w := Run(storage, ops);
    if w.evm.recorded.Some? {
      ReplayLookup(w.history.start, w.history.baseline, Flat(w.evm.recorded.value), k);
    }
  }

  lemma {:induction false} ReplayLookup(b: Storage, c: Storage, e: seq<StorageAccess>, k: Key)
    ensures Written(e, k) ==> Get(Replay(b, e), k) == Get(Replay(c, e), k)
    ensures !Written(e, k) ==> Get(Replay(b, e), k) == Get(b, k) && Get(Replay(c, e), k) == Get(c, k)
  {
    if e != [] {
      ReplayLookup(b, c, e[..|e| - 1], k);
      WrittenStep(e, k);
    }
  }

  // ----- Exactly which steps break the agreement -----

  ghost predicate Agrees(w: World, k: Key)
    requires w.evm.recorded.Some?
  {
    Get(Replay(w.history.baseline, Flat(w.evm.recorded.value)), k) == Get(w.evm.storage, k)
  }

  /** A frame that ends without being marked leaves the view as it was. */
  lemma UnmarkedEnd(stack: Stack, h: History, kind: FrameKind, isRevert: bool, acc: Option<AccountInfo>)
    requires h.marks != [] && StackInv(stack, h) && (isRevert ==> |h.marks| == 1)
    ensures Flat(EndFrame(stack, kind, |h.marks| - 1, isRevert, acc)) == Flat(stack)
  {
    if stack != [] && |h.marks| > 1 {
      FlatEnd(stack, kind, |h.marks| - 1, false, acc);
    }
  }

  /** A key tainted by the end of a frame has been rolled back without being marked. */
  lemma LeaveTaints(s: Evm, h: History, outcome: Outcome, k: Key)
    requires s.checkpoints != [] && |h.marks| == |s.checkpoints| && k !in h.tainted
    requires h.marks[|h.marks| - 1].tainted <= h.tainted && k in AfterLeave(s, h, outcome).tainted
    ensures !outcome.Success? && (outcome.Revert? ==> |h.marks| == 1)
    ensures Get(s.storage, k) != Get(s.checkpoints[|h.marks| - 1], k)
    ensures AfterLeave(s, h, outcome).baseline == h.baseline
  {
  }

  /** A frame rolled back without being marked puts the keys it changed out of agreement. */
  lemma {:induction false} UnmarkedRollback(w: World, op: Op, k: Key)
    requires Inv(w) && w.evm.recorded.Some? && w.evm.checkpoints != [] && Agrees(w, k)
    requires op.Leave? && !op.outcome.Success? && (op.outcome.Revert? ==> |w.evm.checkpoints| == 1)
    requires Get(w.evm.storage, k) != Get(w.evm.checkpoints[|w.evm.checkpoints| - 1], k)
    ensures Next(w, op).evm.recorded.Some? && !Agrees(Next(w, op), k)
  {
    var s, h, n, w' := w.evm, w.history, |w.evm.checkpoints| - 1, Next(w, op);
    assert w'.history == AfterLeave(s, h, op.outcome);
    UnmarkedEnd(s.recorded.value, h, op.kind, op.outcome.Revert?, op.acc);
    assert w'.evm.recorded.value == EndFrame(s.recorded.value, op.kind, n, op.outcome.Revert?, op.acc);
    assert w'.evm.storage == s.checkpoints[n];
  }

  lemma {:induction false} TaintingLeave(w: World, op: Op, k: Key)
    requires Inv(w) && w.evm.recorded.Some? && w.evm.checkpoints != [] && k !in w.history.tainted
    requires op.Leave? && k in Next(w, op).history.tainted
    ensures !Agrees(Next(w, op), k)
  {
    var s, h := w.evm, w.history;
    assert Next(w, op).history == AfterLeave(s, h, op.outcome);
    assert h.marks[|h.marks| - 1].tainted <= h.tainted;
    UntaintedAgrees(w, k);
    LeaveTaints(s, h, op.outcome, k);
    UnmarkedRollback(w, op, k);
  }

  lemma StoreNext(w: World, op: Op)
    requires |w.history.marks| == |w.evm.checkpoints| && w.evm.checkpoints != [] && w.evm.recorded.Some? && op.Sstore?
    ensures var w', a := Next(w, op), WriteAccess(w.evm, op.account, op.slot, op.written);
            && w'.evm.recorded == Some(StorageStep(w.evm.recorded.value, a, |w.evm.checkpoints|))
            && w'.history.baseline == w.history.baseline
  {
  }

  lemma {:induction false} StoreRecords(w: World, op: Op)
    requires Inv(w) && w.evm.recorded.Some? && w.evm.checkpoints != [] && op.Sstore?
    ensures var w', flat := Next(w, op), Flat(w.evm.recorded.value);
            && w'.evm.recorded.Some? && w'.history.baseline == w.history.baseline
            && Flat(w'.evm.recorded.value)
               == if !InRecordedFrame(w.evm, w.history) then flat
                  else flat + [WriteAccess(w.evm, op.account, op.slot, op.written)]
  {
    StoreNext(w, op);
    assert RecordingInv(w.evm.recorded.value, w.history, w.evm.storage, w.evm.checkpoints);
    StackStorage(w.evm, w.history, WriteAccess(w.evm, op.account, op.slot, op.written));
  }

  lemma ReplayWrite(b: Storage, e: seq<StorageAccess>, a: StorageAccess, k: Key)
    requires a.isWrite && !a.reverted
    ensures Get(Replay(b, e + [a]), k) == if k == Key(a.account, a.slot) then a.newValue else Get(Replay(b, e), k)
  {
    ReplayStep(b, e, a);
  }

  /** What an `SSTORE`, recorded or not, executed or not, does to the replay and to the storage. */
  lemma {:induction false} StoreReplay(w: World, op: Op, k: Key)
    requires Inv(w) && w.evm.recorded.Some? && w.evm.checkpoints != [] && op.Sstore?
    ensures var w' := Next(w, op);
            var here := k == Key(op.account, op.slot);
            && w'.evm.recorded.Some?
            && Get(Replay(w'.history.baseline, Flat(w'.evm.recorded.value)), k)
               == (if here && InRecordedFrame(w.evm, w.history) then op.written
                   else Get(Replay(w.history.baseline, Flat(w.evm.recorded.value)), k))
            && Get(w'.evm.storage, k) == (if here && op.executes then op.written else Get(w.evm.storage, k))
  {
    StoreRecords(w, op);
    ReplayWrite(w.history.baseline, Flat(w.evm.recorded.value),
                WriteAccess(w.evm, op.account, op.slot, op.written), k);
  }

  lemma UntaintedAgrees(w: World, k: Key)
    requires Inv(w) && w.evm.recorded.Some? && k !in w.history.tainted
    ensures Agrees(w, k)
  {
  }

  lemma StoreTaints(s: Evm, h: History, op: Op, k: Key)
    requires |h.marks| == |s.checkpoints| && s.checkpoints != [] && op.Sstore?
    requires k !in h.tainted && k in Advance(s, h, op).tainted
    ensures k == Key(op.account, op.slot) && Get(s.storage, k) != op.written
    ensures InRecordedFrame(s, h) != op.executes
  {
  }

  lemma {:induction false} TaintingStore(w: World, op: Op, k: Key)
    requires Inv(w) && w.evm.recorded.Some? && w.evm.checkpoints != [] && k !in w.history.tainted
    requires op.Sstore? && k in Next(w, op).history.tainted
    ensures !Agrees(Next(w, op), k)
  {
    UntaintedAgrees(w, k);
    StoreTaints(w.evm, w.history, op, k);
    StoreReplay(w, op, k);
  }

  /** One step keeps an agreeing key in agreement if and only if it does not taint it. */
  lemma {:induction false} StepExact(w: World, op: Op, k: Key)
    requires Inv(w) && w.evm.recorded.Some? && k !in w.history.tainted
    ensures Next(w, op).evm.recorded.Some?
    ensures Agrees(Next(w, op), k) <==> k !in Next(w, op).history.tainted
  {
    var w' := Next(w, op);
    StepKeepsInv(w, op);
    if k in w'.history.tainted {
      if op.Leave? {
        TaintingLeave(w, op, k);
      } else if op.Sstore? {
        TaintingStore(w, op, k);
      } else {
        UntaintedAgrees(w, k);
        assert op.VmStore? && k == Key(op.account, op.slot) && Get(w.evm.storage, k) != op.written;
      }
    }
  }

  /** A recorded write that executes brings its key back into agreement, whatever has happened to it before. */
  lemma {:induction false} WriteRestores(w: World, op: Op)
    requires Inv(w) && op.Sstore? && op.executes && InRecordedFrame(w.evm, w.history)
    ensures Next(w, op).evm.recorded.Some? && Agrees(Next(w, op), Key(op.account, op.slot))
  {
    StoreReplay(w, op, Key(op.account, op.slot));
  }

  /** The steps the recorder can follow: while recording, no halts and no storage change it does not see. */
  predicate ScopedStep(w: World, op: Op) {
    w.evm.recorded.Some? ==>
      match op
      case Sstore(_, _, _, executes) => executes && InRecordedFrame(w.evm, w.history)
      case VmStore(_, _, _) => false
      case Leave(_, outcome, _) => !outcome.Halt? && (|w.evm.checkpoints| == 1 ==> outcome.Success?)
      case _ => true
  }

  /** Restarting forgets whatever was out of scope before. */
  predicate Scoped(storage: Storage, ops: seq<Op>) {
    ops == [] ||
    var before, op := ops[..|ops| - 1], ops[|ops| - 1];
    || (op.Restart? && Run(storage, before).evm.checkpoints != [])
    || (Scoped(storage, before) && ScopedStep(Run(storage, before), op))
  }

  /** In a scoped run replay gives the whole storage, from the storage at the (re)start unless rewound behind it. */
  lemma {:induction false} ScopedReplay(storage: Storage, ops: seq<Op>)
    requires Scoped(storage, ops)
    ensures var w := Run(storage, ops);
            w.evm.recorded.Some? ==>
              && w.history.tainted == {}
              && (forall k: Key ::
                    Get(Replay(w.history.baseline, Flat(w.evm.recorded.value)), k) == Get(w.evm.storage, k))
              && (!w.history.rewound ==> w.history.baseline == w.history.start)
  {
    RunKeepsInv(storage, ops);
    if ops != [] {
      var before, op := ops[..|ops| - 1], ops[|ops| - 1];
      RunKeepsInv(storage, before);
      if !(op.Restart? && Run(storage, before).evm.checkpoints != []) {
        ScopedReplay(storage, before);
        ScopedStaysClean(Run(storage, before), op);
      }
    }
  }

  lemma ScopedStaysClean(w: World, op: Op)
    requires Inv(w) && (w.evm.recorded.Some? ==> w.history.tainted == {}) && ScopedStep(w, op)
    ensures Next(w, op).evm.recorded.Some? ==> Next(w, op).history.tainted == {}
  {
    if op.Leave? && w.evm.checkpoints != [] {
      assert w.history.marks[|w.history.marks| - 1].tainted <= w.history.tainted;
    }
  }

  // ----- A run in which a halt breaks the agreement -----

  const START := Restart(false)
  const CALLEE := EnterCall(ChainInfo(0, 1), Call, 1, 7, 0, [], None)
  const WRITE := Sstore(7, 0, 5, true)
  const HALT := Leave(CallFrame, Halt, None)

  lemma {:induction false} BeforeHalt()
    ensures var w := Run(map[], [START, CALLEE, WRITE]);
            && w.evm.recorded.Some?
            && w.evm.storage == map[Key(7, 0) := 5]
            && w.evm.checkpoints == [map[], map[]]
            && w.history.tainted == {}
            && w.history.start == map[]
            && !w.history.rewound
  {
    assert [START][..0] == [];
    assert [START, CALLEE][..1] == [START];
    assert [START, CALLEE, WRITE][..2] == [START, CALLEE];
    var w := Run(map[], [START]);
    assert Run(map[], []) == Init(map[]) && w == Next(Init(map[]), START);
    assert w.evm == Evm(map[], [map[]], Some([])) && w.history.base == 1 && w.history.tainted == {};
    var w' := Run(map[], [START, CALLEE]);
    assert w'.evm.checkpoints == [map[], map[]] && InRecordedFrame(w'.evm, w'.history);
  }

  lemma HaltTaints(w: World)
    requires |w.history.marks| == |w.evm.checkpoints|
    requires w.evm.storage == map[Key(7, 0) := 5] && w.evm.checkpoints == [map[], map[]]
    requires w.history.start == map[] && w.history.baseline == map[]
    ensures var h := Next(w, HALT).history;
            Key(7, 0) in h.tainted && h.baseline == h.start == map[]
  {
    var k := Key(7, 0);
    assert k in w.evm.storage.Keys && Get(w.evm.storage, k) == 5 && Get(w.evm.checkpoints[1], k) == 0;
    assert k in Changed(w.evm.storage, w.evm.checkpoints[1]);
  }

  /** A halted frame's writes are rolled back by the journal and left unmarked by the recorder. */
  lemma {:induction false} HaltLeavesWritesUnmarked()
    ensures var w := Next(Run(map[], [START, CALLEE, WRITE]), HALT);
            && w.evm.recorded.Some?
            && w.history.baseline == w.history.start == map[]
            && !Agrees(w, Key(7, 0))
  {
    var w := Run(map[], [START, CALLEE, WRITE]);
    BeforeHalt();
    RunKeepsInv(map[], [START, CALLEE, WRITE]);
    HaltTaints(w);
    StepExact(w, HALT, Key(7, 0));
  }

  // ----- A run that rewinds behind the start -----

  const REVERT := Leave(CallFrame, Revert, None)

  lemma {:induction false} BeforeRewind()
    ensures var w := Run(map[], [CALLEE, WRITE, START]);
            && w.evm == Evm(map[Key(7, 0) := 5], [map[], map[]], Some([]))
            && w.history.start == map[Key(7, 0) := 5]
            && w.history.tainted == {}
            && w.history.marks[1].baseline == map[] && w.history.marks[1].tainted == {}
  {
    assert [CALLEE][..0] == [];
    assert [CALLEE, WRITE][..1] == [CALLEE];
    assert [CALLEE, WRITE, START][..2] == [CALLEE, WRITE];
    var w := Run(map[], [CALLEE]);
    assert Run(map[], []) == Init(map[]) && w == Next(Init(map[]), CALLEE);
    assert w.evm.checkpoints == [map[], map[]];
    assert w.evm == Evm(map[], [map[], map[]], None);
    var w' := Run(map[], [CALLEE, WRITE]);
    assert w'.evm.storage == map[Key(7, 0) := 5];
    assert w'.evm == Evm(map[Key(7, 0) := 5], [map[], map[]], None);
  }

  /** A frame open at the start reverts to before it: from the start, replay gives 5 where the storage has 0. */
  lemma {:induction false} RewindLosesStart()
    ensures var w := Next(Run(map[], [CALLEE, WRITE, START]), REVERT);
            && w.evm.recorded == Some([])
            && Key(7, 0) !in w.history.tainted
            && Get(Replay(w.history.start, Flat([])), Key(7, 0)) == 5
            && Get(w.evm.storage, Key(7, 0)) == 0
  {
    BeforeRewind();
  }
}
