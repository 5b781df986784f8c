/**
 Agreement of replay and storage, key by key. Unlike the tainted keys of the history, which also
 lose their previous values, a stale key is back as soon as a recorded write of it executes.
 */
module StaleKeys {
  import opened Common
  import opened Recorder
  import opened Journal
  import opened RecorderInvariant
  import opened StateDiff

  /** Keys on which replay is off, now and when each live frame was entered. */
  datatype Tracker = Tracker(stale: set<Key>, marks: seq<set<Key>>)

  function Track(w: World, t: Tracker, op: Op): (t': Tracker)
    requires |w.history.marks| == |w.evm.checkpoints| == |t.marks|
    ensures |t'.marks| == |Step(w.evm, op).checkpoints|
  {
    var s := w.evm;
    if s.checkpoints == [] then t
    else
      match op
      case EnterCall(_, _, _, _, _, _, _) => t.(marks := t.marks + [t.stale])
      case EnterCreate(_, _, _, _, _) => t.(marks := t.marks + [t.stale])
      case Leave(_, outcome, _) =>
        var n := |t.marks| - 1;
        Tracker(if outcome.Success? then t.stale
                else if outcome.Revert? && n > 0 then t.marks[n]
                else t.stale + Changed(s.storage, s.checkpoints[n]),
                t.marks[..n])
      case Sstore(account, slot, written, executes) =>
        var k := Key(account, slot);
        var same := Get(s.storage, k) == written;
        t.(stale := if InRecordedFrame(s, w.history)
                    then if executes || same then t.stale - {k} else t.stale + {k}
                    else if !executes || same then t.stale else t.stale + {k})
      case VmStore(account, slot, written) =>
        var k := Key(account, slot);
        if Get(s.storage, k) == written then t else t.(stale := t.stale + {k})
      case Restart(_) => Tracker({}, seq(|t.marks|, _ => {}))
      case _ => t
  }

  function TrackRun(storage: Storage, ops: seq<Op>): (t: Tracker)
    ensures |t.marks| == |Run(storage, ops).evm.checkpoints|
  {
    if ops == [] then Tracker({}, [{}])
    else Track(Run(storage, ops[..|ops| - 1]), TrackRun(storage, ops[..|ops| - 1]), ops[|ops| - 1])
  }

  ghost predicate AgreesOff(b: Storage, e: seq<StorageAccess>, st: Storage, stale: set<Key>) {
    forall k | k !in stale :: Get(Replay(b, e), k) == Get(st, k)
  }

  /** Replay gives the storage off the stale keys, now and for every live frame's checkpoint. */
  ghost predicate Tracked(h: History, storage: Storage, checkpoints: seq<Storage>, t: Tracker) {
    var e := Entries(h.log, h.reverted);
    && |t.marks| == |h.marks| == |checkpoints|
    && AgreesOff(h.baseline, e, storage, t.stale)
    && forall j :: 0 <= j < |h.marks| ==>
         && h.marks[j].offset <= |e|
         && AgreesOff(h.marks[j].baseline, e[..h.marks[j].offset], checkpoints[j], t.marks[j])
  }

  ghost predicate TrackInv(w: World, t: Tracker) {
    && |t.marks| == |w.history.marks| == |w.evm.checkpoints|
    && (w.evm.recorded.Some? ==> Tracked(w.history, w.evm.storage, w.evm.checkpoints, t))
  }

  // ----- Steps -----

  lemma EnterTracked(h: History, st: Storage, cps: seq<Storage>, t: Tracker)
    requires Tracked(h, st, cps, t)
    ensures Tracked(AfterEnter(h), st, cps + [st], t.(marks := t.marks + [t.stale]))
  {
    var e := Entries(h.log, h.reverted);
    assert e[..|e|] == e;
  }

  lemma RevertTracked(h: History, h': History, st: Storage, cps: seq<Storage>, t: Tracker)
    requires LedgerInv(h) && |h.marks| > 1 && Tracked(h, st, cps, t)
    requires Left(h, h', true) && h'.baseline == h.marks[|h.marks| - 1].baseline
    ensures var n := |h.marks| - 1;
            Tracked(h', cps[n], cps[..n], Tracker(t.marks[n], t.marks[..n]))
  {
    var n := |h.marks| - 1;
    var m := h.marks[n];
    var e, e' := Entries(h.log, h.reverted), Entries(h'.log, h'.reverted);
    EntriesRevert(h);
    ReplayMarked(m.baseline, e[..m.offset], e[m.offset..]);
    forall j | 0 <= j < n ensures e'[..h.marks[j].offset] == e[..h.marks[j].offset] {}
  }

  /** A frame that ends unmarked: the keys its rollback changed become stale. */
  lemma EndTracked(h: History, h': History, st: Storage, st': Storage, cps: seq<Storage>, t: Tracker, stale: set<Key>)
    requires h.marks != [] && Tracked(h, st, cps, t) && h'.baseline == h.baseline
    requires h'.log == h.log && h'.reverted == h.reverted && h'.marks == h.marks[..|h.marks| - 1]
    requires forall k | k !in stale :: k !in t.stale && Get(st', k) == Get(st, k)
    ensures var n := |h.marks| - 1; Tracked(h', st', cps[..n], Tracker(stale, t.marks[..n]))
  {
  }

  lemma LeaveTracked(w: World, t: Tracker, op: Op)
    requires Inv(w) && TrackInv(w, t) && w.evm.checkpoints != [] && op.Leave?
    ensures TrackInv(Next(w, op), Track(w, t, op))
  {
    var s, h, h' := w.evm, w.history, Next(w, op).history;
    assert h' == AfterLeave(s, h, op.outcome);
    AfterLeaveLeft(s, h, op.outcome);
    if s.recorded.Some? {
      if op.outcome.Revert? && |h.marks| > 1 {
        RevertTracked(h, h', s.storage, s.checkpoints, t);
      } else {
        EndTracked(h, h', s.storage, Next(w, op).evm.storage, s.checkpoints, t, Track(w, t, op).stale);
      }
    }
  }

  /** A step that leaves the log alone. */
  lemma ChangeTracked(h: History, h': History, st: Storage, st': Storage, cps: seq<Storage>,
                      t: Tracker, stale: set<Key>)
    requires Tracked(h, st, cps, t)
    requires h'.log == h.log && h'.reverted == h.reverted && h'.baseline == h.baseline && h'.marks == h.marks
    requires forall k | k !in stale :: k !in t.stale && Get(st', k) == Get(st, k)
    ensures Tracked(h', st', cps, t.(stale := stale))
  {
  }

  /** A step that logs the access `a`. */
  lemma LogTracked(h: History, h': History, a: StorageAccess, st: Storage, st': Storage, cps: seq<Storage>,
                   t: Tracker, stale: set<Key>)
    requires LedgerInv(h) && Tracked(h, st, cps, t) && !a.reverted
    requires h' == Log(h, a).(tainted := h'.tainted)
    requires forall k | k !in stale ::
               if Effective(a, k) then Get(st', k) == a.newValue else k !in t.stale && Get(st', k) == Get(st, k)
    ensures Tracked(h', st', cps, t.(stale := stale))
  {
    var e, e' := Entries(h.log, h.reverted), Entries(h'.log, h'.reverted);
    LedgerLog(h, a, h.tainted);
    assert e' == e + [a];
    ReplayStep(h.baseline, e, a);
    forall j | 0 <= j < |h.marks| ensures e'[..h.marks[j].offset] == e[..h.marks[j].offset] {}
  }

  lemma AccessTracked(w: World, t: Tracker, op: Op)
    requires Inv(w) && TrackInv(w, t) && w.evm.checkpoints != [] && w.evm.recorded.Some? && (op.Sload? || op.Sstore?)
    ensures TrackInv(Next(w, op), Track(w, t, op))
  {
    var s, h, w', stale := w.evm, w.history, Next(w, op), Track(w, t, op).stale;
    var a := if op.Sload? then ReadAccess(s, op.account, op.slot) else WriteAccess(s, op.account, op.slot, op.written);
    if InRecordedFrame(s, h) {
      assert w'.history == Log(h, a).(tainted := w'.history.tainted);
      LogTracked(h, w'.history, a, s.storage, w'.evm.storage, s.checkpoints, t, stale);
    } else {
      ChangeTracked(h, w'.history, s.storage, w'.evm.storage, s.checkpoints, t, stale);
    }
  }

  lemma RestartTracked(w: World, t: Tracker, op: Op)
    requires TrackInv(w, t) && w.evm.checkpoints != [] && op.Restart?
    ensures TrackInv(Next(w, op), Track(w, t, op))
  {
    var h' := Next(w, op).history;
    assert Entries(h'.log, h'.reverted) == [];
  }

  lemma StepTracked(w: World, t: Tracker, op: Op)
    requires Inv(w) && TrackInv(w, t)
    ensures TrackInv(Next(w, op), Track(w, t, op))
  {
    var s, h := w.evm, w.history;
    if s.checkpoints == [] {
    } else if op.Restart? {
      RestartTracked(w, t, op);
    } else if op.Leave? {
      LeaveTracked(w, t, op);
    } else if s.recorded.None? {
    } else if op.EnterCall? || op.EnterCreate? {
      EnterTracked(h, s.storage, s.checkpoints, t);
    } else if op.Sload? || op.Sstore? {
      AccessTracked(w, t, op);
    } else {
      var w' := Next(w, op);
      ChangeTracked(h, w'.history, s.storage, w'.evm.storage, s.checkpoints, t, Track(w, t, op).stale);
    }
  }

  ghost predicate Within(t: Tracker, h: History) {
    && |t.marks| == |h.marks| && t.stale <= h.tainted
    && forall j :: 0 <= j < |t.marks| ==> t.marks[j] <= h.marks[j].tainted
  }

  lemma LeaveWithin(w: World, t: Tracker, op: Op)
    requires |w.history.marks| == |w.evm.checkpoints| && w.evm.checkpoints != [] && Within(t, w.history) && op.Leave?
    ensures Within(Track(w, t, op), Next(w, op).history)
  {
    assert Next(w, op).history == AfterLeave(w.evm, w.history, op.outcome);
  }

  lemma StepWithin(w: World, t: Tracker, op: Op)
    requires |w.history.marks| == |w.evm.checkpoints| && Within(t, w.history)
    ensures Within(Track(w, t, op), Next(w, op).history)
  {
    if w.evm.checkpoints != [] && op.Leave? {
      LeaveWithin(w, t, op);
    }
  }

  /** A stale key is tainted, so what is known off the stale keys is more. */
  lemma {:induction false} StaleIsTainted(storage: Storage, ops: seq<Op>)
    ensures Within(TrackRun(storage, ops), Run(storage, ops).history)
  {
    if ops != [] {
      var before := ops[..|ops| - 1];
      StaleIsTainted(storage, before);
      StepWithin(Run(storage, before), TrackRun(storage, before), ops[|ops| - 1]);
    }
  }

  lemma {:induction false} RunTracked(storage: Storage, ops: seq<Op>)
    ensures TrackInv(Run(storage, ops), TrackRun(storage, ops))
  {
    if ops != [] {
      var before, op := ops[..|ops| - 1], ops[|ops| - 1];
      RunTracked(storage, before);
      RunKeepsInv(storage, before);
      StepTracked(Run(storage, before), TrackRun(storage, before), op);
    }
  }

  /**
   At every moment of every run, replay gives the journaled storage on every key that is not stale.
   A key is stale only after a change the recorder did not see, and no longer than until its next
   recorded write or a revert to before the change.
   */
  lemma {:induction false} ReplayOffStale(storage: Storage, ops: seq<Op>, k: Key)
    ensures var w := Run(storage, ops);
            w.evm.recorded.Some? && k !in TrackRun(storage, ops).stale ==> Agrees(w, k)
  {
    RunTracked(storage, ops);
    RunKeepsInv(storage, ops);
  }

  lemma OffStale(w: World, t: Tracker, k: Key)
    requires Inv(w) && TrackInv(w, t) && w.evm.recorded.Some? && k !in t.stale
    ensures Agrees(w, k)
  {
  }

  /**
   A step makes an agreeing key stale exactly when it puts it out of agreement; only a revert may also
   make it stale because it was when the frame was entered.
   */
  lemma {:induction false} StaleExact(w: World, t: Tracker, op: Op, k: Key)
    requires Inv(w) && TrackInv(w, t) && w.evm.recorded.Some? && k !in t.stale
    ensures Next(w, op).evm.recorded.Some?
    ensures k !in Track(w, t, op).stale ==> Agrees(Next(w, op), k)
    ensures k in Track(w, t, op).stale ==>
              if op.Leave? && op.outcome.Revert? && |t.marks| > 1 then k in t.marks[|t.marks| - 1]
              else !Agrees(Next(w, op), k)
  {
    StepTracked(w, t, op);
    StepKeepsInv(w, op);
    if k !in Track(w, t, op).stale {
      OffStale(Next(w, op), Track(w, t, op), k);
    } else {
      OffStale(w, t, k);
      if op.Leave? {
        StaleByLeave(w, t, op, k);
      } else {
        StaleByWrite(w, t, op, k);
      }
    }
  }

  lemma StaleByLeave(w: World, t: Tracker, op: Op, k: Key)
    requires Inv(w) && |t.marks| == |w.evm.checkpoints| && w.evm.recorded.Some? && k !in t.stale && Agrees(w, k)
    requires op.Leave? && k in Track(w, t, op).stale
    ensures Next(w, op).evm.recorded.Some?
    ensures if op.outcome.Revert? && |t.marks| > 1 then k in t.marks[|t.marks| - 1] else !Agrees(Next(w, op), k)
  {
    if !(op.outcome.Revert? && |t.marks| > 1) {
      UnmarkedRollback(w, op, k);
    }
  }

  lemma StaleByWrite(w: World, t: Tracker, op: Op, k: Key)
    requires Inv(w) && |t.marks| == |w.evm.checkpoints| && w.evm.recorded.Some? && k !in t.stale && Agrees(w, k)
    requires !op.Leave? && k in Track(w, t, op).stale
    ensures Next(w, op).evm.recorded.Some? && !Agrees(Next(w, op), k)
  {
    if op.Sstore? {
      StoreReplay(w, op, k);
    } else {
      assert op.VmStore? && k == Key(op.account, op.slot) && Get(w.evm.storage, k) != op.written;
    }
  }
}
