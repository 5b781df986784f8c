/** The invariant that ties the recorder's stack to the journal, and its preservation by every step. */
module RecorderInvariant {
  import opened Common
  import opened Recorder
  import opened Journal

  // ----- Replay against storage -----

  /** Every effective write of `k` saw, as its previous value, what the writes before it leave at `k`. */
  ghost predicate Chained(baseline: Storage, entries: seq<StorageAccess>, k: Key) {
    forall i :: 0 <= i < |entries| && Effective(entries[i], k) ==>
      entries[i].previousValue == Get(Replay(baseline, entries[..i]), k)
  }

  ghost predicate Good(baseline: Storage, entries: seq<StorageAccess>, storage: Storage, tainted: set<Key>) {
    forall k | k !in tainted ::
      Get(Replay(baseline, entries), k) == Get(storage, k) && Chained(baseline, entries, k)
  }

  lemma ReplayStep(st: Storage, e: seq<StorageAccess>, a: StorageAccess)
    ensures Replay(st, e + [a]) == Apply(Replay(st, e), a)
  {
    assert (e + [a])[..|e|] == e;
  }

  lemma ChainedStep(b: Storage, e: seq<StorageAccess>, a: StorageAccess, k: Key)
    requires Chained(b, e, k)
    requires Effective(a, k) ==> a.previousValue == Get(Replay(b, e), k)
    ensures Chained(b, e + [a], k)
  {
    forall i | 0 <= i < |e + [a]| && Effective((e + [a])[i], k)
      ensures (e + [a])[i].previousValue == Get(Replay(b, (e + [a])[..i]), k)
    {
      if i < |e| {
        assert (e + [a])[..i] == e[..i];
      } else {
        assert (e + [a])[..i] == e;
      }
    }
  }

  lemma GoodChange(b: Storage, e: seq<StorageAccess>, st: Storage, t: set<Key>, st': Storage, t': set<Key>)
    requires Good(b, e, st, t)
    requires forall k | k !in t' :: k !in t && Get(st', k) == Get(st, k)
    ensures Good(b, e, st', t')
  {
  }

  lemma GoodAppend(b: Storage, e: seq<StorageAccess>, st: Storage, t: set<Key>,
                   a: StorageAccess, st': Storage, t': set<Key>)
    requires Good(b, e, st, t)
    requires a.isWrite ==> a.previousValue == Get(st, Key(a.account, a.slot))
    requires forall k | k !in t' ::
               k !in t && Get(st', k) == if Effective(a, k) then a.newValue else Get(st, k)
    ensures Good(b, e + [a], st', t')
  {
    ReplayStep(b, e, a);
    forall k | k !in t'
      ensures Get(Replay(b, e + [a]), k) == Get(st', k) && Chained(b, e + [a], k)
    {
      ChainedStep(b, e, a, k);
    }
  }

  lemma {:induction false} ReplayMarked(b: Storage, e: seq<StorageAccess>, dead: seq<StorageAccess>)
    ensures Replay(b, e + MarkAccesses(dead)) == Replay(b, e)
  {
    if dead == [] {
      assert e + MarkAccesses(dead) == e;
    } else {
      var n := |dead| - 1;
      ReplayMarked(b, e, dead[..n]);
      assert e + MarkAccesses(dead) == (e + MarkAccesses(dead[..n])) + [dead[n].(reverted := true)];
      ReplayStep(b, e + MarkAccesses(dead[..n]), dead[n].(reverted := true));
    }
  }

  /** Marking everything after a point takes the replay back to that point. */
  lemma GoodRollback(b: Storage, e: seq<StorageAccess>, off: nat, st: Storage, t: set<Key>)
    requires off <= |e| && Good(b, e[..off], st, t)
    ensures Good(b, e[..off] + MarkAccesses(e[off..]), st, t)
  {
    var e' := e[..off] + MarkAccesses(e[off..]);
    ReplayMarked(b, e[..off], e[off..]);
    forall k | k !in t ensures Chained(b, e', k) {
      assert Chained(b, e[..off], k);
      forall i | 0 <= i < |e'| && Effective(e'[i], k)
        ensures e'[i].previousValue == Get(Replay(b, e'[..i]), k)
      {
        assert i < off;
        assert e'[..i] == e[..off][..i];
        assert Effective(e[..off][i], k);
      }
    }
  }

  // ----- The log -----

  ghost predicate LedgerInv(h: History) {
    && h.base <= |h.marks|
    && (forall id :: id in h.reverted ==> id < h.nextId)
    && (!h.rewound ==> h.baseline == h.start)
    && (forall j :: 0 <= j < |h.marks| ==>
          && h.marks[j].id < h.nextId
          && h.marks[j].id !in h.reverted
          && h.marks[j].offset <= |h.log|
          && h.marks[j].tainted <= h.tainted
          && (j < h.base ==> h.marks[j].offset == 0)
          && (j >= h.base ==> h.marks[j].baseline == h.baseline))
    && (forall i, j :: 0 <= i < j < |h.marks| ==>
          && h.marks[i].id != h.marks[j].id
          && h.marks[i].offset <= h.marks[j].offset
          && h.marks[i].tainted <= h.marks[j].tainted)
    && (forall p, id :: 0 <= p < |h.log| && id in h.log[p].live ==> id < h.nextId)
    && (forall p, j :: 0 <= p < |h.log| && 0 <= j < |h.marks| ==>
          (h.marks[j].id in h.log[p].live <==> h.marks[j].offset <= p))
  }

  ghost predicate ValueInv(h: History, storage: Storage, checkpoints: seq<Storage>)
    requires LedgerInv(h) && |checkpoints| == |h.marks|
  {
    var e := Entries(h.log, h.reverted);
    && Good(h.baseline, e, storage, h.tainted)
    && forall j :: 0 <= j < |h.marks| ==>
         Good(h.marks[j].baseline, e[..h.marks[j].offset], checkpoints[j], h.marks[j].tainted)
  }

  // ----- The stack -----

  /** Position in the stack of the list of the recorded frame at index `j`. */
  function ListOf(stack: Stack, frames: nat, j: nat): int {
    |stack| - frames + j
  }

  /**
   One list per live frame entered since the (re)start, above at most one root list; a frame's
   list opens with a record one level above the depth its frame runs at.
   */
  ghost predicate ShapeInv(stack: Stack, frames: nat, base: nat) {
    && base <= frames
    && frames - base <= |stack| <= frames - base + 1
    && (forall i :: 0 <= i < |stack| ==> stack[i] != [])
    && (forall j :: base <= j < frames ==> stack[ListOf(stack, frames, j)][0].depth == j)
    && (|stack| > frames - base ==> stack[0][0].depth >= base)
  }

  /** A frame's list starts where the flattened view stood when the frame was entered. */
  ghost predicate OffsetsInv(stack: Stack, marks: seq<Mark>, base: nat)
    requires ShapeInv(stack, |marks|, base)
  {
    forall j :: base <= j < |marks| ==> |Flat(stack[..ListOf(stack, |marks|, j)])| == marks[j].offset
  }

  ghost predicate StackInv(stack: Stack, h: History) {
    && ShapeInv(stack, |h.marks|, h.base)
    && OffsetsInv(stack, h.marks, h.base)
  }

  ghost predicate Inv(w: World) {
    var s, h := w.evm, w.history;
    && LedgerInv(h)
    && |h.marks| == |s.checkpoints|
    && (s.recorded.None? ==> h.log == [])
    && (s.recorded.Some? ==> RecordingInv(s.recorded.value, h, s.storage, s.checkpoints))
  }

  ghost predicate RecordingInv(stack: Stack, h: History, storage: Storage, checkpoints: seq<Storage>)
    requires LedgerInv(h) && |checkpoints| == |h.marks|
  {
    && (checkpoints != [] ==> StackInv(stack, h))
    && Flat(stack) == Entries(h.log, h.reverted)
    && ValueInv(h, storage, checkpoints)
  }

  // ----- Steps: the log -----

  lemma LedgerLog(h: History, a: StorageAccess, t: set<Key>)
    requires LedgerInv(h) && !a.reverted && h.tainted <= t
    ensures LedgerInv(Log(h, a).(tainted := t))
    ensures Entries(Log(h, a).log, h.reverted) == Entries(h.log, h.reverted) + [a]
  {
    var h' := Log(h, a);
    forall p, j | 0 <= p < |h'.log| && 0 <= j < |h'.marks|
      ensures h'.marks[j].id in h'.log[p].live <==> h'.marks[j].offset <= p
    {
      if p < |h.log| {
        assert h'.log[p] == h.log[p];
      } else {
        assert h.marks[j] in h.marks;
      }
    }
    forall p, id | 0 <= p < |h'.log| && id in h'.log[p].live ensures id < h'.nextId {
      if p < |h.log| {
        assert h'.log[p] == h.log[p];
      }
    }
  }

  /** Storage operations: `a` is the access, `t` the tainted keys and `st` the storage afterwards. */
  lemma ValueLog(h: History, storage: Storage, cps: seq<Storage>, a: StorageAccess, t: set<Key>, st: Storage)
    requires LedgerInv(h) && |cps| == |h.marks| && ValueInv(h, storage, cps) && !a.reverted && h.tainted <= t
    requires a.isWrite ==> a.previousValue == Get(storage, Key(a.account, a.slot))
    requires forall k | k !in t :: Get(st, k) == if Effective(a, k) then a.newValue else Get(storage, k)
    ensures LedgerInv(Log(h, a).(tainted := t))
    ensures ValueInv(Log(h, a).(tainted := t), st, cps)
  {
    LedgerLog(h, a, t);
    var e, e' := Entries(h.log, h.reverted), Entries(Log(h, a).log, h.reverted);
    GoodAppend(h.baseline, e, storage, h.tainted, a, st, t);
    forall j | 0 <= j < |h.marks|
      ensures Good(h.marks[j].baseline, e'[..h.marks[j].offset], cps[j], h.marks[j].tainted)
    {
      assert e'[..h.marks[j].offset] == e[..h.marks[j].offset];
    }
  }

  lemma ValueChange(h: History, storage: Storage, cps: seq<Storage>, t: set<Key>, st: Storage)
    requires LedgerInv(h) && |cps| == |h.marks| && ValueInv(h, storage, cps) && h.tainted <= t
    requires forall k | k !in t :: Get(st, k) == Get(storage, k)
    ensures LedgerInv(h.(tainted := t)) && ValueInv(h.(tainted := t), st, cps)
  {
    GoodChange(h.baseline, Entries(h.log, h.reverted), storage, h.tainted, st, t);
  }

  /** Reverting the topmost frame marks exactly the entries logged since it was entered. */
  lemma EntriesRevert(h: History)
    requires LedgerInv(h) && h.marks != []
    ensures var m := h.marks[|h.marks| - 1];
            var e := Entries(h.log, h.reverted);
            Entries(h.log, h.reverted + {m.id}) == e[..m.offset] + MarkAccesses(e[m.offset..])
  {
    var m := h.marks[|h.marks| - 1];
    var e, e' := Entries(h.log, h.reverted), Entries(h.log, h.reverted + {m.id});
    forall p | 0 <= p < |h.log|
      ensures e'[p] == if p < m.offset then e[p] else e[p].(reverted := true)
    {
      var live := h.log[p].live;
      assert live * (h.reverted + {m.id}) == live * h.reverted + (if m.id in live then {m.id} else {});
    }
  }

  lemma LedgerLeave(s: Evm, h: History, outcome: Outcome)
    requires LedgerInv(h) && s.checkpoints != [] && |s.checkpoints| == |h.marks|
    ensures LedgerInv(AfterLeave(s, h, outcome))
  {
    var n, h' := |h.marks| - 1, AfterLeave(s, h, outcome);
    assert h'.marks == h.marks[..n];
    assert forall j :: 0 <= j < n ==> h'.marks[j] == h.marks[j];
  }

  lemma ValueLeave(s: Evm, h: History, outcome: Outcome)
    requires LedgerInv(h) && s.checkpoints != [] && |s.checkpoints| == |h.marks|
    requires ValueInv(h, s.storage, s.checkpoints)
    ensures var n := |s.checkpoints| - 1;
            var st := if outcome.Success? then s.storage else s.checkpoints[n];
            && LedgerInv(AfterLeave(s, h, outcome))
            && ValueInv(AfterLeave(s, h, outcome), st, s.checkpoints[..n])
  {
    LedgerLeave(s, h, outcome);
    var n := |s.checkpoints| - 1;
    var m := h.marks[n];
    var e := Entries(h.log, h.reverted);
    if outcome.Success? {
    } else if outcome.Revert? && n > 0 {
      EntriesRevert(h);
      GoodRollback(m.baseline, e, m.offset, s.checkpoints[n], m.tainted);
      var e' := Entries(h.log, h.reverted + {m.id});
      forall j | 0 <= j < n
        ensures Good(h.marks[j].baseline, e'[..h.marks[j].offset], s.checkpoints[j], h.marks[j].tainted)
      {
        assert e'[..h.marks[j].offset] == e[..h.marks[j].offset];
      }
    } else {
      GoodChange(h.baseline, e, s.storage, h.tainted, s.checkpoints[n],
                 h.tainted + Changed(s.storage, s.checkpoints[n]));
    }
  }

  lemma LedgerEnter(h: History)
    requires LedgerInv(h)
    ensures LedgerInv(AfterEnter(h))
  {
  }

  lemma ValueEnter(h: History, storage: Storage, cps: seq<Storage>)
    requires LedgerInv(h) && |cps| == |h.marks| && ValueInv(h, storage, cps)
    ensures LedgerInv(AfterEnter(h)) && ValueInv(AfterEnter(h), storage, cps + [storage])
  {
    LedgerEnter(h);
    var e := Entries(h.log, h.reverted);
    assert e[..|h.log|] == e;
  }

  // ----- Steps: the stack -----

  lemma TopShape(stack: Stack, top: Records, frames: nat, base: nat)
    requires stack != [] && ShapeInv(stack, frames, base)
    requires top != [] && top[0].depth == stack[|stack| - 1][0].depth
    ensures ShapeInv(stack[|stack| - 1 := top], frames, base)
  {
    var stack': Stack := stack[|stack| - 1 := top];
    assert forall i :: 0 <= i < |stack'| ==> stack'[i] != [] && stack'[i][0].depth == stack[i][0].depth;
    forall j | base <= j < frames ensures stack'[ListOf(stack', frames, j)][0].depth == j {
      assert stack[ListOf(stack, frames, j)][0].depth == j;
    }
  }

  /** Changing only the topmost list leaves every list's starting point alone. */
  lemma TopChange(stack: Stack, top: Records, marks: seq<Mark>, base: nat)
    requires stack != [] && ShapeInv(stack, |marks|, base) && OffsetsInv(stack, marks, base)
    requires top != [] && top[0].depth == stack[|stack| - 1][0].depth
    ensures ShapeInv(stack[|stack| - 1 := top], |marks|, base)
    ensures OffsetsInv(stack[|stack| - 1 := top], marks, base)
    ensures Flat(stack[|stack| - 1 := top]) == Flat(stack[..|stack| - 1]) + Accesses(top)
  {
    var n := |stack| - 1;
    var stack' := stack[n := top];
    TopShape(stack, top, |marks|, base);
    assert stack'[..n] == stack[..n];
    forall j | base <= j < |marks|
      ensures |Flat(stack'[..ListOf(stack', |marks|, j)])| == marks[j].offset
    {
      assert stack'[..ListOf(stack', |marks|, j)] == stack[..ListOf(stack, |marks|, j)];
    }
  }

  lemma StackStorage(s: Evm, h: History, a: StorageAccess)
    requires s.recorded.Some? && s.checkpoints != [] && |h.marks| == |s.checkpoints|
    requires StackInv(s.recorded.value, h)
    ensures var stack := s.recorded.value;
            var stack' := StorageStep(stack, a, |s.checkpoints|);
            && StackInv(stack', h)
            && Flat(stack') == if InRecordedFrame(s, h) then Flat(stack) + [a] else Flat(stack)
  {
    var stack: Stack := s.recorded.value;
    var depth := |s.checkpoints|;
    if stack != [] {
      var n := |stack| - 1;
      assert depth > stack[n][0].depth <==> InRecordedFrame(s, h) by {
        if InRecordedFrame(s, h) {
          assert ListOf(stack, depth, depth - 1) == n;
        }
      }
      AppendAtEnd(stack[n], a, depth);
      TopChange(stack, AppendStorageAccess(stack[n], a, depth), h.marks, h.base);
    }
  }

  lemma StackRecord(stack: Stack, r: AccountAccess, marks: seq<Mark>, base: nat)
    requires stack != [] && ShapeInv(stack, |marks|, base) && OffsetsInv(stack, marks, base)
    requires r.storageAccesses == []
    ensures var stack' := stack[|stack| - 1 := stack[|stack| - 1] + [r]];
            ShapeInv(stack', |marks|, base) && OffsetsInv(stack', marks, base) && Flat(stack') == Flat(stack)
  {
    var top := stack[|stack| - 1];
    AccessesSplit(top, [r]);
    AccessesOne(r);
    TopChange(stack, top + [r], marks, base);
  }

  lemma StackExt(stack: Stack, r: AccountAccess, marks: seq<Mark>, base: nat)
    requires ShapeInv(stack, |marks|, base) && OffsetsInv(stack, marks, base)
    requires r.storageAccesses == [] && r.depth == |marks|
    ensures var stack' := ExtStep(stack, r);
            ShapeInv(stack', |marks|, base) && OffsetsInv(stack', marks, base) && Flat(stack') == Flat(stack)
  {
    if stack == [] {
      AccessesOne(r);
      FlatTop([], [r]);
    } else {
      StackRecord(stack, r, marks, base);
    }
  }

  lemma StackEnter(stack: Stack, r: AccountAccess, marks: seq<Mark>, base: nat, m: Mark)
    requires ShapeInv(stack, |marks|, base) && OffsetsInv(stack, marks, base)
    requires r.storageAccesses == [] && r.depth == |marks| && m.offset == |Flat(stack)|
    ensures var stack' := stack + [[r]];
            && ShapeInv(stack', |marks + [m]|, base)
            && OffsetsInv(stack', marks + [m], base)
            && Flat(stack') == Flat(stack)
  {
    var stack' := stack + [[r]];
    AccessesOne(r);
    FlatTop(stack, [r]);
    forall j | base <= j < |marks + [m]|
      ensures stack'[ListOf(stack', |marks + [m]|, j)][0].depth == j
      ensures |Flat(stack'[..ListOf(stack', |marks + [m]|, j)])| == (marks + [m])[j].offset
    {
      if j < |marks| {
        var i := ListOf(stack, |marks|, j);
        assert stack'[..i] == stack[..i];
      } else {
        assert stack'[..|stack|] == stack;
      }
    }
  }

  lemma MergeFlat(stack: Stack, done: Records)
    requires stack != []
    ensures var n := |stack| - 1;
            Flat(if n == 0 then [done] else stack[..n][n - 1 := stack[n - 1] + done])
            == Flat(stack[..n]) + Accesses(done)
  {
    var n := |stack| - 1;
    if n == 0 {
      FlatTop([], done);
      assert stack[..0] == [] && [] + [done] == [done];
    } else {
      var below, top := stack[..n - 1], stack[n - 1];
      assert stack[..n] == below + [top];
      assert stack[..n][n - 1 := top + done] == below + [top + done];
      FlatTop(below, top);
      FlatTop(below, top + done);
      AccessesSplit(top, done);
      Assoc(Flat(below), Accesses(top), Accesses(done));
    }
  }

  /** What ending a frame does to the flattened view: the topmost list is marked or left alone. */
  lemma FlatEnd(stack: Stack, kind: FrameKind, depth: nat, isRevert: bool, acc: Option<AccountInfo>)
    requires depth > 0 && stack != [] && stack[|stack| - 1] != []
    ensures var top := Accesses(stack[|stack| - 1]);
            Flat(EndFrame(stack, kind, depth, isRevert, acc))
            == Flat(stack[..|stack| - 1]) + (if isRevert then MarkAccesses(top) else top)
  {
    var n := |stack| - 1;
    var marked := if isRevert then MarkRecords(stack[n]) else stack[n];
    AccessesMarked(stack[n]);
    AccessesUpdate(marked, 0, FinishRecord(marked[0], kind, depth, acc));
    MergeFlat(stack, marked[0 := FinishRecord(marked[0], kind, depth, acc)]);
  }

  lemma ShapeEnd(stack: Stack, kind: FrameKind, isRevert: bool, acc: Option<AccountInfo>, marks: seq<Mark>, base: nat)
    requires |marks| > 1 && ShapeInv(stack, |marks|, base) && OffsetsInv(stack, marks, base)
    ensures var n := |marks| - 1;
            var stack' := EndFrame(stack, kind, n, isRevert, acc);
            ShapeInv(stack', n, Min(base, n)) && OffsetsInv(stack', marks[..n], Min(base, n))
  {
    var n := |marks| - 1;
    var stack' := EndFrame(stack, kind, n, isRevert, acc);
    if stack != [] {
      var top := stack[|stack| - 1];
      var marked := if isRevert then MarkRecords(top) else top;
      assert marked[0].depth == top[0].depth;
      if base <= n {
        assert ListOf(stack, |marks|, n) == |stack| - 1;
      }
      forall j | Min(base, n) <= j < n
        ensures stack'[ListOf(stack', n, j)][0].depth == j
        ensures |Flat(stack'[..ListOf(stack', n, j)])| == marks[..n][j].offset
      {
        var i := ListOf(stack, |marks|, j);
        assert stack[i][0].depth == j;
        assert ListOf(stack', n, j) == i;
        assert stack'[..i] == stack[..i];
      }
    }
  }

  // ----- Every step keeps the invariant -----

  /** The topmost list is what was recorded since the topmost frame was entered. */
  lemma TopIsSinceEntry(stack: Stack, marks: seq<Mark>, base: nat)
    requires marks != [] && stack != [] && ShapeInv(stack, |marks|, base) && OffsetsInv(stack, marks, base)
    requires |marks| - 1 < base ==> marks[|marks| - 1].offset == 0
    ensures var off := marks[|marks| - 1].offset;
            && off <= |Flat(stack)|
            && Flat(stack)[..off] == Flat(stack[..|stack| - 1])
            && Flat(stack)[off..] == Accesses(stack[|stack| - 1])
  {
    var n := |marks| - 1;
    if base <= n {
      assert ListOf(stack, |marks|, n) == |stack| - 1;
    } else {
      assert |stack| == 1;
      assert stack[..0] == [];
    }
  }

  lemma StackLeave(stack: Stack, h: History, kind: FrameKind, isRevert: bool, acc: Option<AccountInfo>)
    requires LedgerInv(h) && h.marks != [] && StackInv(stack, h)
    requires Flat(stack) == Entries(h.log, h.reverted)
    ensures var n := |h.marks| - 1;
            Flat(EndFrame(stack, kind, n, isRevert, acc))
            == Entries(h.log, if isRevert && n > 0 then h.reverted + {h.marks[n].id} else h.reverted)
  {
    var n := |h.marks| - 1;
    EntriesRevert(h);
    if n > 0 && stack != [] {
      FlatEnd(stack, kind, n, isRevert, acc);
      TopIsSinceEntry(stack, h.marks, h.base);
    } else if stack == [] {
      assert h.log == [] by { assert |Entries(h.log, h.reverted)| == 0; }
    }
  }

  /** The history of a frame that has just ended, in or not in revert. */
  predicate Left(h: History, h': History, isRevert: bool)
    requires h.marks != []
  {
    var n := |h.marks| - 1;
    && h'.log == h.log && h'.marks == h.marks[..n] && h'.base == Min(h.base, n)
    && h'.reverted == if isRevert && n > 0 then h.reverted + {h.marks[n].id} else h.reverted
  }

  lemma AfterLeaveLeft(s: Evm, h: History, outcome: Outcome)
    requires s.checkpoints != [] && |s.checkpoints| == |h.marks|
    ensures Left(h, AfterLeave(s, h, outcome), outcome.Revert?)
  {
  }

  lemma LeaveStack(h: History, h': History, stack: Stack, kind: FrameKind, isRevert: bool, acc: Option<AccountInfo>)
    requires LedgerInv(h) && h.marks != [] && Left(h, h', isRevert)
    requires StackInv(stack, h) && Flat(stack) == Entries(h.log, h.reverted)
    ensures var stack' := EndFrame(stack, kind, |h.marks| - 1, isRevert, acc);
            && Flat(stack') == Entries(h'.log, h'.reverted)
            && (|h.marks| > 1 ==> StackInv(stack', h'))
  {
    StackLeave(stack, h, kind, isRevert, acc);
    if |h.marks| > 1 {
      ShapeEnd(stack, kind, isRevert, acc, h.marks, h.base);
    }
  }

  lemma LeaveRecording(s: Evm, h: History, stack: Stack, kind: FrameKind, outcome: Outcome, acc: Option<AccountInfo>)
    requires LedgerInv(h) && s.checkpoints != [] && |s.checkpoints| == |h.marks|
    requires RecordingInv(stack, h, s.storage, s.checkpoints)
    ensures var n := |s.checkpoints| - 1;
            var st := if outcome.Success? then s.storage else s.checkpoints[n];
            && LedgerInv(AfterLeave(s, h, outcome))
            && RecordingInv(EndFrame(stack, kind, n, outcome.Revert?, acc), AfterLeave(s, h, outcome),
                            st, s.checkpoints[..n])
  {
    AfterLeaveLeft(s, h, outcome);
    LeaveStack(h, AfterLeave(s, h, outcome), stack, kind, outcome.Revert?, acc);
    ValueLeave(s, h, outcome);
  }

  lemma LeaveKeepsInv(w: World, op: Op)
    requires Inv(w) && w.evm.checkpoints != [] && op.Leave?
    ensures Inv(Next(w, op))
  {
    var s, h := w.evm, w.history;
    var w' := Next(w, op);
    assert w'.history == AfterLeave(s, h, op.outcome);
    LedgerLeave(s, h, op.outcome);
    if s.recorded.Some? {
      LeaveRecording(s, h, s.recorded.value, op.kind, op.outcome, op.acc);
      var n := |s.checkpoints| - 1;
      assert w'.evm.recorded.value == EndFrame(s.recorded.value, op.kind, n, op.outcome.Revert?, op.acc);
      assert RecordingInv(w'.evm.recorded.value, w'.history, w'.evm.storage, w'.evm.checkpoints);
    }
  }

  lemma EnterKeepsInv(w: World, op: Op)
    requires Inv(w) && w.evm.checkpoints != [] && (op.EnterCall? || op.EnterCreate?)
    ensures Inv(Next(w, op))
  {
    var s, h := w.evm, w.history;
    LedgerEnter(h);
    if s.recorded.Some? {
      ValueEnter(h, s.storage, s.checkpoints);
      var depth := |s.checkpoints|;
      var r := if op.EnterCall?
        then CallRecord(op.chain, op.scheme, op.caller, op.account, op.value, op.data, op.info, depth)
        else CreateRecord(op.chain, op.caller, op.account, op.value, op.data, depth);
      StackEnter(s.recorded.value, r, h.marks, h.base, Mark(h.nextId, |h.log|, h.baseline, h.tainted));
    }
  }

  lemma AccessRecording(s: Evm, h: History, a: StorageAccess, t: set<Key>, st: Storage)
    requires LedgerInv(h) && s.checkpoints != [] && |s.checkpoints| == |h.marks| && s.recorded.Some?
    requires RecordingInv(s.recorded.value, h, s.storage, s.checkpoints) && !a.reverted && h.tainted <= t
    requires a.isWrite ==> a.previousValue == Get(s.storage, Key(a.account, a.slot))
    requires forall k | k !in t ::
               Get(st, k) == if InRecordedFrame(s, h) && Effective(a, k) then a.newValue else Get(s.storage, k)
    ensures var h' := (if InRecordedFrame(s, h) then Log(h, a) else h).(tainted := t);
            && LedgerInv(h')
            && RecordingInv(StorageStep(s.recorded.value, a, |s.checkpoints|), h', st, s.checkpoints)
  {
    StackStorage(s, h, a);
    if InRecordedFrame(s, h) {
      LedgerLog(h, a, t);
      ValueLog(h, s.storage, s.checkpoints, a, t, st);
    } else {
      ValueChange(h, s.storage, s.checkpoints, t, st);
    }
  }

  lemma AccessKeepsInv(w: World, op: Op)
    requires Inv(w) && w.evm.checkpoints != [] && w.evm.recorded.Some? && (op.Sload? || op.Sstore?)
    ensures Inv(Next(w, op))
  {
    var s, h := w.evm, w.history;
    var w' := Next(w, op);
    var a := if op.Sload? then ReadAccess(s, op.account, op.slot)
             else WriteAccess(s, op.account, op.slot, op.written);
    assert w'.evm.recorded.value == StorageStep(s.recorded.value, a, |s.checkpoints|);
    assert w'.history == (if InRecordedFrame(s, h) then Log(h, a) else h).(tainted := w'.history.tainted);
    AccessRecording(s, h, a, w'.history.tainted, w'.evm.storage);
  }

  lemma RestartKeepsInv(w: World, op: Op)
    requires Inv(w) && w.evm.checkpoints != [] && op.Restart?
    ensures Inv(Next(w, op))
  {
    var s, h := w.evm, w.history;
    var h' := Next(w, op).history;
    assert Entries(h'.log, h'.reverted) == [];
    forall j | 0 <= j < |h'.marks| ensures h'.marks[j].id == h.marks[j].id {}
  }

  lemma AccountKeepsInv(w: World, op: Op)
    requires Inv(w) && w.evm.checkpoints != [] && w.evm.recorded.Some? && (op.SelfDestructOp? || op.ExtOp?)
    ensures Inv(Next(w, op))
  {
    var s, h, stack, w' := w.evm, w.history, w.evm.recorded.value, Next(w, op);
    var depth := |s.checkpoints|;
    assert w'.history == h && w'.evm.storage == s.storage && w'.evm.checkpoints == s.checkpoints;
    if op.ExtOp? {
      StackExt(stack, ExtRecord(op.chain, op.scheme, op.accessor, op.target, op.info, depth), h.marks, h.base);
    } else if stack != [] {
      StackRecord(stack, SelfDestructRecord(op.chain, op.accessor, op.target, op.value, op.info, depth),
                  h.marks, h.base);
    }
    assert RecordingInv(w'.evm.recorded.value, h, s.storage, s.checkpoints);
  }

  lemma StepKeepsInv(w: World, op: Op)
    requires Inv(w)
    ensures Inv(Next(w, op))
  {
    var s, h := w.evm, w.history;
    if s.checkpoints == [] {
    } else if op.EnterCall? || op.EnterCreate? {
      EnterKeepsInv(w, op);
    } else if op.Leave? {
      LeaveKeepsInv(w, op);
    } else if op.Restart? {
      RestartKeepsInv(w, op);
    } else if s.recorded.None? {
    } else if op.SelfDestructOp? || op.ExtOp? {
      AccountKeepsInv(w, op);
    } else if op.VmStore? {
      ValueChange(h, s.storage, s.checkpoints, Next(w, op).history.tainted, Next(w, op).evm.storage);
    } else {
      AccessKeepsInv(w, op);
    }
  }

  lemma {:induction false} RunKeepsInv(storage: Storage, ops: seq<Op>)
    ensures Inv(Run(storage, ops))
  {
    if ops != [] {
      RunKeepsInv(storage, ops[..|ops| - 1]);
      StepKeepsInv(Run(storage, ops[..|ops| - 1]), ops[|ops| - 1]);
    }
  }
}
