/**
 EVM frames over journaled storage, with the recorder hooked in. The history beside a run is
 declarative: which accesses were recorded, which frames were live at the time, and which
 frames have ended in revert since.
 */
module Journal {
  import opened Common
  import opened Recorder

  datatype Key = Key(account: Address, slot: Word)
  type Storage = map<Key, Word>

  function Get(s: Storage, k: Key): Word {
    if k in s then s[k] else 0
  }

  /** How a frame ends; a halt rolls the journal back but is not a revert. */
  datatype Outcome = Success | Revert | Halt

  /** One thing the running frame does. */
  datatype Op =
    | EnterCall(chain: ChainInfo, scheme: AccessKind, caller: Address, account: Address,
                value: Word, data: seq<Byte>, info: Option<AccountInfo>)
    | EnterCreate(chain: ChainInfo, caller: Address, account: Address, value: Word, data: seq<Byte>)
    | Leave(kind: FrameKind, outcome: Outcome, acc: Option<AccountInfo>)
    | Sload(account: Address, slot: Word)
      /** The hook runs before the opcode, so an `SSTORE` that fails is recorded all the same. */
    | Sstore(account: Address, slot: Word, written: Word, executes: bool)
    | SelfDestructOp(chain: ChainInfo, accessor: Address, target: Address, value: Word, info: Option<AccountInfo>)
    | ExtOp(chain: ChainInfo, scheme: AccessKind, accessor: Address, target: Address, info: Option<AccountInfo>)
      /** `vm.store`: writes the journal without passing the recorder. */
    | VmStore(account: Address, slot: Word, written: Word)
      /** `startStateDiffRecording`, or `stopAndReturnStateDiff`, which also returns what was recorded. */
    | Restart(returning: bool)

  /** Depth is the number of checkpoints; the root frame runs at depth 1. */
  datatype Evm = Evm(storage: Storage, checkpoints: seq<Storage>, recorded: Option<Stack>)

  function ReadAccess(s: Evm, account: Address, slot: Word): StorageAccess {
    var v := Get(s.storage, Key(account, slot));
    StorageAccess(account, slot, false, v, v, false)
  }

  function WriteAccess(s: Evm, account: Address, slot: Word, written: Word): StorageAccess {
    StorageAccess(account, slot, true, Get(s.storage, Key(account, slot)), written, false)
  }

  function RecorderStep(s: Evm, op: Op): Option<Stack>
    requires s.checkpoints != []
  {
    var depth := |s.checkpoints|;
    if op.Restart? then Some([])
    else if s.recorded.None? then None
    else
      var stack := s.recorded.value;
      Some(match op
        case EnterCall(chain, scheme, caller, account, value, data, info) =>
          stack + [[CallRecord(chain, scheme, caller, account, value, data, info, depth)]]
        case EnterCreate(chain, caller, account, value, data) =>
          stack + [[CreateRecord(chain, caller, account, value, data, depth)]]
        case Leave(kind, outcome, acc) => EndFrame(stack, kind, depth - 1, outcome.Revert?, acc)
        case Sload(account, slot) => StorageStep(stack, ReadAccess(s, account, slot), depth)
        case Sstore(account, slot, written, _) =>
          StorageStep(stack, WriteAccess(s, account, slot, written), depth)
        case SelfDestructOp(chain, accessor, target, value, info) =>
          SelfDestructStep(stack, SelfDestructRecord(chain, accessor, target, value, info, depth))
        case ExtOp(chain, scheme, accessor, target, info) =>
          ExtStep(stack, ExtRecord(chain, scheme, accessor, target, info, depth))
        case VmStore(_, _, _) => stack)
  }

  /** The run is over once the root frame has ended. */
  function Step(s: Evm, op: Op): Evm {
    if s.checkpoints == [] then s
    else
      var n := |s.checkpoints| - 1;
      var recorded := RecorderStep(s, op);
      match op
      case EnterCall(_, _, _, _, _, _, _) => Evm(s.storage, s.checkpoints + [s.storage], recorded)
      case EnterCreate(_, _, _, _, _) => Evm(s.storage, s.checkpoints + [s.storage], recorded)
      case Leave(_, outcome, _) =>
        Evm(if outcome.Success? then s.storage else s.checkpoints[n], s.checkpoints[..n], recorded)
      case Sstore(account, slot, written, executes) =>
        Evm(if executes then s.storage[Key(account, slot) := written] else s.storage, s.checkpoints, recorded)
      case VmStore(account, slot, written) =>
        Evm(s.storage[Key(account, slot) := written], s.checkpoints, recorded)
      case _ => Evm(s.storage, s.checkpoints, recorded)
  }

  // ----- What the recorder is meant to summarise -----

  predicate Effective(a: StorageAccess, k: Key) {
    a.isWrite && !a.reverted && Key(a.account, a.slot) == k
  }

  function Apply(st: Storage, a: StorageAccess): Storage {
    if a.isWrite && !a.reverted then st[Key(a.account, a.slot) := a.newValue] else st
  }

  /** The writes not marked reverted, carried out in order. */
  function Replay(st: Storage, entries: seq<StorageAccess>): Storage {
    if entries == [] then st else Apply(Replay(st, entries[..|entries| - 1]), entries[|entries| - 1])
  }

  // ----- History -----

  datatype Logged = Logged(access: StorageAccess, live: set<nat>)

  /** A live frame: its identity, and the history as it stood on entry. */
  datatype Mark = Mark(id: nat, offset: nat, baseline: Storage, tainted: set<Key>)

  /**
   `start` is the storage at the last (re)start and `log` every access recorded since, with the
   frames live at that moment; `reverted` are the non-root frames that have ended in revert.
   `base` counts the live frames that were open at the (re)start. `baseline` equals `start` until
   such a frame reverts (`rewound`), which takes the journal back behind the start.
   `tainted` keys have been changed behind the recorder's back.
   */
  datatype History = History(
    start: Storage, baseline: Storage, tainted: set<Key>, log: seq<Logged>, reverted: set<nat>,
    marks: seq<Mark>, base: nat, nextId: nat, rewound: bool)

  predicate InRecordedFrame(s: Evm, h: History) {
    s.recorded.Some? && |s.checkpoints| > h.base
  }

  function LiveIds(marks: seq<Mark>): set<nat> {
    set m | m in marks :: m.id
  }

  function Log(h: History, a: StorageAccess): History {
    h.(log := h.log + [Logged(a, LiveIds(h.marks))])
  }

  function Changed(a: Storage, b: Storage): set<Key> {
    set k | k in a.Keys + b.Keys && Get(a, k) != Get(b, k)
  }

  function Rebased(marks: seq<Mark>, checkpoints: seq<Storage>): (r: seq<Mark>)
    requires |marks| == |checkpoints|
    ensures |r| == |marks|
  {
    seq(|marks|, i requires 0 <= i < |marks| => Mark(marks[i].id, 0, checkpoints[i], {}))
  }

  function AfterLeave(s: Evm, h: History, outcome: Outcome): History
    requires s.checkpoints != [] && |h.marks| == |s.checkpoints|
  {
    var n := |h.marks| - 1;
    var m := h.marks[n];
    var h' := h.(marks := h.marks[..n], base := Min(h.base, n));
    if outcome.Success? then h'
    else if outcome.Revert? && n > 0 then
      h'.(baseline := m.baseline, tainted := m.tainted, reverted := h.reverted + {m.id},
          rewound := h.rewound || n < h.base)
    else h'.(tainted := h.tainted + Changed(s.storage, s.checkpoints[n]))
  }

  function Advance(s: Evm, h: History, op: Op): (h': History)
    requires |h.marks| == |s.checkpoints|
    ensures |h'.marks| == |Step(s, op).checkpoints|
  {
    if s.checkpoints == [] then h
    else
      match op
      case EnterCall(_, _, _, _, _, _, _) => AfterEnter(h)
      case EnterCreate(_, _, _, _, _) => AfterEnter(h)
      case Leave(_, outcome, _) => AfterLeave(s, h, outcome)
      case Sload(account, slot) =>
        if InRecordedFrame(s, h) then Log(h, ReadAccess(s, account, slot)) else h
      case Sstore(account, slot, written, executes) =>
        var a := WriteAccess(s, account, slot, written);
        var h' := if InRecordedFrame(s, h) then Log(h, a) else h;
        if InRecordedFrame(s, h) == executes || a.previousValue == written then h'
        else h'.(tainted := h.tainted + {Key(account, slot)})
      case VmStore(account, slot, written) =>
        if Get(s.storage, Key(account, slot)) == written then h
        else h.(tainted := h.tainted + {Key(account, slot)})
      case Restart(_) =>
        h.(start := s.storage, baseline := s.storage, tainted := {}, log := [], base := |h.marks|,
           marks := Rebased(h.marks, s.checkpoints), rewound := false)
      case _ => h
  }

  function AfterEnter(h: History): History {
    h.(marks := h.marks + [Mark(h.nextId, |h.log|, h.baseline, h.tainted)], nextId := h.nextId + 1)
  }

  /** A logged access as the recorder should show it: reverted iff a frame live then has reverted. */
  function Flag(l: Logged, reverted: set<nat>): StorageAccess {
    l.access.(reverted := l.live * reverted != {})
  }

  function Entries(log: seq<Logged>, reverted: set<nat>): (r: seq<StorageAccess>)
    ensures |r| == |log|
  {
    seq(|log|, i requires 0 <= i < |log| => Flag(log[i], reverted))
  }

  // ----- Runs -----

  datatype World = World(evm: Evm, history: History)

  /** The root frame has just been entered and nothing is being recorded. */
  function Init(storage: Storage): World {
    World(Evm(storage, [storage], None),
          History(storage, storage, {}, [], {}, [Mark(0, 0, storage, {})], 1, 1, false))
  }

  function Next(w: World, op: Op): (w': World)
    requires |w.history.marks| == |w.evm.checkpoints|
    ensures |w'.history.marks| == |w'.evm.checkpoints|
  {
    World(Step(w.evm, op), Advance(w.evm, w.history, op))
  }

  function Run(storage: Storage, ops: seq<Op>): (w: World)
    ensures |w.history.marks| == |w.evm.checkpoints|
  {
    if ops == [] then Init(storage) else Next(Run(storage, ops[..|ops| - 1]), ops[|ops| - 1])
  }
}
