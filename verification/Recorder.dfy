/**
 The account-access recorder behind `startStateDiffRecording`: a stack holding one list of
 records per recorded frame. Functions give the effect of each hook on the stack; the class
 updates the stack in place and is proved to have exactly that effect.
 */
module Recorder {
  import opened Common

  type Address = nat
  type Word = nat

  datatype AccessKind =
    | Call | CallCode | DelegateCall | StaticCall | Create | SelfDestruct | Resume
    | Balance | Extcodesize | Extcodehash | Extcodecopy

  datatype ChainInfo = ChainInfo(forkId: Word, chainId: Word)

  datatype StorageAccess = StorageAccess(
    account: Address, slot: Word, isWrite: bool,
    previousValue: Word, newValue: Word, reverted: bool)

  datatype AccountAccess = AccountAccess(
    chainInfo: ChainInfo, accessor: Address, account: Address, kind: AccessKind,
    initialized: bool, oldBalance: Word, newBalance: Word, oldNonce: nat, newNonce: nat,
    value: Word, data: seq<Byte>, reverted: bool, deployedCode: seq<Byte>,
    storageAccesses: seq<StorageAccess>, depth: nat)

  type Records = seq<AccountAccess>
  type Stack = seq<Records>

  /** What `load_account` reports about an account. */
  datatype AccountInfo = AccountInfo(initialized: bool, balance: Word, nonce: nat, code: seq<Byte>)

  datatype FrameKind = CallFrame | CreateFrame

  // ----- Records written by the hooks -----

  function Loaded(info: Option<AccountInfo>): AccountInfo {
    if info.Some? then info.value else AccountInfo(false, 0, 0, [])
  }

  function CallRecord(chain: ChainInfo, kind: AccessKind, caller: Address, account: Address, value: Word,
                      data: seq<Byte>, info: Option<AccountInfo>, depth: nat): AccountAccess
  {
    var acc := Loaded(info);
    AccountAccess(chain, caller, account, kind, acc.initialized, acc.balance, 0, acc.nonce, 0,
                  value, data, false, [], [], depth)
  }

  function CreateRecord(chain: ChainInfo, caller: Address, account: Address, value: Word,
                        initCode: seq<Byte>, depth: nat): AccountAccess
  {
    AccountAccess(chain, caller, account, Create, true, 0, 0, 0, 1, value, initCode, false, [], [], depth)
  }

  function SelfDestructRecord(chain: ChainInfo, accessor: Address, target: Address, value: Word,
                              info: Option<AccountInfo>, depth: nat): AccountAccess
  {
    var acc := Loaded(info);
    AccountAccess(chain, accessor, target, SelfDestruct, acc.initialized, acc.balance, acc.balance + value,
                  acc.nonce, acc.nonce, value, [], false, [], [], depth)
  }

  function ExtRecord(chain: ChainInfo, kind: AccessKind, accessor: Address, target: Address,
                     info: Option<AccountInfo>, depth: nat): AccountAccess
  {
    var acc := Loaded(info);
    AccountAccess(chain, accessor, target, kind, acc.initialized, acc.balance, acc.balance,
                  acc.nonce, acc.nonce, 0, [], false, [], [], depth)
  }

  function ResumeRecord(entry: AccountAccess, access: StorageAccess): AccountAccess {
    AccountAccess(entry.chainInfo, entry.accessor, entry.account, Resume, entry.initialized, 0, 0, 0, 0,
                  0, [], entry.reverted, [], [access], entry.depth)
  }

  // ----- Effect of each hook on the stack -----

  function WithAccess(r: AccountAccess, access: StorageAccess): AccountAccess {
    r.(storageAccesses := r.storageAccesses + [access])
  }

  function AppendStorageAccess(last: Records, access: StorageAccess, depth: nat): Records {
    if last == [] || last[0].depth >= depth then last
    else if |last| == 1 then [WithAccess(last[0], access)]
    else
      var n := |last| - 1;
      if last[n].kind.Resume? then last[n := WithAccess(last[n], access)]
      else last + [ResumeRecord(last[0], access)]
  }

  /** `SLOAD` and `SSTORE`: the access goes to the topmost list, if there is one. */
  function StorageStep(stack: Stack, access: StorageAccess, depth: nat): Stack {
    if stack == [] then stack
    else stack[|stack| - 1 := AppendStorageAccess(stack[|stack| - 1], access, depth)]
  }

  function SelfDestructStep(stack: Stack, record: AccountAccess): Stack {
    if stack == [] then stack else stack[|stack| - 1 := stack[|stack| - 1] + [record]]
  }

  function ExtStep(stack: Stack, record: AccountAccess): Stack {
    if stack == [] then [[record]] else stack[|stack| - 1 := stack[|stack| - 1] + [record]]
  }

  function MarkAccesses(xs: seq<StorageAccess>): (r: seq<StorageAccess>)
    ensures |r| == |xs|
  {
    seq(|xs|, i requires 0 <= i < |xs| => xs[i].(reverted := true))
  }

  function MarkRecord(r: AccountAccess): AccountAccess {
    r.(reverted := true, storageAccesses := MarkAccesses(r.storageAccesses))
  }

  function MarkRecords(rs: Records): (r: Records)
    ensures |r| == |rs|
  {
    seq(|rs|, i requires 0 <= i < |rs| => MarkRecord(rs[i]))
  }

  /** Post-frame fields of the record that opened the frame; only at the depth it was opened. */
  function FinishRecord(r: AccountAccess, kind: FrameKind, depth: nat, acc: Option<AccountInfo>): AccountAccess {
    if r.depth != depth || acc.None? then r
    else
      var r' := r.(newBalance := acc.value.balance, newNonce := acc.value.nonce);
      if kind.CreateFrame? then r'.(deployedCode := acc.value.code) else r'
  }

  /** `call_end` and `create_end`: pop, mark, finish, then merge into the list below. */
  function EndFrame(stack: Stack, kind: FrameKind, depth: nat, isRevert: bool, acc: Option<AccountInfo>): Stack {
    if depth == 0 || stack == [] then stack
    else
      var n := |stack| - 1;
      var marked := if isRevert then MarkRecords(stack[n]) else stack[n];
      if marked == [] then stack[..n]
      else
        var done := marked[0 := FinishRecord(marked[0], kind, depth, acc)];
        if n == 0 then [done] else stack[..n][n - 1 := stack[n - 1] + done]
  }

  // ----- The flattened view -----

  function Accesses(rs: Records): (r: seq<StorageAccess>) {
    if rs == [] then [] else Accesses(rs[..|rs| - 1]) + rs[|rs| - 1].storageAccesses
  }

  function Flat(stack: Stack): (r: seq<StorageAccess>) {
    if stack == [] then [] else Flat(stack[..|stack| - 1]) + Accesses(stack[|stack| - 1])
  }

  lemma {:induction false} AccessesSplit(a: Records, b: Records)
    ensures Accesses(a + b) == Accesses(a) + Accesses(b)
  {
    if b == [] {
      assert a + b == a;
    } else {
      var n := |b| - 1;
      assert (a + b)[..|a + b| - 1] == a + b[..n];
      AccessesSplit(a, b[..n]);
    }
  }

  lemma AccessesOne(r: AccountAccess)
    ensures Accesses([r]) == r.storageAccesses
  {
    assert [r][..0] == [];
    assert Accesses([r]) == Accesses([r][..0]) + r.storageAccesses;
  }

  lemma FlatTop(below: Stack, top: Records)
    ensures Flat(below + [top]) == Flat(below) + Accesses(top)
  {
    assert (below + [top])[..|below|] == below;
  }

  lemma {:induction false} AccessesMarked(rs: Records)
    ensures Accesses(MarkRecords(rs)) == MarkAccesses(Accesses(rs))
  {
    if rs != [] {
      var n := |rs| - 1;
      AccessesMarked(rs[..n]);
      assert MarkRecords(rs)[..n] == MarkRecords(rs[..n]);
    }
  }

  /** Replacing a record by one with the same storage accesses does not change the view. */
  lemma AccessesUpdate(rs: Records, i: nat, r: AccountAccess)
    requires i < |rs| && r.storageAccesses == rs[i].storageAccesses
    ensures Accesses(rs[i := r]) == Accesses(rs)
  {
    assert rs == rs[..i] + [rs[i]] + rs[i + 1..];
    assert rs[i := r] == rs[..i] + [r] + rs[i + 1..];
    AccessesOne(r);
    AccessesOne(rs[i]);
    AccessesSplit(rs[..i], [r]);
    AccessesSplit(rs[..i], [rs[i]]);
    AccessesSplit(rs[..i] + [r], rs[i + 1..]);
    AccessesSplit(rs[..i] + [rs[i]], rs[i + 1..]);
  }

  /** A recorded access always lands at the very end of the view, whichever record takes it. */
  lemma AppendAtEnd(last: Records, access: StorageAccess, depth: nat)
    ensures Accesses(AppendStorageAccess(last, access, depth))
         == if last == [] || last[0].depth >= depth then Accesses(last) else Accesses(last) + [access]
    ensures last != [] ==>
              var r := AppendStorageAccess(last, access, depth);
              r != [] && r[0].depth == last[0].depth
  {
    if last == [] || last[0].depth >= depth {
    } else {
      var n := |last| - 1;
      assert last == last[..n] + [last[n]];
      if |last| == 1 || last[n].kind.Resume? {
        var r := WithAccess(last[n], access);
        assert AppendStorageAccess(last, access, depth) == last[..n] + [r];
        AccessesSplit(last[..n], [r]);
        AccessesOne(r);
        AccessesSplit(last[..n], [last[n]]);
        AccessesOne(last[n]);
      } else {
        AccessesSplit(last, [ResumeRecord(last[0], access)]);
        AccessesOne(ResumeRecord(last[0], access));
      }
    }
  }

  // ----- Conservation by the end hooks -----

  /** A record without its flags and its end-of-frame fields. */
  function Skeleton(r: AccountAccess): AccountAccess {
    r.(reverted := false, newBalance := 0, newNonce := 0, deployedCode := [],
       storageAccesses := seq(|r.storageAccesses|, i requires 0 <= i < |r.storageAccesses| =>
                                r.storageAccesses[i].(reverted := false)))
  }

  function Skeletons(rs: Records): (r: Records)
    ensures |r| == |rs|
  {
    seq(|rs|, i requires 0 <= i < |rs| => Skeleton(rs[i]))
  }

  lemma MarkedSkeleton(r: AccountAccess)
    ensures Skeleton(MarkRecord(r)) == Skeleton(r)
  {
    assert Skeleton(MarkRecord(r)).storageAccesses == Skeleton(r).storageAccesses;
  }

  lemma MergeConcat(stack: Stack, done: Records)
    requires stack != []
    ensures var n := |stack| - 1;
            Concat(if n == 0 then [done] else stack[..n][n - 1 := stack[n - 1] + done]) == Concat(stack[..n]) + done
  {
    var n := |stack| - 1;
    if n == 0 {
      assert [done][..0] == [] && stack[..0] == [];
    } else {
      var merged := stack[..n][n - 1 := stack[n - 1] + done];
      assert merged[..n - 1] == stack[..n - 1] == stack[..n][..n - 1];
      assert Concat(stack[..n]) == Concat(stack[..n - 1]) + stack[n - 1];
    }
  }

  /** The end hooks keep every record, in order, apart from flags and end-of-frame fields. */
  lemma EndFrameConserves(stack: Stack, kind: FrameKind, depth: nat, isRevert: bool, acc: Option<AccountInfo>)
    ensures Skeletons(Concat(EndFrame(stack, kind, depth, isRevert, acc))) == Skeletons(Concat(stack))
  {
    if depth > 0 && stack != [] {
      var n := |stack| - 1;
      var marked := if isRevert then MarkRecords(stack[n]) else stack[n];
      if marked != [] {
        var done := marked[0 := FinishRecord(marked[0], kind, depth, acc)];
        forall i | 0 <= i < |done| ensures Skeleton(done[i]) == Skeleton(stack[n][i]) {
          MarkedSkeleton(stack[n][i]);
        }
        MergeConcat(stack, done);
      }
    }
  }

  // ----- The in-place recorder -----

  class Cheatcodes {
    var recorded: Option<Stack>

    constructor ()
      ensures recorded == None
    {
      recorded := None;
    }

    /** `startStateDiffRecording`. */
    method StartRecording()
      modifies this
      ensures recorded == Some([])
    {
      recorded := Some([]);
    }

    /** `stopAndReturnStateDiff`: hands out the flattened records and goes on recording. */
    method StopAndReturn() returns (diffs: Records)
      modifies this
      ensures diffs == if old(recorded).Some? then Concat(old(recorded).value) else []
      ensures recorded == Some([])
    {
      var stack := if recorded.Some? then recorded.value else [];
      recorded := Some([]);
      diffs := [];
      for i := 0 to |stack|
        invariant diffs == Concat(stack[..i])
      {
        assert stack[..i + 1][..i] == stack[..i];
        diffs := diffs + stack[i];
      }
      assert stack[..|stack|] == stack;
    }

    /** Recorder part of the `call` and `create` hooks. */
    method EnterFrame(record: AccountAccess)
      modifies this
      ensures recorded == if old(recorded).None? then None else Some(old(recorded).value + [[record]])
    {
      if recorded.Some? {
        recorded := Some(recorded.value + [[record]]);
      }
    }

    /** Recorder part of the `SLOAD` and `SSTORE` step. */
    method RecordStorage(access: StorageAccess, depth: nat)
      modifies this
      ensures recorded == if old(recorded).None? then None
                          else Some(StorageStep(old(recorded).value, access, depth))
    {
      if recorded.None? || recorded.value == [] {
        return;
      }
      var stack := recorded.value;
      var last := stack[|stack| - 1];
      if last != [] && last[0].depth < depth {
        if |last| == 1 {
          last := last[0 := WithAccess(last[0], access)];
        } else {
          var tail := last[|last| - 1];
          if tail.kind == Resume {
            last := last[|last| - 1 := WithAccess(tail, access)];
          } else {
            last := last + [ResumeRecord(last[0], access)];
          }
        }
        recorded := Some(stack[|stack| - 1 := last]);
      }
      assert last == AppendStorageAccess(stack[|stack| - 1], access, depth);
      assert recorded.value == stack[|stack| - 1 := last];
    }

    /** The marking loops of the end hooks. */
    method MarkReverted(list: Records) returns (marked: Records)
      ensures marked == MarkRecords(list)
    {
      marked := list;
      for i := 0 to |list|
        invariant |marked| == |list|
        invariant forall j :: 0 <= j < i ==> marked[j] == MarkRecord(list[j])
        invariant forall j :: i <= j < |list| ==> marked[j] == list[j]
      {
        var storage := marked[i].storageAccesses;
        for j := 0 to |storage|
          invariant |storage| == |list[i].storageAccesses|
          invariant forall k :: 0 <= k < j ==> storage[k] == list[i].storageAccesses[k].(reverted := true)
          invariant forall k :: j <= k < |storage| ==> storage[k] == list[i].storageAccesses[k]
        {
          storage := storage[j := storage[j].(reverted := true)];
        }
        assert storage == MarkAccesses(list[i].storageAccesses);
        marked := marked[i := marked[i].(reverted := true, storageAccesses := storage)];
      }
    }

    /** Recorder part of the `call_end` and `create_end` hooks. */
    method LeaveFrame(kind: FrameKind, depth: nat, isRevert: bool, acc: Option<AccountInfo>)
      modifies this
      ensures recorded == if old(recorded).None? then None
                          else Some(EndFrame(old(recorded).value, kind, depth, isRevert, acc))
    {
      if recorded.None? || depth == 0 || recorded.value == [] {
        return;
      }
      var stack := recorded.value;
      var last := stack[|stack| - 1];
      stack := stack[..|stack| - 1];
      if isRevert {
        last := MarkReverted(last);
      }
      ghost var marked := last;
      if last != [] {
        if last[0].depth == depth && acc.Some? {
          var first := last[0].(newBalance := acc.value.balance, newNonce := acc.value.nonce);
          if kind == CreateFrame {
            first := first.(deployedCode := acc.value.code);
          }
          last := last[0 := first];
        }
        assert last == marked[0 := FinishRecord(marked[0], kind, depth, acc)];
        if stack != [] {
          stack := stack[|stack| - 1 := stack[|stack| - 1] + last];
        } else {
          stack := [last];
        }
      }
      recorded := Some(stack);
    }

    /** Recorder part of the `SELFDESTRUCT` step. */
    method RecordSelfDestruct(record: AccountAccess)
      modifies this
      ensures recorded == if old(recorded).None? then None
                          else Some(SelfDestructStep(old(recorded).value, record))
    {
      if recorded.Some? && recorded.value != [] {
        var stack := recorded.value;
        recorded := Some(stack[|stack| - 1 := stack[|stack| - 1] + [record]]);
      }
    }

    /** Recorder part of the `EXTCODE*` and `BALANCE` steps. */
    method RecordExt(record: AccountAccess)
      modifies this
      ensures recorded == if old(recorded).None? then None
                          else Some(ExtStep(old(recorded).value, record))
    {
      if recorded.Some? {
        var stack := recorded.value;
        if stack != [] {
          recorded := Some(stack[|stack| - 1 := stack[|stack| - 1] + [record]]);
        } else {
          recorded := Some([[record]]);
        }
      }
    }
  }
}
