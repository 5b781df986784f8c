/** `startSnapshotGas` / `stopSnapshotGas`: gas records, the active snapshot and the recording switch. */
module GasSnapshots {
  import opened Common

  datatype GasRecord = GasRecord(group: string, name: string, gasUsed: nat, depth: nat)

  datatype State = State(
    records: seq<GasRecord>, active: Option<(string, string)>, recording: bool,
    lastGasUsed: nat, snapshots: map<(string, string), nat>)

  /** Gas the snapshot calls themselves cost. */
  const OVERHEAD := 171

  function Minus(a: nat, b: nat): nat { if a >= b then a - b else 0 }

  // ----- Start, stop, meter -----

  function Start(s: State, group: string, name: string, depth: nat): State {
    if s.active.Some? then s
    else s.(records := s.records + [GasRecord(group, name, 0, depth)], active := Some((group, name)), recording := true)
  }

  predicate Is(r: GasRecord, group: string, name: string) { r.group == group && r.name == name }

  /** The first record of that group and name. */
  function Find(rs: seq<GasRecord>, group: string, name: string): Option<GasRecord> {
    if rs == [] then None else if Is(rs[0], group, name) then Some(rs[0]) else Find(rs[1..], group, name)
  }

  /** `retain` with the source's condition: group differs and name differs. */
  function Retain(rs: seq<GasRecord>, group: string, name: string): seq<GasRecord> {
    if rs == [] then []
    else (if rs[0].group != group && rs[0].name != name then [rs[0]] else []) + Retain(rs[1..], group, name)
  }

  /** What stopping is meant to keep: every record but those of that group and name. */
  function Others(rs: seq<GasRecord>, group: string, name: string): seq<GasRecord> {
    if rs == [] then []
    else (if Is(rs[0], group, name) then [] else [rs[0]]) + Others(rs[1..], group, name)
  }

  /** The snapshot a stop refers to: both names if both are given, else the active one. */
  function Target(s: State, group: Option<string>, name: Option<string>): Option<(string, string)> {
    if group.Some? && name.Some? then Some((group.value, name.value)) else s.active
  }

  predicate StopSucceeds(s: State, group: Option<string>, name: Option<string>) {
    var t := Target(s, group, name);
    t.Some? && Find(s.records, t.value.0, t.value.1).Some?
  }

  function Stop(s: State, group: Option<string>, name: Option<string>): State {
    if !StopSucceeds(s, group, name) then s
    else
      var t := Target(s, group, name).value;
      s.(snapshots := s.snapshots[t := Minus(Find(s.records, t.0, t.1).value.gasUsed, OVERHEAD)],
         recording := false,
         records := Retain(s.records, t.0, t.1),
         active := if s.active == Some(t) then None else s.active)
  }

  /** One opcode at `depth` with `spent` gas spent so far in its frame. */
  function MeterAll(rs: seq<GasRecord>, last: nat, depth: nat, spent: nat): (seq<GasRecord>, nat) {
    if rs == [] then ([], last)
    else
      var r := rs[0];
      if r.depth != depth then
        var (rest, l) := MeterAll(rs[1..], last, depth, spent);
        ([r] + rest, l)
      else
        var r' := if last == 0 then r else r.(gasUsed := r.gasUsed + Minus(spent, last));
        var (rest, l) := MeterAll(rs[1..], spent, depth, spent);
        ([r'] + rest, l)
  }

  function Meter(s: State, depth: nat, spent: nat): State {
    if !s.recording then s
    else
      var (rs, last) := MeterAll(s.records, s.lastGasUsed, depth, spent);
      s.(records := rs, lastGasUsed := last)
  }

  // ----- The in-place form -----

  class Metering {
    var records: seq<GasRecord>
    var active: Option<(string, string)>
    var recording: bool
    var lastGasUsed: nat
    var snapshots: map<(string, string), nat>

    function View(): State
      reads this
    {
      State(records, active, recording, lastGasUsed, snapshots)
    }

    constructor ()
      ensures View() == State([], None, false, 0, map[])
    {
      records, active, recording, lastGasUsed, snapshots := [], None, false, 0, map[];
    }

    method StartSnapshot(group: string, name: string, depth: nat) returns (ok: bool)
      modifies this
      ensures View() == Start(old(View()), group, name, depth)
      ensures ok <==> old(active).None?
    {
      if active.Some? {
        return false;
      }
      records := records + [GasRecord(group, name, 0, depth)];
      active := Some((group, name));
      recording := true;
      return true;
    }

    method FindRecord(group: string, name: string) returns (r: Option<GasRecord>)
      ensures r == Find(records, group, name)
    {
      assert records[0..] == records;
      for i := 0 to |records|
        invariant Find(records, group, name) == Find(records[i..], group, name)
      {
        if records[i].group == group && records[i].name == name {
          return Some(records[i]);
        }
      }
      return None;
    }

    method RetainRecords(group: string, name: string)
      modifies this`records
      ensures records == Retain(old(records), group, name)
    {
      var kept: seq<GasRecord> := [];
      assert records[0..] == records;
      for i := 0 to |records|
        invariant records == old(records)
        invariant Retain(records, group, name) == kept + Retain(records[i..], group, name)
      {
        var keep := if records[i].group != group && records[i].name != name then [records[i]] else [];
        RetainStep(records, i, group, name);
        Assoc(kept, keep, Retain(records[i + 1..], group, name));
        kept := kept + keep;
      }
      records := kept;
    }

    method StopSnapshot(group: Option<string>, name: Option<string>) returns (value: Option<nat>)
      modifies this
      ensures View() == Stop(old(View()), group, name)
      ensures value.Some? <==> old(StopSucceeds(View(), group, name))
      ensures value.Some? ==> snapshots[old(Target(View(), group, name)).value] == value.value
    {
      var target := if group.Some? && name.Some? then Some((group.value, name.value)) else active;
      if target.None? {
        return None;
      }
      var g, n := target.value.0, target.value.1;
      var record := FindRecord(g, n);
      if record.None? {
        return None;
      }
      var used := if record.value.gasUsed >= OVERHEAD then record.value.gasUsed - OVERHEAD else 0;
      snapshots := snapshots[target.value := used];
      recording := false;
      RetainRecords(g, n);
      if active.Some? && active.value.0 == g && active.value.1 == n {
        active := None;
      }
      return Some(used);
    }

    /** `meter_gas_record`: run before every opcode that goes on. */
    method MeterGas(depth: nat, spent: nat)
      modifies this`records, this`lastGasUsed
      ensures View() == Meter(old(View()), depth, spent)
    {
      if !recording {
        return;
      }
      assert records[0..] == records;
      ghost var whole := MeterAll(records, lastGasUsed, depth, spent);
      assert records[..0] + whole.0 == whole.0;
      for i := 0 to |records|
        invariant |records| == |old(records)| && records[i..] == old(records)[i..]
        invariant var (rest, last) := MeterAll(records[i..], lastGasUsed, depth, spent);
                  whole == (records[..i] + rest, last)
      {
        var before, r := records, records[i];
        ghost var last := if r.depth == depth then spent else lastGasUsed;
        ghost var (rest, _) := MeterAll(records[i + 1..], last, depth, spent);
        assert before[i..][1..] == before[i + 1..] == old(records)[i + 1..];
        if r.depth == depth {
          if lastGasUsed != 0 {
            r := r.(gasUsed := r.gasUsed + if spent >= lastGasUsed then spent - lastGasUsed else 0);
          }
          lastGasUsed := spent;
        }
        records := records[i := r];
        assert records[i + 1..] == before[i + 1..];
        assert records[..i + 1] == before[..i] + [r];
        Assoc(before[..i], [r], rest);
      }
    }
  }

  // ----- Retain -----

  lemma RetainStep(rs: seq<GasRecord>, i: nat, group: string, name: string)
    requires i < |rs|
    ensures var keep := if rs[i].group != group && rs[i].name != name then [rs[i]] else [];
            Retain(rs[i..], group, name) == keep + Retain(rs[i + 1..], group, name)
  {
    assert rs[i..][1..] == rs[i + 1..];
  }

  /** A record that agrees with the pair in exactly one of group and name. */
  predicate HalfMatch(r: GasRecord, group: string, name: string) {
    (r.group == group) != (r.name == name)
  }

  /** The source's condition removes exactly the stopped record if and only if no other record half-matches. */
  lemma {:induction false} RetainExact(rs: seq<GasRecord>, group: string, name: string)
    ensures |Retain(rs, group, name)| <= |Others(rs, group, name)|
    ensures Retain(rs, group, name) == Others(rs, group, name)
       <==> forall i :: 0 <= i < |rs| ==> !HalfMatch(rs[i], group, name)
  {
    if rs != [] {
      RetainExact(rs[1..], group, name);
      var keep := if rs[0].group != group && rs[0].name != name then [rs[0]] else [];
      if HalfMatch(rs[0], group, name) {
        assert |Others(rs, group, name)| == 1 + |Others(rs[1..], group, name)|;
      } else {
        assert Others(rs, group, name) == keep + Others(rs[1..], group, name);
        assert Retain(rs, group, name)[|keep|..] == Retain(rs[1..], group, name);
        assert Others(rs, group, name)[|keep|..] == Others(rs[1..], group, name);
        assert forall i :: 0 <= i < |rs[1..]| ==> rs[1..][i] == rs[i + 1];
        assert forall i :: 1 <= i < |rs| ==> rs[i] == rs[1..][i - 1];
      }
    }
  }

  // ----- Runs -----

  datatype Op =
    | StartOp(group: string, name: string, depth: nat)
    | StopOp(groupGiven: Option<string>, nameGiven: Option<string>)
    | MeterOp(depth: nat, spent: nat)

  function Step(s: State, op: Op): State {
    match op
    case StartOp(group, name, depth) => Start(s, group, name, depth)
    case StopOp(group, name) => Stop(s, group, name)
    case MeterOp(depth, spent) => Meter(s, depth, spent)
  }

  const INITIAL := State([], None, false, 0, map[])

  function RunFrom(s: State, ops: seq<Op>): State {
    if ops == [] then s else Step(RunFrom(s, ops[..|ops| - 1]), ops[|ops| - 1])
  }

  function Run(ops: seq<Op>): State {
    RunFrom(INITIAL, ops)
  }

  /** At most one record; it exists exactly while a snapshot of its group and name is active and recording. */
  ghost predicate Inv(s: State) {
    && (s.active.Some? <==> s.recording)
    && (if s.active.Some? then |s.records| == 1 && Is(s.records[0], s.active.value.0, s.active.value.1)
        else s.records == [])
  }

  /** The gas one opcode adds when the previous metered one had spent `last`. */
  function Rise(last: nat, spent: nat): nat {
    if last == 0 then 0 else Minus(spent, last)
  }

  lemma MeterOne(s: State, depth: nat, spent: nat)
    requires Inv(s)
    ensures Inv(Meter(s, depth, spent))
    ensures Meter(s, depth, spent)
         == if s.active.None? || s.records[0].depth != depth then s
            else var r := s.records[0];
              s.(records := [r.(gasUsed := r.gasUsed + Rise(s.lastGasUsed, spent))], lastGasUsed := spent)
  {
    if s.recording {
      assert s.records[1..] == [];
      assert s.records == [s.records[0]];
      assert MeterAll(s.records[1..], s.lastGasUsed, depth, spent) == ([], s.lastGasUsed);
      assert MeterAll(s.records[1..], spent, depth, spent) == ([], spent);
    }
  }

  /** A stop succeeds exactly on the active snapshot, and then leaves nothing behind but its value. */
  lemma StopExact(s: State, group: Option<string>, name: Option<string>)
    requires Inv(s)
    ensures StopSucceeds(s, group, name) <==> s.active.Some? && Target(s, group, name) == s.active
    ensures StopSucceeds(s, group, name) ==>
              var s' := Stop(s, group, name);
              && s'.records == Others(s.records, s.active.value.0, s.active.value.1) == []
              && s'.active == None && !s'.recording
              && s'.snapshots == s.snapshots[s.active.value := Minus(s.records[0].gasUsed, OVERHEAD)]
    ensures Inv(Stop(s, group, name))
  {
    var t := Target(s, group, name);
    if s.active.Some? {
      assert s.records[1..] == [];
      if t.Some? {
        assert Find(s.records[1..], t.value.0, t.value.1) == None;
      }
      var (g, n) := s.active.value;
      assert Others(s.records, g, n) == Others(s.records[1..], g, n);
      assert Retain(s.records, g, n) == Retain(s.records[1..], g, n);
    }
  }

  lemma StepKeepsInv(s: State, op: Op)
    requires Inv(s)
    ensures Inv(Step(s, op))
  {
    match op
    case StartOp(_, _, _) =>
    case StopOp(group, name) => StopExact(s, group, name);
    case MeterOp(depth, spent) => MeterOne(s, depth, spent);
  }

  lemma {:induction false} RunKeepsInv(ops: seq<Op>)
    ensures Inv(Run(ops))
  {
    if ops != [] {
      RunKeepsInv(ops[..|ops| - 1]);
      StepKeepsInv(Run(ops[..|ops| - 1]), ops[|ops| - 1]);
    }
  }

  /** One cheatcode or opcode, carried out in place; a stop that succeeds returns its value. */
  method Fire(m: Metering, op: Op) returns (value: Option<nat>)
    modifies m
    ensures m.View() == Step(old(m.View()), op)
    ensures value.Some? <==> op.StopOp? && old(StopSucceeds(m.View(), op.groupGiven, op.nameGiven))
    ensures value.Some? ==> value.value == m.snapshots[old(Target(m.View(), op.groupGiven, op.nameGiven)).value]
  {
    value := None;
    match op
    case StartOp(group, name, depth) => var _ := m.StartSnapshot(group, name, depth);
    case StopOp(group, name) => value := m.StopSnapshot(group, name);
    case MeterOp(depth, spent) => m.MeterGas(depth, spent);
  }

  /** The in-place form, driven through any run, ends in the state of that run. */
  method Drive(ops: seq<Op>) returns (s: State)
    ensures s == Run(ops) && Inv(s)
  {
    var m := new Metering();
    for i := 0 to |ops|
      invariant fresh(m) && m.View() == Run(ops[..i])
    {
      assert ops[..i + 1][..i] == ops[..i];
      var _ := Fire(m, ops[i]);
    }
    assert ops[..|ops|] == ops;
    RunKeepsInv(ops);
    s := m.View();
  }

  // ----- What a snapshot measures -----

  /** Gas spent at the opcodes run at `depth`, in order. */
  function SpentAt(ops: seq<Op>, depth: nat): seq<nat> {
    if ops == [] then []
    else
      var op := ops[|ops| - 1];
      SpentAt(ops[..|ops| - 1], depth) + if op.MeterOp? && op.depth == depth then [op.spent] else []
  }

  function LastOr(last: nat, spents: seq<nat>): nat {
    if spents == [] then last else spents[|spents| - 1]
  }

  /** All rises from one opcode to the next, the first one from `last`. */
  function Rises(last: nat, spents: seq<nat>): nat {
    if spents == [] then 0
    else
      var init := spents[..|spents| - 1];
      Rises(last, init) + Rise(LastOr(last, init), spents[|spents| - 1])
  }

  /** A stop that refers to the snapshot while it is the active one. */
  predicate Stops(op: Op, group: string, name: string) {
    op.StopOp? && (op.groupGiven.Some? && op.nameGiven.Some? ==>
                     op.groupGiven.value == group && op.nameGiven.value == name)
  }

  /** The state while the snapshot is active. */
  function Measuring(s: State, group: string, name: string, depth: nat, spents: seq<nat>): State {
    s.(records := [GasRecord(group, name, Rises(s.lastGasUsed, spents), depth)],
       active := Some((group, name)), recording := true, lastGasUsed := LastOr(s.lastGasUsed, spents))
  }

  lemma MeasuringStep(s: State, group: string, name: string, depth: nat, spents: seq<nat>, op: Op)
    requires !Stops(op, group, name)
    ensures Step(Measuring(s, group, name, depth, spents), op)
         == Measuring(s, group, name, depth,
                      if op.MeterOp? && op.depth == depth then spents + [op.spent] else spents)
  {
    var now := Measuring(s, group, name, depth, spents);
    assert Inv(now);
    match op
    case StartOp(_, _, _) =>
    case StopOp(g, n) => StopExact(now, g, n);
    case MeterOp(d, spent) =>
      MeterOne(now, d, spent);
      assert (spents + [spent])[..|spents|] == spents;
  }

  /** Whatever runs before its stop, at whatever depths, a snapshot adds up the rises at its own depth. */
  lemma {:induction false} Measures(s: State, group: string, name: string, depth: nat, ops: seq<Op>)
    requires Inv(s) && s.active.None?
    requires forall i :: 0 <= i < |ops| ==> !Stops(ops[i], group, name)
    ensures RunFrom(Start(s, group, name, depth), ops) == Measuring(s, group, name, depth, SpentAt(ops, depth))
  {
    if ops == [] {
      assert Start(s, group, name, depth).records == [GasRecord(group, name, 0, depth)];
    } else {
      var init, op := ops[..|ops| - 1], ops[|ops| - 1];
      Measures(s, group, name, depth, init);
      MeasuringStep(s, group, name, depth, SpentAt(init, depth), op);
      assert (op.MeterOp? && op.depth == depth) || SpentAt(ops, depth) == SpentAt(init, depth);
    }
  }

  /** How much more than its own gas a snapshot counts: the rise from the gas kept by the previous one. */
  lemma {:induction false} Excess(last: nat, spents: seq<nat>)
    ensures Rises(last, spents) == Rises(0, spents) + if spents == [] then 0 else Rise(last, spents[0])
  {
    if |spents| > 1 {
      Excess(last, spents[..|spents| - 1]);
    } else if |spents| == 1 {
      assert spents[..0] == [];
    }
  }

  /** Within one frame gas only grows, and the rises add up to the difference of its ends. */
  lemma {:induction false} Telescopes(spents: seq<nat>)
    requires spents != [] && spents[0] > 0
    requires forall i, j :: 0 <= i < j < |spents| ==> spents[i] <= spents[j]
    ensures Rises(0, spents) == spents[|spents| - 1] - spents[0]
  {
    var n := |spents| - 1;
    if n > 0 {
      Telescopes(spents[..n]);
      assert LastOr(0, spents[..n]) == spents[n - 1] >= spents[0];
    } else {
      assert spents[..0] == [];
    }
  }

  /**
   What a snapshot stores, for any run from its start to its stop. It measures its own gas only,
   if and only if the gas kept from earlier is zero or not below that of its first opcode.
   */
  lemma {:induction false} SnapshotMeasures(s: State, group: string, name: string, depth: nat, ops: seq<Op>, stop: Op)
    requires Inv(s) && s.active.None? && Stops(stop, group, name)
    requires forall i :: 0 <= i < |ops| ==> !Stops(ops[i], group, name)
    ensures var spents := SpentAt(ops, depth);
            var used := Rises(s.lastGasUsed, spents);
            && Step(RunFrom(Start(s, group, name, depth), ops), stop)
               == s.(snapshots := s.snapshots[(group, name) := Minus(used, OVERHEAD)],
                     lastGasUsed := LastOr(s.lastGasUsed, spents))
            && (used == Rises(0, spents) <==> spents == [] || s.lastGasUsed == 0 || s.lastGasUsed >= spents[0])
            && (spents != [] && spents[0] > 0
                && (forall i, j :: 0 <= i < j < |spents| ==> spents[i] <= spents[j]) ==>
                  used == spents[|spents| - 1]
                          - if s.lastGasUsed == 0 || s.lastGasUsed > spents[0] then spents[0] else s.lastGasUsed)
  {
    var spents := SpentAt(ops, depth);
    Measures(s, group, name, depth, ops);
    StopExact(Measuring(s, group, name, depth, spents), stop.groupGiven, stop.nameGiven);
    Excess(s.lastGasUsed, spents);
    if spents != [] && spents[0] > 0 && (forall i, j :: 0 <= i < j < |spents| ==> spents[i] <= spents[j]) {
      Telescopes(spents);
    }
  }

  lemma RisesOfTwo(last: nat, a: nat, b: nat)
    ensures Rises(last, [a, b]) == Rise(last, a) + Rise(a, b)
  {
    assert [a, b][..1] == [a] && [a][..0] == [];
    assert Rises(last, [a]) == Rise(last, a);
  }

  lemma SpentAtTwo(depth: nat, a: nat, b: nat)
    ensures SpentAt([MeterOp(depth, a), MeterOp(depth, b)], depth) == [a, b]
  {
    var x, y := MeterOp(depth, a), MeterOp(depth, b);
    assert [x, y][..1] == [x] && [x][..0] == [];
    assert SpentAt([x], depth) == [a];
  }

  /** One snapshot over two opcodes of its own frame. */
  function Taken(s: State, group: string, name: string, a: nat, b: nat): State {
    Step(RunFrom(Start(s, group, name, 1), [MeterOp(1, a), MeterOp(1, b)]), StopOp(None, None))
  }

  /** Two snapshots of 200 gas each, of which the second also counts the 8280 gas between them. */
  lemma SecondSnapshotCountsGap(group: string, first: string, second: string)
    requires first != second
    ensures var s := Taken(Taken(INITIAL, group, first, 1520, 1720), group, second, 10000, 10200);
            s.snapshots == map[(group, first) := 200 - OVERHEAD, (group, second) := 200 + 8280 - OVERHEAD]
  {
    SpentAtTwo(1, 1520, 1720);
    RisesOfTwo(0, 1520, 1720);
    SnapshotMeasures(INITIAL, group, first, 1, [MeterOp(1, 1520), MeterOp(1, 1720)], StopOp(None, None));
    var s := Taken(INITIAL, group, first, 1520, 1720);
    SpentAtTwo(1, 10000, 10200);
    RisesOfTwo(1720, 10000, 10200);
    SnapshotMeasures(s, group, second, 1, [MeterOp(1, 10000), MeterOp(1, 10200)], StopOp(None, None));
  }
}
