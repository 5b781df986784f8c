/** `pauseGasMetering`: a stack of frozen gas values that has to follow the stack of frames. */
module PausedGas {
  import opened Common

  datatype Memory = Memory(words: nat, expansionCost: nat)
  datatype Gas = Gas(limit: nat, remaining: nat, refunded: int, memory: Memory)

  function FreshGas(limit: nat): Gas {
    Gas(limit, limit, 0, Memory(0, 0))
  }

  /** More was refunded than spent. */
  predicate OverRefunded(g: Gas) {
    g.limit - g.remaining < g.refunded
  }

  datatype Metering = Metering(paused: bool, touched: bool, reset: bool, pausedFrames: seq<Gas>)

  // ----- Effect of the hooks and cheatcodes -----

  function Pause(m: Metering): Metering { m.(paused := true) }

  function Resume(m: Metering): Metering {
    m.(paused := false, touched := m.touched || m.paused, pausedFrames := [])
  }

  function ResetGas(m: Metering): Metering {
    m.(paused := false, touched := true, reset := true, pausedFrames := [])
  }

  function InitFrame(m: Metering, gas: Gas): Metering {
    if m.paused then m.(pausedFrames := m.pausedFrames + [gas]) else m
  }

  /** `step`, run before every opcode; also gives the gas the opcode starts with. */
  function StepHook(m: Metering, gas: Gas): (Metering, Gas) {
    var n := |m.pausedFrames|;
    var (m1, g1) :=
      if !m.paused then (m, gas)
      else if n > 0 then (m, m.pausedFrames[n - 1].(memory := gas.memory))
      else (m.(pausedFrames := [gas]), gas);
    if m1.reset then (m1.(reset := false), FreshGas(g1.limit).(memory := g1.memory)) else (m1, g1)
  }

  /** `step_end`, run after every opcode; `exits` when the opcode ends its frame. */
  function StepEndHook(m: Metering, gas: Gas, exits: bool): (Metering, Gas) {
    var n := |m.pausedFrames|;
    (if m.paused && exits && n > 0 then m.(pausedFrames := m.pausedFrames[..n - 1]) else m,
     if m.touched && exits && OverRefunded(gas) then FreshGas(gas.limit) else gas)
  }

  class GasMetering {
    var paused: bool
    var touched: bool
    var reset: bool
    var pausedFrames: seq<Gas>

    function View(): Metering
      reads this
    {
      Metering(paused, touched, reset, pausedFrames)
    }

    constructor ()
      ensures View() == Metering(false, false, false, [])
    {
      paused, touched, reset, pausedFrames := false, false, false, [];
    }

    method PauseMetering()
      modifies this
      ensures View() == Pause(old(View()))
    {
      paused := true;
    }

    method ResumeMetering()
      modifies this
      ensures View() == Resume(old(View()))
    {
      if paused {
        paused := false;
        touched := true;
      }
      pausedFrames := [];
    }

    method ResetMetering()
      modifies this
      ensures View() == ResetGas(old(View()))
    {
      paused, touched, reset := false, true, true;
      pausedFrames := [];
    }

    method InitializeInterp(gas: Gas)
      modifies this
      ensures View() == InitFrame(old(View()), gas)
    {
      if paused {
        pausedFrames := pausedFrames + [gas];
      }
    }

    method Step(gas: Gas) returns (gas': Gas)
      modifies this
      ensures (View(), gas') == StepHook(old(View()), gas)
    {
      gas' := gas;
      if paused {
        if pausedFrames != [] {
          var memory := gas'.memory;
          gas' := pausedFrames[|pausedFrames| - 1];
          gas' := gas'.(memory := memory);
        } else {
          pausedFrames := pausedFrames + [gas'];
          assert pausedFrames == [gas'];
        }
      }
      if reset {
        gas' := FreshGas(gas'.limit).(memory := gas'.memory);
        reset := false;
      }
    }

    method StepEnd(gas: Gas, exits: bool) returns (gas': Gas)
      modifies this
      ensures (View(), gas') == StepEndHook(old(View()), gas, exits)
    {
      gas' := gas;
      if paused && exits && pausedFrames != [] {
        pausedFrames := pausedFrames[..|pausedFrames| - 1];
      }
      if touched && exits && gas'.limit - gas'.remaining < gas'.refunded {
        gas' := FreshGas(gas'.limit);
      }
    }
  }

  // ----- Frames running under the hooks -----

  /** A live frame; `first` is the gas it had when first metered in the current pause. */
  datatype Frame = Frame(gas: Gas, first: Option<Gas>)

  datatype Cheat = PauseCheat | ResumeCheat | ResetCheat

  /** What the running frame's next opcode does; `after` is its gas when the opcode is done. */
  datatype Op =
    | Plain(after: Gas)
    | Enter(after: Gas, child: Gas)
      /** The frame ends and its caller goes on with the gas `back`. */
    | Exit(after: Gas, back: Gas)
      /** A call to a cheatcode: an opcode like any other, with no frame of its own. */
    | CheatCall(after: Gas, cheat: Cheat)

  datatype Machine = Machine(metering: Metering, frames: seq<Frame>)

  function Unmetered(fs: seq<Frame>): (r: seq<Frame>)
    ensures |r| == |fs|
  {
    seq(|fs|, i requires 0 <= i < |fs| => fs[i].(first := None))
  }

  /** The running frame once the hook before its next opcode has run. */
  function Begun(s: Machine): Frame
    requires s.frames != []
  {
    var f := s.frames[|s.frames| - 1];
    Frame(StepHook(s.metering, f.gas).1,
          if s.metering.paused && f.first.None? then Some(f.gas) else f.first)
  }

  function Next(s: Machine, op: Op): Machine {
    if s.frames == [] then s
    else
      var n := |s.frames| - 1;
      var m := StepHook(s.metering, s.frames[n].gas).0;
      var (m', gas) := StepEndHook(m, op.after, op.Exit?);
      var here := s.frames[..n] + [Frame(gas, Begun(s).first)];
      match op
      case Plain(_) => Machine(m', here)
      case Enter(_, child) =>
        Machine(InitFrame(m', child), here + [Frame(child, if m'.paused then Some(child) else None)])
      case Exit(_, back) =>
        Machine(m', if n == 0 then [] else s.frames[..n][n - 1 := s.frames[n - 1].(gas := back)])
      case CheatCall(_, PauseCheat) => Machine(Pause(m'), here)
      case CheatCall(_, ResumeCheat) => Machine(Resume(m'), Unmetered(here))
      case CheatCall(_, ResetCheat) => Machine(ResetGas(m'), Unmetered(here))
  }

  // ----- The stack of frozen gas follows the stack of frames -----

  function Firsts(fs: seq<Frame>): seq<Gas> {
    if fs == [] then []
    else Firsts(fs[..|fs| - 1]) + if fs[|fs| - 1].first.Some? then [fs[|fs| - 1].first.value] else []
  }

  /** Once a frame is metered, so is every frame above it. */
  predicate MeteredSuffix(fs: seq<Frame>) {
    forall i, j :: 0 <= i < j < |fs| && fs[i].first.Some? ==> fs[j].first.Some?
  }

  ghost predicate Inv(s: Machine) {
    && s.metering.pausedFrames == Firsts(s.frames)
    && MeteredSuffix(s.frames)
    && (s.metering.paused ==> !s.metering.reset)
    && (!s.metering.paused ==> forall i :: 0 <= i < |s.frames| ==> s.frames[i].first.None?)
  }

  lemma {:induction false} NoFirsts(fs: seq<Frame>)
    requires forall i :: 0 <= i < |fs| ==> fs[i].first.None?
    ensures Firsts(fs) == []
  {
    if fs != [] {
      NoFirsts(fs[..|fs| - 1]);
    }
  }

  /** `Firsts` only looks at `first`. */
  lemma {:induction false} SameFirsts(fs: seq<Frame>, gs: seq<Frame>)
    requires |fs| == |gs| && forall i :: 0 <= i < |fs| ==> fs[i].first == gs[i].first
    ensures Firsts(fs) == Firsts(gs)
  {
    if fs != [] {
      SameFirsts(fs[..|fs| - 1], gs[..|gs| - 1]);
    }
  }

  lemma FirstsTop(fs: seq<Frame>, f: Frame)
    ensures Firsts(fs + [f]) == Firsts(fs) + if f.first.Some? then [f.first.value] else []
  {
    assert (fs + [f])[..|fs|] == fs;
  }

  /** Before every opcode: while paused, the frozen gas on top is the running frame's own. */
  lemma {:induction false} HookMetersRunningFrame(s: Machine)
    requires Inv(s) && s.frames != []
    ensures var n := |s.frames| - 1;
            var m := StepHook(s.metering, s.frames[n].gas).0;
            var frozen := m.pausedFrames;
            && frozen == Firsts(s.frames[..n] + [Begun(s)])
            && MeteredSuffix(s.frames[..n] + [Begun(s)])
            && m.paused == s.metering.paused
            && (!m.paused ==> Begun(s).first.None?)
            && (m.paused ==> Begun(s).first.Some? && frozen != [] && frozen[|frozen| - 1] == Begun(s).first.value)
  {
    var n := |s.frames| - 1;
    FirstsTop(s.frames[..n], Begun(s));
    FirstsTop(s.frames[..n], s.frames[n]);
    assert s.frames == s.frames[..n] + [s.frames[n]];
    if s.metering.paused && s.frames[n].first.None? {
      NoFirsts(s.frames[..n]);
    }
  }

  lemma {:induction false} HereKeepsInv(s: Machine, op: Op)
    requires Inv(s) && s.frames != [] && !op.Exit?
    ensures var n := |s.frames| - 1;
            var m := StepHook(s.metering, s.frames[n].gas).0;
            var (m', gas) := StepEndHook(m, op.after, false);
            && m' == m
            && Inv(Machine(m, s.frames[..n] + [Frame(gas, Begun(s).first)]))
  {
    var n := |s.frames| - 1;
    HookMetersRunningFrame(s);
    var gas := StepEndHook(StepHook(s.metering, s.frames[n].gas).0, op.after, false).1;
    SameFirsts(s.frames[..n] + [Begun(s)], s.frames[..n] + [Frame(gas, Begun(s).first)]);
  }

  lemma {:induction false} ExitKeepsInv(s: Machine, op: Op)
    requires Inv(s) && s.frames != [] && op.Exit?
    ensures Inv(Next(s, op))
  {
    var n := |s.frames| - 1;
    HookMetersRunningFrame(s);
    FirstsTop(s.frames[..n], Begun(s));
    assert Next(s, op).metering.pausedFrames == Firsts(s.frames[..n]) by {
      if !s.metering.paused {
        NoFirsts(s.frames[..n]);
      }
    }
    SameFirsts(s.frames[..n], Next(s, op).frames);
  }

  /** The frames once the running opcode is done and its frame goes on. */
  function Here(s: Machine, op: Op): seq<Frame>
    requires s.frames != []
  {
    var n := |s.frames| - 1;
    s.frames[..n] + [Frame(StepEndHook(StepHook(s.metering, s.frames[n].gas).0, op.after, false).1, Begun(s).first)]
  }

  lemma {:induction false} EnterKeepsInv(s: Machine, op: Op)
    requires Inv(s) && s.frames != [] && op.Enter?
    ensures Inv(Next(s, op))
  {
    HereKeepsInv(s, op);
    var paused := StepHook(s.metering, s.frames[|s.frames| - 1].gas).0.paused;
    FirstsTop(Here(s, op), Frame(op.child, if paused then Some(op.child) else None));
  }

  lemma {:induction false} CheatKeepsInv(s: Machine, op: Op)
    requires Inv(s) && s.frames != [] && op.CheatCall?
    ensures Inv(Next(s, op))
  {
    HereKeepsInv(s, op);
    if !op.cheat.PauseCheat? {
      NoFirsts(Unmetered(Here(s, op)));
      assert Next(s, op).frames == Unmetered(Here(s, op));
    } else {
      assert Next(s, op).frames == Here(s, op);
    }
  }

  lemma {:induction false} StepKeepsInv(s: Machine, op: Op)
    requires Inv(s)
    ensures Inv(Next(s, op))
  {
    if s.frames != [] {
      match op
      case Plain(_) => HereKeepsInv(s, op);
      case Enter(_, _) => EnterKeepsInv(s, op);
      case Exit(_, _) => ExitKeepsInv(s, op);
      case CheatCall(_, _) => CheatKeepsInv(s, op);
    }
  }

  /** One frame, just entered, with metering on. */
  function Init(gas: Gas): Machine {
    Machine(Metering(false, false, false, []), [Frame(gas, None)])
  }

  function RunFrom(s: Machine, ops: seq<Op>): Machine {
    if ops == [] then s else Next(RunFrom(s, ops[..|ops| - 1]), ops[|ops| - 1])
  }

  function Run(gas: Gas, ops: seq<Op>): Machine {
    RunFrom(Init(gas), ops)
  }

  lemma {:induction false} RunKeepsInv(gas: Gas, ops: seq<Op>)
    ensures Inv(Run(gas, ops))
  {
    if ops != [] {
      RunKeepsInv(gas, ops[..|ops| - 1]);
      StepKeepsInv(Run(gas, ops[..|ops| - 1]), ops[|ops| - 1]);
    } else {
      NoFirsts(Init(gas).frames);
    }
  }

  lemma PausedOpcodeIsFree(s: Machine)
    requires Inv(s) && s.frames != [] && s.metering.paused
    ensures var f := s.frames[|s.frames| - 1];
            var frozen := StepHook(s.metering, f.gas).0.pausedFrames;
            && Begun(s).first.Some?
            && Begun(s).gas == Begun(s).first.value.(memory := f.gas.memory)
            && frozen != []
            && frozen[|frozen| - 1] == Begun(s).first.value
  {
    HookMetersRunningFrame(s);
  }

  // ----- The gas every opcode starts with -----

  /** The last metering cheatcode called. */
  function LastCheat(ops: seq<Op>): Option<Cheat> {
    if ops == [] then None
    else if ops[|ops| - 1].CheatCall? then Some(ops[|ops| - 1].cheat)
    else LastCheat(ops[..|ops| - 1])
  }

  /** Metering was reset, or resumed after a pause. */
  predicate Touched(ops: seq<Op>) {
    ops != [] &&
    var init, op := ops[..|ops| - 1], ops[|ops| - 1];
    || Touched(init)
    || (op.CheatCall? && (op.cheat.ResetCheat? || (op.cheat.ResumeCheat? && LastCheat(init) == Some(PauseCheat))))
  }

  lemma StepFlags(s: Machine, op: Op)
    requires s.frames != []
    ensures var m, m' := s.metering, Next(s, op).metering;
            && m'.paused == (if op.CheatCall? then op.cheat.PauseCheat? else m.paused)
            && m'.reset == (op.CheatCall? && op.cheat.ResetCheat?)
            && m'.touched == (m.touched
                              || (op.CheatCall? && (op.cheat.ResetCheat? || (op.cheat.ResumeCheat? && m.paused))))
  {
  }

  lemma {:induction false} FlagsExact(gas: Gas, ops: seq<Op>)
    requires Run(gas, ops).frames != []
    ensures var m := Run(gas, ops).metering;
            && (m.paused <==> LastCheat(ops) == Some(PauseCheat))
            && (m.touched <==> Touched(ops))
            && (m.reset <==> ops != [] && ops[|ops| - 1].CheatCall? && ops[|ops| - 1].cheat.ResetCheat?)
  {
    if ops != [] {
      FlagsExact(gas, ops[..|ops| - 1]);
      StepFlags(Run(gas, ops[..|ops| - 1]), ops[|ops| - 1]);
    }
  }

  /**
   In every run, an opcode starts with the gas its frame was first metered with in the current
   pause; right after a reset, with the whole limit; and otherwise with its frame's own gas.
   Memory is never taken back.
   */
  lemma {:induction false} OpcodeGas(gas: Gas, ops: seq<Op>)
    requires Run(gas, ops).frames != []
    ensures var s := Run(gas, ops);
            var own := s.frames[|s.frames| - 1].gas;
            && s.metering.pausedFrames == Firsts(s.frames)
            && (LastCheat(ops) == Some(PauseCheat) ==> Begun(s).first.Some?)
            && Begun(s).gas
               == if LastCheat(ops) == Some(PauseCheat) then Begun(s).first.value.(memory := own.memory)
                  else if ops != [] && ops[|ops| - 1].CheatCall? && ops[|ops| - 1].cheat.ResetCheat?
                  then FreshGas(own.limit).(memory := own.memory)
                  else own
  {
    RunKeepsInv(gas, ops);
    FlagsExact(gas, ops);
    if Run(gas, ops).metering.paused {
      PausedOpcodeIsFree(Run(gas, ops));
    }
  }

  /** The gas a frame was first metered with is fixed until it ends or metering is resumed or reset. */
  lemma FirstIsStable(s: Machine, op: Op, i: nat)
    requires i < |s.frames| && i < |Next(s, op).frames| && !(op.CheatCall? && !op.cheat.PauseCheat?)
    ensures Next(s, op).frames[i].first == if i == |s.frames| - 1 then Begun(s).first else s.frames[i].first
  {
  }

  /** From `s` on metering stays paused and the frame running at `s` stays alive. */
  predicate OnePause(s: Machine, ops: seq<Op>) {
    ops == [] ||
    var init, op := ops[..|ops| - 1], ops[|ops| - 1];
    && OnePause(s, init)
    && !(op.CheatCall? && !op.cheat.PauseCheat?)
    && |RunFrom(s, ops).frames| >= |s.frames|
  }

  lemma {:induction false} PauseGoesOn(s: Machine, ops: seq<Op>)
    requires Inv(s) && s.frames != [] && s.metering.paused && OnePause(s, ops)
    ensures var t := RunFrom(s, ops);
            && Inv(t) && t.metering.paused && |t.frames| >= |s.frames|
            && Begun(s).first.Some?
            && (ops != [] ==> t.frames[|s.frames| - 1].first == Begun(s).first)
  {
    if ops == [] {
      PausedOpcodeIsFree(s);
    } else {
      var init, op := ops[..|ops| - 1], ops[|ops| - 1];
      PauseGoesOn(s, init);
      var t := RunFrom(s, init);
      StepKeepsInv(t, op);
      StepFlags(t, op);
      FirstIsStable(t, op, |s.frames| - 1);
    }
  }

  /**
   Within one pause of any run all opcodes of a frame start with the same gas, memory aside,
   whatever the frame calls in between.
   */
  lemma {:induction false} GasStandsStill(gas: Gas, before: seq<Op>, ops: seq<Op>, memory: Memory)
    requires var s := Run(gas, before);
             s.frames != [] && s.metering.paused && OnePause(s, ops) && |RunFrom(s, ops).frames| == |s.frames|
    ensures var s := Run(gas, before);
            Begun(RunFrom(s, ops)).gas.(memory := memory) == Begun(s).gas.(memory := memory)
  {
    var s := Run(gas, before);
    RunKeepsInv(gas, before);
    PauseGoesOn(s, ops);
    PausedOpcodeIsFree(s);
    PausedOpcodeIsFree(RunFrom(s, ops));
  }

  // ----- The in-place form driven through a run -----

  /** The hooks around one opcode of the running frame; `started` is the gas it starts with. */
  method Fire(c: GasMetering, s: Machine, op: Op) returns (s': Machine, started: Gas)
    requires Inv(s) && s.frames != [] && c.View() == s.metering
    modifies c
    ensures s' == Next(s, op) && c.View() == s'.metering
    ensures Inv(s') && StartsWith(s, Some(started))
  {
    StepKeepsInv(s, op);
    BegunStarts(s);
    var n := |s.frames| - 1;
    var first := if c.paused && s.frames[n].first.None? then Some(s.frames[n].gas) else s.frames[n].first;
    started := c.Step(s.frames[n].gas);
    var after := c.StepEnd(op.after, op.Exit?);
    var frames := s.frames[..n] + [Frame(after, first)];
    match op {
      case Plain(_) =>
      case Enter(_, child) =>
        c.InitializeInterp(child);
        frames := frames + [Frame(child, if c.paused then Some(child) else None)];
      case Exit(_, back) =>
        frames := if n == 0 then [] else s.frames[..n][n - 1 := s.frames[n - 1].(gas := back)];
      case CheatCall(_, PauseCheat) => c.PauseMetering();
      case CheatCall(_, ResumeCheat) =>
        c.ResumeMetering();
        frames := Unmetered(frames);
      case CheatCall(_, ResetCheat) =>
        c.ResetMetering();
        frames := Unmetered(frames);
    }
    s' := Machine(c.View(), frames);
  }

  /** What the running frame's next opcode starts with; none once the last frame has ended. */
  predicate StartsWith(s: Machine, started: Option<Gas>) {
    if s.frames == [] then started == None
    else
      && started == Some(Begun(s).gas)
      && (s.metering.paused ==>
            && Begun(s).first.Some?
            && started.value == Begun(s).first.value.(memory := s.frames[|s.frames| - 1].gas.memory))
  }

  lemma BegunStarts(s: Machine)
    requires Inv(s) && s.frames != []
    ensures StartsWith(s, Some(Begun(s).gas))
  {
    if s.metering.paused {
      PausedOpcodeIsFree(s);
    }
  }

  /** Through any run the hooks keep the frozen stack and give a paused opcode the gas frozen for its frame. */
  method Drive(gas: Gas, ops: seq<Op>) returns (s: Machine, started: seq<Option<Gas>>)
    ensures s == Run(gas, ops) && s.metering.pausedFrames == Firsts(s.frames)
    ensures |started| == |ops| && forall i :: 0 <= i < |ops| ==> StartsWith(Run(gas, ops[..i]), started[i])
  {
    var c := new GasMetering();
    s, started := Init(gas), [];
    RunKeepsInv(gas, []);
    for i := 0 to |ops|
      invariant fresh(c) && s == Run(gas, ops[..i]) && Inv(s) && c.View() == s.metering && |started| == i
      invariant forall k :: 0 <= k < i ==> StartsWith(Run(gas, ops[..k]), started[k])
    {
      assert ops[..i + 1][..i] == ops[..i];
      if s.frames == [] {
        started := started + [None];
      } else {
        var g;
        s, g := Fire(c, s, ops[i]);
        started := started + [Some(g)];
      }
    }
    assert ops[..|ops|] == ops;
  }
}
