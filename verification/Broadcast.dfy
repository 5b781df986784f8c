/** Nonces of broadcast transactions and of the EIP-7702 delegations attached to them. */
module Broadcast {
  import opened Common

  type Address = nat

  datatype Auth = Auth(authority: Address, nonce: nat, implementation: Address)
  datatype Tx = Tx(from: Address, nonce: nat, auths: seq<Auth>, blob: bool)
  datatype Broadcasting = Broadcasting(
    newOrigin: Address, originalCaller: Address, depth: nat, singleCall: bool, deployFromCode: bool)

  /** Script-visible state: account nonces and delegated code, pending delegations, broadcast, transactions. */
  datatype Session = Session(
    nonces: map<Address, nat>, delegates: map<Address, Address>,
    active: seq<Auth>, blob: bool, broadcast: Option<Broadcasting>, txs: seq<Tx>, isolate: bool)

  function NonceOf(s: Session, a: Address): nat {
    if a in s.nonces then s.nonces[a] else 0
  }

  // ----- Delegations -----

  /** The most recent pending delegation of `authority`. */
  function LastOf(active: seq<Auth>, authority: Address): Option<Auth> {
    if active == [] then None
    else if active[|active| - 1].authority == authority then Some(active[|active| - 1])
    else LastOf(active[..|active| - 1], authority)
  }

  function NextDelegationNonce(active: seq<Auth>, authority: Address, broadcast: Option<Broadcasting>,
                               accountNonce: nat): nat
  {
    match LastOf(active, authority)
    case Some(auth) => auth.nonce + 1
    case None =>
      if broadcast.Some? && broadcast.value.newOrigin == authority then accountNonce + 1 else accountNonce
  }

  function ExpectedNonce(s: Session, authority: Address): nat {
    NextDelegationNonce(s.active, authority, s.broadcast, NonceOf(s, authority))
  }

  /** `attach_delegation`: refused, without any effect, unless the nonce is the expected one. */
  function Attach(s: Session, auth: Auth): Session {
    if auth.nonce != ExpectedNonce(s, auth.authority) then s
    else
      s.(active := s.active + [auth],
         delegates := if auth.implementation == 0 then s.delegates - {auth.authority}
                      else s.delegates[auth.authority := auth.implementation])
  }

  /** `sign_delegation`; a delegation only signed changes nothing. */
  function Sign(s: Session, authority: Address, implementation: Address, nonce: Option<nat>, attach: bool): Session {
    var n := if nonce.Some? then nonce.value else ExpectedNonce(s, authority);
    if attach then Attach(s, Auth(authority, n, implementation)) else s
  }

  // ----- Transactions -----

  function SelfCount(auths: seq<Auth>, origin: Address): nat {
    if auths == [] then 0
    else SelfCount(auths[..|auths| - 1], origin) + if auths[|auths| - 1].authority == origin then 1 else 0
  }

  predicate Broadcasts(s: Session, depth: nat, caller: Address) {
    s.broadcast.Some? && depth == s.broadcast.value.depth && caller == s.broadcast.value.originalCaller
  }

  /** Broadcast part of the `call` hook. */
  function Call(s: Session, depth: nat, caller: Address, isStatic: bool): Session {
    if !Broadcasts(s, depth, caller) || isStatic then s
    else if s.blob && s.active != [] then s.(active := [], blob := false)
    else
      var origin := s.broadcast.value.newOrigin;
      var nonce := NonceOf(s, origin);
      var nonce' := nonce + SelfCount(s.active, origin) + if s.isolate then 0 else 1;
      s.(active := [], blob := false, txs := s.txs + [Tx(origin, nonce, s.active, s.blob)],
         nonces := s.nonces[origin := nonce'])
  }

  /** A single-call broadcast ends with the first call that returns to its depth. */
  function CallEnd(s: Session, depth: nat): Session {
    if s.broadcast.Some? && depth == s.broadcast.value.depth && s.broadcast.value.singleCall
    then s.(broadcast := None) else s
  }

  /** A create is broadcast at the broadcast's own depth, or below it when `deployCode` asked for it. */
  predicate BroadcastsCreate(s: Session, depth: nat, caller: Address) {
    && s.broadcast.Some?
    && caller == s.broadcast.value.originalCaller
    && (depth == s.broadcast.value.depth || (depth > s.broadcast.value.depth && s.broadcast.value.deployFromCode))
  }

  /** Broadcast part of the `create` hook, and the sender nonce the EVM itself consumes for a create. */
  function CreateTx(s: Session, depth: nat, caller: Address): Session {
    if !BroadcastsCreate(s, depth, caller) then s
    else
      var origin := s.broadcast.value.newOrigin;
      var nonce := NonceOf(s, origin);
      s.(txs := s.txs + [Tx(origin, nonce, [], false)], nonces := s.nonces[origin := nonce + 1],
         broadcast := Some(s.broadcast.value.(deployFromCode := false)))
  }

  /** `deployCode` during a broadcast. */
  function DeployCode(s: Session): Session {
    if s.broadcast.None? then s else s.(broadcast := Some(s.broadcast.value.(deployFromCode := true)))
  }

  function StartBroadcast(s: Session, origin: Address, caller: Address, depth: nat, singleCall: bool): Session {
    if s.broadcast.Some? then s else s.(broadcast := Some(Broadcasting(origin, caller, depth, singleCall, false)))
  }

  // ----- The in-place form -----

  class Script {
    var nonces: map<Address, nat>
    var delegates: map<Address, Address>
    var active: seq<Auth>
    var blob: bool
    var broadcast: Option<Broadcasting>
    var txs: seq<Tx>
    const isolate: bool

    function View(): Session
      reads this
    {
      Session(nonces, delegates, active, blob, broadcast, txs, isolate)
    }

    constructor (nonces: map<Address, nat>, isolate: bool)
      ensures View() == Session(nonces, map[], [], false, None, [], isolate)
    {
      this.nonces, this.isolate := nonces, isolate;
      delegates, active, blob, broadcast, txs := map[], [], false, None, [];
    }

    /** `next_delegation_nonce`: searched from the most recent delegation backwards. */
    method NextNonce(authority: Address) returns (nonce: nat)
      ensures nonce == ExpectedNonce(View(), authority)
    {
      var i := |active|;
      assert active[..i] == active;
      while i > 0
        invariant 0 <= i <= |active|
        invariant LastOf(active, authority) == LastOf(active[..i], authority)
      {
        i := i - 1;
        assert active[..i + 1][..i] == active[..i];
        if active[i].authority == authority {
          return active[i].nonce + 1;
        }
      }
      nonce := if authority in nonces then nonces[authority] else 0;
      if broadcast.Some? && broadcast.value.newOrigin == authority {
        nonce := nonce + 1;
      }
    }

    method AttachDelegation(auth: Auth) returns (ok: bool)
      modifies this
      ensures View() == Attach(old(View()), auth)
      ensures ok <==> auth.nonce == old(ExpectedNonce(View(), auth.authority))
    {
      var expected := NextNonce(auth.authority);
      if expected != auth.nonce {
        return false;
      }
      if auth.implementation == 0 {
        delegates := delegates - {auth.authority};
      } else {
        delegates := delegates[auth.authority := auth.implementation];
      }
      active := active + [auth];
      return true;
    }

    method SignDelegation(authority: Address, implementation: Address, nonce: Option<nat>, attach: bool)
        returns (signed: Option<Auth>)
      modifies this
      ensures View() == Sign(old(View()), authority, implementation, nonce, attach)
      ensures signed.None? <==> attach && nonce.Some? && nonce.value != old(ExpectedNonce(View(), authority))
      ensures signed.Some? ==>
                var n := if nonce.Some? then nonce.value else old(ExpectedNonce(View(), authority));
                signed.value == Auth(authority, n, implementation)
    {
      var n;
      if nonce.Some? {
        n := nonce.value;
      } else {
        n := NextNonce(authority);
      }
      var auth := Auth(authority, n, implementation);
      if attach {
        var ok := AttachDelegation(auth);
        if !ok {
          return None;
        }
      }
      return Some(auth);
    }

    method BroadcastCall(depth: nat, caller: Address, isStatic: bool) returns (ok: bool)
      modifies this
      ensures View() == Call(old(View()), depth, caller, isStatic)
      ensures ok <==> !old(Broadcasts(View(), depth, caller))
                      || (if isStatic then !old(broadcast).value.singleCall else !(old(blob) && old(active) != []))
    {
      if broadcast.Some? && depth == broadcast.value.depth && caller == broadcast.value.originalCaller {
        if !isStatic {
          var origin := broadcast.value.newOrigin;
          var nonce := if origin in nonces then nonces[origin] else 0;
          var delegations, withBlob := active, blob;
          active, blob := [], false;
          if withBlob && delegations != [] {
            return false;
          }
          var account := nonce;
          for i := 0 to |delegations|
            invariant account == nonce + SelfCount(delegations[..i], origin)
          {
            assert delegations[..i + 1][..i] == delegations[..i];
            if delegations[i].authority == origin {
              account := account + 1;
            }
          }
          assert delegations[..|delegations|] == delegations;
          txs := txs + [Tx(origin, nonce, delegations, withBlob)];
          if !isolate {
            account := account + 1;
          }
          nonces := nonces[origin := account];
        } else if broadcast.value.singleCall {
          return false;
        }
      }
      return true;
    }

    method BroadcastCreate(depth: nat, caller: Address)
      modifies this
      ensures View() == CreateTx(old(View()), depth, caller)
    {
      if broadcast.Some? && depth >= broadcast.value.depth && caller == broadcast.value.originalCaller {
        if depth == broadcast.value.depth || broadcast.value.deployFromCode {
          var origin := broadcast.value.newOrigin;
          var nonce := if origin in nonces then nonces[origin] else 0;
          broadcast := Some(broadcast.value.(deployFromCode := false));
          txs := txs + [Tx(origin, nonce, [], false)];
          nonces := nonces[origin := nonce + 1];
        }
      }
    }

    /** One cheatcode or hook; broadcasts are by `o`. */
    method Fire(o: Address, op: Op)
      modifies this
      ensures View() == Step(old(View()), o, op)
    {
      match op
      case StartOp(caller, depth, singleCall) =>
        if broadcast.None? {
          broadcast := Some(Broadcasting(o, caller, depth, singleCall, false));
        }
      case StopOp => broadcast := None;
      case AttachOp(auth) => var _ := AttachDelegation(auth);
      case SignOp(authority, implementation, nonce, attach) =>
        var _ := SignDelegation(authority, implementation, nonce, attach);
      case BlobOp => blob := true;
      case CallOp(depth, caller, isStatic) => var _ := BroadcastCall(depth, caller, isStatic);
      case CallEndOp(depth) =>
        if broadcast.Some? && depth == broadcast.value.depth && broadcast.value.singleCall {
          broadcast := None;
        }
      case CreateOp(depth, caller) => BroadcastCreate(depth, caller);
      case DeployCodeOp =>
        if broadcast.Some? {
          broadcast := Some(broadcast.value.(deployFromCode := true));
        }
    }
  }

  // ----- What a chain does with the transactions -----

  /** EIP-7702 "Behavior": each authorization of `o` must carry, and then consumes, its current nonce. */
  function ExecuteAuths(auths: seq<Auth>, o: Address, nonce: nat): Option<nat> {
    if auths == [] then Some(nonce)
    else
      var auth := auths[|auths| - 1];
      match ExecuteAuths(auths[..|auths| - 1], o, nonce)
      case None => None
      case Some(n) => if auth.authority != o then Some(n) else if auth.nonce == n then Some(n + 1) else None
  }

  /** The nonce of `o` after all transactions, if every transaction and authorization of `o` is accepted. */
  function Execute(txs: seq<Tx>, o: Address, nonce: nat): Option<nat> {
    if txs == [] then Some(nonce)
    else
      var tx := txs[|txs| - 1];
      match Execute(txs[..|txs| - 1], o, nonce)
      case None => None
      case Some(n) =>
        if tx.from != o then ExecuteAuths(tx.auths, o, n)
        else if tx.nonce == n then ExecuteAuths(tx.auths, o, n + 1)
        else None
  }

  /** Nonces used by `o`, in order: each of its transactions, followed by its authorizations. */
  function Used(txs: seq<Tx>, o: Address): seq<nat> {
    if txs == [] then []
    else
      var tx := txs[|txs| - 1];
      Used(txs[..|txs| - 1], o) + (if tx.from == o then [tx.nonce] else []) + UsedBy(tx.auths, o)
  }

  function UsedBy(auths: seq<Auth>, o: Address): (r: seq<nat>) {
    if auths == [] then []
    else
      UsedBy(auths[..|auths| - 1], o)
      + if auths[|auths| - 1].authority == o then [auths[|auths| - 1].nonce] else []
  }

  predicate CountsFrom(ns: seq<nat>, n: nat) {
    forall i :: 0 <= i < |ns| ==> ns[i] == n + i
  }

  lemma CountsSplit(a: seq<nat>, b: seq<nat>, n: nat)
    ensures CountsFrom(a + b, n) <==> CountsFrom(a, n) && CountsFrom(b, n + |a|)
  {
    if CountsFrom(a + b, n) {
      assert forall i :: 0 <= i < |a| ==> (a + b)[i] == a[i];
      assert forall i :: 0 <= i < |b| ==> (a + b)[|a| + i] == b[i];
    }
  }

  lemma CountsOne(x: nat, n: nat)
    ensures CountsFrom([x], n) <==> x == n
  {
    assert CountsFrom([x], n) ==> [x][0] == n + 0;
  }

  lemma CountsOnce(ns: seq<nat>, n: nat, m: nat)
    requires ns != [] && CountsFrom(ns, n)
    ensures CountsFrom(ns, m) <==> m == n
  {
    assert CountsFrom(ns, m) ==> ns[0] == m + 0;
  }

  lemma {:induction false} AuthsAcceptedIff(auths: seq<Auth>, o: Address, n: nat)
    ensures ExecuteAuths(auths, o, n)
         == if CountsFrom(UsedBy(auths, o), n) then Some(n + |UsedBy(auths, o)|) else None
  {
    if auths != [] {
      var init, auth := auths[..|auths| - 1], auths[|auths| - 1];
      AuthsAcceptedIff(init, o, n);
      if auth.authority == o {
        CountsSplit(UsedBy(init, o), [auth.nonce], n);
        CountsOne(auth.nonce, n + |UsedBy(init, o)|);
      } else {
        assert UsedBy(auths, o) == UsedBy(init, o);
      }
    }
  }

  /** A chain accepts every nonce of `o` exactly when they form one gap-free sequence. */
  lemma {:induction false} AcceptedIffGapFree(txs: seq<Tx>, o: Address, n: nat)
    ensures Execute(txs, o, n) == if CountsFrom(Used(txs, o), n) then Some(n + |Used(txs, o)|) else None
  {
    if txs != [] {
      var init, tx := txs[..|txs| - 1], txs[|txs| - 1];
      AcceptedIffGapFree(init, o, n);
      var a := Used(init, o);
      var b := if tx.from == o then [tx.nonce] else [];
      CountsSplit(a, b, n);
      CountsSplit(a + b, UsedBy(tx.auths, o), n);
      CountsOne(tx.nonce, n + |a|);
      AuthsAcceptedIff(tx.auths, o, n + |a + b|);
    }
  }

  // ----- Runs by one origin -----

  datatype Op =
    | StartOp(caller: Address, depth: nat, singleCall: bool)
    | StopOp
    | AttachOp(auth: Auth)
    | SignOp(authority: Address, implementation: Address, nonce: Option<nat>, attach: bool)
    | BlobOp
    | CallOp(depth: nat, caller: Address, isStatic: bool)
    | CallEndOp(depth: nat)
    | CreateOp(depth: nat, caller: Address)
    | DeployCodeOp

  function Step(s: Session, o: Address, op: Op): Session {
    match op
    case StartOp(caller, depth, singleCall) => StartBroadcast(s, o, caller, depth, singleCall)
    case StopOp => s.(broadcast := None)
    case AttachOp(auth) => Attach(s, auth)
    case SignOp(authority, implementation, nonce, attach) => Sign(s, authority, implementation, nonce, attach)
    case BlobOp => s.(blob := true)
    case CallOp(depth, caller, isStatic) => Call(s, depth, caller, isStatic)
    case CallEndOp(depth) => CallEnd(s, depth)
    case CreateOp(depth, caller) => CreateTx(s, depth, caller)
    case DeployCodeOp => DeployCode(s)
  }

  ghost predicate OneOrigin(s: Session, o: Address) {
    !s.isolate && (s.broadcast.Some? ==> s.broadcast.value.newOrigin == o)
  }

  /** Everything broadcast so far is accepted, and so will be the pending delegations after one more transaction. */
  ghost predicate InSequence(s: Session, o: Address, start: nat) {
    && Execute(s.txs, o, start) == Some(NonceOf(s, o))
    && ExecuteAuths(s.active, o, NonceOf(s, o) + 1).Some?
  }

  /** The delegation that `op` asks to attach. */
  function Attached(s: Session, op: Op): Option<Auth> {
    match op
    case AttachOp(auth) => Some(auth)
    case SignOp(authority, implementation, nonce, true) =>
      Some(Auth(authority, if nonce.Some? then nonce.value else ExpectedNonce(s, authority), implementation))
    case _ => None
  }

  /** A first delegation of `o` accepted outside a broadcast, or a create broadcast while one is pending. */
  predicate Breaks(s: Session, o: Address, op: Op) {
    match op
    case CreateOp(depth, caller) => BroadcastsCreate(s, depth, caller) && LastOf(s.active, o).Some?
    case _ =>
      var auth := Attached(s, op);
      && auth.Some?
      && auth.value.authority == o
      && auth.value.nonce == ExpectedNonce(s, o)
      && LastOf(s.active, o).None?
      && s.broadcast.None?
  }

  lemma {:induction false} ExecutedAuths(active: seq<Auth>, o: Address, n: nat)
    requires ExecuteAuths(active, o, n).Some?
    ensures ExecuteAuths(active, o, n).value == n + SelfCount(active, o)
    ensures LastOf(active, o).Some? ==>
              ExecuteAuths(active, o, n).value == LastOf(active, o).value.nonce + 1 && SelfCount(active, o) > 0
    ensures LastOf(active, o).None? ==> SelfCount(active, o) == 0
  {
    if active != [] {
      ExecutedAuths(active[..|active| - 1], o, n);
    }
  }

  lemma {:induction false} ShiftedAuths(active: seq<Auth>, o: Address, n: nat)
    ensures ExecuteAuths(active, o, n).Some? && ExecuteAuths(active, o, n + 1).Some? ==> LastOf(active, o).None?
    ensures LastOf(active, o).None? ==> ExecuteAuths(active, o, n) == Some(n)
  {
    if active != [] {
      var init := active[..|active| - 1];
      ShiftedAuths(init, o, n);
      if ExecuteAuths(active, o, n).Some? && ExecuteAuths(active, o, n + 1).Some? {
        ExecutedAuths(init, o, n);
        ExecutedAuths(init, o, n + 1);
      }
    }
  }

  lemma AppendedAuth(active: seq<Auth>, auth: Auth, o: Address, n: nat)
    requires ExecuteAuths(active, o, n).Some?
    ensures ExecuteAuths(active + [auth], o, n).Some?
       <==> auth.authority != o || auth.nonce == ExecuteAuths(active, o, n).value
  {
    assert (active + [auth])[..|active|] == active;
  }

  lemma AttachExact(s: Session, o: Address, start: nat, auth: Auth)
    requires OneOrigin(s, o) && InSequence(s, o, start)
    ensures InSequence(Attach(s, auth), o, start)
       <==> !(auth.authority == o && auth.nonce == ExpectedNonce(s, o)
              && LastOf(s.active, o).None? && s.broadcast.None?)
  {
    var n, s' := NonceOf(s, o), Attach(s, auth);
    ExecutedAuths(s.active, o, n + 1);
    if auth.nonce == ExpectedNonce(s, auth.authority) {
      assert s'.txs == s.txs && NonceOf(s', o) == n;
      AppendedAuth(s.active, auth, o, n + 1);
    } else {
      assert s' == s;
    }
  }

  lemma CallInSequence(s: Session, o: Address, start: nat, depth: nat, caller: Address, isStatic: bool)
    requires OneOrigin(s, o) && InSequence(s, o, start)
    ensures InSequence(Call(s, depth, caller, isStatic), o, start)
  {
    var s' := Call(s, depth, caller, isStatic);
    if s'.txs != s.txs {
      ExecutedAuths(s.active, o, NonceOf(s, o) + 1);
      assert s'.txs[..|s.txs|] == s.txs;
    }
  }

  lemma CreateExact(s: Session, o: Address, start: nat, depth: nat, caller: Address)
    requires OneOrigin(s, o) && InSequence(s, o, start)
    ensures InSequence(CreateTx(s, depth, caller), o, start)
       <==> !(BroadcastsCreate(s, depth, caller) && LastOf(s.active, o).Some?)
  {
    var s' := CreateTx(s, depth, caller);
    if BroadcastsCreate(s, depth, caller) {
      assert s'.txs[..|s.txs|] == s.txs;
      ShiftedAuths(s.active, o, NonceOf(s, o) + 1);
      ShiftedAuths(s.active, o, NonceOf(s, o) + 2);
    }
  }

  lemma SignExact(s: Session, o: Address, start: nat, op: Op)
    requires OneOrigin(s, o) && InSequence(s, o, start) && op.SignOp?
    ensures OneOrigin(Step(s, o, op), o)
    ensures InSequence(Step(s, o, op), o, start) <==> !Breaks(s, o, op)
  {
    if op.attach {
      var auth := Attached(s, op).value;
      assert Step(s, o, op) == Attach(s, auth);
      AttachExact(s, o, start, auth);
    }
  }

  /** A step keeps the nonces in sequence if and only if it is not one of the two that break them. */
  lemma StepExact(s: Session, o: Address, start: nat, op: Op)
    requires OneOrigin(s, o) && InSequence(s, o, start)
    ensures OneOrigin(Step(s, o, op), o)
    ensures InSequence(Step(s, o, op), o, start) <==> !Breaks(s, o, op)
  {
    if op.SignOp? {
      SignExact(s, o, start, op);
    } else if op.AttachOp? {
      AttachExact(s, o, start, op.auth);
    } else if op.CallOp? {
      CallInSequence(s, o, start, op.depth, op.caller, op.isStatic);
    } else if op.CreateOp? {
      CreateExact(s, o, start, op.depth, op.caller);
    }
  }

  function Run(s: Session, o: Address, ops: seq<Op>): Session {
    if ops == [] then s else Step(Run(s, o, ops[..|ops| - 1]), o, ops[|ops| - 1])
  }

  function Fresh(nonces: map<Address, nat>): Session {
    Session(nonces, map[], [], false, None, [], false)
  }

  predicate Orderly(s: Session, o: Address, ops: seq<Op>) {
    ops == [] || (Orderly(s, o, ops[..|ops| - 1]) && !Breaks(Run(s, o, ops[..|ops| - 1]), o, ops[|ops| - 1]))
  }

  /**
   Over every orderly run by one origin, transaction nonces, each followed by its authorization
   nonces, form one gap-free sequence from the starting nonce up to the account's nonce.
   */
  lemma {:induction false} NonceSequence(s: Session, o: Address, ops: seq<Op>)
    requires !s.isolate && s.broadcast.None? && s.active == [] && s.txs == [] && Orderly(s, o, ops)
    ensures var s' := Run(s, o, ops);
            && OneOrigin(s', o)
            && InSequence(s', o, NonceOf(s, o))
            && CountsFrom(Used(s'.txs, o), NonceOf(s, o))
            && NonceOf(s', o) == NonceOf(s, o) + |Used(s'.txs, o)|
  {
    if ops != [] {
      NonceSequence(s, o, ops[..|ops| - 1]);
      StepExact(Run(s, o, ops[..|ops| - 1]), o, NonceOf(s, o), ops[|ops| - 1]);
    }
    AcceptedIffGapFree(Run(s, o, ops).txs, o, NonceOf(s, o));
  }

  /** The in-place form, driven through any run by one origin. */
  method Drive(nonces: map<Address, nat>, o: Address, ops: seq<Op>) returns (s: Session)
    ensures s == Run(Fresh(nonces), o, ops)
    ensures Orderly(Fresh(nonces), o, ops) ==> CountsFrom(Used(s.txs, o), NonceOf(Fresh(nonces), o))
    ensures forall a :: a != o ==>
              (Execute(s.txs, a, NonceOf(Fresh(nonces), a)).Some? <==> Carriers(s.txs, a) <= 1)
  {
    var script := new Script(nonces, false);
    for i := 0 to |ops|
      invariant fresh(script) && script.View() == Run(Fresh(nonces), o, ops[..i])
    {
      assert ops[..i + 1][..i] == ops[..i];
      script.Fire(o, ops[i]);
    }
    assert ops[..|ops|] == ops;
    s := script.View();
    if Orderly(Fresh(nonces), o, ops) {
      NonceSequence(Fresh(nonces), o, ops);
    }
    forall a | a != o
      ensures Execute(s.txs, a, NonceOf(Fresh(nonces), a)).Some? <==> Carriers(s.txs, a) <= 1
    {
      OtherAuthority(Fresh(nonces), o, a, ops);
    }
  }

  // ----- Authorities other than the sender -----

  /** Transactions that carry an authorization of `a`. */
  function Carriers(txs: seq<Tx>, a: Address): nat {
    if txs == [] then 0
    else Carriers(txs[..|txs| - 1], a) + if UsedBy(txs[|txs| - 1].auths, a) != [] then 1 else 0
  }

  /** Each batch of delegations of `a` starts over at the account's nonce, which no broadcast consumes. */
  ghost predicate StartsOver(s: Session, o: Address, a: Address, n: nat) {
    && NonceOf(s, a) == n
    && (s.broadcast.Some? ==> s.broadcast.value.newOrigin == o)
    && (forall i :: 0 <= i < |s.txs| ==> s.txs[i].from == o && CountsFrom(UsedBy(s.txs[i].auths, a), n))
    && CountsFrom(UsedBy(s.active, a), n)
  }

  lemma {:induction false} LastUsed(active: seq<Auth>, a: Address)
    ensures LastOf(active, a).None? <==> UsedBy(active, a) == []
    ensures LastOf(active, a).Some? ==> LastOf(active, a).value.nonce == UsedBy(active, a)[|UsedBy(active, a)| - 1]
  {
    if active != [] {
      LastUsed(active[..|active| - 1], a);
    }
  }

  lemma AppendedUse(active: seq<Auth>, auth: Auth, a: Address, n: nat)
    requires CountsFrom(UsedBy(active, a), n)
    requires auth.authority == a ==> auth.nonce == n + |UsedBy(active, a)|
    ensures CountsFrom(UsedBy(active + [auth], a), n)
  {
    assert (active + [auth])[..|active|] == active;
    if auth.authority == a {
      CountsSplit(UsedBy(active, a), [auth.nonce], n);
      CountsOne(auth.nonce, n + |UsedBy(active, a)|);
    } else {
      assert UsedBy(active + [auth], a) == UsedBy(active, a);
    }
  }

  lemma ExpectedContinues(s: Session, o: Address, a: Address, n: nat)
    requires a != o && StartsOver(s, o, a, n)
    ensures ExpectedNonce(s, a) == n + |UsedBy(s.active, a)|
  {
    LastUsed(s.active, a);
  }

  lemma AttachStartsOver(s: Session, o: Address, a: Address, n: nat, auth: Auth)
    requires a != o && StartsOver(s, o, a, n)
    ensures StartsOver(Attach(s, auth), o, a, n)
  {
    ExpectedContinues(s, o, a, n);
    if auth.nonce == ExpectedNonce(s, auth.authority) {
      AppendedUse(s.active, auth, a, n);
      assert Attach(s, auth).active == s.active + [auth];
      assert NonceOf(Attach(s, auth), a) == n;
    } else {
      assert Attach(s, auth) == s;
    }
  }

  lemma StepStartsOver(s: Session, o: Address, a: Address, n: nat, op: Op)
    requires a != o && StartsOver(s, o, a, n)
    ensures StartsOver(Step(s, o, op), o, a, n)
  {
    if Attached(s, op).Some? {
      AttachStartsOver(s, o, a, n, Attached(s, op).value);
    }
  }

  /** A chain takes the authorizations of `a` exactly as long as one transaction carries them all. */
  lemma {:induction false} OneCarrier(txs: seq<Tx>, o: Address, a: Address, n: nat)
    requires a != o && forall i :: 0 <= i < |txs| ==> txs[i].from == o && CountsFrom(UsedBy(txs[i].auths, a), n)
    ensures Execute(txs, a, n).Some? <==> Carriers(txs, a) <= 1
    ensures Execute(txs, a, n).Some? ==> (Execute(txs, a, n).value > n <==> Carriers(txs, a) == 1)
  {
    if txs != [] {
      var init, tx := txs[..|txs| - 1], txs[|txs| - 1];
      OneCarrier(init, o, a, n);
      var used := UsedBy(tx.auths, a);
      if Execute(init, a, n).Some? {
        var m := Execute(init, a, n).value;
        ExecuteGrows(init, a, n);
        AuthsAcceptedIff(tx.auths, a, m);
        if used != [] {
          CountsOnce(used, n, m);
        }
      }
    }
  }

  lemma ExecuteGrows(txs: seq<Tx>, a: Address, n: nat)
    ensures Execute(txs, a, n).Some? ==> Execute(txs, a, n).value >= n
  {
    AcceptedIffGapFree(txs, a, n);
  }

  /**
   Over every run by one origin the authorizations of any other authority start over at its nonce
   in each transaction; all are accepted if and only if at most one transaction carries any.
   */
  lemma {:induction false} OtherAuthority(s: Session, o: Address, a: Address, ops: seq<Op>)
    requires a != o && s.broadcast.None? && s.active == [] && s.txs == []
    ensures var s' := Run(s, o, ops);
            && StartsOver(s', o, a, NonceOf(s, a))
            && (Execute(s'.txs, a, NonceOf(s, a)).Some? <==> Carriers(s'.txs, a) <= 1)
  {
    if ops != [] {
      OtherAuthority(s, o, a, ops[..|ops| - 1]);
      StepStartsOver(Run(s, o, ops[..|ops| - 1]), o, a, NonceOf(s, a), ops[|ops| - 1]);
    }
    OneCarrier(Run(s, o, ops).txs, o, a, NonceOf(s, a));
  }

  /** A step keeps the nonces of `a` accepted unless it is a second transaction to carry delegations of `a`. */
  lemma OtherStepExact(s: Session, o: Address, a: Address, n: nat, op: Op)
    requires a != o && StartsOver(s, o, a, n) && Execute(s.txs, a, n).Some?
    ensures Execute(Step(s, o, op).txs, a, n).Some?
       <==> !(&& op.CallOp? && Broadcasts(s, op.depth, op.caller) && !op.isStatic && !s.blob
              && LastOf(s.active, a).Some?
              && Used(s.txs, a) != [])
  {
    StepStartsOver(s, o, a, n, op);
    var s' := Step(s, o, op);
    OneCarrier(s.txs, o, a, n);
    OneCarrier(s'.txs, o, a, n);
    AcceptedIffGapFree(s.txs, a, n);
    StepCarriers(s, o, a, op);
  }

  lemma StepCarriers(s: Session, o: Address, a: Address, op: Op)
    ensures Carriers(Step(s, o, op).txs, a)
         == Carriers(s.txs, a)
            + if op.CallOp? && Broadcasts(s, op.depth, op.caller) && !op.isStatic && !s.blob
                 && LastOf(s.active, a).Some?
              then 1 else 0
  {
    var s' := Step(s, o, op);
    LastUsed(s.active, a);
    if s'.txs != s.txs {
      assert s'.txs[..|s.txs|] == s.txs;
    }
  }

  // ----- A run that attaches too early -----

  const FRESH := Fresh(map[])

  lemma EarlySigned(o: Address)
    ensures Step(FRESH, o, SignOp(o, 1, None, true)) == FRESH.(active := [Auth(o, 0, 1)], delegates := map[o := 1])
  {
  }

  lemma EarlyCalled(o: Address, s: Session)
    requires s == FRESH.(active := [Auth(o, 0, 1)], delegates := map[o := 1],
                         broadcast := Some(Broadcasting(o, 9, 1, false, false)))
    ensures Step(s, o, CallOp(1, 9, false)).txs == [Tx(o, 0, [Auth(o, 0, 1)], false)]
  {
  }

  /** Attached before the broadcast starts, a delegation takes the nonce of the transaction that carries it. */
  lemma EarlyDelegationCollides(o: Address)
    ensures Used(Run(FRESH, o, [SignOp(o, 1, None, true), StartOp(9, 1, false), CallOp(1, 9, false)]).txs, o) == [0, 0]
  {
    var op0, op1, op2 := SignOp(o, 1, None, true), StartOp(9, 1, false), CallOp(1, 9, false);
    assert [op0][..0] == [] && [op0, op1][..1] == [op0] && [op0, op1, op2][..2] == [op0, op1];
    EarlySigned(o);
    var s := Step(Step(FRESH, o, op0), o, op1);
    assert Run(FRESH, o, [op0]) == Step(FRESH, o, op0);
    assert Run(FRESH, o, [op0, op1]) == s;
    assert Run(FRESH, o, [op0, op1, op2]) == Step(s, o, op2);
    EarlyCalled(o, s);
    var auth := Auth(o, 0, 1);
    var tx := Tx(o, 0, [auth], false);
    assert [auth][..0] == [] && [tx][..0] == [];
    assert UsedBy([auth], o) == UsedBy([auth][..0], o) + [0];
    assert Used([tx], o) == Used([tx][..0], o) + [0] + UsedBy([auth], o);
  }

  // ----- A run that creates while a delegation is pending -----

  lemma PendingCreate(o: Address, s: Session)
    requires s == FRESH.(broadcast := Some(Broadcasting(o, 9, 1, false, false)))
    ensures var s' := Step(Step(s, o, SignOp(o, 1, None, true)), o, CreateOp(1, 9));
            && s'.active == [Auth(o, 1, 1)] && s'.broadcast == s.broadcast && !s'.blob && !s'.isolate
            && NonceOf(s', o) == 1 && s'.txs == [Tx(o, 0, [], false)]
  {
    assert Step(s, o, SignOp(o, 1, None, true)).active == [Auth(o, 1, 1)];
  }

  lemma CarryingCall(o: Address, s: Session)
    requires s.active == [Auth(o, 1, 1)] && s.broadcast == Some(Broadcasting(o, 9, 1, false, false))
    requires !s.blob && NonceOf(s, o) == 1
    ensures Step(s, o, CallOp(1, 9, false)).txs == s.txs + [Tx(o, 1, [Auth(o, 1, 1)], false)]
  {
  }

  /** The create takes nonce 0 and no delegation, so the call's nonce is the one the delegation was signed with. */
  lemma CreateWhilePendingCollides(o: Address)
    ensures var s := Step(FRESH, o, StartOp(9, 1, false));
            var created := Step(Step(s, o, SignOp(o, 1, None, true)), o, CreateOp(1, 9));
            Used(Step(created, o, CallOp(1, 9, false)).txs, o) == [0, 1, 1]
  {
    var s := Step(FRESH, o, StartOp(9, 1, false));
    var created := Step(Step(s, o, SignOp(o, 1, None, true)), o, CreateOp(1, 9));
    PendingCreate(o, s);
    CarryingCall(o, created);
    var auth := Auth(o, 1, 1);
    var a, b := Tx(o, 0, [], false), Tx(o, 1, [auth], false);
    assert [auth][..0] == [] && [a][..0] == [] && [a, b][..1] == [a];
    assert UsedBy([auth], o) == UsedBy([auth][..0], o) + [1];
    assert Used([a], o) == Used([a][..0], o) + [0] + UsedBy([], o) == [0];
    assert Used([a, b], o) == Used([a], o) + [1] + UsedBy([auth], o);
  }

  // ----- A run in which another authority delegates twice -----

  /** Delegating for `a` and then making a call. */
  function Round(s: Session, o: Address, a: Address): Session {
    Step(Step(s, o, SignOp(a, 1, None, true)), o, CallOp(1, 9, false))
  }

  lemma RoundSigns(s: Session, o: Address, a: Address)
    requires a != o && NonceOf(s, a) == 0 && s.active == [] && s.broadcast == Some(Broadcasting(o, 9, 1, false, false))
    ensures var auth := Auth(a, 0, 1);
            Step(s, o, SignOp(a, 1, None, true)) == s.(active := [auth], delegates := s.delegates[a := 1])
  {
  }

  lemma RoundCalls(s: Session, o: Address, a: Address)
    requires a != o && s.active == [Auth(a, 0, 1)] && !s.blob
    requires s.broadcast == Some(Broadcasting(o, 9, 1, false, false))
    ensures var s' := Step(s, o, CallOp(1, 9, false));
            && s'.active == [] && !s'.blob && s'.broadcast == s.broadcast && NonceOf(s', a) == NonceOf(s, a)
            && s'.txs == s.txs + [Tx(o, NonceOf(s, o), [Auth(a, 0, 1)], false)]
  {
  }

  lemma UsedMore(txs: seq<Tx>, o: Address, n: nat, a: Address)
    requires a != o
    ensures Used(txs + [Tx(o, n, [Auth(a, 0, 1)], false)], a) == Used(txs, a) + [0]
  {
    var auth := Auth(a, 0, 1);
    var all := txs + [Tx(o, n, [auth], false)];
    assert all[..|txs|] == txs && [auth][..0] == [];
    assert UsedBy([auth], a) == UsedBy([auth][..0], a) + [0] == [0];
  }

  lemma RoundUsesZero(s: Session, o: Address, a: Address)
    requires a != o && NonceOf(s, a) == 0 && s.active == [] && !s.blob
    requires s.broadcast == Some(Broadcasting(o, 9, 1, false, false))
    ensures var s' := Round(s, o, a);
            && s'.active == [] && !s'.blob && s'.broadcast == s.broadcast && NonceOf(s', a) == 0
            && Used(s'.txs, a) == Used(s.txs, a) + [0]
  {
    RoundSigns(s, o, a);
    RoundCalls(Step(s, o, SignOp(a, 1, None, true)), o, a);
    UsedMore(s.txs, o, NonceOf(s, o), a);
  }

  /** The second transaction carries the same authorization nonce as the first. */
  lemma SecondCarrierCollides(o: Address, a: Address)
    requires a != o
    ensures Used(Round(Round(Step(FRESH, o, StartOp(9, 1, false)), o, a), o, a).txs, a) == [0, 0]
  {
    var s := Step(FRESH, o, StartOp(9, 1, false));
    RoundUsesZero(s, o, a);
    RoundUsesZero(Round(s, o, a), o, a);
  }
}
