/** All traffic, group fan-out included: a step comes to be shared exactly through a restart that finds
    it on the wire, or in a row that may still be sent, but not on disk. */
module RatchetRuns {
  import opened Wire
  import opened Outbound
  import opened TokenSafety
  import opened RatchetEffects
  import opened RatchetSafety

  /** A ratchet step of one session. */
  datatype Slot = Slot(peer: Bytes, step: nat)

  predicate In(c: Cipher, k: Slot) { c.peer == k.peer && c.step == k.step }

  /** The promise broken: two different ciphertexts of one step on the wire. */
  ghost predicate Shared(s: State, k: Slot) {
    exists c, d :: OnWire(s, c) && OnWire(s, d) && In(c, k) && In(d, k) && c != d
  }

  /** The step, if anything live has it, is passed in memory, and one ciphertext has it. */
  ghost predicate Once(s: State, k: Slot) {
    && (forall c :: Live(s, c) && In(c, k) ==> k.step < At(s.ratchet, k.peer))
    && (forall c, d :: Live(s, c) && Live(s, d) && In(c, k) && In(d, k) ==> c == d)
  }

  /** Something that a restart keeps has the step, and the disk does not have it passed. */
  ghost predicate OffDisk(s: State, k: Slot) {
    exists c :: Durable(s, c) && In(c, k) && At(s.disk, k.peer) <= k.step
  }

  lemma OnceIsNotShared(s: State, k: Slot)
    requires Once(s, k)
    ensures !Shared(s, k)
  {
    assert forall c :: OnWire(s, c) ==> Live(s, c);
  }

  // ----- every operation but a restart -----

  lemma CalmOnce(k: Slot, s: State, s': State)
    requires Once(s, k) && Calm(s, s')
    ensures Once(s', k)
  {
    assert At(s.ratchet, k.peer) <= At(s'.ratchet, k.peer);
  }

  lemma SealsOnce(k: Slot, s: State, s': State, c: Cipher)
    requires Once(s, k) && Seals(s, s', c)
    ensures Once(s', k)
  {
    assert At(s.ratchet, k.peer) <= At(s'.ratchet, k.peer);
  }

  lemma SameStepsOnce(k: Slot, s: State, s': State)
    requires Once(s, k) && SameSteps(s, s')
    ensures Once(s', k)
  {
    SameStepsCalm(s, s');
    CalmOnce(k, s, s');
  }

  lemma EncryptOnce(k: Slot, s: State, peer: Bytes)
    requires Once(s, k)
    ensures Once(Encrypt(s, peer), k)
  {
    EncryptCalm(s, peer);
    CalmOnce(k, s, Encrypt(s, peer));
  }

  lemma ShipOnce(
      k: Slot, s: State, peer: Bytes, id: Bytes, body: Bytes, now: int, ttl: int, token: Token, env: Env)
    requires Once(s, k)
    ensures Once(SealAndShip(s, peer, id, body, now, ttl, token, env), k)
  {
    ShipEffect(s, peer, id, body, now, ttl, token, env);
    var s' := SealAndShip(s, peer, id, body, now, ttl, token, env);
    if env.persists { SealsOnce(k, s, s', Sealed(s, peer, body)); } else { CalmOnce(k, s, s'); }
  }

  lemma TextOnce(k: Slot, s: State, peer: Bytes, id: Bytes, body: Bytes, now: int, ttl: int, env: Env)
    requires Once(s, k)
    ensures Once(SendText(s, peer, id, body, now, ttl, env), k)
  {
    if CanMint(s, peer) {
      SameStepsOnce(k, s, Mint(s, peer));
      if env.encrypts {
        ShipOnce(k, Mint(s, peer), peer, id, body, now, ttl, NextToken(s, peer), env);
      } else {
        SameStepsOnce(k, s, SendText(s, peer, id, body, now, ttl, env));
      }
    }
  }

  lemma {:induction false} ChunksOnce(k: Slot, s: State, peer: Bytes, chunks: seq<Chunk>, now: int, ttl: int)
    requires Once(s, k)
    ensures Once(ShipChunks(s, peer, chunks, now, ttl), k)
    decreases |chunks|
  {
    if chunks != [] {
      var (s', more) := ShipChunk(s, peer, chunks[0], now, ttl);
      if chunks[0].env.encrypts {
        if CanMint(s, peer) {
          SameStepsOnce(k, s, Mint(s, peer));
          var chunk := chunks[0];
          ShipOnce(k, Mint(s, peer), peer, chunk.id, chunk.body, now, ttl, NextToken(s, peer), chunk.env);
        } else {
          EncryptOnce(k, s, peer);
        }
      }
      if more { ChunksOnce(k, s', peer, chunks[1..], now, ttl); }
    }
  }

  lemma FrameOnce(k: Slot, s: State, peer: Bytes, body: Bytes, token: Option<Token>, relays: nat)
    requires Once(s, k)
    ensures Once(Emit(Persist(Encrypt(s, peer)), Sealed(s, peer, body), token, relays), k)
    ensures Once(Emit(Encrypt(s, peer), Sealed(s, peer, body), token, relays), k)
  {
    FrameEffect(s, peer, body, token, relays);
    ControlEffect(s, peer, body, token, relays);
    var c := Sealed(s, peer, body);
    SealsOnce(k, s, Emit(Persist(Encrypt(s, peer)), c, token, relays), c);
    SealsOnce(k, s, Emit(Encrypt(s, peer), c, token, relays), c);
  }

  lemma NoticeOnce(k: Slot, s: State, peer: Bytes, body: Bytes, env: Env)
    requires Once(s, k)
    ensures Once(SendNotice(s, peer, body, env), k)
  {
    if CanMint(s, peer) {
      var minted, token := Mint(s, peer), NextToken(s, peer);
      SameStepsOnce(k, s, minted);
      EncryptOnce(k, minted, peer);
      FrameOnce(k, minted, peer, body, Some(token), env.relays);
      var sent := Emit(Persist(Encrypt(minted, peer)), Sealed(minted, peer, body), Some(token), env.relays);
      SameStepsOnce(k, minted, Rollback(minted, peer, token.index));
      SameStepsOnce(k, Encrypt(minted, peer), Rollback(Encrypt(minted, peer), peer, token.index));
      SameStepsOnce(k, sent, Rollback(sent, peer, token.index));
    }
  }

  lemma RefreshOnce(k: Slot, s: State, peer: Bytes, body: Bytes, env: Env)
    requires Once(s, k)
    ensures Once(RequestRefresh(s, peer, body, env), k) && Once(SendGroupControl(s, peer, body, env), k)
  {
    if CanMint(s, peer) {
      SameStepsOnce(k, s, Mint(s, peer));
      EncryptOnce(k, Mint(s, peer), peer);
      FrameOnce(k, Mint(s, peer), peer, body, Some(NextToken(s, peer)), env.relays);
    }
  }

  lemma SeedOnce(k: Slot, s: State, peer: Bytes, body: Bytes, env: Env)
    requires Once(s, k)
    ensures Once(DeliverSeed(s, peer, body, env), k)
  {
    EncryptOnce(k, s, peer);
    FrameOnce(k, s, peer, body, None, env.relays);
  }

  lemma {:induction false} WalkOnce(k: Slot, s: State, order: seq<(Bytes, nat)>, now: int)
    requires Once(s, k)
    ensures Once(Walk(s, order, now), k)
    decreases |order|
  {
    if order != [] {
      var front, last := order[..|order| - 1], order[|order| - 1];
      WalkOnce(k, s, front, now);
      WalkEntryCalm(Walk(s, front, now), last.0, now, last.1);
      CalmOnce(k, Walk(s, front, now), Walk(s, order, now));
    }
  }

  lemma RetryWalkOnce(k: Slot, s: State, order: seq<(Bytes, nat)>, now: int, connected: bool)
    requires Once(s, k)
    ensures Once(RetryWalk(s, order, now, connected), k)
  {
    ExpireCalm(s, now);
    CalmOnce(k, s, Expire(s, now));
    WalkOnce(k, Expire(s, now), order, now);
    CollectCalm(Walked(s, order, now, connected), now);
    CalmOnce(k, Walked(s, order, now, connected), RetryWalk(s, order, now, connected));
  }

  lemma LegOnce(k: Slot, s: State, peer: Bytes, id: Bytes, body: Bytes, now: int, ttl: int, encrypts: bool)
    requires Once(s, k)
    ensures Once(QueueGroupLeg(s, peer, id, body, now, ttl, encrypts), k)
  {
    if CanMint(s, peer) {
      SameStepsOnce(k, s, Mint(s, peer));
      if encrypts {
        var s' := QueueGroupLeg(s, peer, id, body, now, ttl, encrypts);
        LegEffect(Mint(s, peer), s', peer, id, body, now, ttl, Some(NextToken(s, peer)));
        SealsOnce(k, Mint(s, peer), s', Sealed(s, peer, body));
      }
    }
  }

  lemma StepOnce(k: Slot, s: State, op: Op)
    requires Once(s, k) && !op.Relaunch?
    ensures Once(Step(s, op), k)
  {
    match op {
      case Text(peer, id, body, now, ttl, env) => TextOnce(k, s, peer, id, body, now, ttl, env);
      case Attachment(peer, chunks, now, ttl) => ChunksOnce(k, s, peer, chunks, now, ttl);
      case Notice(peer, body, env) => NoticeOnce(k, s, peer, body, env);
      case Refresh(peer, body, env) => RefreshOnce(k, s, peer, body, env);
      case GroupControl(peer, body, env) => RefreshOnce(k, s, peer, body, env);
      case Seed(peer, body, env) => SeedOnce(k, s, peer, body, env);
      case RunWalk(order, now, connected) => RetryWalkOnce(k, s, order, now, connected);
      case GroupLeg(peer, id, body, now, ttl, encrypts) => LegOnce(k, s, peer, id, body, now, ttl, encrypts);
      case _ =>
        OtherStepCalm(s, op);
        CalmOnce(k, s, Step(s, op));
    }
  }

  lemma OtherStepCalm(s: State, op: Op)
    requires op.Retry? || op.Fire? || op.Ack? || op.Install? || op.Drop? || op.SaveSession?
    ensures Calm(s, Step(s, op))
  {
    match op {
      case Retry(id, relays) => RetryCalm(s, id, relays);
      case Fire(leg, relays) => FireCalm(s, leg, relays);
      case _ => QuietStepCalm(s, op);
    }
  }

  // ----- restarts -----

  /** A restart keeps a step to one ciphertext exactly when it does not find it off disk. */
  lemma RestartOnceIff(k: Slot, s: State)
    requires Once(s, k)
    ensures Once(Restart(s), k) <==> !OffDisk(s, k)
  {
    forall c ensures Live(Restart(s), c) <==> Durable(s, c) { RestartLive(s, c); }
  }

  lemma {:induction false} RunOnce(k: Slot, states: seq<State>, ops: seq<Op>, n: nat)
    requires IsRun(states, ops) && states[0] == START && n <= |ops|
    requires forall m :: 0 <= m < n && ops[m].Relaunch? ==> !OffDisk(states[m], k)
    ensures Once(states[n], k)
    decreases n
  {
    if n > 0 {
      RunOnce(k, states, ops, n - 1);
      if ops[n - 1].Relaunch? { RestartOnceIff(k, states[n - 1]); } else { StepOnce(k, states[n - 1], ops[n - 1]); }
    }
  }

  /** In every run of all operations, with any failures: a step is shared on the wire only if some
      earlier restart found that very step off disk. */
  lemma SharedStepHasCause(states: seq<State>, ops: seq<Op>, n: nat, k: Slot)
    requires IsRun(states, ops) && states[0] == START && n <= |ops|
    ensures Shared(states[n], k) ==> exists m :: 0 <= m < n && ops[m].Relaunch? && OffDisk(states[m], k)
  {
    if forall m :: 0 <= m < n && ops[m].Relaunch? ==> !OffDisk(states[m], k) {
      RunOnce(k, states, ops, n);
      OnceIsNotShared(states[n], k);
    }
  }

  // ----- and then it can be shared -----

  ghost predicate NoRestarts(ops: seq<Op>) { forall i :: 0 <= i < |ops| ==> !ops[i].Relaunch? }

  /** No install along the way mints a token again. */
  ghost predicate FreshChains(s: State, ops: seq<Op>) {
    forall i, t :: 0 <= i < |ops| ==> !Reinstalls(RunOps(s, ops[..i]), ops[i], t)
  }

  /** Some later operations, no restart among them, share the step. */
  ghost predicate CanShare(s: State, k: Slot) {
    exists ops :: NoRestarts(ops) && FreshChains(s, ops) && Shared(RunOps(s, ops), k)
  }

  ghost predicate CanShareAny(s: State) { exists k :: CanShare(s, k) }

  lemma {:induction false} NoRestartsOnce(k: Slot, s: State, ops: seq<Op>)
    requires Once(s, k) && NoRestarts(ops)
    ensures Once(RunOps(s, ops), k)
    decreases |ops|
  {
    if ops != [] {
      var front, last := ops[..|ops| - 1], ops[|ops| - 1];
      NoRestartsOnce(k, s, front);
      StepOnce(k, RunOps(s, front), last);
      RunPush(s, front, last);
      assert front + [last] == ops;
    }
  }

  /** `n` frames to the peer, nothing failing. */
  function Frames(peer: Bytes, body: Bytes, n: nat): seq<Op> { seq(n, _ => Seed(peer, body, Env(true, true, 1))) }

  /** The frames took the next `n` steps and left rows and chains alone. */
  ghost predicate Sent(s: State, s': State, peer: Bytes, body: Bytes, n: nat) {
    && At(s'.ratchet, peer) == At(s.ratchet, peer) + n && s'.outbox == s.outbox && s'.chains == s.chains
    && (forall c :: OnWire(s, c) ==> OnWire(s', c))
    && (n > 0 ==> OnWire(s', Cipher(peer, At(s.ratchet, peer) + n - 1, body)))
  }

  lemma FrameSent(s: State, peer: Bytes, body: Bytes)
    ensures Sent(s, Step(s, Seed(peer, body, Env(true, true, 1))), peer, body, 1)
  {
    var s' := DeliverSeed(s, peer, body, Env(true, true, 1));
    AppendedOnWire(s, s', Send(Sealed(s, peer, body), None, true, None));
  }

  lemma AppendedOnWire(s: State, s': State, send: Send)
    requires s'.sends == s.sends + [send] && send.onWire
    ensures OnWire(s', send.cipher) && forall c :: OnWire(s, c) ==> OnWire(s', c)
  {
    assert s'.sends[|s.sends|] == send;
    forall c | OnWire(s, c) ensures OnWire(s', c) {
      var i :| 0 <= i < |s.sends| && s.sends[i].onWire && s.sends[i].cipher == c;
      assert s'.sends[i] == s.sends[i];
    }
  }

  lemma {:induction false} FramesSent(s: State, peer: Bytes, body: Bytes, n: nat)
    ensures Sent(s, RunOps(s, Frames(peer, body, n)), peer, body, n)
    decreases n
  {
    if n > 0 {
      var front, last := Frames(peer, body, n - 1), Seed(peer, body, Env(true, true, 1));
      FramesSent(s, peer, body, n - 1);
      FrameSent(RunOps(s, front), peer, body);
      SentThen(s, RunOps(s, front), Step(RunOps(s, front), last), peer, body, n - 1);
      RunPush(s, front, last);
      assert front + [last] == Frames(peer, body, n);
    }
  }

  lemma SentThen(s: State, mid: State, s': State, peer: Bytes, body: Bytes, n: nat)
    requires Sent(s, mid, peer, body, n) && Sent(mid, s', peer, body, 1)
    ensures Sent(s, s', peer, body, n + 1)
  {
  }

  /** Frames enough to bring the peer's ratchet past the step. */
  function CatchUp(s: State, k: Slot, body: Bytes): seq<Op>
    requires At(s.ratchet, k.peer) <= k.step
  {
    Frames(k.peer, body, k.step - At(s.ratchet, k.peer) + 1)
  }

  /** A frame with the step is on the wire: catching up with another body shares it. */
  lemma FrameIsShared(s: State, k: Slot, c: Cipher, other: Bytes)
    requires OnWire(s, c) && In(c, k) && At(s.ratchet, k.peer) <= k.step && c.body != other
    ensures Shared(RunOps(s, CatchUp(s, k, other)), k)
  {
    FramesSent(s, k.peer, other, k.step - At(s.ratchet, k.peer) + 1);
    SharedBy(RunOps(s, CatchUp(s, k, other)), k, c, Cipher(k.peer, k.step, other));
  }

  /** A row with the step may still be sent: catch up, get a chain, retry. */
  lemma RowIsShared(s: State, k: Slot, id: Bytes, other: Bytes, chain: Bytes)
    requires id in s.outbox && s.outbox[id].Pending() && In(s.outbox[id].cipher, k)
    requires At(s.ratchet, k.peer) <= k.step && s.outbox[id].cipher.body != other
    ensures Shared(RunOps(s, CatchUp(s, k, other) + [Install(k.peer, chain, 1)] + [Retry(id, 1)]), k)
  {
    var caught := RunOps(s, CatchUp(s, k, other));
    FramesSent(s, k.peer, other, k.step - At(s.ratchet, k.peer) + 1);
    InstallAndRetry(s, CatchUp(s, k, other), k.peer, chain, id);
    RetriedOnWire(caught, id, chain, Cipher(k.peer, k.step, other));
    var s' := UserRetry(InstallChain(caught, k.peer, chain, 1), id, 1);
    SharedBy(s', k, s.outbox[id].cipher, Cipher(k.peer, k.step, other));
  }

  lemma InstallAndRetry(s: State, frames: seq<Op>, peer: Bytes, chain: Bytes, id: Bytes)
    ensures RunOps(s, frames + [Install(peer, chain, 1)] + [Retry(id, 1)])
         == UserRetry(InstallChain(RunOps(s, frames), peer, chain, 1), id, 1)
  {
    RunPush(s, frames, Install(peer, chain, 1));
    RunPush(s, frames + [Install(peer, chain, 1)], Retry(id, 1));
  }

  lemma SharedBy(s: State, k: Slot, c: Cipher, d: Cipher)
    requires OnWire(s, c) && OnWire(s, d) && In(c, k) && In(d, k) && c != d
    ensures Shared(s, k)
  {
  }

  lemma RetriedOnWire(s: State, id: Bytes, chain: Bytes, other: Cipher)
    requires id in s.outbox && s.outbox[id].Pending() && OnWire(s, other)
    ensures
      var s' := UserRetry(InstallChain(s, s.outbox[id].cipher.peer, chain, 1), id, 1);
      OnWire(s', s.outbox[id].cipher) && OnWire(s', other)
  {
    var c := s.outbox[id].cipher;
    var ready := InstallChain(s, c.peer, chain, 1);
    SameWire(s, ready);
    AppendedOnWire(ready, UserRetry(ready, id, 1), Send(c, Some(NextToken(ready, c.peer)), true, None));
  }

  lemma SameWire(s: State, s': State)
    requires s'.sends == s.sends
    ensures forall c :: OnWire(s, c) ==> OnWire(s', c)
  {
  }

  lemma {:induction false} LongerThanAll(ids: set<Bytes>) returns (n: nat)
    ensures forall b :: b in ids ==> |b| < n
    decreases ids
  {
    if b :| b in ids {
      n := LongerThanAll(ids - {b});
      n := if n > |b| then n else |b| + 1;
    } else {
      n := 0;
    }
  }

  /** A chain id nobody has used. */
  lemma UnusedChain(s: State) returns (id: Bytes)
    ensures forall i :: 0 <= i < |s.sends| && s.sends[i].token.Some? ==> s.sends[i].token.value.chain != id
    ensures forall p :: p in s.chains ==> s.chains[p].id != id
  {
    var carried := set i | 0 <= i < |s.sends| && s.sends[i].token.Some? :: s.sends[i].token.value.chain;
    var held := set p | p in s.chains :: s.chains[p].id;
    var n := LongerThanAll(carried + held);
    id := seq(n, _ => 0);
  }

  lemma OffDiskBy(s: State, c: Cipher)
    requires Durable(s, c) && At(s.disk, c.peer) <= c.step
    ensures OffDisk(s, Slot(c.peer, c.step))
  {
    assert In(c, Slot(c.peer, c.step));
  }

  lemma OffDiskCanShare(s: State, k: Slot)
    requires OffDisk(s, k)
    ensures CanShare(Restart(s), k)
  {
    var s' := Restart(s);
    var c :| Durable(s, c) && In(c, k) && At(s.disk, k.peer) <= k.step;
    var other := c.body + [0];
    if OnWire(s, c) {
      SameWire(s, s');
      FrameIsShared(s', k, c, other);
      assert CanShare(s', k) by { assert NoRestarts(CatchUp(s', k, other)) && FreshChains(s', CatchUp(s', k, other)); }
    } else {
      var id :| id in s.outbox && s.outbox[id].Pending() && s.outbox[id].cipher == c;
      var frames := CatchUp(s', k, other);
      var chain := UnusedChain(RunOps(s', frames));
      RowIsShared(s', k, id, other, chain);
      FreshRetry(s', frames, k.peer, chain, id);
    }
  }

  lemma FreshRetry(s: State, frames: seq<Op>, peer: Bytes, chain: Bytes, id: Bytes)
    requires NoRestarts(frames) && NoInstalls(frames)
    requires
      var caught := RunOps(s, frames);
      && (forall i :: 0 <= i < |caught.sends| && caught.sends[i].token.Some? ==>
            caught.sends[i].token.value.chain != chain)
      && (forall p :: p in caught.chains ==> caught.chains[p].id != chain)
    ensures
      var ops := frames + [Install(peer, chain, 1)] + [Retry(id, 1)];
      NoRestarts(ops) && FreshChains(s, ops)
  {
    var ops := frames + [Install(peer, chain, 1)] + [Retry(id, 1)];
    forall i, t | 0 <= i < |ops| ensures !Reinstalls(RunOps(s, ops[..i]), ops[i], t) {
      if i == |frames| { assert ops[..i] == frames; }
    }
  }

  /** After a restart, some later operations share a step exactly when the restart found it off disk. */
  lemma RestartIsSafeIff(s: State, k: Slot)
    requires Once(s, k)
    ensures CanShare(Restart(s), k) <==> OffDisk(s, k)
  {
    if OffDisk(s, k) {
      OffDiskCanShare(s, k);
    } else {
      RestartOnceIff(k, s);
      forall ops | NoRestarts(ops) ensures !Shared(RunOps(Restart(s), ops), k) {
        NoRestartsOnce(k, Restart(s), ops);
        OnceIsNotShared(RunOps(Restart(s), ops), k);
      }
    }
  }

  /** With every live step on disk a restart is harmless for all steps. */
  lemma OnDiskRestartIsSafe(s: State, k: Slot)
    requires StepInv(s)
    ensures !CanShare(Restart(s), k)
  {
    forall c | Live(s, c) && In(c, k) ensures k.step < At(s.ratchet, k.peer) && k.step < At(s.disk, k.peer) {
      assert c.step < At(s.disk, c.peer) <= At(s.ratchet, c.peer);
    }
    RestartIsSafeIff(s, k);
  }

  // ----- group fan-out -----

  /** A restart after a group control frame can lead to a shared step exactly when the frame went out. */
  lemma GroupControlSafeIff(s: State, peer: Bytes, body: Bytes, env: Env)
    requires StepInv(s)
    ensures CanShareAny(Restart(SendGroupControl(s, peer, body, env)))
       <==> CanMint(s, peer) && env.encrypts && env.relays > 0
  {
    var s', c := SendGroupControl(s, peer, body, env), Sealed(s, peer, body);
    if CanMint(s, peer) && env.encrypts && env.relays > 0 {
      AppendedOnWire(s, s', Send(c, Some(NextToken(s, peer)), true, None));
      OffDiskBy(s', c);
      OffDiskCanShare(s', Slot(peer, c.step));
    } else {
      if CanMint(s, peer) {
        SameStepsKeep(s, Mint(s, peer));
        EncryptKeeps(Mint(s, peer), peer);
      }
      forall k ensures !CanShare(Restart(s'), k) { OnDiskRestartIsSafe(s', k); }
    }
  }

  /** After queueing a group leg, exactly when something was sealed: its row waits for a retry. */
  lemma GroupLegSafeIff(s: State, peer: Bytes, id: Bytes, body: Bytes, now: int, ttl: int, encrypts: bool)
    requires StepInv(s)
    ensures CanShareAny(Restart(QueueGroupLeg(s, peer, id, body, now, ttl, encrypts)))
       <==> CanMint(s, peer) && encrypts
  {
    var s', c := QueueGroupLeg(s, peer, id, body, now, ttl, encrypts), Sealed(s, peer, body);
    if CanMint(s, peer) && encrypts {
      assert s'.outbox[id] == NewRow(c, now, ttl);
      assert Waiting(s', c);
      OffDiskBy(s', c);
      OffDiskCanShare(s', Slot(peer, c.step));
    } else {
      if CanMint(s, peer) { SameStepsKeep(s, Mint(s, peer)); }
      forall k ensures !CanShare(Restart(s'), k) { OnDiskRestartIsSafe(s', k); }
    }
  }

  // ----- crashes inside a text send -----

  /** Where a text send may be cut short.  `AfterPersist` is after the session write was tried, whether
      or not it worked; a failed write skips the broadcast; `AfterMark` is after the row's last write. */
  datatype CrashPoint = AfterMint | AfterSeal | AfterRow | AfterPersist | AfterWire | AfterMark

  /** What memory and disk hold at `point`; the cursor and the outbox are written through, the ratchet
      is not.  A failed sealing gives the index back and stops. */
  function AtCrash(s: State, peer: Bytes, id: Bytes, body: Bytes, now: int, ttl: int, env: Env, point: CrashPoint)
    : State
    requires CanMint(s, peer)
  {
    var minted, token := Mint(s, peer), NextToken(s, peer);
    if point.AfterMint? then minted
    else if !env.encrypts then Rollback(minted, peer, token.index)
    else
      var c := Sealed(minted, peer, body);
      var stored := PutRow(Encrypt(minted, peer), id, NewRow(c, now, ttl));
      match point
      case AfterSeal => Encrypt(minted, peer)
      case AfterRow => stored
      case AfterPersist => if env.persists then Persist(stored) else stored
      case AfterWire => if env.persists then Emit(Persist(stored), c, Some(token), env.relays) else stored
      case AfterMark => SealAndShip(minted, peer, id, body, now, ttl, token, env)
  }

  /** The same, after the restart from disk. */
  function CrashedText(s: State, peer: Bytes, id: Bytes, body: Bytes, now: int, ttl: int, env: Env, point: CrashPoint)
    : State
    requires CanMint(s, peer)
  {
    Restart(AtCrash(s, peer, id, body, now, ttl, env, point))
  }

  /** The last point is the whole send. */
  lemma UncrashedText(s: State, peer: Bytes, id: Bytes, body: Bytes, now: int, ttl: int, env: Env)
    requires CanMint(s, peer)
    ensures AtCrash(s, peer, id, body, now, ttl, env, AfterMark) == SendText(s, peer, id, body, now, ttl, env)
  {
  }

  /** The row is written, the session is not, and the row does not say so yet. */
  predicate Exposed(env: Env, point: CrashPoint) {
    env.encrypts && (point.AfterRow? || (!env.persists && (point.AfterPersist? || point.AfterWire?)))
  }

  lemma ExposedIsOffDisk(
      s: State, peer: Bytes, id: Bytes, body: Bytes, now: int, ttl: int, env: Env, point: CrashPoint)
    requires DiskBehind(s) && CanMint(s, peer) && Exposed(env, point)
    ensures OffDisk(AtCrash(s, peer, id, body, now, ttl, env, point), Slot(peer, At(s.ratchet, peer)))
  {
    var crash, c := AtCrash(s, peer, id, body, now, ttl, env, point), Sealed(s, peer, body);
    assert crash.disk == s.disk && crash.outbox[id] == NewRow(c, now, ttl);
    assert Waiting(crash, c);
    OffDiskBy(crash, c);
  }

  lemma OtherCrashKeeps(s: State, peer: Bytes, id: Bytes, body: Bytes, now: int, ttl: int, env: Env, point: CrashPoint)
    requires StepInv(s) && CanMint(s, peer) && !Exposed(env, point)
    ensures StepInv(AtCrash(s, peer, id, body, now, ttl, env, point))
  {
    var minted, crash := Mint(s, peer), AtCrash(s, peer, id, body, now, ttl, env, point);
    SameStepsKeep(s, minted);
    if point.AfterMark? || !env.encrypts {
      UncrashedText(s, peer, id, body, now, ttl, env);
      TextKeeps(s, peer, id, body, now, ttl, env);
    } else if point.AfterSeal? {
      EncryptKeeps(minted, peer);
    } else if point.AfterPersist? || point.AfterWire? {
      PersistedCrashKeeps(minted, peer, id, body, now, ttl, NextToken(s, peer), env, crash);
    }
  }

  lemma PersistedCrashKeeps(
      s: State, peer: Bytes, id: Bytes, body: Bytes, now: int, ttl: int, token: Token, env: Env, crash: State)
    requires StepInv(s)
    requires
      var stored := Persist(PutRow(Encrypt(s, peer), id, NewRow(Sealed(s, peer, body), now, ttl)));
      crash == stored || crash == Emit(stored, Sealed(s, peer, body), Some(token), env.relays)
    ensures StepInv(crash)
  {
    LiveFrom(s, crash, Sealed(s, peer, body));
    SavesKeeps(s, crash, Sealed(s, peer, body));
  }

  /** After a crash inside a text send and a restart, some later operations share a step exactly when
      the crash fell between the row and either the session write or, that write having failed, the
      row's failure mark. */
  lemma CrashSafeIff(s: State, peer: Bytes, id: Bytes, body: Bytes, now: int, ttl: int, env: Env, point: CrashPoint)
    requires StepInv(s) && CanMint(s, peer)
    ensures CanShareAny(CrashedText(s, peer, id, body, now, ttl, env, point)) <==> Exposed(env, point)
  {
    var crash := AtCrash(s, peer, id, body, now, ttl, env, point);
    if Exposed(env, point) {
      ExposedIsOffDisk(s, peer, id, body, now, ttl, env, point);
      OffDiskCanShare(crash, Slot(peer, At(s.ratchet, peer)));
      assert CanShare(CrashedText(s, peer, id, body, now, ttl, env, point), Slot(peer, At(s.ratchet, peer)));
    } else {
      OtherCrashKeeps(s, peer, id, body, now, ttl, env, point);
      forall k ensures !CanShare(Restart(crash), k) { OnDiskRestartIsSafe(crash, k); }
    }
  }

  /** Token safety survives a crash at any point of the send. */
  lemma CrashKeepsTokens(
      t: Token, s: State, peer: Bytes, id: Bytes, body: Bytes, now: int, ttl: int, env: Env, point: CrashPoint)
    requires Inv(s, t) && CanMint(s, peer)
    ensures Inv(CrashedText(s, peer, id, body, now, ttl, env, point), t)
  {
    var crash := AtCrash(s, peer, id, body, now, ttl, env, point);
    if point.AfterMark? || (!point.AfterMint? && !env.encrypts) {
      UncrashedText(s, peer, id, body, now, ttl, env);
      TextKeepsInv(t, s, peer, id, body, now, ttl, env);
    } else if point.AfterWire? && env.persists && env.relays > 0 {
      AttachKeepsInv(t, s, crash, peer, Send(Sealed(s, peer, body), Some(NextToken(s, peer)), true, None));
    } else {
      BurnKeepsInv(t, s, crash, peer);
    }
    SameKeepsInv(t, crash, Restart(crash));
  }

  /** One chunk of an attachment seals before it mints; from the row on it is a text send. */
  function AtChunkCrash(s: State, peer: Bytes, chunk: Chunk, now: int, ttl: int, point: CrashPoint): State
    requires CanMint(s, peer)
  {
    if !chunk.env.encrypts then s
    else if point.AfterSeal? then Encrypt(s, peer)
    else if point.AfterMint? then Mint(Encrypt(s, peer), peer)
    else AtCrash(s, peer, chunk.id, chunk.body, now, ttl, chunk.env, point)
  }

  lemma ChunkCrashIff(s: State, peer: Bytes, chunk: Chunk, now: int, ttl: int, point: CrashPoint)
    requires StepInv(s) && CanMint(s, peer)
    ensures CanShareAny(Restart(AtChunkCrash(s, peer, chunk, now, ttl, point))) <==> Exposed(chunk.env, point)
  {
    if chunk.env.encrypts && !point.AfterSeal? && !point.AfterMint? {
      CrashSafeIff(s, peer, chunk.id, chunk.body, now, ttl, chunk.env, point);
    } else {
      var crash := AtChunkCrash(s, peer, chunk, now, ttl, point);
      EncryptKeeps(s, peer);
      if chunk.env.encrypts { SameStepsKeep(Encrypt(s, peer), crash); }
      forall k ensures !CanShare(Restart(crash), k) { OnDiskRestartIsSafe(crash, k); }
    }
  }

  /** A crash at any point of any chunk is harmless exactly where it is in a text send. */
  lemma ChunkCrashSafeIff(s: State, peer: Bytes, chunks: seq<Chunk>, i: nat, now: int, ttl: int, point: CrashPoint)
    requires StepInv(s) && i < |chunks| && CanMint(ShipChunks(s, peer, chunks[..i], now, ttl), peer)
    ensures
      var before := ShipChunks(s, peer, chunks[..i], now, ttl);
      CanShareAny(Restart(AtChunkCrash(before, peer, chunks[i], now, ttl, point))) <==> Exposed(chunks[i].env, point)
  {
    ChunksKeep(s, peer, chunks[..i], now, ttl);
    ChunkCrashIff(ShipChunks(s, peer, chunks[..i], now, ttl), peer, chunks[i], now, ttl, point);
  }

  /** A frame without a row may be cut short anywhere: after the mint, the sealing, the session write
      or the broadcast. */
  lemma RowlessCrashIsHarmless(s: State, peer: Bytes, body: Bytes, token: Option<Token>, relays: nat, k: Slot)
    requires StepInv(s)
    ensures !CanShare(Restart(s), k) && !CanShare(Restart(Encrypt(s, peer)), k)
    ensures !CanShare(Restart(Persist(Encrypt(s, peer))), k)
    ensures !CanShare(Restart(Emit(Persist(Encrypt(s, peer)), Sealed(s, peer, body), token, relays)), k)
  {
    OnDiskRestartIsSafe(s, k);
    EncryptKeeps(s, peer);
    OnDiskRestartIsSafe(Encrypt(s, peer), k);
    FrameKeeps(s, peer, body, token, 0);
    OnDiskRestartIsSafe(Persist(Encrypt(s, peer)), k);
    FrameKeeps(s, peer, body, token, relays);
    OnDiskRestartIsSafe(Emit(Persist(Encrypt(s, peer)), Sealed(s, peer, body), token, relays), k);
  }
}
