/** No delivery token is used twice, over every interleaving of the outbound operations. */
module TokenSafety {
  import opened Wire
  import opened Outbound

  datatype Op =
    | Text(peer: Bytes, id: Bytes, body: Bytes, now: int, ttl: int, env: Env)
    | Attachment(peer: Bytes, chunks: seq<Chunk>, now: int, ttl: int)
    | Notice(peer: Bytes, body: Bytes, env: Env)
    | Refresh(peer: Bytes, body: Bytes, env: Env)
    | Seed(peer: Bytes, body: Bytes, env: Env)
    | Retry(id: Bytes, relays: nat)
    | RunWalk(order: seq<(Bytes, nat)>, now: int, connected: bool)
    | Ack(id: Bytes, sender: Bytes, now: int)
    | GroupControl(peer: Bytes, body: Bytes, env: Env)
    | GroupLeg(peer: Bytes, id: Bytes, body: Bytes, now: int, ttl: int, encrypts: bool)
    | Fire(leg: nat, relays: nat)
    | Install(peer: Bytes, id: Bytes, length: nat)
    | Drop(peer: Bytes)
    | SaveSession(persists: bool)
    | Relaunch

  function Step(s: State, op: Op): State {
    match op
    case Text(peer, id, body, now, ttl, env) => SendText(s, peer, id, body, now, ttl, env)
    case Attachment(peer, chunks, now, ttl) => ShipAttachment(s, peer, chunks, now, ttl)
    case Notice(peer, body, env) => SendNotice(s, peer, body, env)
    case Refresh(peer, body, env) => RequestRefresh(s, peer, body, env)
    case Seed(peer, body, env) => DeliverSeed(s, peer, body, env)
    case Retry(id, relays) => UserRetry(s, id, relays)
    case RunWalk(order, now, connected) => RetryWalk(s, order, now, connected)
    case Ack(id, sender, now) => AckArrives(s, id, sender, now)
    case GroupControl(peer, body, env) => SendGroupControl(s, peer, body, env)
    case GroupLeg(peer, id, body, now, ttl, encrypts) => QueueGroupLeg(s, peer, id, body, now, ttl, encrypts)
    case Fire(leg, relays) => FireLeg(s, leg, relays)
    case Install(peer, id, length) => InstallChain(s, peer, id, length)
    case Drop(peer) => DropChain(s, peer)
    case SaveSession(persists) => Save(s, persists)
    case Relaunch => Restart(s)
  }

  const START := State(map[], map[], map[], map[], [], {})

  function Fold<S, O>(step: (S, O) -> S, s: S, ops: seq<O>): S {
    if ops == [] then s else step(Fold(step, s, ops[..|ops| - 1]), ops[|ops| - 1])
  }

  lemma FoldPush<S, O>(step: (S, O) -> S, s: S, ops: seq<O>, op: O)
    ensures Fold(step, s, ops + [op]) == step(Fold(step, s, ops), op)
  {
    assert (ops + [op])[..|ops|] == ops;
  }

  lemma {:induction false} FoldConcat<S, O>(step: (S, O) -> S, s: S, xs: seq<O>, ys: seq<O>)
    ensures Fold(step, s, xs + ys) == Fold(step, Fold(step, s, xs), ys)
    decreases |ys|
  {
    if ys == [] {
      assert xs + ys == xs;
    } else {
      var front, last := ys[..|ys| - 1], ys[|ys| - 1];
      FoldConcat(step, s, xs, front);
      FoldPush(step, s, xs + front, last);
      FoldPush(step, Fold(step, s, xs), front, last);
      assert (xs + front) + [last] == xs + ys && front + [last] == ys;
    }
  }

  /** Several operations in a row. */
  function RunOps(s: State, ops: seq<Op>): State { Fold(Step, s, ops) }

  ghost predicate IsRun(states: seq<State>, ops: seq<Op>) {
    |states| == |ops| + 1 && forall i :: 0 <= i < |ops| ==> states[i + 1] == Step(states[i], ops[i])
  }

  // ----- the invariant, token by token -----

  /** The contact's chain may still mint the token. */
  ghost predicate Mintable(s: State, peer: Bytes, t: Token) {
    peer in s.chains && s.chains[peer].id == t.chain && s.chains[peer].nextIndex <= t.index <= s.chains[peer].length
  }

  ghost predicate Carried(s: State, t: Token) { exists i :: 0 <= i < |s.sends| && s.sends[i].token == Some(t) }

  ghost predicate CarriedTwice(s: State, t: Token) {
    exists i, j :: 0 <= i < j < |s.sends| && s.sends[i].token == Some(t) && s.sends[j].token == Some(t)
  }

  /** At most one send carries the token, at most one contact may mint it, and nobody may once it is
      carried. */
  ghost predicate Inv(s: State, t: Token) {
    && !CarriedTwice(s, t)
    && (forall p, q :: Mintable(s, p, t) && Mintable(s, q, t) ==> p == q)
    && (Carried(s, t) ==> forall p :: !Mintable(s, p, t))
  }

  /** The operation installs a chain that mints the token again: it was carried already, or another
      contact may mint it. */
  ghost predicate Reinstalls(s: State, op: Op, t: Token) {
    && op.Install? && op.id == t.chain && 1 <= t.index <= op.length
    && (Carried(s, t) || exists q :: q != op.peer && Mintable(s, q, t))
  }

  /** The parts of the state the invariant looks at. */
  ghost predicate SameTokens(s: State, s': State) {
    s'.chains == s.chains && s'.sends == s.sends
  }

  // ----- one token at a time -----

  lemma SameKeepsInv(t: Token, s: State, s': State)
    requires Inv(s, t) && SameTokens(s, s')
    ensures Inv(s', t)
  {
    assert forall p :: Mintable(s', p, t) ==> Mintable(s, p, t);
    assert Carried(s', t) ==> Carried(s, t);
  }

  /** Minting takes the token out of the contact's reach and nothing else into it. */
  lemma MintSpends(t: Token, s: State, s': State, peer: Bytes)
    requires CanMint(s, peer) && s'.chains == Mint(s, peer).chains
    ensures forall p :: Mintable(s', p, t) <==> Mintable(s, p, t) && !(p == peer && t == NextToken(s, peer))
    ensures Mintable(s, peer, NextToken(s, peer))
  {
  }

  /** Mint and record one send with the minted token. */
  lemma AttachKeepsInv(t: Token, s: State, s': State, peer: Bytes, send: Send)
    requires Inv(s, t) && CanMint(s, peer) && send.token == Some(NextToken(s, peer))
    requires s'.chains == Mint(s, peer).chains && s'.sends == s.sends + [send]
    ensures Inv(s', t)
  {
    MintSpends(t, s, s', peer);
    if t != NextToken(s, peer) {
      assert Carried(s', t) ==> Carried(s, t);
    }
  }

  /** Mint without a send: the index is burnt. */
  lemma BurnKeepsInv(t: Token, s: State, s': State, peer: Bytes)
    requires Inv(s, t) && CanMint(s, peer)
    requires s'.chains == Mint(s, peer).chains && s'.sends == s.sends
    ensures Inv(s', t)
  {
    MintSpends(t, s, s', peer);
    assert Carried(s', t) ==> Carried(s, t);
  }

  /** Rolling back the latest mint restores the cursor exactly. */
  lemma RollbackUndoesMint(s: State, s': State, peer: Bytes)
    requires CanMint(s, peer) && s'.chains == Mint(s, peer).chains
    ensures Rollback(s', peer, NextToken(s, peer).index).chains == s.chains
  {
  }

  // ----- operations -----

  lemma ShipKeepsInv(t: Token, s: State, peer: Bytes, id: Bytes, body: Bytes, now: int, ttl: int, env: Env)
    requires Inv(s, t) && CanMint(s, peer)
    ensures Inv(SealAndShip(Mint(s, peer), peer, id, body, now, ttl, NextToken(s, peer), env), t)
  {
    var s' := SealAndShip(Mint(s, peer), peer, id, body, now, ttl, NextToken(s, peer), env);
    if env.persists && env.relays > 0 {
      AttachKeepsInv(t, s, s', peer, Send(Sealed(Mint(s, peer), peer, body), Some(NextToken(s, peer)), true, None));
    } else {
      BurnKeepsInv(t, s, s', peer);
    }
  }

  lemma TextKeepsInv(t: Token, s: State, peer: Bytes, id: Bytes, body: Bytes, now: int, ttl: int, env: Env)
    requires Inv(s, t)
    ensures Inv(SendText(s, peer, id, body, now, ttl, env), t)
  {
    if CanMint(s, peer) {
      if env.encrypts {
        ShipKeepsInv(t, s, peer, id, body, now, ttl, env);
      } else {
        RollbackUndoesMint(s, Mint(s, peer), peer);
        SameKeepsInv(t, s, SendText(s, peer, id, body, now, ttl, env));
      }
    }
  }

  lemma {:induction false} ChunksKeepInv(t: Token, s: State, peer: Bytes, chunks: seq<Chunk>, now: int, ttl: int)
    requires Inv(s, t)
    ensures Inv(ShipChunks(s, peer, chunks, now, ttl), t)
    decreases |chunks|
  {
    if chunks != [] {
      var (s', more) := ShipChunk(s, peer, chunks[0], now, ttl);
      if chunks[0].env.encrypts {
        if CanMint(s, peer) {
          ShipKeepsInv(t, s, peer, chunks[0].id, chunks[0].body, now, ttl, chunks[0].env);
        } else {
          SameKeepsInv(t, s, s');
        }
      }
      if more { ChunksKeepInv(t, s', peer, chunks[1..], now, ttl); }
    }
  }

  lemma NoticeKeepsInv(t: Token, s: State, peer: Bytes, body: Bytes, env: Env)
    requires Inv(s, t)
    ensures Inv(SendNotice(s, peer, body, env), t)
  {
    var s' := SendNotice(s, peer, body, env);
    if CanMint(s, peer) {
      if env.encrypts && env.persists && env.relays > 0 {
        AttachKeepsInv(t, s, s', peer, Send(Sealed(Mint(s, peer), peer, body), Some(NextToken(s, peer)), true, None));
      } else {
        NoticeWithoutFrame(s, peer, body, env);
        SameKeepsInv(t, s, s');
      }
    }
  }

  lemma NoticeWithoutFrame(s: State, peer: Bytes, body: Bytes, env: Env)
    requires CanMint(s, peer) && !(env.encrypts && env.persists && env.relays > 0)
    ensures SameTokens(s, SendNotice(s, peer, body, env))
  {
    var minted := Mint(s, peer);
    RollbackUndoesMint(s, minted, peer);
    RollbackUndoesMint(s, Encrypt(minted, peer), peer);
    RollbackUndoesMint(s, Persist(Encrypt(minted, peer)), peer);
  }

  lemma WalkEntryKeepsInv(t: Token, s: State, id: Bytes, now: int, relays: nat)
    requires Inv(s, t)
    ensures Inv(WalkEntry(s, id, now, relays), t)
  {
    if id in s.outbox && s.outbox[id].ShouldRetry(now) && CanMint(s, s.outbox[id].cipher.peer) {
      var c := s.outbox[id].cipher;
      var s' := WalkEntry(s, id, now, relays);
      if relays > 0 {
        AttachKeepsInv(t, s, s', c.peer, Send(c, Some(NextToken(s, c.peer)), true, None));
      } else {
        RollbackUndoesMint(s, Mint(s, c.peer), c.peer);
        SameKeepsInv(t, s, s');
      }
    }
  }

  lemma {:induction false} WalkKeepsInv(t: Token, s: State, order: seq<(Bytes, nat)>, now: int)
    requires Inv(s, t)
    ensures Inv(Walk(s, order, now), t)
    decreases |order|
  {
    if order != [] {
      var front, last := order[..|order| - 1], order[|order| - 1];
      WalkKeepsInv(t, s, front, now);
      WalkEntryKeepsInv(t, Walk(s, front, now), last.0, now, last.1);
    }
  }

  lemma RetryWalkKeepsInv(t: Token, s: State, order: seq<(Bytes, nat)>, now: int, connected: bool)
    requires Inv(s, t)
    ensures Inv(RetryWalk(s, order, now, connected), t)
  {
    SameKeepsInv(t, s, Expire(s, now));
    WalkKeepsInv(t, Expire(s, now), order, now);
    SameKeepsInv(t, Walked(s, order, now, connected), RetryWalk(s, order, now, connected));
  }

  lemma RetryKeepsInv(t: Token, s: State, id: Bytes, relays: nat)
    requires Inv(s, t)
    ensures Inv(UserRetry(s, id, relays), t)
  {
    var s' := UserRetry(s, id, relays);
    if id in s.outbox && CanMint(s, s.outbox[id].cipher.peer) && s' != s {
      var c := s.outbox[id].cipher;
      if relays > 0 {
        AttachKeepsInv(t, s, s', c.peer, Send(c, Some(NextToken(s, c.peer)), true, None));
      } else {
        BurnKeepsInv(t, s, s', c.peer);
      }
    }
  }

  lemma RefreshKeepsInv(t: Token, s: State, peer: Bytes, body: Bytes, env: Env)
    requires Inv(s, t)
    ensures Inv(RequestRefresh(s, peer, body, env), t)
  {
    if CanMint(s, peer) {
      var s' := RequestRefresh(s, peer, body, env);
      if env.encrypts && env.persists && env.relays > 0 {
        AttachKeepsInv(t, s, s', peer, Send(Sealed(Mint(s, peer), peer, body), Some(NextToken(s, peer)), true, None));
      } else {
        BurnKeepsInv(t, s, s', peer);
      }
    }
  }

  lemma SeedKeepsInv(t: Token, s: State, peer: Bytes, body: Bytes, env: Env)
    requires Inv(s, t)
    ensures Inv(DeliverSeed(s, peer, body, env), t)
  {
    var s' := DeliverSeed(s, peer, body, env);
    assert s'.chains == s.chains;
    assert forall p :: Mintable(s', p, t) ==> Mintable(s, p, t);
  }

  lemma GroupControlKeepsInv(t: Token, s: State, peer: Bytes, body: Bytes, env: Env)
    requires Inv(s, t)
    ensures Inv(SendGroupControl(s, peer, body, env), t)
  {
    if CanMint(s, peer) {
      var s' := SendGroupControl(s, peer, body, env);
      if env.encrypts && env.relays > 0 {
        AttachKeepsInv(t, s, s', peer, Send(Sealed(Mint(s, peer), peer, body), Some(NextToken(s, peer)), true, None));
      } else {
        BurnKeepsInv(t, s, s', peer);
      }
    }
  }

  lemma GroupLegKeepsInv(t: Token, s: State, peer: Bytes, id: Bytes, body: Bytes, now: int, ttl: int, encrypts: bool)
    requires Inv(s, t)
    ensures Inv(QueueGroupLeg(s, peer, id, body, now, ttl, encrypts), t)
  {
    if CanMint(s, peer) {
      var s' := QueueGroupLeg(s, peer, id, body, now, ttl, encrypts);
      if encrypts {
        var leg := Send(Sealed(Mint(s, peer), peer, body), Some(NextToken(s, peer)), false, Some(id));
        AttachKeepsInv(t, s, s', peer, leg);
      } else {
        BurnKeepsInv(t, s, s', peer);
      }
    }
  }

  lemma FireKeepsInv(t: Token, s: State, i: nat, relays: nat)
    requires Inv(s, t)
    ensures Inv(FireLeg(s, i, relays), t)
  {
    SameListKeepsInv(t, s, FireLeg(s, i, relays));
  }

  lemma SameListKeepsInv(t: Token, s: State, s': State)
    requires Inv(s, t) && s'.chains == s.chains && |s'.sends| == |s.sends|
    requires forall j :: 0 <= j < |s.sends| ==> s'.sends[j].token == s.sends[j].token
    ensures Inv(s', t)
  {
    assert forall p :: Mintable(s', p, t) ==> Mintable(s, p, t);
    assert Carried(s', t) ==> Carried(s, t);
  }

  lemma InstallMintable(t: Token, s: State, peer: Bytes, id: Bytes, length: nat)
    ensures
      var s' := InstallChain(s, peer, id, length);
      forall p :: Mintable(s', p, t) <==>
        if p == peer then id == t.chain && 1 <= t.index <= length else Mintable(s, p, t)
  {
  }

  /** Installing a chain keeps the invariant of a token exactly when it does not mint it again. */
  lemma InstallKeepsInvIff(t: Token, s: State, peer: Bytes, id: Bytes, length: nat)
    requires Inv(s, t)
    ensures Inv(InstallChain(s, peer, id, length), t) <==> !Reinstalls(s, Install(peer, id, length), t)
  {
    var s' := InstallChain(s, peer, id, length);
    InstallMintable(t, s, peer, id, length);
    assert Carried(s', t) <==> Carried(s, t);
    assert CarriedTwice(s', t) <==> CarriedTwice(s, t);
    if Reinstalls(s, Install(peer, id, length), t) { assert Mintable(s', peer, t); }
  }

  lemma DropKeepsInv(t: Token, s: State, peer: Bytes)
    requires Inv(s, t)
    ensures Inv(DropChain(s, peer), t)
  {
    var s' := DropChain(s, peer);
    assert forall p :: Mintable(s', p, t) ==> Mintable(s, p, t);
    assert Carried(s', t) ==> Carried(s, t);
  }

  lemma StepKeepsInv(t: Token, s: State, op: Op)
    requires Inv(s, t) && !Reinstalls(s, op, t)
    ensures Inv(Step(s, op), t)
  {
    match op {
      case Text(peer, id, body, now, ttl, env) => TextKeepsInv(t, s, peer, id, body, now, ttl, env);
      case Attachment(peer, chunks, now, ttl) => ChunksKeepInv(t, s, peer, chunks, now, ttl);
      case Notice(peer, body, env) => NoticeKeepsInv(t, s, peer, body, env);
      case Refresh(peer, body, env) => RefreshKeepsInv(t, s, peer, body, env);
      case Seed(peer, body, env) => SeedKeepsInv(t, s, peer, body, env);
      case Retry(id, relays) => RetryKeepsInv(t, s, id, relays);
      case RunWalk(order, now, connected) => RetryWalkKeepsInv(t, s, order, now, connected);
      case _ => OtherStepKeepsInv(t, s, op);
    }
  }

  lemma OtherStepKeepsInv(t: Token, s: State, op: Op)
    requires Inv(s, t) && !Reinstalls(s, op, t)
    requires op.GroupControl? || op.GroupLeg? || op.Fire? || op.Install? || op.Drop? || op.Ack? || op.SaveSession?
      || op.Relaunch?
    ensures Inv(Step(s, op), t)
  {
    match op {
      case GroupControl(peer, body, env) => GroupControlKeepsInv(t, s, peer, body, env);
      case GroupLeg(peer, id, body, now, ttl, encrypts) => GroupLegKeepsInv(t, s, peer, id, body, now, ttl, encrypts);
      case Fire(leg, relays) => FireKeepsInv(t, s, leg, relays);
      case Install(peer, id, length) => InstallKeepsInvIff(t, s, peer, id, length);
      case Drop(peer) => DropKeepsInv(t, s, peer);
      case Ack(id, sender, now) => SameKeepsInv(t, s, AckArrives(s, id, sender, now));
      case SaveSession(persists) => SameKeepsInv(t, s, Save(s, persists));
      case Relaunch => SameKeepsInv(t, s, Restart(s));
    }
  }

  // ----- whole runs -----

  lemma {:induction false} RunKeepsInv(t: Token, states: seq<State>, ops: seq<Op>, n: nat)
    requires IsRun(states, ops) && states[0] == START && n <= |ops|
    requires forall m :: 0 <= m < n ==> !Reinstalls(states[m], ops[m], t)
    ensures Inv(states[n], t)
    decreases n
  {
    if n > 0 {
      RunKeepsInv(t, states, ops, n - 1);
      StepKeepsInv(t, states[n - 1], ops[n - 1]);
    }
  }

  ghost predicate WasReinstalled(t: Token, states: seq<State>, ops: seq<Op>, n: nat)
    requires n <= |ops| <= |states|
  {
    exists m :: 0 <= m < n && Reinstalls(states[m], ops[m], t)
  }

  /** Over any interleaving of sends, attachments, notices, refreshes, retries, walks, group legs,
      session writes, restarts and chain changes: no two sends carry the same (chain, index), and a
      carried index within the length of a contact's current chain is below its cursor, unless an
      earlier install made that very token mintable again. */
  lemma TokensAreNeverReused(states: seq<State>, ops: seq<Op>, n: nat, t: Token)
    requires IsRun(states, ops) && states[0] == START && n <= |ops|
    ensures CarriedTwice(states[n], t) ==> WasReinstalled(t, states, ops, n)
    ensures forall p :: Carried(states[n], t) && p in states[n].chains && t.chain == states[n].chains[p].id ==>
      || t.index < states[n].chains[p].nextIndex
      || t.index > states[n].chains[p].length
      || WasReinstalled(t, states, ops, n)
  {
    if !WasReinstalled(t, states, ops, n) {
      RunKeepsInv(t, states, ops, n);
      forall p | Carried(states[n], t) && p in states[n].chains && t.chain == states[n].chains[p].id
        ensures t.index < states[n].chains[p].nextIndex || t.index > states[n].chains[p].length
      {
        assert !Mintable(states[n], p, t);
      }
    }
  }

  // ----- a reinstalled token does repeat -----

  /** Mint and throw away `n` indices, as `n` refresh requests whose sealing fails do. */
  function Burns(peer: Bytes, n: nat): seq<Op> { seq(n, _ => Refresh(peer, [], Env(false, false, 0))) }

  ghost predicate Moved(s: State, s': State, peer: Bytes, n: nat)
    requires peer in s.chains
  {
    && s'.sends == s.sends
    && s'.chains == s.chains[peer := s.chains[peer].(nextIndex := s.chains[peer].nextIndex + n)]
  }

  lemma RunPush(s: State, ops: seq<Op>, op: Op)
    ensures RunOps(s, ops + [op]) == Step(RunOps(s, ops), op)
  {
    FoldPush(Step, s, ops, op);
  }

  lemma RunConcat(s: State, xs: seq<Op>, ys: seq<Op>)
    ensures RunOps(s, xs + ys) == RunOps(RunOps(s, xs), ys)
  {
    FoldConcat(Step, s, xs, ys);
  }

  lemma {:induction false} BurnMoves(s: State, peer: Bytes, n: nat)
    requires peer in s.chains && s.chains[peer].nextIndex + n <= s.chains[peer].length + 1
    ensures Moved(s, RunOps(s, Burns(peer, n)), peer, n)
    decreases n
  {
    if n > 0 {
      BurnMoves(s, peer, n - 1);
      assert Burns(peer, n) == Burns(peer, n - 1) + [Refresh(peer, [], Env(false, false, 0))];
      RunPush(s, Burns(peer, n - 1), Refresh(peer, [], Env(false, false, 0)));
    }
  }

  /** Operations after which the contact sends the token, provided it may mint it. */
  function SendIt(s: State, peer: Bytes, t: Token): seq<Op>
    requires peer in s.chains && s.chains[peer].nextIndex <= t.index
  {
    Burns(peer, t.index - s.chains[peer].nextIndex) + [Notice(peer, [], Env(true, true, 1))]
  }

  lemma SendsIt(s: State, peer: Bytes, t: Token)
    requires Mintable(s, peer, t)
    ensures
      var s' := RunOps(s, SendIt(s, peer, t));
      && |s'.sends| == |s.sends| + 1 && s'.sends[..|s.sends|] == s.sends && s'.sends[|s.sends|].token == Some(t)
      && (forall q :: q != peer && q in s.chains ==> q in s'.chains && s'.chains[q] == s.chains[q])
  {
    var n := t.index - s.chains[peer].nextIndex;
    BurnMoves(s, peer, n);
    RunPush(s, Burns(peer, n), Notice(peer, [], Env(true, true, 1)));
    var ready := RunOps(s, Burns(peer, n));
    assert CanMint(ready, peer) && NextToken(ready, peer) == t;
    var s' := RunOps(s, SendIt(s, peer, t));
    assert s'.sends == s.sends + [Send(Sealed(ready, peer, []), Some(t), true, None)];
  }

  ghost predicate NoInstalls(ops: seq<Op>) { forall i :: 0 <= i < |ops| ==> !ops[i].Install? }

  lemma {:induction false} NoInstallsKeepInv(t: Token, s: State, ops: seq<Op>)
    requires Inv(s, t) && NoInstalls(ops)
    ensures Inv(RunOps(s, ops), t)
    decreases |ops|
  {
    if ops != [] {
      var front, last := ops[..|ops| - 1], ops[|ops| - 1];
      NoInstallsKeepInv(t, s, front);
      StepKeepsInv(t, RunOps(s, front), last);
      RunPush(s, front, last);
      assert front + [last] == ops;
    }
  }

  lemma ReinstalledRepeats(t: Token, s: State, op: Op) returns (ops: seq<Op>)
    requires Reinstalls(s, op, t)
    ensures NoInstalls(ops) && CarriedTwice(RunOps(Step(s, op), ops), t)
  {
    var s1 := Step(s, op);
    InstallMintable(t, s, op.peer, op.id, op.length);
    assert Mintable(s1, op.peer, t);
    SendsIt(s1, op.peer, t);
    ops := SendIt(s1, op.peer, t);
    var s2 := RunOps(s1, ops);
    if Carried(s, t) {
      var i :| 0 <= i < |s.sends| && s.sends[i].token == Some(t);
      assert s2.sends[i] == s2.sends[..|s.sends|][i];
    } else {
      var q :| q != op.peer && Mintable(s, q, t);
      assert Mintable(s1, q, t) && Mintable(s2, q, t);
      SendsIt(s2, q, t);
      RunConcat(s1, ops, SendIt(s2, q, t));
      var s3 := RunOps(s2, SendIt(s2, q, t));
      assert s3.sends[|s.sends|] == s3.sends[..|s2.sends|][|s.sends|];
      ops := ops + SendIt(s2, q, t);
    }
  }

  /** After an install, some later sends carry one token twice exactly when the install made that token
      mintable again. */
  lemma InstallIsSafeIff(t: Token, s: State, peer: Bytes, id: Bytes, length: nat)
    requires Inv(s, t)
    ensures
      (exists ops :: NoInstalls(ops) && CarriedTwice(RunOps(InstallChain(s, peer, id, length), ops), t))
      <==> Reinstalls(s, Install(peer, id, length), t)
  {
    if Reinstalls(s, Install(peer, id, length), t) {
      var ops := ReinstalledRepeats(t, s, Install(peer, id, length));
    } else {
      InstallKeepsInvIff(t, s, peer, id, length);
      forall ops | NoInstalls(ops) ensures !CarriedTwice(RunOps(InstallChain(s, peer, id, length), ops), t) {
        NoInstallsKeepInv(t, InstallChain(s, peer, id, length), ops);
      }
    }
  }

  // ----- cursor and frames -----

  /** An ACK or read receipt moves the cursor exactly when its frame went out, and then by one. */
  lemma NoticeCursorFollowsFrame(s: State, peer: Bytes, body: Bytes, env: Env)
    ensures
      var s' := SendNotice(s, peer, body, env);
      if CanMint(s, peer) && env.encrypts && env.persists && env.relays > 0
      then && |s'.sends| == |s.sends| + 1 && s'.sends[|s.sends|].token == Some(NextToken(s, peer))
           && s'.chains == Mint(s, peer).chains
      else s'.sends == s.sends && s'.chains == s.chains
  {
    if CanMint(s, peer) && !(env.encrypts && env.persists && env.relays > 0) {
      NoticeWithoutFrame(s, peer, body, env);
    }
  }

  /** So does each entry of the retry walk. */
  lemma WalkCursorFollowsFrame(s: State, id: Bytes, now: int, relays: nat)
    ensures
      var s' := WalkEntry(s, id, now, relays);
      if id in s.outbox && s.outbox[id].ShouldRetry(now) && CanMint(s, s.outbox[id].cipher.peer) && relays > 0
      then && |s'.sends| == |s.sends| + 1 && s'.sends[|s.sends|].token == Some(NextToken(s, s.outbox[id].cipher.peer))
           && s'.chains == Mint(s, s.outbox[id].cipher.peer).chains
      else s'.sends == s.sends && s'.chains == s.chains
  {
    if id in s.outbox && CanMint(s, s.outbox[id].cipher.peer) {
      RollbackUndoesMint(s, Mint(s, s.outbox[id].cipher.peer), s.outbox[id].cipher.peer);
    }
  }

  /** A text send burns its index without a frame exactly when sealing worked but the session write
      failed or no relay was ready; only a sealing failure gives the index back. */
  lemma TextBurnsIndex(s: State, peer: Bytes, id: Bytes, body: Bytes, now: int, ttl: int, env: Env)
    requires CanMint(s, peer)
    ensures
      var s' := SendText(s, peer, id, body, now, ttl, env);
      && (s'.chains == s.chains <==> !env.encrypts)
      && (s'.sends == s.sends <==> !(env.encrypts && env.persists && env.relays > 0))
  {
    var s' := SendText(s, peer, id, body, now, ttl, env);
    if !env.encrypts {
      RollbackUndoesMint(s, Mint(s, peer), peer);
    } else {
      assert s'.chains[peer].nextIndex == s.chains[peer].nextIndex + 1;
      if env.persists && env.relays > 0 { assert |s'.sends| == |s.sends| + 1; }
    }
  }

  // ----- attachments -----

  ghost predicate Stocked(s: State, peer: Bytes, n: nat) { peer in s.chains && Remaining(s, peer) >= n }

  lemma ChunkUsesOneToken(s: State, peer: Bytes, chunk: Chunk, now: int, ttl: int, n: nat)
    requires n > 0 && Stocked(s, peer, n)
    ensures CanMint(s, peer)
    ensures ShipChunk(s, peer, chunk, now, ttl).1 ==> Stocked(ShipChunk(s, peer, chunk, now, ttl).0, peer, n - 1)
  {
  }

  /** Once the up-front check passes, no chunk of the loop finds the chain empty: the `k`-th turn is
      reached only with a token left. */
  lemma {:induction false} AttachmentNeverRunsDry(s: State, peer: Bytes, chunks: seq<Chunk>, now: int, ttl: int, k: nat)
    requires chunks != [] && Remaining(s, peer) >= |chunks| && k < |chunks|
    requires forall i :: 0 <= i < k ==> chunks[i].env.encrypts && chunks[i].env.persists
    ensures CanMint(ShipChunks(s, peer, chunks[..k], now, ttl), peer)
    ensures Stocked(ShipChunks(s, peer, chunks[..k], now, ttl), peer, |chunks| - k)
    decreases k
  {
    if k > 0 {
      ChunkUsesOneToken(s, peer, chunks[0], now, ttl, |chunks|);
      var s' := ShipChunk(s, peer, chunks[0], now, ttl).0;
      AttachmentNeverRunsDry(s', peer, chunks[1..], now, ttl, k - 1);
      assert chunks[..k][0] == chunks[0] && chunks[..k][1..] == chunks[1..][..k - 1];
    }
  }
}
