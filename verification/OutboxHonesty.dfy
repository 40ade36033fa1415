/** A tick is never a lie: a row shown as relayed has its bytes on the wire, over every run. */
module OutboxHonesty {
  import opened Wire
  import opened Outbound
  import opened TokenSafety

  ghost predicate Honest(s: State) {
    forall id :: id in s.outbox && s.outbox[id].relayed ==> OnWire(s, s.outbox[id].cipher)
  }

  ghost predicate WireGrows(s: State, s': State) { forall c :: OnWire(s, c) ==> OnWire(s', c) }

  /** Every relayed row was relayed before with the same bytes, or its bytes are out now. */
  ghost predicate TicksBacked(s: State, s': State) {
    forall id :: id in s'.outbox && s'.outbox[id].relayed ==>
      || OnWire(s', s'.outbox[id].cipher)
      || (id in s.outbox && s.outbox[id].relayed && s.outbox[id].cipher == s'.outbox[id].cipher)
  }

  lemma BackedKeeps(s: State, s': State)
    requires Honest(s) && WireGrows(s, s') && TicksBacked(s, s')
    ensures Honest(s')
  {
    forall id | id in s.outbox && s.outbox[id].relayed ensures OnWire(s', s.outbox[id].cipher) {
      assert OnWire(s, s.outbox[id].cipher);
    }
  }

  lemma AppendGrows(s: State, s': State, send: Send)
    requires s'.sends == s.sends + [send]
    ensures WireGrows(s, s') && (send.onWire ==> OnWire(s', send.cipher))
  {
    forall c | OnWire(s, c) ensures OnWire(s', c) {
      var i :| 0 <= i < |s.sends| && s.sends[i].onWire && s.sends[i].cipher == c;
      assert s'.sends[i] == s.sends[i];
    }
    assert s'.sends[|s.sends|] == send;
  }

  lemma SameSendsGrow(s: State, s': State)
    requires s'.sends == s.sends
    ensures WireGrows(s, s')
  {
  }

  /** A step that leaves the ticks alone and at most appends to the wire. */
  lemma QuietStep(s: State, s': State)
    requires Honest(s)
    requires s'.sends == s.sends || exists send :: s'.sends == s.sends + [send]
    requires forall id :: id in s'.outbox && s'.outbox[id].relayed ==>
      id in s.outbox && s.outbox[id].relayed && s.outbox[id].cipher == s'.outbox[id].cipher
    ensures Honest(s')
  {
    if send :| s'.sends == s.sends + [send] { AppendGrows(s, s', send); } else { SameSendsGrow(s, s'); }
    BackedKeeps(s, s');
  }

  /** A sealed send: its row says relayed exactly when a relay took the frame, failed exactly when
      the session write failed, and holds the sealed bytes. */
  lemma ShippedRow(s: State, peer: Bytes, id: Bytes, body: Bytes, now: int, ttl: int, token: Token, env: Env)
    ensures
      var s' := SealAndShip(s, peer, id, body, now, ttl, token, env);
      var c, out := Sealed(s, peer, body), env.persists && env.relays > 0;
      && s'.outbox == s.outbox[id := Entry(c, now, ttl, 0, if env.persists then None else Some(now), out, None)]
      && s'.sends == (if out then s.sends + [Send(c, Some(token), true, None)] else s.sends)
  {
  }

  lemma ShipHonest(s: State, peer: Bytes, id: Bytes, body: Bytes, now: int, ttl: int, token: Token, env: Env)
    requires Honest(s)
    ensures Honest(SealAndShip(s, peer, id, body, now, ttl, token, env))
  {
    ShippedRow(s, peer, id, body, now, ttl, token, env);
    var s' := SealAndShip(s, peer, id, body, now, ttl, token, env);
    if env.persists && env.relays > 0 {
      AppendGrows(s, s', Send(Sealed(s, peer, body), Some(token), true, None));
    } else {
      SameSendsGrow(s, s');
    }
    BackedKeeps(s, s');
  }

  lemma {:induction false} ChunksHonest(s: State, peer: Bytes, chunks: seq<Chunk>, now: int, ttl: int)
    requires Honest(s)
    ensures Honest(ShipChunks(s, peer, chunks, now, ttl))
    decreases |chunks|
  {
    if chunks != [] {
      var (s', more) := ShipChunk(s, peer, chunks[0], now, ttl);
      if chunks[0].env.encrypts {
        if CanMint(s, peer) {
          QuietStep(s, Mint(s, peer));
          ShipHonest(Mint(s, peer), peer, chunks[0].id, chunks[0].body, now, ttl, NextToken(s, peer), chunks[0].env);
        } else {
          QuietStep(s, s');
        }
      }
      if more { ChunksHonest(s', peer, chunks[1..], now, ttl); }
    }
  }

  lemma TextHonest(s: State, peer: Bytes, id: Bytes, body: Bytes, now: int, ttl: int, env: Env)
    requires Honest(s)
    ensures Honest(SendText(s, peer, id, body, now, ttl, env))
  {
    if CanMint(s, peer) {
      QuietStep(s, Mint(s, peer));
      if env.encrypts {
        ShipHonest(Mint(s, peer), peer, id, body, now, ttl, NextToken(s, peer), env);
      } else {
        QuietStep(s, SendText(s, peer, id, body, now, ttl, env));
      }
    }
  }

  lemma RetryHonest(s: State, id: Bytes, relays: nat)
    requires Honest(s)
    ensures Honest(UserRetry(s, id, relays))
  {
    var s' := UserRetry(s, id, relays);
    if s' != s {
      if relays > 0 {
        AppendGrows(s, s', Send(s.outbox[id].cipher, Some(NextToken(s, s.outbox[id].cipher.peer)), true, None));
      } else {
        SameSendsGrow(s, s');
      }
      BackedKeeps(s, s');
    }
  }

  lemma WalkEntryHonest(s: State, id: Bytes, now: int, relays: nat)
    requires Honest(s)
    ensures Honest(WalkEntry(s, id, now, relays))
  {
    var s' := WalkEntry(s, id, now, relays);
    if s' != s { QuietStep(s, s'); }
  }

  lemma {:induction false} WalkHonest(s: State, order: seq<(Bytes, nat)>, now: int)
    requires Honest(s)
    ensures Honest(Walk(s, order, now))
    decreases |order|
  {
    if order != [] {
      var front, last := order[..|order| - 1], order[|order| - 1];
      WalkHonest(s, front, now);
      WalkEntryHonest(Walk(s, front, now), last.0, now, last.1);
    }
  }

  lemma RetryWalkHonest(s: State, order: seq<(Bytes, nat)>, now: int, connected: bool)
    requires Honest(s)
    ensures Honest(RetryWalk(s, order, now, connected))
  {
    QuietStep(s, Expire(s, now));
    WalkHonest(Expire(s, now), order, now);
    QuietStep(Walked(s, order, now, connected), RetryWalk(s, order, now, connected));
  }

  lemma FireGrows(s: State, s': State, i: nat)
    requires i < |s.sends| && s'.sends == s.sends[i := s.sends[i].(onWire := true)]
    ensures WireGrows(s, s') && OnWire(s', s.sends[i].cipher)
  {
    forall c | OnWire(s, c) ensures OnWire(s', c) {
      var j :| 0 <= j < |s.sends| && s.sends[j].onWire && s.sends[j].cipher == c;
      assert s'.sends[j].onWire && s'.sends[j].cipher == c;
    }
    assert s'.sends[i].onWire && s'.sends[i].cipher == s.sends[i].cipher;
  }

  lemma FireHonest(s: State, i: nat, relays: nat)
    requires Honest(s) && LegsOwn(s)
    ensures Honest(FireLeg(s, i, relays))
  {
    if i in s.queued && i < |s.sends| && relays > 0 {
      FireGrows(s, FireLeg(s, i, relays), i);
      BackedKeeps(s, FireLeg(s, i, relays));
    } else {
      SameRows(s, FireLeg(s, i, relays));
    }
  }

  lemma NoticeHonest(s: State, peer: Bytes, body: Bytes, env: Env)
    requires Honest(s)
    ensures Honest(SendNotice(s, peer, body, env))
  {
    QuietStep(s, SendNotice(s, peer, body, env));
  }

  lemma RefreshHonest(s: State, peer: Bytes, body: Bytes, env: Env)
    requires Honest(s)
    ensures Honest(RequestRefresh(s, peer, body, env))
  {
    QuietStep(s, RequestRefresh(s, peer, body, env));
  }

  lemma SeedHonest(s: State, peer: Bytes, body: Bytes, env: Env)
    requires Honest(s)
    ensures Honest(DeliverSeed(s, peer, body, env))
  {
    QuietStep(s, DeliverSeed(s, peer, body, env));
  }

  lemma GroupControlHonest(s: State, peer: Bytes, body: Bytes, env: Env)
    requires Honest(s)
    ensures Honest(SendGroupControl(s, peer, body, env))
  {
    QuietStep(s, SendGroupControl(s, peer, body, env));
  }

  lemma AckHonest(s: State, id: Bytes, sender: Bytes, now: int)
    requires Honest(s)
    ensures Honest(AckArrives(s, id, sender, now))
  {
    QuietStep(s, AckArrives(s, id, sender, now));
  }

  lemma SameRows(s: State, s': State)
    requires Honest(s) && s'.outbox == s.outbox && s'.sends == s.sends
    ensures Honest(s')
  {
    QuietStep(s, s');
  }

  lemma GroupLegHonest(s: State, peer: Bytes, id: Bytes, body: Bytes, now: int, ttl: int, encrypts: bool)
    requires Honest(s)
    ensures Honest(QueueGroupLeg(s, peer, id, body, now, ttl, encrypts))
  {
    QuietStep(s, QueueGroupLeg(s, peer, id, body, now, ttl, encrypts));
  }

  /** Operations that seal and send nothing. */
  lemma QuietHonest(s: State, op: Op)
    requires Honest(s) && (op.Ack? || op.Install? || op.Drop? || op.SaveSession? || op.Relaunch?)
    ensures Honest(Step(s, op))
  {
    match op {
      case Ack(id, sender, now) => AckHonest(s, id, sender, now);
      case Install(peer, id, length) => SameRows(s, InstallChain(s, peer, id, length));
      case Drop(peer) => SameRows(s, DropChain(s, peer));
      case SaveSession(persists) => SameRows(s, Save(s, persists));
      case Relaunch => SameRows(s, Restart(s));
    }
  }

  lemma StepHonest(s: State, op: Op)
    requires Honest(s) && LegsOwn(s)
    ensures Honest(Step(s, op))
  {
    match op {
      case Text(peer, id, body, now, ttl, env) => TextHonest(s, peer, id, body, now, ttl, env);
      case Attachment(peer, chunks, now, ttl) => ChunksHonest(s, peer, chunks, now, ttl);
      case Retry(id, relays) => RetryHonest(s, id, relays);
      case RunWalk(order, now, connected) => RetryWalkHonest(s, order, now, connected);
      case GroupLeg(peer, id, body, now, ttl, encrypts) => GroupLegHonest(s, peer, id, body, now, ttl, encrypts);
      case Fire(leg, relays) => FireHonest(s, leg, relays);
      case Notice(peer, body, env) => NoticeHonest(s, peer, body, env);
      case Refresh(peer, body, env) => RefreshHonest(s, peer, body, env);
      case Seed(peer, body, env) => SeedHonest(s, peer, body, env);
      case GroupControl(peer, body, env) => GroupControlHonest(s, peer, body, env);
      case _ => QuietHonest(s, op);
    }
  }

  // ----- delayed legs and their rows -----

  /** A delayed leg whose row is still there finds its own bytes in it. */
  ghost predicate LegsOwn(s: State) {
    forall i :: 0 <= i < |s.sends| && s.sends[i].row.Some? && s.sends[i].row.value in s.outbox ==>
      s.outbox[s.sends[i].row.value].cipher == s.sends[i].cipher
  }

  /** An id no row and no leg has. */
  ghost predicate NewId(s: State, id: Bytes) {
    id !in s.outbox && forall i :: 0 <= i < |s.sends| ==> s.sends[i].row != Some(id)
  }

  ghost predicate NewChunkIds(s: State, chunks: seq<Chunk>) {
    && (forall i :: 0 <= i < |chunks| ==> NewId(s, chunks[i].id))
    && (forall i, j :: 0 <= i < j < |chunks| ==> chunks[i].id != chunks[j].id)
  }

  /** Message ids are drawn at random: each one an operation introduces is new. */
  ghost predicate NewIds(s: State, op: Op) {
    match op
    case Text(_, id, _, _, _, _) => NewId(s, id)
    case GroupLeg(_, id, _, _, _, _) => NewId(s, id)
    case Attachment(_, chunks, _, _) => NewChunkIds(s, chunks)
    case _ => true
  }

  /** Old sends keep their leg, new ones have none. */
  ghost predicate SameLegs(s: State, s': State) {
    && |s.sends| <= |s'.sends|
    && (forall i :: 0 <= i < |s.sends| ==> s'.sends[i].row == s.sends[i].row && s'.sends[i].cipher == s.sends[i].cipher)
    && (forall i :: |s.sends| <= i < |s'.sends| ==> s'.sends[i].row == None)
  }

  /** Rows keep their bytes or are new. */
  ghost predicate SameBytes(s: State, s': State) {
    forall id :: id in s'.outbox ==> NewId(s, id) || (id in s.outbox && s'.outbox[id].cipher == s.outbox[id].cipher)
  }

  lemma LegsKeep(s: State, s': State)
    requires LegsOwn(s) && SameLegs(s, s') && SameBytes(s, s')
    ensures LegsOwn(s')
  {
  }

  lemma ShipLegs(s: State, peer: Bytes, id: Bytes, body: Bytes, now: int, ttl: int, token: Token, env: Env)
    requires LegsOwn(s) && NewId(s, id)
    ensures LegsOwn(SealAndShip(s, peer, id, body, now, ttl, token, env))
    ensures forall x :: x != id && NewId(s, x) ==> NewId(SealAndShip(s, peer, id, body, now, ttl, token, env), x)
  {
    ShippedRow(s, peer, id, body, now, ttl, token, env);
    LegsKeep(s, SealAndShip(s, peer, id, body, now, ttl, token, env));
  }

  lemma TextLegs(s: State, peer: Bytes, id: Bytes, body: Bytes, now: int, ttl: int, env: Env)
    requires LegsOwn(s) && NewId(s, id)
    ensures LegsOwn(SendText(s, peer, id, body, now, ttl, env))
  {
    if CanMint(s, peer) {
      LegsKeep(s, Mint(s, peer));
      if env.encrypts {
        ShipLegs(Mint(s, peer), peer, id, body, now, ttl, NextToken(s, peer), env);
      } else {
        LegsKeep(s, SendText(s, peer, id, body, now, ttl, env));
      }
    }
  }

  lemma ChunkLegs(s: State, peer: Bytes, chunk: Chunk, now: int, ttl: int)
    requires LegsOwn(s) && NewId(s, chunk.id)
    ensures
      var s' := ShipChunk(s, peer, chunk, now, ttl).0;
      LegsOwn(s') && forall x :: x != chunk.id && NewId(s, x) ==> NewId(s', x)
  {
    if chunk.env.encrypts {
      if CanMint(s, peer) {
        LegsKeep(s, Mint(s, peer));
        ShipLegs(Mint(s, peer), peer, chunk.id, chunk.body, now, ttl, NextToken(s, peer), chunk.env);
        assert forall x :: NewId(s, x) ==> NewId(Mint(s, peer), x);
      } else {
        LegsKeep(s, Encrypt(s, peer));
      }
    }
  }

  lemma {:induction false} ChunksLegs(s: State, peer: Bytes, chunks: seq<Chunk>, now: int, ttl: int)
    requires LegsOwn(s) && NewChunkIds(s, chunks)
    ensures LegsOwn(ShipChunks(s, peer, chunks, now, ttl))
    decreases |chunks|
  {
    if chunks != [] {
      var (s', more) := ShipChunk(s, peer, chunks[0], now, ttl);
      ChunkLegs(s, peer, chunks[0], now, ttl);
      if more {
        var rest := chunks[1..];
        forall i | 0 <= i < |rest| ensures NewId(s', rest[i].id) { assert rest[i] == chunks[i + 1]; }
        ChunksLegs(s', peer, rest, now, ttl);
      }
    }
  }

  lemma NoticeLegs(s: State, peer: Bytes, body: Bytes, env: Env)
    requires LegsOwn(s)
    ensures LegsOwn(SendNotice(s, peer, body, env)) && LegsOwn(RequestRefresh(s, peer, body, env))
  {
    LegsKeep(s, SendNotice(s, peer, body, env));
    LegsKeep(s, RequestRefresh(s, peer, body, env));
  }

  lemma FrameLegs(s: State, peer: Bytes, body: Bytes, env: Env)
    requires LegsOwn(s)
    ensures LegsOwn(DeliverSeed(s, peer, body, env)) && LegsOwn(SendGroupControl(s, peer, body, env))
  {
    LegsKeep(s, DeliverSeed(s, peer, body, env));
    LegsKeep(s, SendGroupControl(s, peer, body, env));
  }

  lemma RetryLegs(s: State, id: Bytes, relays: nat)
    requires LegsOwn(s)
    ensures LegsOwn(UserRetry(s, id, relays))
  {
    LegsKeep(s, UserRetry(s, id, relays));
  }

  lemma WalkEntryLegs(s: State, id: Bytes, now: int, relays: nat)
    requires LegsOwn(s)
    ensures LegsOwn(WalkEntry(s, id, now, relays))
  {
    LegsKeep(s, WalkEntry(s, id, now, relays));
  }

  lemma {:induction false} WalkLegs(s: State, order: seq<(Bytes, nat)>, now: int)
    requires LegsOwn(s)
    ensures LegsOwn(Walk(s, order, now))
    decreases |order|
  {
    if order != [] {
      var front, last := order[..|order| - 1], order[|order| - 1];
      WalkLegs(s, front, now);
      WalkEntryLegs(Walk(s, front, now), last.0, now, last.1);
    }
  }

  lemma RetryWalkLegs(s: State, order: seq<(Bytes, nat)>, now: int, connected: bool)
    requires LegsOwn(s)
    ensures LegsOwn(RetryWalk(s, order, now, connected))
  {
    LegsKeep(s, Expire(s, now));
    WalkLegs(Expire(s, now), order, now);
    LegsKeep(Walked(s, order, now, connected), RetryWalk(s, order, now, connected));
  }

  /** The one operation that makes a leg: nobody else has its id. */
  lemma GroupLegLegs(s: State, peer: Bytes, id: Bytes, body: Bytes, now: int, ttl: int, encrypts: bool)
    requires LegsOwn(s) && NewId(s, id)
    ensures LegsOwn(QueueGroupLeg(s, peer, id, body, now, ttl, encrypts))
  {
  }

  lemma FireLegs(s: State, i: nat, relays: nat)
    requires LegsOwn(s)
    ensures LegsOwn(FireLeg(s, i, relays))
  {
    LegsKeep(s, FireLeg(s, i, relays));
  }

  lemma OtherLegs(s: State, op: Op)
    requires LegsOwn(s) && (op.Ack? || op.Install? || op.Drop? || op.SaveSession? || op.Relaunch?)
    ensures LegsOwn(Step(s, op))
  {
    LegsKeep(s, Step(s, op));
  }

  lemma StepLegs(s: State, op: Op)
    requires LegsOwn(s) && NewIds(s, op)
    ensures LegsOwn(Step(s, op))
  {
    match op {
      case Text(peer, id, body, now, ttl, env) => TextLegs(s, peer, id, body, now, ttl, env);
      case Attachment(peer, chunks, now, ttl) => ChunksLegs(s, peer, chunks, now, ttl);
      case Notice(peer, body, env) => NoticeLegs(s, peer, body, env);
      case Refresh(peer, body, env) => NoticeLegs(s, peer, body, env);
      case Seed(peer, body, env) => FrameLegs(s, peer, body, env);
      case GroupControl(peer, body, env) => FrameLegs(s, peer, body, env);
      case Retry(id, relays) => RetryLegs(s, id, relays);
      case RunWalk(order, now, connected) => RetryWalkLegs(s, order, now, connected);
      case GroupLeg(peer, id, body, now, ttl, encrypts) => GroupLegLegs(s, peer, id, body, now, ttl, encrypts);
      case Fire(leg, relays) => FireLegs(s, leg, relays);
      case _ => OtherLegs(s, op);
    }
  }

  // ----- whole runs -----

  lemma {:induction false} RunHonest(states: seq<State>, ops: seq<Op>, n: nat)
    requires IsRun(states, ops) && states[0] == START && n <= |ops|
    requires forall i :: 0 <= i < |ops| ==> NewIds(states[i], ops[i])
    ensures Honest(states[n]) && LegsOwn(states[n])
    decreases n
  {
    if n > 0 {
      RunHonest(states, ops, n - 1);
      StepHonest(states[n - 1], ops[n - 1]);
      StepLegs(states[n - 1], ops[n - 1]);
    }
  }

  /** Over every run that draws new message ids, group legs included: a row marked relayed has its
      bytes on the wire, and a delayed leg finds its own bytes in the row under its id. */
  lemma RelayedMeansOnWire(states: seq<State>, ops: seq<Op>, n: nat)
    requires IsRun(states, ops) && states[0] == START && n <= |ops|
    requires forall i :: 0 <= i < |ops| ==> NewIds(states[i], ops[i])
    ensures
      var s := states[n];
      && (forall id :: id in s.outbox && s.outbox[id].relayed ==> OnWire(s, s.outbox[id].cipher))
      && (forall i, id :: 0 <= i < |s.sends| && s.sends[i].row == Some(id) && id in s.outbox ==>
            s.outbox[id].cipher == s.sends[i].cipher)
  {
    RunHonest(states, ops, n);
  }
}
