/** `ChatStore`'s outbound methods on mutable state, each proved equal to its specification in
    `Outbound` and shown to keep token and ratchet safety. */
module OutboundStore {
  import opened Wire
  import opened Outbound
  import TokenSafety
  import RatchetSafety

  ghost predicate Safe(s: State) { (forall t :: TokenSafety.Inv(s, t)) && RatchetSafety.StepInv(s) }

  lemma StepIsSafe(s: State, op: TokenSafety.Op)
    requires Safe(s) && RatchetSafety.Direct(op) && !op.Install?
    ensures Safe(TokenSafety.Step(s, op))
  {
    forall t ensures TokenSafety.Inv(TokenSafety.Step(s, op), t) { TokenSafety.StepKeepsInv(t, s, op); }
    RatchetSafety.DirectStepKeeps(s, op);
  }

  lemma SeedIsSafe(s: State, peer: Bytes, body: Bytes, env: Env)
    requires Safe(s)
    ensures Safe(DeliverSeed(s, peer, body, env))
  {
    forall t ensures TokenSafety.Inv(DeliverSeed(s, peer, body, env), t) {
      TokenSafety.SeedKeepsInv(t, s, peer, body, env);
    }
    RatchetSafety.SeedKeeps(s, peer, body, env);
  }

  lemma WalkIsSafe(s: State, order: seq<(Bytes, nat)>, now: int, connected: bool)
    requires Safe(s)
    ensures Safe(RetryWalk(s, order, now, connected))
  {
    forall t ensures TokenSafety.Inv(RetryWalk(s, order, now, connected), t) {
      TokenSafety.RetryWalkKeepsInv(t, s, order, now, connected);
    }
    RatchetSafety.RetryWalkKeeps(s, order, now, connected);
  }

  class ChatStore {
    var chains: map<Bytes, Chain>
    var ratchet: map<Bytes, nat>
    var disk: map<Bytes, nat>
    var outbox: map<Bytes, Entry>
    ghost var sends: seq<Send>
    ghost var queued: set<nat>

    ghost function Image(): State
      reads this
    {
      State(chains, ratchet, disk, outbox, sends, queued)
    }

    constructor ()
      ensures Image() == TokenSafety.START && Safe(Image())
    {
      chains, ratchet, disk, outbox, sends, queued := map[], map[], map[], map[], [], {};
    }

    // ----- primitives -----

    method MintDeliveryToken(peer: Bytes) returns (token: Option<Token>)
      modifies this`chains
      ensures token.Some? <==> CanMint(old(Image()), peer)
      ensures token.Some? ==> token.value == NextToken(old(Image()), peer) && Image() == Mint(old(Image()), peer)
      ensures token.None? ==> Image() == old(Image())
    {
      if peer !in chains { return None; }
      var chain := chains[peer];
      if chain.nextIndex > chain.length { return None; }
      token := Some(Token(chain.id, chain.nextIndex));
      chains := chains[peer := chain.(nextIndex := chain.nextIndex + 1)];
    }

    method RollbackDeliveryToken(peer: Bytes, minted: nat)
      modifies this`chains
      ensures Image() == Rollback(old(Image()), peer, minted)
    {
      if peer in chains && chains[peer].nextIndex == minted + 1 {
        chains := chains[peer := chains[peer].(nextIndex := minted)];
      }
    }

    /** Sealing steps the in-memory ratchet, unless it fails. */
    method EncryptSealed(peer: Bytes, body: Bytes, encrypts: bool) returns (c: Option<Cipher>)
      modifies this`ratchet
      ensures c == if encrypts then Some(Sealed(old(Image()), peer, body)) else None
      ensures Image() == if encrypts then Encrypt(old(Image()), peer) else old(Image())
    {
      if !encrypts { return None; }
      var step := if peer in ratchet then ratchet[peer] else 0;
      c := Some(Cipher(peer, step, body));
      ratchet := ratchet[peer := step + 1];
    }

    method PersistSession(persists: bool) returns (ok: bool)
      modifies this`disk
      ensures ok == persists
      ensures Image() == if ok then Persist(old(Image())) else old(Image())
    {
      ok := persists;
      if ok { disk := ratchet; }
    }

    method SendToRelays(c: Cipher, token: Option<Token>, relays: nat) returns (count: nat)
      modifies this`sends
      ensures count == relays && Image() == Emit(old(Image()), c, token, relays)
    {
      count := relays;
      if count > 0 { sends := sends + [Send(c, token, true, None)]; }
    }

    // ----- messages and attachments -----

    /** The tail shared by `sendV2` and the attachment loop: row, session, broadcast, row again. */
    method StoreAndShip(c: Cipher, id: Bytes, now: int, ttl: int, token: Token, env: Env) returns (sent: bool)
      modifies this`outbox, this`disk, this`sends
      ensures sent == env.persists
      ensures
        var row := NewRow(c, now, ttl);
        var stored := PutRow(old(Image()), id, row);
        Image() == if !env.persists then PutRow(stored, id, row.(failedAt := Some(now)))
                   else PutRow(Emit(Persist(stored), c, Some(token), env.relays), id, row.(relayed := env.relays > 0))
    {
      var row := NewRow(c, now, ttl);
      outbox := outbox[id := row];
      sent := PersistSession(env.persists);
      if !sent {
        outbox := outbox[id := row.(failedAt := Some(now))];
        return;
      }
      var count := SendToRelays(c, Some(token), env.relays);
      outbox := outbox[id := row.(relayed := count > 0)];
    }

    method SendMessage(peer: Bytes, id: Bytes, body: Bytes, now: int, ttl: int, env: Env)
      requires Safe(Image())
      modifies this`chains, this`ratchet, this`outbox, this`disk, this`sends
      ensures Image() == SendText(old(Image()), peer, id, body, now, ttl, env)
      ensures Safe(Image())
    {
      StepIsSafe(Image(), TokenSafety.Text(peer, id, body, now, ttl, env));
      var token := MintDeliveryToken(peer);
      if token.None? { return; }
      var c := EncryptSealed(peer, body, env.encrypts);
      if c.None? {
        RollbackDeliveryToken(peer, token.value.index);
        return;
      }
      var _ := StoreAndShip(c.value, id, now, ttl, token.value, env);
    }

    method ShipPreparedAttachment(peer: Bytes, chunks: seq<Chunk>, now: int, ttl: int)
      requires Safe(Image())
      modifies this`chains, this`ratchet, this`outbox, this`disk, this`sends
      ensures Image() == ShipAttachment(old(Image()), peer, chunks, now, ttl)
      ensures Safe(Image())
    {
      ghost var start := Image();
      StepIsSafe(start, TokenSafety.Attachment(peer, chunks, now, ttl));
      var remaining := if peer in chains then chains[peer].length - (chains[peer].nextIndex - 1) else 0;
      if remaining < |chunks| { return; }
      for i := 0 to |chunks|
        invariant i < |chunks| ==> TokenSafety.Stocked(Image(), peer, |chunks| - i)
        invariant ShipChunks(Image(), peer, chunks[i..], now, ttl) == ShipChunks(start, peer, chunks, now, ttl)
      {
        ghost var before := Image();
        TokenSafety.ChunkUsesOneToken(before, peer, chunks[i], now, ttl, |chunks| - i);
        assert chunks[i..][0] == chunks[i] && chunks[i..][1..] == chunks[i + 1..];
        var more := ShipOneChunk(peer, chunks[i], now, ttl);
        if !more { return; }
      }
    }

    /** One turn of the loop: a token is there, so only sealing or the session write can stop it. */
    method ShipOneChunk(peer: Bytes, chunk: Chunk, now: int, ttl: int) returns (more: bool)
      requires CanMint(Image(), peer)
      modifies this`chains, this`ratchet, this`outbox, this`disk, this`sends
      ensures (Image(), more) == ShipChunk(old(Image()), peer, chunk, now, ttl)
    {
      var c := EncryptSealed(peer, chunk.body, chunk.env.encrypts);
      if c.None? { return false; }
      var token := MintDeliveryToken(peer);
      more := StoreAndShip(c.value, chunk.id, now, ttl, token.value, chunk.env);
    }

    // ----- notices, refresh requests, chain seeds -----

    method EmitNotice(peer: Bytes, body: Bytes, env: Env)
      requires Safe(Image())
      modifies this`chains, this`ratchet, this`disk, this`sends
      ensures Image() == SendNotice(old(Image()), peer, body, env)
      ensures Safe(Image())
    {
      StepIsSafe(Image(), TokenSafety.Notice(peer, body, env));
      var token := MintDeliveryToken(peer);
      if token.None? { return; }
      var c := EncryptSealed(peer, body, env.encrypts);
      if c.None? {
        RollbackDeliveryToken(peer, token.value.index);
        return;
      }
      var ok := PersistSession(env.persists);
      if !ok {
        RollbackDeliveryToken(peer, token.value.index);
        return;
      }
      var count := SendToRelays(c.value, token, env.relays);
      if count == 0 { RollbackDeliveryToken(peer, token.value.index); }
    }

    method SendRefreshRequest(peer: Bytes, body: Bytes, env: Env) returns (ok: bool)
      requires Safe(Image())
      modifies this`chains, this`ratchet, this`disk, this`sends
      ensures Image() == RequestRefresh(old(Image()), peer, body, env)
      ensures ok == (CanMint(old(Image()), peer) && env.encrypts && env.persists)
      ensures Safe(Image())
    {
      StepIsSafe(Image(), TokenSafety.Refresh(peer, body, env));
      var token := MintDeliveryToken(peer);
      if token.None? { return false; }
      var c := EncryptSealed(peer, body, env.encrypts);
      if c.None? { return false; }
      ok := PersistSession(env.persists);
      if ok { var _ := SendToRelays(c.value, token, env.relays); }
    }

    method SendSeedDelivery(peer: Bytes, body: Bytes, env: Env) returns (ok: bool)
      requires Safe(Image())
      modifies this`ratchet, this`disk, this`sends
      ensures Image() == DeliverSeed(old(Image()), peer, body, env)
      ensures ok == (env.encrypts && env.persists)
      ensures Safe(Image())
    {
      SeedIsSafe(Image(), peer, body, env);
      var c := EncryptSealed(peer, body, env.encrypts);
      if c.None? { return false; }
      ok := PersistSession(env.persists);
      if ok { var _ := SendToRelays(c.value, None, env.relays); }
    }

    // ----- retries -----

    method RetryByUser(id: Bytes, relays: nat)
      requires Safe(Image())
      modifies this`chains, this`outbox, this`sends
      ensures Image() == UserRetry(old(Image()), id, relays)
      ensures Safe(Image())
    {
      StepIsSafe(Image(), TokenSafety.Retry(id, relays));
      if id !in outbox { return; }
      var e := outbox[id];
      if !e.Pending() { return; }
      var token := MintDeliveryToken(e.cipher.peer);
      if token.None? { return; }
      var count := SendToRelays(e.cipher, token, relays);
      outbox := outbox[id := e.(retries := e.retries + 1, relayed := e.relayed || count > 0)];
    }

    method MarkExpired(now: int)
      modifies this`outbox
      ensures Image() == Expire(old(Image()), now)
    {
      var todo := outbox.Keys;
      while todo != {}
        invariant todo <= outbox.Keys == old(outbox).Keys
        invariant forall id :: id in todo ==> outbox[id] == old(outbox)[id]
        invariant forall id :: id in outbox && id !in todo ==> outbox[id] == Expire(old(Image()), now).outbox[id]
        decreases |todo|
      {
        var id :| id in todo;
        if outbox[id].HasExpired(now) { outbox := outbox[id := outbox[id].(failedAt := Some(now))]; }
        todo := todo - {id};
      }
      assert outbox == Expire(old(Image()), now).outbox;
    }

    method DropStale(now: int)
      modifies this`outbox
      ensures Image() == Collect(old(Image()), now)
    {
      var todo := outbox.Keys;
      while todo != {}
        invariant forall id :: id in outbox <==> id in old(outbox) && (id in todo || !old(outbox)[id].Stale(now))
        invariant forall id :: id in outbox ==> outbox[id] == old(outbox)[id]
        decreases todo
      {
        var id :| id in todo;
        if id in outbox && outbox[id].Stale(now) { outbox := outbox - {id}; }
        todo := todo - {id};
      }
      assert outbox == Collect(old(Image()), now).outbox;
    }

    method RetryOne(id: Bytes, now: int, relays: nat)
      modifies this`chains, this`outbox, this`sends
      ensures Image() == WalkEntry(old(Image()), id, now, relays)
    {
      if id !in outbox || !outbox[id].ShouldRetry(now) { return; }
      var e := outbox[id];
      var token := MintDeliveryToken(e.cipher.peer);
      if token.None? { return; }
      var count := SendToRelays(e.cipher, token, relays);
      if count == 0 {
        RollbackDeliveryToken(e.cipher.peer, token.value.index);
        return;
      }
      outbox := outbox[id := e.(retries := e.retries + 1)];
    }

    method RunRetryWalk(order: seq<(Bytes, nat)>, now: int, connected: bool)
      requires Safe(Image())
      modifies this`chains, this`outbox, this`sends
      ensures Image() == RetryWalk(old(Image()), order, now, connected)
      ensures Safe(Image())
    {
      WalkIsSafe(Image(), order, now, connected);
      MarkExpired(now);
      ghost var expired := Image();
      if connected {
        for i := 0 to |order|
          invariant Image() == Walk(expired, order[..i], now)
        {
          RetryOne(order[i].0, now, order[i].1);
          assert order[..i + 1][..i] == order[..i] && order[..i + 1][i] == order[i];
        }
        assert order[..|order|] == order;
      }
      DropStale(now);
    }
  }
}
