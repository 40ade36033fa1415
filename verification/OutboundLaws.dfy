/** What each outbound operation delivers: which frame, under which token, at which step, which row it
    leaves, and what it does not touch. */
module OutboundLaws {
  import opened Wire
  import opened Outbound

  // ----- the vocabulary -----

  /** Exactly this frame went out, and nothing else. */
  ghost predicate SentFrame(s: State, s': State, c: Cipher, token: Option<Token>) {
    |s'.sends| == |s.sends| + 1 && s'.sends[..|s.sends|] == s.sends && s'.sends[|s.sends|] == Send(c, token, true, None)
  }

  /** The peer's in-memory ratchet took one step, everyone else's none. */
  ghost predicate SteppedOnce(s: State, s': State, peer: Bytes) {
    forall p :: At(s'.ratchet, p) == At(s.ratchet, p) + (if p == peer then 1 else 0)
  }

  /** The peer's cursor is one further on the same chain; every other contact's chain is as it was. */
  ghost predicate SpentOne(s: State, s': State, peer: Bytes) {
    && s'.chains.Keys == s.chains.Keys && peer in s.chains
    && s'.chains[peer] == Chain(s.chains[peer].id, s.chains[peer].length, s.chains[peer].nextIndex + 1)
    && (forall p :: p in s.chains && p != peer ==> s'.chains[p] == s.chains[p])
  }

  /** Row `id` is `e`; every other row is as it was. */
  ghost predicate WroteRow(s: State, s': State, id: Bytes, e: Entry) {
    && id in s'.outbox && s'.outbox[id] == e
    && (forall x :: x != id ==> (x in s'.outbox <==> x in s.outbox))
    && (forall x :: x != id && x in s.outbox ==> s'.outbox[x] == s.outbox[x])
  }

  /** The next ciphertext for the peer. */
  ghost function Next(s: State, peer: Bytes, body: Bytes): Cipher { Cipher(peer, At(s.ratchet, peer), body) }

  ghost function Cursor(s: State, peer: Bytes): Token
    requires peer in s.chains
  {
    Token(s.chains[peer].id, s.chains[peer].nextIndex)
  }

  /** There is a chain and it has an index left. */
  ghost predicate HasToken(s: State, peer: Bytes) { Remaining(s, peer) > 0 }

  lemma MintIff(s: State, peer: Bytes)
    ensures CanMint(s, peer) <==> peer in s.chains && HasToken(s, peer)
    ensures CanMint(s, peer) ==> NextToken(s, peer) == Cursor(s, peer) && SpentOne(s, Mint(s, peer), peer)
  {
  }

  /** A rollback right after its mint leaves no trace. */
  lemma MintThenRollback(s: State, peer: Bytes)
    requires CanMint(s, peer)
    ensures Rollback(Mint(s, peer), peer, NextToken(s, peer).index) == s
  {
    assert s.chains[peer := s.chains[peer]] == s.chains;
  }

  // ----- text -----

  /** A text with a token that seals takes a step and a token and leaves a row with its bytes.  If the
      session is saved, the frame goes out when a relay is there and the row says so; if not, the row is
      failed and nothing goes out.  Without a token, or unsealed, nothing happens at all. */
  lemma TextOutcome(s: State, peer: Bytes, id: Bytes, body: Bytes, now: int, ttl: int, env: Env)
    ensures
      var s' := SendText(s, peer, id, body, now, ttl, env);
      if !CanMint(s, peer) || !env.encrypts then s' == s
      else
        var c, out := Next(s, peer, body), env.persists && env.relays > 0;
        && SteppedOnce(s, s', peer) && SpentOne(s, s', peer)
        && WroteRow(s, s', id, Entry(c, now, ttl, 0, if env.persists then None else Some(now), out, None))
        && s'.disk == (if env.persists then s'.ratchet else s.disk)
        && (if out then SentFrame(s, s', c, Some(Cursor(s, peer))) else s'.sends == s.sends)
        && s'.queued == s.queued
  {
    if CanMint(s, peer) { MintThenRollback(s, peer); }
  }

  // ----- attachments -----

  predicate Good(chunk: Chunk) { chunk.env.encrypts && chunk.env.persists }

  /** The frames of the first `k` chunks that a relay took, at consecutive steps under consecutive
      tokens. */
  ghost function FramesOf(peer: Bytes, step: nat, token: Token, chunks: seq<Chunk>, k: nat): seq<Send>
    requires k <= |chunks|
  {
    if k == 0 then []
    else
      var c := Cipher(peer, step + (k - 1), chunks[k - 1].body);
      var t := Token(token.chain, token.index + (k - 1));
      var frame := if chunks[k - 1].env.relays > 0 then [Send(c, Some(t), true, None)] else [];
      FramesOf(peer, step, token, chunks, k - 1) + frame
  }

  ghost function ChunkRow(peer: Bytes, step: nat, chunk: Chunk, now: int, ttl: int): Entry {
    Entry(Cipher(peer, step, chunk.body), now, ttl, 0, None, chunk.env.relays > 0, None)
  }

  ghost predicate HasRow(s: State, chunk: Chunk, peer: Bytes, step: nat, now: int, ttl: int) {
    chunk.id in s.outbox && s.outbox[chunk.id] == ChunkRow(peer, step, chunk, now, ttl)
  }

  ghost predicate IdsBefore(chunks: seq<Chunk>, k: nat, id: Bytes)
    requires k <= |chunks|
  {
    exists i :: 0 <= i < k && chunks[i].id == id
  }

  /** Ratchet and cursor are `k` further. */
  ghost predicate Moved(s: State, s': State, peer: Bytes, k: nat)
    requires peer in s.chains
  {
    && (forall p :: At(s'.ratchet, p) == At(s.ratchet, p) + (if p == peer then k else 0))
    && s'.chains == s.chains[peer := s.chains[peer].(nextIndex := s.chains[peer].nextIndex + k)]
  }

  /** The rows of the first `k` chunks are there, and every other row is as it was. */
  ghost predicate Rows(s: State, s': State, peer: Bytes, chunks: seq<Chunk>, k: nat, now: int, ttl: int)
    requires k <= |chunks|
  {
    && (forall i :: 0 <= i < k ==> HasRow(s', chunks[i], peer, At(s.ratchet, peer) + i, now, ttl))
    && (forall id :: !IdsBefore(chunks, k, id) ==> (id in s'.outbox <==> id in s.outbox))
    && (forall id :: !IdsBefore(chunks, k, id) && id in s.outbox ==> s'.outbox[id] == s.outbox[id])
  }

  /** `s'` is `s` with the first `k` chunks shipped. */
  ghost predicate Shipped(s: State, s': State, peer: Bytes, chunks: seq<Chunk>, k: nat, now: int, ttl: int)
    requires peer in s.chains && k <= |chunks|
  {
    && Moved(s, s', peer, k) && Rows(s, s', peer, chunks, k, now, ttl)
    && s'.sends == s.sends + FramesOf(peer, At(s.ratchet, peer), Cursor(s, peer), chunks, k)
  }

  lemma ChunkOutcome(s: State, peer: Bytes, chunk: Chunk, now: int, ttl: int)
    requires CanMint(s, peer) && Good(chunk)
    ensures
      var (s', more) := ShipChunk(s, peer, chunk, now, ttl);
      var c := Next(s, peer, chunk.body);
      && more && SteppedOnce(s, s', peer) && SpentOne(s, s', peer)
      && WroteRow(s, s', chunk.id, ChunkRow(peer, At(s.ratchet, peer), chunk, now, ttl))
      && s'.sends == s.sends + (if chunk.env.relays > 0 then [Send(c, Some(Cursor(s, peer)), true, None)] else [])
  {
  }

  lemma ShippedStep(s: State, mid: State, peer: Bytes, chunks: seq<Chunk>, k: nat, now: int, ttl: int)
    requires peer in s.chains && k < |chunks| && Shipped(s, mid, peer, chunks, k, now, ttl)
    requires CanMint(mid, peer) && Good(chunks[k]) && !IdsBefore(chunks, k, chunks[k].id)
    ensures Shipped(s, ShipChunk(mid, peer, chunks[k], now, ttl).0, peer, chunks, k + 1, now, ttl)
  {
    ChunkOutcome(mid, peer, chunks[k], now, ttl);
    var s' := ShipChunk(mid, peer, chunks[k], now, ttl).0;
    MovedStep(s, mid, s', peer, k);
    RowsStep(s, mid, s', peer, chunks, k, now, ttl);
    FramesStep(s, mid, s', peer, chunks, k);
  }

  lemma MovedStep(s: State, mid: State, s': State, peer: Bytes, k: nat)
    requires peer in s.chains && Moved(s, mid, peer, k) && SteppedOnce(mid, s', peer) && SpentOne(mid, s', peer)
    ensures Moved(s, s', peer, k + 1)
  {
    forall p ensures At(s'.ratchet, p) == At(s.ratchet, p) + (if p == peer then k + 1 else 0) {
      assert At(mid.ratchet, p) == At(s.ratchet, p) + (if p == peer then k else 0);
    }
    assert s'.chains == s.chains[peer := s.chains[peer].(nextIndex := s.chains[peer].nextIndex + (k + 1))];
  }

  lemma FramesStep(s: State, mid: State, s': State, peer: Bytes, chunks: seq<Chunk>, k: nat)
    requires peer in s.chains && peer in mid.chains && k < |chunks| && Moved(s, mid, peer, k)
    requires mid.sends == s.sends + FramesOf(peer, At(s.ratchet, peer), Cursor(s, peer), chunks, k)
    requires
      var frame := Send(Next(mid, peer, chunks[k].body), Some(Cursor(mid, peer)), true, None);
      s'.sends == mid.sends + (if chunks[k].env.relays > 0 then [frame] else [])
    ensures s'.sends == s.sends + FramesOf(peer, At(s.ratchet, peer), Cursor(s, peer), chunks, k + 1)
  {
    assert At(mid.ratchet, peer) == At(s.ratchet, peer) + k;
    assert Cursor(mid, peer) == Token(Cursor(s, peer).chain, Cursor(s, peer).index + k);
  }

  lemma IdsGrow(chunks: seq<Chunk>, k: nat, id: Bytes)
    requires k < |chunks|
    ensures IdsBefore(chunks, k + 1, id) <==> IdsBefore(chunks, k, id) || id == chunks[k].id
  {
    if IdsBefore(chunks, k, id) { var i :| 0 <= i < k && chunks[i].id == id; }
    if id == chunks[k].id { assert 0 <= k < k + 1; }
  }

  lemma RowsStep(s: State, mid: State, s': State, peer: Bytes, chunks: seq<Chunk>, k: nat, now: int, ttl: int)
    requires k < |chunks| && Rows(s, mid, peer, chunks, k, now, ttl) && !IdsBefore(chunks, k, chunks[k].id)
    requires At(mid.ratchet, peer) == At(s.ratchet, peer) + k
    requires WroteRow(mid, s', chunks[k].id, ChunkRow(peer, At(mid.ratchet, peer), chunks[k], now, ttl))
    ensures Rows(s, s', peer, chunks, k + 1, now, ttl)
  {
    forall id ensures IdsBefore(chunks, k + 1, id) <==> IdsBefore(chunks, k, id) || id == chunks[k].id {
      IdsGrow(chunks, k, id);
    }
    forall i | 0 <= i < k + 1 ensures HasRow(s', chunks[i], peer, At(s.ratchet, peer) + i, now, ttl) {
      assert i < k ==> IdsBefore(chunks, k, chunks[i].id);
      assert i < k ==> HasRow(mid, chunks[i], peer, At(s.ratchet, peer) + i, now, ttl);
    }
  }

  /** After good chunks the loop goes on from where they left it. */
  lemma {:induction false} ShipSplits(s: State, peer: Bytes, chunks: seq<Chunk>, k: nat, now: int, ttl: int)
    requires k <= |chunks| && Remaining(s, peer) >= k && (k > 0 ==> peer in s.chains)
    requires forall i :: 0 <= i < k ==> Good(chunks[i])
    ensures ShipChunks(s, peer, chunks, now, ttl)
         == ShipChunks(ShipChunks(s, peer, chunks[..k], now, ttl), peer, chunks[k..], now, ttl)
    decreases k
  {
    if k == 0 {
      assert chunks[..0] == [] && chunks[0..] == chunks;
    } else {
      ChunkOutcome(s, peer, chunks[0], now, ttl);
      var s' := ShipChunk(s, peer, chunks[0], now, ttl).0;
      ShipSplits(s', peer, chunks[1..], k - 1, now, ttl);
      assert chunks[..k][0] == chunks[0] && chunks[..k][1..] == chunks[1..][..k - 1];
      assert chunks[1..][k - 1..] == chunks[k..];
    }
  }

  ghost predicate DistinctIds(chunks: seq<Chunk>) {
    forall i, j :: 0 <= i < j < |chunks| ==> chunks[i].id != chunks[j].id
  }

  lemma {:induction false} GoodChunksShip(s: State, peer: Bytes, chunks: seq<Chunk>, k: nat, now: int, ttl: int)
    requires peer in s.chains && k <= |chunks| && Remaining(s, peer) >= k && DistinctIds(chunks)
    requires forall i :: 0 <= i < k ==> Good(chunks[i])
    ensures Shipped(s, ShipChunks(s, peer, chunks[..k], now, ttl), peer, chunks, k, now, ttl)
    decreases k
  {
    if k == 0 {
      assert s.chains[peer := s.chains[peer].(nextIndex := s.chains[peer].nextIndex + 0)] == s.chains;
    } else {
      GoodChunksShip(s, peer, chunks, k - 1, now, ttl);
      ShipOneMore(s, peer, chunks, k - 1, now, ttl);
      var mid := ShipChunks(s, peer, chunks[..k - 1], now, ttl);
      ShippedCanMint(s, mid, peer, chunks, k - 1, now, ttl);
      ShippedStep(s, mid, peer, chunks, k - 1, now, ttl);
    }
  }

  lemma ShippedCanMint(s: State, mid: State, peer: Bytes, chunks: seq<Chunk>, k: nat, now: int, ttl: int)
    requires peer in s.chains && k <= |chunks| && Shipped(s, mid, peer, chunks, k, now, ttl) && Remaining(s, peer) > k
    ensures CanMint(mid, peer)
  {
  }

  lemma ShipOneMore(s: State, peer: Bytes, chunks: seq<Chunk>, k: nat, now: int, ttl: int)
    requires peer in s.chains && k < |chunks| && Remaining(s, peer) >= k
    requires forall i :: 0 <= i < k ==> Good(chunks[i])
    ensures ShipChunks(s, peer, chunks[..k + 1], now, ttl)
         == ShipChunk(ShipChunks(s, peer, chunks[..k], now, ttl), peer, chunks[k], now, ttl).0
  {
    ShipSplits(s, peer, chunks[..k + 1], k, now, ttl);
    assert chunks[..k + 1][..k] == chunks[..k] && chunks[..k + 1][k..] == [chunks[k]];
    OneChunk(ShipChunks(s, peer, chunks[..k], now, ttl), peer, chunks[k], now, ttl);
  }

  lemma OneChunk(s: State, peer: Bytes, chunk: Chunk, now: int, ttl: int)
    ensures ShipChunks(s, peer, [chunk], now, ttl) == ShipChunk(s, peer, chunk, now, ttl).0
  {
    assert [chunk][1..] == [];
  }

  /** A chunk that does not ship: unsealed it leaves nothing, unsaved it leaves a failed row, a step and a
      spent token, and never a frame. */
  ghost predicate Failed(s: State, s': State, peer: Bytes, chunk: Chunk, now: int, ttl: int) {
    && s'.sends == s.sends && s'.disk == s.disk
    && (!chunk.env.encrypts ==> s' == s)
    && (chunk.env.encrypts ==>
          && SteppedOnce(s, s', peer) && SpentOne(s, s', peer)
          && WroteRow(s, s', chunk.id, Entry(Next(s, peer, chunk.body), now, ttl, 0, Some(now), false, None)))
  }

  lemma BadChunkOutcome(s: State, peer: Bytes, chunk: Chunk, now: int, ttl: int)
    requires CanMint(s, peer) && !Good(chunk)
    ensures
      var (s', more) := ShipChunk(s, peer, chunk, now, ttl);
      !more && Failed(s, s', peer, chunk, now, ttl)
  {
  }

  /** With tokens for all, every chunk before the first that fails has its row, its step, its token and,
      where a relay was ready, its frame, in order; the failing one stops the attachment, and no chunk
      after it leaves anything. */
  lemma AttachmentShips(s: State, peer: Bytes, chunks: seq<Chunk>, now: int, ttl: int, k: nat)
    requires peer in s.chains && Remaining(s, peer) >= |chunks| && DistinctIds(chunks) && k <= |chunks|
    requires forall i :: 0 <= i < k ==> Good(chunks[i])
    requires k < |chunks| ==> !Good(chunks[k])
    ensures
      var s' := ShipAttachment(s, peer, chunks, now, ttl);
      var mid := ShipChunks(s, peer, chunks[..k], now, ttl);
      && Shipped(s, mid, peer, chunks, k, now, ttl)
      && (k == |chunks| ==> s' == mid)
      && (k < |chunks| ==> Failed(mid, s', peer, chunks[k], now, ttl))
  {
    GoodChunksShip(s, peer, chunks, k, now, ttl);
    ShipSplits(s, peer, chunks, k, now, ttl);
    var mid := ShipChunks(s, peer, chunks[..k], now, ttl);
    if k < |chunks| {
      assert chunks[k..][0] == chunks[k];
      BadChunkOutcome(mid, peer, chunks[k], now, ttl);
    }
  }

  /** Without tokens for all of it an attachment does nothing. */
  lemma ShortChainShipsNothing(s: State, peer: Bytes, chunks: seq<Chunk>, now: int, ttl: int)
    requires Remaining(s, peer) < |chunks|
    ensures ShipAttachment(s, peer, chunks, now, ttl) == s
  {
  }

  // ----- frames without a row -----

  /** An ACK or receipt with a token that seals takes a step, saved if the write works; it goes out under
      the cursor's token when saved and relayed, and only then is the token spent. */
  lemma NoticeOutcome(s: State, peer: Bytes, body: Bytes, env: Env)
    ensures
      var s' := SendNotice(s, peer, body, env);
      if !CanMint(s, peer) || !env.encrypts then s' == s
      else
        && SteppedOnce(s, s', peer) && s'.disk == (if env.persists then s'.ratchet else s.disk)
        && s'.outbox == s.outbox && s'.queued == s.queued
        && (if env.persists && env.relays > 0
            then SentFrame(s, s', Next(s, peer, body), Some(Cursor(s, peer))) && SpentOne(s, s', peer)
            else s'.sends == s.sends && s'.chains == s.chains)
  {
    if CanMint(s, peer) {
      MintThenRollback(s, peer);
      assert s.chains[peer := s.chains[peer]] == s.chains;
    }
  }

  /** A refresh request is the same, but the token is spent whatever happens after the mint. */
  lemma RefreshOutcome(s: State, peer: Bytes, body: Bytes, env: Env)
    ensures
      var s' := RequestRefresh(s, peer, body, env);
      if !CanMint(s, peer) then s' == s
      else
        && SpentOne(s, s', peer) && s'.outbox == s.outbox && s'.queued == s.queued
        && (if env.encrypts then SteppedOnce(s, s', peer) else s'.ratchet == s.ratchet)
        && s'.disk == (if env.encrypts && env.persists then s'.ratchet else s.disk)
        && (if env.encrypts && env.persists && env.relays > 0
            then SentFrame(s, s', Next(s, peer, body), Some(Cursor(s, peer))) else s'.sends == s.sends)
  {
  }

  /** A chain seed goes out without a token. */
  lemma SeedOutcome(s: State, peer: Bytes, body: Bytes, env: Env)
    ensures
      var s' := DeliverSeed(s, peer, body, env);
      && s'.chains == s.chains && s'.outbox == s.outbox && s'.queued == s.queued
      && (if env.encrypts then SteppedOnce(s, s', peer) else s'.ratchet == s.ratchet)
      && s'.disk == (if env.encrypts && env.persists then s'.ratchet else s.disk)
      && (if env.encrypts && env.persists && env.relays > 0
          then SentFrame(s, s', Next(s, peer, body), None) else s'.sends == s.sends)
  {
  }

  // ----- retries -----

  /** The tenth retry is the last; the first may come after thirty seconds, the one after `k` retries
      after `k` minutes; settled rows get none. */
  lemma RetryDue(e: Entry, now: int)
    ensures e.ShouldRetry(now) <==>
      && e.deliveredAt == None && e.failedAt == None && !e.relayed && e.retries < 10
      && now - e.sentAt > 30 && now - e.sentAt > 60 * e.retries
  {
  }

  /** A user's retry resends the stored bytes, unchanged and unsealed again, under the cursor's token. */
  lemma UserRetryOutcome(s: State, id: Bytes, relays: nat)
    ensures
      var s' := UserRetry(s, id, relays);
      if id !in s.outbox || !s.outbox[id].Pending() || !CanMint(s, s.outbox[id].cipher.peer) then s' == s
      else
        var e := s.outbox[id];
        && s'.ratchet == s.ratchet && s'.disk == s.disk && s'.queued == s.queued && SpentOne(s, s', e.cipher.peer)
        && WroteRow(s, s', id, e.(retries := e.retries + 1, relayed := relays > 0))
        && (if relays > 0 then SentFrame(s, s', e.cipher, Some(Cursor(s, e.cipher.peer))) else s'.sends == s.sends)
  {
  }

  /** An entry of the walk that is due resends its bytes if a relay is ready, and else is left alone. */
  lemma WalkEntryOutcome(s: State, id: Bytes, now: int, relays: nat)
    ensures
      var s' := WalkEntry(s, id, now, relays);
      if id !in s.outbox || !s.outbox[id].ShouldRetry(now) || !CanMint(s, s.outbox[id].cipher.peer) || relays == 0
      then s' == s
      else
        var e := s.outbox[id];
        && s'.ratchet == s.ratchet && s'.disk == s.disk && s'.queued == s.queued && SpentOne(s, s', e.cipher.peer)
        && WroteRow(s, s', id, e.(retries := e.retries + 1))
        && SentFrame(s, s', e.cipher, Some(Cursor(s, e.cipher.peer)))
  {
    if id in s.outbox && CanMint(s, s.outbox[id].cipher.peer) { MintThenRollback(s, s.outbox[id].cipher.peer); }
  }

  ghost predicate DistinctOrder(order: seq<(Bytes, nat)>) {
    forall i, j :: 0 <= i < j < |order| ==> order[i].0 != order[j].0
  }

  ghost predicate Listed(order: seq<(Bytes, nat)>, id: Bytes) { exists i :: 0 <= i < |order| && order[i].0 == id }

  /** What the walk has done to one row. */
  ghost predicate Treated(s: State, s': State, id: Bytes, now: int, relays: nat) {
    && id in s.outbox && id in s'.outbox
    && (if s.outbox[id].ShouldRetry(now) && relays > 0
        then s'.outbox[id] == s.outbox[id].(retries := s.outbox[id].retries + 1) && OnWire(s', s.outbox[id].cipher)
        else s'.outbox[id] == s.outbox[id])
  }

  lemma WalkEntryKeeps(s: State, id: Bytes, now: int, relays: nat)
    ensures
      var s' := WalkEntry(s, id, now, relays);
      && s'.outbox.Keys == s.outbox.Keys && (forall x :: x in s.outbox && x != id ==> s'.outbox[x] == s.outbox[x])
      && (forall p :: Remaining(s', p) >= Remaining(s, p) - 1) && s'.chains.Keys == s.chains.Keys
      && (forall c :: OnWire(s, c) ==> OnWire(s', c))
  {
    WalkEntryOutcome(s, id, now, relays);
    var s' := WalkEntry(s, id, now, relays);
    forall c | OnWire(s, c) ensures OnWire(s', c) {
      var i :| 0 <= i < |s.sends| && s.sends[i].onWire && s.sends[i].cipher == c;
      assert s'.sends[i] == s'.sends[..|s.sends|][i];
    }
  }

  /** The walk so far: every row of `order` treated, every other row as it was, at most a token each. */
  ghost predicate WalkedOver(s: State, s': State, order: seq<(Bytes, nat)>, now: int) {
    && s'.outbox.Keys == s.outbox.Keys && s'.chains.Keys == s.chains.Keys
    && (forall i :: 0 <= i < |order| ==> Treated(s, s', order[i].0, now, order[i].1))
    && (forall id :: id in s.outbox && !Listed(order, id) ==> s'.outbox[id] == s.outbox[id])
    && (forall p :: Remaining(s', p) >= Remaining(s, p) - |order|)
  }

  /** The contact of every row has tokens for the whole walk. */
  ghost predicate Stocked(s: State, order: seq<(Bytes, nat)>, n: nat) {
    forall i :: 0 <= i < |order| ==>
      && order[i].0 in s.outbox && s.outbox[order[i].0].cipher.peer in s.chains
      && Remaining(s, s.outbox[order[i].0].cipher.peer) >= n
  }

  /** A row treated stays treated while others have their turn. */
  lemma StaysTreated(s: State, mid: State, s': State, id: Bytes, now: int, relays: nat)
    requires Treated(s, mid, id, now, relays) && id in s'.outbox && s'.outbox[id] == mid.outbox[id]
    requires forall c :: OnWire(mid, c) ==> OnWire(s', c)
    ensures Treated(s, s', id, now, relays)
  {
  }

  lemma WalkOneMore(s: State, mid: State, front: seq<(Bytes, nat)>, id: Bytes, now: int, relays: nat)
    requires WalkedOver(s, mid, front, now) && id in s.outbox && !Listed(front, id)
    requires s.outbox[id].cipher.peer in s.chains && Remaining(s, s.outbox[id].cipher.peer) > |front|
    ensures WalkedOver(s, WalkEntry(mid, id, now, relays), front + [(id, relays)], now)
  {
    var s', order := WalkEntry(mid, id, now, relays), front + [(id, relays)];
    WalkEntryKeeps(mid, id, now, relays);
    WalkTurn(s, mid, id, now, relays);
    forall i | 0 <= i < |order| ensures Treated(s, s', order[i].0, now, order[i].1) {
      if i < |front| {
        assert Listed(front, front[i].0) && order[i] == front[i];
        StaysTreated(s, mid, s', front[i].0, now, front[i].1);
      }
    }
    forall x | x in s.outbox && !Listed(order, x) ensures s'.outbox[x] == s.outbox[x] {
      NotListed(front, id, relays, x);
    }
    forall p ensures Remaining(s', p) >= Remaining(s, p) - |order| {
      assert Remaining(mid, p) >= Remaining(s, p) - |front|;
    }
  }

  lemma NotListed(front: seq<(Bytes, nat)>, id: Bytes, relays: nat, x: Bytes)
    requires !Listed(front + [(id, relays)], x)
    ensures !Listed(front, x) && x != id
  {
    var order := front + [(id, relays)];
    assert order[|front|].0 == id;
    assert forall i :: 0 <= i < |front| ==> order[i] == front[i];
  }

  /** Every row of the walk, each once, is resent if it is due, its contact has tokens for the whole walk
      and a relay is ready in its turn; every other row is left as it was. */
  lemma {:induction false} WalkTreatsEach(s: State, order: seq<(Bytes, nat)>, now: int)
    requires DistinctOrder(order) && Stocked(s, order, |order|)
    ensures WalkedOver(s, Walk(s, order, now), order, now)
    decreases |order|
  {
    if order != [] {
      var front, last := order[..|order| - 1], order[|order| - 1];
      FrontOf(s, order);
      WalkTreatsEach(s, front, now);
      WalkOneMore(s, Walk(s, front, now), front, last.0, now, last.1);
    }
  }

  lemma FrontOf(s: State, order: seq<(Bytes, nat)>)
    requires order != [] && DistinctOrder(order) && Stocked(s, order, |order|)
    ensures
      var front, last := order[..|order| - 1], order[|order| - 1];
      && DistinctOrder(front) && Stocked(s, front, |front|) && !Listed(front, last.0) && front + [last] == order
      && last.0 in s.outbox && s.outbox[last.0].cipher.peer in s.chains
      && Remaining(s, s.outbox[last.0].cipher.peer) > |front|
  {
    var n := |order| - 1;
    assert forall i :: 0 <= i < n ==> order[..n][i] == order[i];
    assert order[n].0 in s.outbox;
  }

  lemma WalkTurn(s: State, mid: State, id: Bytes, now: int, relays: nat)
    requires id in s.outbox && id in mid.outbox && mid.outbox[id] == s.outbox[id]
    requires s.outbox[id].cipher.peer in mid.chains && Remaining(mid, s.outbox[id].cipher.peer) > 0
    ensures Treated(s, WalkEntry(mid, id, now, relays), id, now, relays)
  {
    WalkEntryOutcome(mid, id, now, relays);
    var s' := WalkEntry(mid, id, now, relays);
    if s.outbox[id].ShouldRetry(now) && relays > 0 {
      var c := s.outbox[id].cipher;
      assert s'.sends[|mid.sends|] == Send(c, Some(Cursor(mid, c.peer)), true, None);
    }
  }

  /** A row fails at `now` exactly if it is neither delivered nor failed and older than its time to live;
      nothing else about it changes. */
  lemma ExpireMeaning(s: State, now: int, id: Bytes)
    ensures id in Expire(s, now).outbox <==> id in s.outbox
    ensures id in s.outbox ==>
      var e, e' := s.outbox[id], Expire(s, now).outbox[id];
      if e.deliveredAt == None && e.failedAt == None && now - e.sentAt > e.ttl
      then e' == e.(failedAt := Some(now)) else e' == e
    ensures Expire(s, now) == s.(outbox := Expire(s, now).outbox)
  {
  }

  /** A row is dropped exactly when it was delivered, or else failed, more than a day before. */
  lemma CollectMeaning(s: State, now: int, id: Bytes)
    ensures
      var kept := Collect(s, now).outbox;
      && (id in kept ==> id in s.outbox && kept[id] == s.outbox[id])
      && (id in s.outbox && id !in kept <==>
            && id in s.outbox
            && var e := s.outbox[id];
            || (e.deliveredAt.Some? && now - e.deliveredAt.value > 86400)
            || (e.deliveredAt == None && e.failedAt.Some? && now - e.failedAt.value > 86400))
    ensures Collect(s, now) == s.(outbox := Collect(s, now).outbox)
  {
  }

  /** A retry walk while disconnected only settles rows. */
  lemma OfflineWalk(s: State, order: seq<(Bytes, nat)>, now: int)
    ensures RetryWalk(s, order, now, false) == Collect(Expire(s, now), now)
    ensures RetryWalk(s, order, now, true) == Collect(Walk(Expire(s, now), order, now), now)
  {
  }

  /** An ACK marks the row delivered exactly if it comes from the row's recipient. */
  lemma AckOutcome(s: State, id: Bytes, sender: Bytes, now: int)
    ensures
      var s' := AckArrives(s, id, sender, now);
      && s' == s.(outbox := s'.outbox)
      && (if id in s.outbox && s.outbox[id].cipher.peer == sender
          then WroteRow(s, s', id, s.outbox[id].(deliveredAt := Some(now))) else s' == s)
  {
  }

  // ----- groups -----

  /** A group control frame: token and step are taken, and the frame goes out if a relay is ready; the
      disk is not asked. */
  lemma GroupControlOutcome(s: State, peer: Bytes, body: Bytes, env: Env)
    ensures
      var s' := SendGroupControl(s, peer, body, env);
      if !CanMint(s, peer) then s' == s
      else
        && SpentOne(s, s', peer) && s'.disk == s.disk && s'.outbox == s.outbox && s'.queued == s.queued
        && (if env.encrypts then SteppedOnce(s, s', peer) else s'.ratchet == s.ratchet)
        && (if env.encrypts && env.relays > 0
            then SentFrame(s, s', Next(s, peer, body), Some(Cursor(s, peer))) else s'.sends == s.sends)
  {
  }

  /** A group leg is sealed, stored and queued under its token, and is not on the wire yet. */
  lemma GroupLegOutcome(s: State, peer: Bytes, id: Bytes, body: Bytes, now: int, ttl: int, encrypts: bool)
    ensures
      var s' := QueueGroupLeg(s, peer, id, body, now, ttl, encrypts);
      if !CanMint(s, peer) then s' == s
      else if !encrypts then SpentOne(s, s', peer) && s' == s.(chains := s'.chains)
      else
        var c := Next(s, peer, body);
        && SpentOne(s, s', peer) && SteppedOnce(s, s', peer) && s'.disk == s.disk
        && WroteRow(s, s', id, Entry(c, now, ttl, 0, None, false, None))
        && s'.sends == s.sends + [Send(c, Some(Cursor(s, peer)), false, Some(id))]
        && s'.queued == s.queued + {|s.sends|}
  {
  }

  /** A queued leg makes one attempt, which is on the wire if a relay is ready. */
  lemma FireOutcome(s: State, i: nat, relays: nat)
    requires i in s.queued && i < |s.sends|
    ensures
      var s' := FireLeg(s, i, relays);
      && s'.queued == s.queued - {i} && s'.chains == s.chains && s'.ratchet == s.ratchet && s'.disk == s.disk
      && |s'.sends| == |s.sends| && s'.sends[i] == s.sends[i].(onWire := s.sends[i].onWire || relays > 0)
      && (forall j :: 0 <= j < |s.sends| && j != i ==> s'.sends[j] == s.sends[j])
  {
  }

  /** The attempt marks the leg's row exactly when a relay took it and the row is still there. */
  lemma FireMarksRow(s: State, i: nat, relays: nat)
    requires i in s.queued && i < |s.sends|
    ensures
      var s' := FireLeg(s, i, relays);
      if relays > 0 && s.sends[i].row.Some? && s.sends[i].row.value in s.outbox
      then WroteRow(s, s', s.sends[i].row.value, s.outbox[s.sends[i].row.value].(relayed := true))
      else s'.outbox == s.outbox
  {
  }

  // ----- chains, disk and restart -----

  /** An installed chain starts at its first index; a dropped one is gone; no other contact notices. */
  lemma ChainOutcome(s: State, peer: Bytes, id: Bytes, length: nat)
    ensures
      var installed, dropped := InstallChain(s, peer, id, length), DropChain(s, peer);
      && peer in installed.chains && installed.chains[peer] == Chain(id, length, 1) && peer !in dropped.chains
      && (forall p :: p != peer ==> (p in installed.chains <==> p in s.chains))
      && (forall p :: p != peer ==> (p in dropped.chains <==> p in s.chains))
      && (forall p :: p != peer && p in s.chains ==>
            installed.chains[p] == s.chains[p] && dropped.chains[p] == s.chains[p])
      && installed == s.(chains := installed.chains) && dropped == s.(chains := dropped.chains)
  {
  }

  /** A restart reads the ratchet back, forgets queued legs, and keeps chains, rows and history; a session
      write that works is read back whole. */
  lemma RestartOutcome(s: State, peer: Bytes)
    ensures
      var s' := Restart(s);
      && At(s'.ratchet, peer) == At(s.disk, peer) && s'.queued == {}
      && s'.chains == s.chains && s'.outbox == s.outbox && s'.sends == s.sends && s'.disk == s.disk
    ensures At(Restart(Save(s, true)).ratchet, peer) == At(s.ratchet, peer)
    ensures Save(s, false) == s && Save(s, true) == s.(disk := s.ratchet)
  {
  }
}
