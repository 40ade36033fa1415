/** The outbound pipeline of `ChatStore`: hash-chain cursors, the in-memory and on-disk ratchet,
    the outbox, and every operation that mints a token or puts a sealed frame on the wire. */
module Outbound {
  import opened Wire

  const MAX_RETRIES := 10
  const POST_MORTEM := 24 * 60 * 60

  /** A contact's outbound token chain; `nextIndex` counts from 1. */
  datatype Chain = Chain(id: Bytes, length: nat, nextIndex: nat)
  datatype Token = Token(chain: Bytes, index: nat)

  /** A sealed envelope: whom it is for, the ratchet step that keyed it, and what it carries. */
  datatype Cipher = Cipher(peer: Bytes, step: nat, body: Bytes)

  datatype Entry = Entry(
    cipher: Cipher, sentAt: int, ttl: int, retries: nat,
    failedAt: Option<int>, relayed: bool, deliveredAt: Option<int>)
  {
    predicate Failed() { failedAt.Some? }
    predicate Delivered() { deliveredAt.Some? }

    /** A retry may still put it on the wire. */
    predicate Pending() { !Delivered() && !Failed() && !relayed }

    predicate ShouldRetry(now: int) {
      && Pending() && retries < MAX_RETRIES
      && now - sentAt > (if retries * 60 > 30 then retries * 60 else 30)
    }
    predicate HasExpired(now: int) { !Delivered() && !Failed() && now - sentAt > ttl }

    /** Delivered, or else failed, longer ago than the post-mortem window. */
    predicate Stale(now: int) {
      var settled := if Delivered() then deliveredAt else failedAt;
      settled.Some? && now - settled.value > POST_MORTEM
    }
  }

  function NewRow(c: Cipher, now: int, ttl: int): Entry { Entry(c, now, ttl, 0, None, false, None) }

  /** One broadcast.  A group leg is recorded when it is sealed, with its outbox row; it is `queued`
      until its one attempt to go on the wire. */
  datatype Send = Send(cipher: Cipher, token: Option<Token>, onWire: bool, row: Option<Bytes>)

  /** Outcomes the device does not control: sealing, the session write, how many relays took it. */
  datatype Env = Env(encrypts: bool, persists: bool, relays: nat)

  datatype State = State(
    chains: map<Bytes, Chain>,
    ratchet: map<Bytes, nat>, disk: map<Bytes, nat>,
    outbox: map<Bytes, Entry>, sends: seq<Send>, queued: set<nat>)

  function At(steps: map<Bytes, nat>, peer: Bytes): nat { if peer in steps then steps[peer] else 0 }

  // ----- primitives -----

  predicate CanMint(s: State, peer: Bytes) { peer in s.chains && s.chains[peer].nextIndex <= s.chains[peer].length }

  function NextToken(s: State, peer: Bytes): Token requires CanMint(s, peer) {
    Token(s.chains[peer].id, s.chains[peer].nextIndex)
  }

  function Mint(s: State, peer: Bytes): State requires CanMint(s, peer) {
    s.(chains := s.chains[peer := s.chains[peer].(nextIndex := s.chains[peer].nextIndex + 1)])
  }

  /** Only undoes the latest mint; a no-op once the cursor has moved on. */
  function Rollback(s: State, peer: Bytes, minted: nat): State {
    if peer in s.chains && s.chains[peer].nextIndex == minted + 1
    then s.(chains := s.chains[peer := s.chains[peer].(nextIndex := minted)])
    else s
  }

  function Sealed(s: State, peer: Bytes, body: Bytes): Cipher { Cipher(peer, At(s.ratchet, peer), body) }
  function Encrypt(s: State, peer: Bytes): State { s.(ratchet := s.ratchet[peer := At(s.ratchet, peer) + 1]) }
  function Persist(s: State): State { s.(disk := s.ratchet) }
  function PutRow(s: State, id: Bytes, e: Entry): State { s.(outbox := s.outbox[id := e]) }

  function Emit(s: State, c: Cipher, token: Option<Token>, relays: nat): State {
    if relays == 0 then s else s.(sends := s.sends + [Send(c, token, true, None)])
  }

  // ----- operations -----

  /** `send` and `sendV2`. */
  function SendText(s: State, peer: Bytes, id: Bytes, body: Bytes, now: int, ttl: int, env: Env): State {
    if !CanMint(s, peer) then s
    else
      var token := NextToken(s, peer);
      var minted := Mint(s, peer);
      if !env.encrypts then Rollback(minted, peer, token.index)
      else SealAndShip(minted, peer, id, body, now, ttl, token, env)
  }

  /** Seal, write the row, persist the session, and only then broadcast. */
  function SealAndShip(s: State, peer: Bytes, id: Bytes, body: Bytes, now: int, ttl: int, token: Token, env: Env)
    : State
  {
    var c := Sealed(s, peer, body);
    var row := NewRow(c, now, ttl);
    var sealed := PutRow(Encrypt(s, peer), id, row);
    if !env.persists then PutRow(sealed, id, row.(failedAt := Some(now)))
    else PutRow(Emit(Persist(sealed), c, Some(token), env.relays), id, row.(relayed := env.relays > 0))
  }

  datatype Chunk = Chunk(id: Bytes, body: Bytes, env: Env)

  function Remaining(s: State, peer: Bytes): int {
    if peer in s.chains then s.chains[peer].length - (s.chains[peer].nextIndex - 1) else 0
  }

  /** One chunk, sealed before its token is minted; the flag says whether to go on. */
  function ShipChunk(s: State, peer: Bytes, chunk: Chunk, now: int, ttl: int): (State, bool) {
    if !chunk.env.encrypts then (s, false)
    else if !CanMint(s, peer) then (Encrypt(s, peer), false)
    else
      var s' := SealAndShip(Mint(s, peer), peer, chunk.id, chunk.body, now, ttl, NextToken(s, peer), chunk.env);
      (s', chunk.env.persists)
  }

  function ShipChunks(s: State, peer: Bytes, chunks: seq<Chunk>, now: int, ttl: int): State
    decreases |chunks|
  {
    if chunks == [] then s
    else
      var (s', more) := ShipChunk(s, peer, chunks[0], now, ttl);
      if more then ShipChunks(s', peer, chunks[1..], now, ttl) else s'
  }

  /** `shipPreparedAttachment`. */
  function ShipAttachment(s: State, peer: Bytes, chunks: seq<Chunk>, now: int, ttl: int): State {
    if Remaining(s, peer) < |chunks| then s else ShipChunks(s, peer, chunks, now, ttl)
  }

  /** `emitAck` and `emitReadReceipt`: whatever stops the frame gives the index back. */
  function SendNotice(s: State, peer: Bytes, body: Bytes, env: Env): State {
    if !CanMint(s, peer) then s
    else
      var token := NextToken(s, peer);
      var minted := Mint(s, peer);
      if !env.encrypts then Rollback(minted, peer, token.index)
      else
        var c := Sealed(minted, peer, body);
        var sealed := Encrypt(minted, peer);
        if !env.persists then Rollback(sealed, peer, token.index)
        else
          var sent := Emit(Persist(sealed), c, Some(token), env.relays);
          if env.relays == 0 then Rollback(sent, peer, token.index) else sent
  }

  /** `sendChainRefreshRequest`: no failure gives the index back. */
  function RequestRefresh(s: State, peer: Bytes, body: Bytes, env: Env): State {
    if !CanMint(s, peer) then s
    else
      var token := NextToken(s, peer);
      var minted := Mint(s, peer);
      if !env.encrypts then minted
      else
        var sealed := Encrypt(minted, peer);
        if !env.persists then sealed
        else Emit(Persist(sealed), Sealed(minted, peer, body), Some(token), env.relays)
  }

  /** `sendChainSeedDelivery`: a frame without a token. */
  function DeliverSeed(s: State, peer: Bytes, body: Bytes, env: Env): State {
    if !env.encrypts then s
    else
      var sealed := Encrypt(s, peer);
      if !env.persists then sealed else Emit(Persist(sealed), Sealed(s, peer, body), None, env.relays)
  }

  /** `userRetry`: the stored envelope again, under a fresh token. */
  function UserRetry(s: State, id: Bytes, relays: nat): State {
    if id !in s.outbox then s
    else
      var e := s.outbox[id];
      if !e.Pending() || !CanMint(s, e.cipher.peer) then s
      else
        var sent := Emit(Mint(s, e.cipher.peer), e.cipher, Some(NextToken(s, e.cipher.peer)), relays);
        PutRow(sent, id, e.(retries := e.retries + 1, relayed := e.relayed || relays > 0))
  }

  function Expire(s: State, now: int): State {
    s.(outbox := map id | id in s.outbox ::
      if s.outbox[id].HasExpired(now) then s.outbox[id].(failedAt := Some(now)) else s.outbox[id])
  }

  /** One entry of the retry walk; a walk that reaches no relay gives the index back. */
  function WalkEntry(s: State, id: Bytes, now: int, relays: nat): State {
    if id !in s.outbox || !s.outbox[id].ShouldRetry(now) || !CanMint(s, s.outbox[id].cipher.peer) then s
    else
      var e := s.outbox[id];
      var token := NextToken(s, e.cipher.peer);
      var sent := Emit(Mint(s, e.cipher.peer), e.cipher, Some(token), relays);
      if relays == 0 then Rollback(sent, e.cipher.peer, token.index)
      else PutRow(sent, id, e.(retries := e.retries + 1))
  }

  function Walk(s: State, order: seq<(Bytes, nat)>, now: int): State {
    if order == [] then s
    else WalkEntry(Walk(s, order[..|order| - 1], now), order[|order| - 1].0, now, order[|order| - 1].1)
  }

  /** Drop the rows settled longer ago than the post-mortem window. */
  function Collect(s: State, now: int): State {
    s.(outbox := map id | id in s.outbox && !s.outbox[id].Stale(now) :: s.outbox[id])
  }

  /** `runRetryWalk`: expire, retry in the given order, drop old settled rows. */
  function RetryWalk(s: State, order: seq<(Bytes, nat)>, now: int, connected: bool): State {
    Collect(Walked(s, order, now, connected), now)
  }

  function Walked(s: State, order: seq<(Bytes, nat)>, now: int, connected: bool): State {
    if connected then Walk(Expire(s, now), order, now) else Expire(s, now)
  }

  function AckArrives(s: State, id: Bytes, sender: Bytes, now: int): State {
    if id in s.outbox && s.outbox[id].cipher.peer == sender
    then PutRow(s, id, s.outbox[id].(deliveredAt := Some(now))) else s
  }

  /** A group control message (operation, key, bootstrap): sealed under a fresh token and sent
      without waiting for the session to reach the disk. */
  function SendGroupControl(s: State, peer: Bytes, body: Bytes, env: Env): State {
    if !CanMint(s, peer) then s
    else
      var minted := Mint(s, peer);
      if !env.encrypts then minted
      else Emit(Encrypt(minted, peer), Sealed(minted, peer, body), Some(NextToken(s, peer)), env.relays)
  }

  /** One leg of a group message: sealed and stored now, on the wire after its jitter. */
  function QueueGroupLeg(s: State, peer: Bytes, id: Bytes, body: Bytes, now: int, ttl: int, encrypts: bool): State {
    if !CanMint(s, peer) then s
    else
      var minted := Mint(s, peer);
      if !encrypts then minted
      else
        var c := Sealed(minted, peer, body);
        var kept := PutRow(Encrypt(minted, peer), id, NewRow(c, now, ttl));
        kept.(sends := kept.sends + [Send(c, Some(NextToken(s, peer)), false, Some(id))],
              queued := kept.queued + {|kept.sends|})
  }

  /** A queued leg's one attempt, after its jitter. */
  function FireLeg(s: State, i: nat, relays: nat): State {
    if i !in s.queued || i >= |s.sends| then s
    else
      var ended := s.(queued := s.queued - {i});
      if relays == 0 then ended
      else
        var fired := ended.(sends := s.sends[i := s.sends[i].(onWire := true)]);
        match s.sends[i].row
        case Some(id) => if id in s.outbox then PutRow(fired, id, s.outbox[id].(relayed := true)) else fired
        case None => fired
  }

  function InstallChain(s: State, peer: Bytes, id: Bytes, length: nat): State {
    s.(chains := s.chains[peer := Chain(id, length, 1)])
  }

  function DropChain(s: State, peer: Bytes): State { s.(chains := s.chains - {peer}) }

  /** A session write outside any send. */
  function Save(s: State, persists: bool): State { if persists then Persist(s) else s }

  /** The ratchet comes back from disk, and the legs queued in memory are gone. */
  function Restart(s: State): State { s.(ratchet := s.disk, queued := {}) }

  // ----- the wire -----

  ghost predicate OnWire(s: State, c: Cipher) {
    exists i :: 0 <= i < |s.sends| && s.sends[i].onWire && s.sends[i].cipher == c
  }
}
