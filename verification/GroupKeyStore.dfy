/** The group handlers of `ChatStore` on mutable state: each does exactly its step of `GroupKeys`
    and keeps the safety invariant. */
module GroupKeyStore {
  import opened Wire
  import opened GroupKeys
  import GroupKeySafety

  /** The key to one peer. */
  function SealOne(s: State, g: Group, dist: nat, peer: Bytes, env: Env): State {
    if peer !in env.Seals() then Put(s, g)
    else
      s.(group := Some(g.(recipients := g.recipients + {peer})),
         sealedTo := s.sealedTo[dist := Of(s.sealedTo, dist) + {peer}],
         wire := if env.up then s.wire[dist := Of(s.wire, dist) + {peer}] else s.wire)
  }

  lemma BroadcastNobody(s: State, g: Group, dist: nat, env: Env)
    ensures Broadcast(s, g, dist, {}, env) ==
      s.(group := Some(g), sealedTo := s.sealedTo[dist := Of(s.sealedTo, dist)],
         wire := if env.up then s.wire[dist := Of(s.wire, dist)] else s.wire)
  {
    assert {} * env.Seals() == {};
    assert g.recipients + {} == g.recipients && g.(recipients := g.recipients + {}) == g;
    assert Of(s.sealedTo, dist) + {} == Of(s.sealedTo, dist) && Of(s.wire, dist) + {} == Of(s.wire, dist);
  }

  lemma BroadcastOneMore(s: State, g: Group, dist: nat, done: set<Bytes>, peer: Bytes, env: Env)
    ensures
      var s' := Broadcast(s, g, dist, done, env);
      SealOne(s', s'.group.value, dist, peer, env) == Broadcast(s, g, dist, done + {peer}, env)
  {
    var sealed := done * env.Seals();
    if peer in env.Seals() {
      assert (done + {peer}) * env.Seals() == sealed + {peer};
      AddTwice(s.sealedTo, dist, sealed, peer);
      AddTwice(s.wire, dist, sealed, peer);
      assert (g.recipients + sealed) + {peer} == g.recipients + (sealed + {peer});
    } else {
      assert (done + {peer}) * env.Seals() == sealed;
    }
  }

  lemma AddTwice(sent: map<nat, set<Bytes>>, dist: nat, sealed: set<Bytes>, peer: Bytes)
    ensures
      var once := sent[dist := Of(sent, dist) + sealed];
      once[dist := Of(once, dist) + {peer}] == sent[dist := Of(sent, dist) + (sealed + {peer})]
  {
    assert (Of(sent, dist) + sealed) + {peer} == Of(sent, dist) + (sealed + {peer});
  }

  ghost predicate SentTo(s': State, s: State, g: Group, dist: nat, done: set<Bytes>, env: Env) {
    s'.group.Some? && s' == Broadcast(s, g, dist, done, env)
  }

  lemma SentToOneMore(mid: State, s': State, s: State, g: Group, dist: nat, done: set<Bytes>, peer: Bytes, env: Env)
    requires SentTo(mid, s, g, dist, done, env) && s' == SealOne(mid, mid.group.value, dist, peer, env)
    ensures SentTo(s', s, g, dist, done + {peer}, env)
  {
    BroadcastOneMore(s, g, dist, done, peer, env);
  }

  class GroupStore {
    const me: Bytes
    var group: Option<Group>
    ghost var sealedTo: map<nat, set<Bytes>>
    ghost var wire: map<nat, set<Bytes>>
    ghost var drawn: set<nat>

    ghost function Image(): State
      reads this
    {
      State(me, group, sealedTo, wire, drawn)
    }

    constructor (me: Bytes)
      ensures Image() == State(me, None, map[], map[], {})
      ensures GroupKeySafety.Base(Image()) && GroupKeySafety.Inv(Image())
    {
      this.me, group, sealedTo, wire, drawn := me, None, map[], map[], {};
    }

    // ----- broadcasts -----

    /** `broadcastSenderKeyDistribution` for one peer. */
    method SealKeyFor(dist: nat, peer: Bytes, env: Env)
      requires group.Some?
      modifies this`group, this`sealedTo, this`wire
      ensures group.Some? && Image() == SealOne(old(Image()), old(group.value), dist, peer, env)
    {
      if peer !in env.Seals() { return; }
      group := Some(group.value.(recipients := group.value.recipients + {peer}));
      sealedTo := sealedTo[dist := Of(sealedTo, dist) + {peer}];
      if env.up { wire := wire[dist := Of(wire, dist) + {peer}]; }
    }

    method BroadcastKey(dist: nat, targets: set<Bytes>, env: Env)
      requires group.Some?
      modifies this`group, this`sealedTo, this`wire
      ensures Image() == Broadcast(old(Image()), old(group.value), dist, targets, env)
    {
      ghost var start, g := Image(), group.value;
      OpenLedger(dist, env);
      var todo := targets;
      ghost var done: set<Bytes> := {};
      while todo != {}
        invariant done + todo == targets
        invariant SentTo(Image(), start, g, dist, done, env)
        decreases todo
      {
        var peer :| peer in todo;
        ghost var mid := Image();
        SealKeyFor(dist, peer, env);
        SentToOneMore(mid, Image(), start, g, dist, done, peer, env);
        todo, done := todo - {peer}, done + {peer};
      }
      assert done == targets;
    }

    /** An empty entry for the chain, so that the ledger has one for every chain broadcast. */
    ghost method OpenLedger(dist: nat, env: Env)
      requires group.Some?
      modifies this`sealedTo, this`wire
      ensures SentTo(Image(), old(Image()), old(group.value), dist, {}, env)
    {
      BroadcastNobody(Image(), group.value, dist, env);
      sealedTo := sealedTo[dist := Of(sealedTo, dist)];
      if env.up { wire := wire[dist := Of(wire, dist)]; }
    }

    method EnsureKeyReachesMembers(env: Env)
      requires group.Some?
      modifies this`group, this`sealedTo, this`wire
      ensures Image() == Ensure(old(Image()), old(group.value), env)
    {
      var g := group.value;
      if g.dist.None? { return; }
      BroadcastKey(g.dist.value, Active(g) - {me} - g.recipients, env);
    }

    method RotateOwnChain(env: Env)
      requires group.Some?
      modifies this`group, this`sealedTo, this`wire
      ensures Image() == RotateChain(old(Image()), old(group.value), env)
    {
      var g := group.value;
      if me !in Active(g) { return; }
      group := Some(g.(dist := Some(env.next), recipients := {}));
      BroadcastKey(env.next, Active(g) - {me}, env);
    }

    method RunPostMutation(sx: Effects, env: Env)
      requires group.Some?
      modifies this`group, this`sealedTo, this`wire
      ensures Image() == PostMutation(old(Image()), old(group.value), sx, env)
    {
      if sx.clear {
        var g := group.value;
        var back := me in Active(g);
        group := Some(g.(dist := if back then Some(env.spare) else None, recipients := {}));
        if !back { return; }
      }
      if group.value.invited { return; }
      if sx.rotate { RotateOwnChain(env); } else { EnsureKeyReachesMembers(env); }
    }

    // ----- handlers -----

    /** Apply the landed operation, drain what it unblocks, then run the hook once. */
    method ApplyAll(ops: seq<SignedOp>, env: Env)
      requires group.Some?
      modifies this`group, this`sealedTo, this`wire
      ensures Image() == ApplyOps(old(Image()), old(group.value), ops, env)
    {
      var g := group.value;
      if ops == [] || !Accepts(g, ops[0]) { return; }
      var a := Applied(g, Effects(false, false));
      for i := 0 to |ops|
        invariant a == Drain(Applied(g, Effects(false, false)), me, ops[..i])
      {
        a := ApplyOne(a, me, ops[i]);
        assert ops[..i + 1][..i] == ops[..i] && ops[..i + 1][i] == ops[i];
      }
      assert ops[..|ops|] == ops;
      group := Some(a.group);
      RunPostMutation(a.effects, env);
      PostMutationIgnoresGroup(old(Image()), a.group, a.effects, env);
    }

    method HandleGroupOp(ops: seq<SignedOp>, env: Env)
      requires GroupKeySafety.Base(Image()) && Legal(Image(), Incoming(ops, env))
      modifies this
      ensures Image() == Step(old(Image()), Incoming(ops, env))
      ensures GroupKeySafety.Base(Image())
      ensures GroupKeySafety.Inv(old(Image())) ==> GroupKeySafety.Inv(Image())
    {
      GroupKeySafety.HandlerKeeps(Image(), Incoming(ops, env));
      drawn := drawn + {env.next, env.spare};
      if group.None? || !env.up { return; }
      ApplyAll(ops, env);
    }

    method InviteToGroup(peer: Bytes, env: Env)
      requires GroupKeySafety.Base(Image()) && Legal(Image(), Invite(peer, env))
      modifies this
      ensures Image() == Step(old(Image()), Invite(peer, env))
      ensures GroupKeySafety.Base(Image())
      ensures GroupKeySafety.Inv(old(Image())) ==> GroupKeySafety.Inv(Image())
    {
      GroupKeySafety.HandlerKeeps(Image(), Invite(peer, env));
      drawn := drawn + {env.next, env.spare};
      if group.None? || peer !in env.contacts { return; }
      ApplyAll([SignedOp(me, AddMember(peer, Plain))], env);
    }

    method RemoveFromGroup(peer: Bytes, env: Env)
      requires GroupKeySafety.Base(Image()) && Legal(Image(), Remove(peer, env))
      modifies this
      ensures Image() == Step(old(Image()), Remove(peer, env))
      ensures GroupKeySafety.Base(Image())
      ensures GroupKeySafety.Inv(old(Image())) ==> GroupKeySafety.Inv(Image())
    {
      GroupKeySafety.HandlerKeeps(Image(), Remove(peer, env));
      drawn := drawn + {env.next, env.spare};
      if group.None? { return; }
      ApplyAll([SignedOp(me, RemoveMember(peer))], env);
    }

    /** `renameGroup`, `promoteToAdmin` and `demoteFromAdmin`. */
    method AdministerGroup(change: Change, env: Env)
      requires GroupKeySafety.Base(Image()) && Legal(Image(), Administer(change, env))
      modifies this
      ensures Image() == Step(old(Image()), Administer(change, env))
      ensures GroupKeySafety.Base(Image())
      ensures GroupKeySafety.Inv(old(Image())) ==> GroupKeySafety.Inv(Image())
    {
      GroupKeySafety.HandlerKeeps(Image(), Administer(change, env));
      drawn := drawn + {env.next, env.spare};
      if group.None? || !(change.Rename? || change.Promote? || change.Demote?) { return; }
      ApplyAll([SignedOp(me, change)], env);
    }

    method HandleKeyDistribution(sender: Bytes, binds: bool, env: Env)
      requires GroupKeySafety.Base(Image()) && Legal(Image(), KeyArrives(sender, binds, env))
      modifies this
      ensures Image() == Step(old(Image()), KeyArrives(sender, binds, env))
      ensures GroupKeySafety.Base(Image())
      ensures GroupKeySafety.Inv(old(Image())) ==> GroupKeySafety.Inv(Image())
    {
      GroupKeySafety.HandlerKeeps(Image(), KeyArrives(sender, binds, env));
      drawn := drawn + {env.next, env.spare};
      if group.None? || !env.up || sender !in Active(group.value) || !binds { return; }
      ghost var before := Image();
      var g := MarkEnrolled(group.value, sender);
      group := Some(g);
      RunPostMutation(Effects(false, false), env);
      PostMutationIgnoresGroup(before, g, Effects(false, false), env);
    }

    method RotateMyGroupChain(env: Env)
      requires GroupKeySafety.Base(Image()) && Legal(Image(), Rotate(env))
      modifies this
      ensures Image() == Step(old(Image()), Rotate(env))
      ensures GroupKeySafety.Base(Image())
      ensures GroupKeySafety.Inv(old(Image())) && Discreet(old(Image()), Rotate(env)) ==> GroupKeySafety.Inv(Image())
    {
      GroupKeySafety.HandlerKeeps(Image(), Rotate(env));
      drawn := drawn + {env.next, env.spare};
      if group.Some? { RotateOwnChain(env); }
    }

    method ResendMyKeys(env: Env)
      requires GroupKeySafety.Base(Image()) && Legal(Image(), Resend(env))
      modifies this
      ensures Image() == Step(old(Image()), Resend(env))
      ensures GroupKeySafety.Base(Image())
      ensures GroupKeySafety.Inv(old(Image())) ==> GroupKeySafety.Inv(Image())
    {
      GroupKeySafety.HandlerKeeps(Image(), Resend(env));
      drawn := drawn + {env.next, env.spare};
      if group.None? || group.value.dist.None? || group.value.invited { return; }
      var g := group.value;
      group := Some(g.(recipients := {}));
      BroadcastKey(g.dist.value, Active(g) - {me}, env);
    }

    /** Accepting enrols our chain unless a re-add already minted one. */
    method AcceptGroupInvitation(env: Env)
      requires GroupKeySafety.Base(Image()) && Legal(Image(), Accept(env))
      modifies this
      ensures Image() == Step(old(Image()), Accept(env))
      ensures GroupKeySafety.Base(Image())
      ensures GroupKeySafety.Inv(old(Image())) ==> GroupKeySafety.Inv(Image())
    {
      GroupKeySafety.HandlerKeeps(Image(), Accept(env));
      drawn := drawn + {env.next, env.spare};
      if group.None? || !group.value.invited || me !in Active(group.value) { return; }
      group := Some(group.value.(invited := false));
      if group.value.dist.Some? { return; }
      var g := MarkEnrolled(group.value, me);
      group := Some(g.(dist := Some(env.next), recipients := {}));
      BroadcastKey(env.next, Active(g) - {me}, env);
    }

    method CreateNewGroup(named: bool, invitees: seq<Bytes>, env: Env) returns (ok: bool)
      requires GroupKeySafety.Base(Image()) && Legal(Image(), Create(named, invitees, env)) && group.None?
      modifies this
      ensures Image() == Step(old(Image()), Create(named, invitees, env))
      ensures ok == CanCreate(me, named, invitees, env)
      ensures GroupKeySafety.Base(Image())
      ensures GroupKeySafety.Inv(old(Image())) ==> GroupKeySafety.Inv(Image())
    {
      GroupKeySafety.HandlerKeeps(Image(), Create(named, invitees, env));
      drawn := drawn + {env.next, env.spare};
      ok := CanCreate(me, named, invitees, env);
      if !ok { return; }
      group := Some(Group(NewMembers(me, invitees), Some(env.next), {}, false));
      BroadcastKey(env.next, Invited(invitees), env);
    }
  }

  /** The hook replaces the stored group, so what was stored before does not matter. */
  lemma PostMutationIgnoresGroup(s: State, g: Group, sx: Effects, env: Env)
    ensures PostMutation(Put(s, g), g, sx, env) == PostMutation(s, g, sx, env)
  {
  }
}
