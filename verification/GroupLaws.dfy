/** Who may change a group, and what each handler does to it. */
module GroupLaws {
  import opened Wire
  import opened GroupKeys
  import opened GroupKeySafety

  ghost function RowOf(g: Group, p: Bytes): Option<Member> {
    if p in g.members then Some(g.members[p]) else None
  }

  /** In the group, not removed, with the admin role. */
  ghost predicate ActiveAdmin(g: Group, p: Bytes) {
    RowOf(g, p).Some? && RowOf(g, p).value.status != Removed && RowOf(g, p).value.role == Admin
  }

  ghost predicate ActiveMember(g: Group, p: Bytes) { RowOf(g, p).Some? && RowOf(g, p).value.status != Removed }

  /** The member whose row the operation is about. */
  predicate Targets(op: SignedOp, p: Bytes) {
    match op.change
    case AddMember(peer, _) => peer == p
    case RemoveMember(peer) => peer == p
    case Promote(peer) => peer == p
    case Demote(peer) => peer == p
    case _ => false
  }

  // ----- one operation -----

  /** Only an active admin changes anything; a member may only announce its own new key. */
  lemma OutsidersChangeNothing(a: Applied, me: Bytes, op: SignedOp)
    requires !ActiveAdmin(a.group, op.operator)
    ensures !op.change.RotateKey? ==> ApplyOne(a, me, op) == a
    ensures op.change.RotateKey? ==> ApplyOne(a, me, op).group == a.group
  {
  }

  /** An active admin's operation is applied exactly when its target allows it: a newcomer with a whole
      identity while there is room; a member, unless that leaves no admin. */
  lemma AdminOperationApplies(g: Group, op: SignedOp)
    requires ActiveAdmin(g, op.operator)
    ensures Accepts(g, op) <==>
      match op.change
      case AddMember(peer, _) => |peer| == 33 && !ActiveMember(g, peer) && |Active(g)| < 50
      case RemoveMember(peer) => ActiveMember(g, peer) && exists other :: other != peer && ActiveAdmin(g, other)
      case Promote(peer) => ActiveMember(g, peer)
      case Demote(peer) => ActiveMember(g, peer) && exists other :: other != peer && ActiveAdmin(g, other)
      case _ => true
  {
    assert op.operator in Admins(g);
    if op.change.RemoveMember? || op.change.Demote? { LastAdminMeaning(g, op.change.peer); }
  }

  lemma LastAdminMeaning(g: Group, peer: Bytes)
    requires Admins(g) != {}
    ensures !LastAdmin(g, peer) <==> exists other :: other != peer && ActiveAdmin(g, other)
  {
    if exists other :: other != peer && ActiveAdmin(g, other) {
      var other :| other != peer && ActiveAdmin(g, other);
      assert other in Admins(g) - {peer};
      if peer in Admins(g) { assert |Admins(g) - {peer}| == |Admins(g)| - 1; }
    } else {
      assert forall p :: p in Admins(g) ==> ActiveAdmin(g, p);
      var p :| p in Admins(g);
      assert Admins(g) == {peer};
    }
  }

  /** What an applied operation does to its target's row, and to nothing else. */
  lemma MutateMeaning(g: Group, op: SignedOp, p: Bytes)
    requires Accepts(g, op)
    ensures
      var g' := Mutate(g, op);
      && (!Targets(op, p) ==> RowOf(g', p) == RowOf(g, p))
      && (Targets(op, p) ==>
            match op.change
            case AddMember(_, role) => RowOf(g', p) == Some(Member(role, AwaitingKey))
            case RemoveMember(_) => RowOf(g', p) == Some(Member(g.members[p].role, Removed)) && p !in g'.recipients
            case Promote(_) => RowOf(g', p) == Some(Member(Admin, g.members[p].status))
            case Demote(_) => RowOf(g', p) == Some(Member(Plain, g.members[p].status)))
      && (!(Targets(op, p) && op.change.RemoveMember?) ==> (p in g'.recipients <==> p in g.recipients))
      && g'.dist == g.dist && g'.invited == g.invited
  {
  }

  // ----- a whole apply -----

  /** Somewhere along the drained operations an active admin of that moment changed the row. */
  ghost predicate Authored(g: Group, me: Bytes, ops: seq<SignedOp>, p: Bytes) {
    exists i :: 0 <= i < |ops| && Targets(ops[i], p) && ActiveAdmin(GroupAfter(g, me, ops[..i]), ops[i].operator)
  }

  ghost function GroupAfter(g: Group, me: Bytes, ops: seq<SignedOp>): Group {
    Drain(Applied(g, Effects(false, false)), me, ops).group
  }

  lemma {:induction false} DrainIsAuthored(g: Group, me: Bytes, ops: seq<SignedOp>, p: Bytes)
    requires RowOf(GroupAfter(g, me, ops), p) != RowOf(g, p)
    ensures Authored(g, me, ops, p)
    decreases |ops|
  {
    if ops != [] {
      var front, last := ops[..|ops| - 1], ops[|ops| - 1];
      if RowOf(GroupAfter(g, me, front), p) != RowOf(g, p) {
        DrainIsAuthored(g, me, front, p);
        var i :| 0 <= i < |front| && Targets(front[i], p)
                 && ActiveAdmin(GroupAfter(g, me, front[..i]), front[i].operator);
        assert ops[..i] == front[..i] && ops[i] == front[i];
      } else {
        var a := Drain(Applied(g, Effects(false, false)), me, front);
        if ActiveAdmin(a.group, last.operator) {
          if Accepts(a.group, last) { MutateMeaning(a.group, last, p); }
          assert ops[|front|] == last && ops[..|front|] == front;
        } else {
          OutsidersChangeNothing(a, me, last);
        }
      }
    }
  }

  // ----- every handler -----

  /** The operations an event applies. */
  ghost function OpsOf(me: Bytes, e: Event): seq<SignedOp> {
    match e
    case Invite(peer, _) => [SignedOp(me, AddMember(peer, Plain))]
    case Remove(peer, _) => [SignedOp(me, RemoveMember(peer))]
    case Administer(change, _) => [SignedOp(me, change)]
    case Incoming(ops, _) => ops
    case _ => []
  }

  /** A member's key is installed, or our own chain is enrolled. */
  ghost predicate Enrols(s: State, e: Event, p: Bytes) { (e.KeyArrives? && e.sender == p) || (e.Accept? && p == s.me) }

  /** In every state, and so in every run, a member's row changes only by an operation of someone who was
      an active admin just before it, or by that member's enrolment, which moves nothing but its status. */
  lemma RowsChangeByAuthority(s: State, g: Group, e: Event, p: Bytes)
    requires s.group == Some(g) && Handle(s, g, e).group.Some? && RowOf(Handle(s, g, e).group.value, p) != RowOf(g, p)
    ensures
      || Authored(g, s.me, OpsOf(s.me, e), p)
      || (Enrols(s, e, p) && ActiveMember(g, p)
          && RowOf(Handle(s, g, e).group.value, p) == Some(Member(g.members[p].role, Enrolled)))
  {
    match e {
      case Invite(peer, env) => ApplyOpsAuthored(s, g, OpsOf(s.me, e), env, p);
      case Remove(peer, env) => ApplyOpsAuthored(s, g, OpsOf(s.me, e), env, p);
      case Administer(change, env) => ApplyOpsAuthored(s, g, OpsOf(s.me, e), env, p);
      case Incoming(ops, env) => ApplyOpsAuthored(s, g, ops, env, p);
      case KeyArrives(sender, binds, env) =>
        PostMutationMembers(s, MarkEnrolled(g, sender), Effects(false, false), env);
      case _ =>
    }
  }

  lemma ApplyOpsAuthored(s: State, g: Group, ops: seq<SignedOp>, env: Env, p: Bytes)
    requires s.group == Some(g)
    ensures
      var s' := ApplyOps(s, g, ops, env);
      s'.group.Some? && (RowOf(s'.group.value, p) == RowOf(g, p) || Authored(g, s.me, ops, p))
  {
    var a := Drain(Applied(g, Effects(false, false)), s.me, ops);
    PostMutationMembers(s, a.group, a.effects, env);
    if RowOf(a.group, p) != RowOf(g, p) { DrainIsAuthored(g, s.me, ops, p); }
  }

  /** The member list after an apply is the drained one: the first operation must pass, each later one
      counts if it passes in its turn. */
  lemma ApplyOpsMembers(s: State, g: Group, ops: seq<SignedOp>, env: Env)
    requires s.group == Some(g) && ops != []
    ensures
      var s' := ApplyOps(s, g, ops, env);
      s'.group.Some? && s'.group.value.members
        == if Accepts(g, ops[0]) then GroupAfter(g, s.me, ops).members else g.members
  {
    var a := Drain(Applied(g, Effects(false, false)), s.me, ops);
    PostMutationMembers(s, a.group, a.effects, env);
  }

  /** One operation alone: applied with its meaning, or nothing at all. */
  lemma SingleOperation(s: State, g: Group, op: SignedOp, env: Env)
    requires s.group == Some(g)
    ensures
      var s' := ApplyOps(s, g, [op], env);
      if Accepts(g, op) then s'.group.Some? && s'.group.value.members == Mutate(g, op).members else s' == s
  {
    ApplyOpsMembers(s, g, [op], env);
    DrainOne(Applied(g, Effects(false, false)), s.me, op);
  }

  /** Someone other than `peer` is an active admin. */
  ghost predicate OtherAdmin(g: Group, peer: Bytes) { exists other :: other != peer && ActiveAdmin(g, other) }

  /** Exactly an active admin invites, and exactly a contact who is not a member, while there is room. */
  lemma InviteMeaning(s: State, g: Group, peer: Bytes, env: Env)
    requires s.group == Some(g)
    ensures
      var s' := Handle(s, g, Invite(peer, env));
      if && ActiveAdmin(g, s.me) && peer in env.contacts
         && |peer| == 33 && !ActiveMember(g, peer) && |Active(g)| < 50
      then s'.group.Some? && s'.group.value.members == g.members[peer := Member(Plain, AwaitingKey)]
      else s' == s
  {
    OurOperation(s, g, AddMember(peer, Plain), env);
  }

  /** Exactly an active admin removes, promotes or demotes, and exactly a member; nobody takes the last
      admin away. */
  lemma AdministrationMeaning(s: State, g: Group, peer: Bytes, env: Env)
    requires s.group == Some(g)
    ensures
      var removed := Handle(s, g, Remove(peer, env));
      if ActiveAdmin(g, s.me) && ActiveMember(g, peer) && OtherAdmin(g, peer)
      then HasMember(removed, g, peer, Member(g.members[peer].role, Removed)) else removed == s
    ensures
      var promoted := Handle(s, g, Administer(Promote(peer), env));
      if ActiveAdmin(g, s.me) && ActiveMember(g, peer)
      then HasMember(promoted, g, peer, Member(Admin, g.members[peer].status)) else promoted == s
    ensures
      var demoted := Handle(s, g, Administer(Demote(peer), env));
      if ActiveAdmin(g, s.me) && ActiveMember(g, peer) && OtherAdmin(g, peer)
      then HasMember(demoted, g, peer, Member(Plain, g.members[peer].status)) else demoted == s
  {
    OurOperation(s, g, RemoveMember(peer), env);
    OurOperation(s, g, Promote(peer), env);
    OurOperation(s, g, Demote(peer), env);
  }

  /** The list is the old one with this row. */
  ghost predicate HasMember(s': State, g: Group, peer: Bytes, m: Member) {
    s'.group.Some? && s'.group.value.members == g.members[peer := m]
  }

  lemma OurOperation(s: State, g: Group, change: Change, env: Env)
    requires s.group == Some(g) && !change.RotateKey?
    ensures
      var op := SignedOp(s.me, change);
      var s' := ApplyOps(s, g, [op], env);
      && (Accepts(g, op) ==> ActiveAdmin(g, s.me))
      && (if Accepts(g, op) then s'.group.Some? && s'.group.value.members == Mutate(g, op).members else s' == s)
    ensures ActiveAdmin(g, s.me) && (change.RemoveMember? || change.Demote?) ==>
      (Accepts(g, SignedOp(s.me, change)) <==> ActiveMember(g, change.peer) && OtherAdmin(g, change.peer))
  {
    SingleOperation(s, g, SignedOp(s.me, change), env);
    if ActiveAdmin(g, s.me) { AdminOperationApplies(g, SignedOp(s.me, change)); }
  }

  // ----- rotations happen for a reason -----

  /** The operation at `i` applies, removes someone else and leaves us a member. */
  ghost predicate RemovesOther(g: Group, me: Bytes, ops: seq<SignedOp>, i: nat)
    requires i < |ops|
  {
    && ops[i].change.RemoveMember? && ops[i].change.peer != me
    && ActiveMember(GroupAfter(g, me, ops[..i]), me) && Accepts(GroupAfter(g, me, ops[..i]), ops[i])
  }

  ghost predicate RemovesUs(g: Group, me: Bytes, ops: seq<SignedOp>, i: nat)
    requires i < |ops|
  {
    ops[i].change == RemoveMember(me) && Accepts(GroupAfter(g, me, ops[..i]), ops[i])
  }

  ghost predicate OtherRemoved(g: Group, me: Bytes, ops: seq<SignedOp>) {
    exists i :: 0 <= i < |ops| && RemovesOther(g, me, ops, i)
  }

  ghost predicate WeRemoved(g: Group, me: Bytes, ops: seq<SignedOp>) {
    exists i :: 0 <= i < |ops| && RemovesUs(g, me, ops, i)
  }

  /** A rotation is asked for exactly if someone else was removed while we were a member, a clear exactly
      if we were removed. */
  lemma {:induction false} EffectsHaveCause(g: Group, me: Bytes, ops: seq<SignedOp>)
    ensures
      var sx := Drain(Applied(g, Effects(false, false)), me, ops).effects;
      (sx.rotate <==> OtherRemoved(g, me, ops)) && (sx.clear <==> WeRemoved(g, me, ops))
    decreases |ops|
  {
    if ops != [] {
      EffectsHaveCause(g, me, ops[..|ops| - 1]);
      EffectsOfLast(g, me, ops);
      OtherRemovedLast(g, me, ops);
      WeRemovedLast(g, me, ops);
    }
  }

  lemma OtherRemovedLast(g: Group, me: Bytes, ops: seq<SignedOp>)
    requires ops != []
    ensures
      var n := |ops| - 1;
      OtherRemoved(g, me, ops) <==> OtherRemoved(g, me, ops[..n]) || RemovesOther(g, me, ops, n)
  {
    var front := ops[..|ops| - 1];
    forall i | 0 <= i < |front| ensures RemovesOther(g, me, front, i) <==> RemovesOther(g, me, ops, i) {
      assert front[i] == ops[i] && front[..i] == ops[..i];
    }
  }

  lemma WeRemovedLast(g: Group, me: Bytes, ops: seq<SignedOp>)
    requires ops != []
    ensures
      var n := |ops| - 1;
      WeRemoved(g, me, ops) <==> WeRemoved(g, me, ops[..n]) || RemovesUs(g, me, ops, n)
  {
    var front := ops[..|ops| - 1];
    forall i | 0 <= i < |front| ensures RemovesUs(g, me, front, i) <==> RemovesUs(g, me, ops, i) {
      assert front[i] == ops[i] && front[..i] == ops[..i];
    }
  }

  lemma EffectsOfLast(g: Group, me: Bytes, ops: seq<SignedOp>)
    requires ops != []
    ensures
      var n := |ops| - 1;
      var before := Drain(Applied(g, Effects(false, false)), me, ops[..n]).effects;
      var after := Drain(Applied(g, Effects(false, false)), me, ops).effects;
      && (after.rotate <==> before.rotate || RemovesOther(g, me, ops, n))
      && (after.clear <==> before.clear || RemovesUs(g, me, ops, n))
  {
    var op, g' := ops[|ops| - 1], GroupAfter(g, me, ops[..|ops| - 1]);
    if Accepts(g', op) { MutateMeaning(g', op, me); }
  }

  /** Operations that remove nobody leave our chain in place. */
  lemma NoRemovalNoRotation(s: State, g: Group, ops: seq<SignedOp>, env: Env)
    requires s.group == Some(g) && forall i :: 0 <= i < |ops| ==> !ops[i].change.RemoveMember?
    ensures ApplyOps(s, g, ops, env).group.Some? && ApplyOps(s, g, ops, env).group.value.dist == g.dist
  {
    EffectsHaveCause(g, s.me, ops);
    DrainRecipients(Applied(g, Effects(false, false)), s.me, ops);
  }

  /** Where the hook leaves our chain and whom it seals the key to, each peer on its own: nobody once we
      are out or while the invitation is open, every other member on a rotation, and otherwise the members
      who were not sent it yet. */
  lemma HookMeaning(s: State, g: Group, sx: Effects, env: Env)
    ensures
      var s' := PostMutation(s, g, sx, env);
      && s'.group.Some? && s'.group.value.members == g.members && s'.group.value.invited == g.invited
      && (g.invited || (sx.clear && !ActiveMember(g, s.me)) ==> s'.sealedTo == s.sealedTo && s'.wire == s.wire)
      && (sx.clear && !ActiveMember(g, s.me) ==> s'.group.value.dist.None? && s'.group.value.recipients == {})
      && (!g.invited && sx.rotate && ActiveMember(g, s.me) ==>
            SealedTo(s, s', env.next, {}, Others(s, g) * env.Seals(), env.up))
      && (!g.invited && !sx.rotate && !sx.clear && g.dist.Some? ==>
            SealedTo(s, s', g.dist.value, g.recipients, (Others(s, g) - g.recipients) * env.Seals(), env.up))
      && (!sx.rotate && !sx.clear && g.dist.None? ==> s' == s.(group := Some(g)))
  {
    var g' := if sx.clear then Clear(s, g, env) else g;
    BroadcastMeaning(s, g'.(dist := Some(env.next), recipients := {}), env.next, Others(s, g), env);
    if g.dist.Some? { BroadcastMeaning(s, g, g.dist.value, Others(s, g) - g.recipients, env); }
  }

  lemma BroadcastMeaning(s: State, g: Group, dist: nat, targets: set<Bytes>, env: Env)
    requires g.dist == Some(dist)
    ensures SealedTo(s, Broadcast(s, g, dist, targets, env), dist, g.recipients, targets * env.Seals(), env.up)
  {
  }

  /** The current chain is `dist`; beside those who had it, its key was sealed to exactly `sealed`, and sent
      to them if a relay was up. */
  ghost predicate SealedTo(s: State, s': State, dist: nat, had: set<Bytes>, sealed: set<Bytes>, up: bool) {
    && s'.group.Some? && s'.group.value.dist == Some(dist) && s'.group.value.recipients == had + sealed
    && (forall d :: Of(s'.sealedTo, d) == Of(s.sealedTo, d) + (if d == dist then sealed else {}))
    && (forall d :: Of(s'.wire, d) == Of(s.wire, d) + (if d == dist && up then sealed else {}))
  }

  /** A rotation seals a new key, a resend the current one, to each other member it can; without a relay
      no operation from outside is handled. */
  lemma SendKeyMeaning(s: State, g: Group, ops: seq<SignedOp>, env: Env)
    requires s.group == Some(g)
    ensures
      var s' := Handle(s, g, Rotate(env));
      if ActiveMember(g, s.me) then SealedTo(s, s', env.next, {}, Others(s, g) * env.Seals(), env.up) else s' == s
    ensures
      var s' := Handle(s, g, Resend(env));
      if g.dist.Some? && !g.invited
      then SealedTo(s, s', g.dist.value, {}, Others(s, g) * env.Seals(), env.up) else s' == s
    ensures !env.up ==> Handle(s, g, Incoming(ops, env)) == s
  {
    BroadcastMeaning(s, g.(dist := Some(env.next), recipients := {}), env.next, Others(s, g), env);
    if g.dist.Some? { BroadcastMeaning(s, g.(recipients := {}), g.dist.value, Others(s, g), env); }
  }

  // ----- joining and leaving -----

  /** A group is created exactly with a relay, a name and at most 49 distinct contacts, none of them us; we
      are its one admin, they are plain members awaiting a key, and ours is sealed to each that can be. */
  lemma CreateMeaning(s: State, named: bool, invitees: seq<Bytes>, env: Env)
    requires s.group.None?
    ensures
      var s' := CreateGroup(s, named, invitees, env);
      && (s'.group.Some? <==>
            && env.up && named && |invitees| < 50
            && (forall i :: 0 <= i < |invitees| ==> invitees[i] in env.contacts && invitees[i] != s.me)
            && (forall i, j :: 0 <= i < j < |invitees| ==> invitees[i] != invitees[j]))
      && (s'.group.None? ==> s' == s)
      && (s'.group.Some? ==>
            && !s'.group.value.invited && RowOf(s'.group.value, s.me) == Some(Member(Admin, Enrolled))
            && (forall p :: p != s.me ==>
                  RowOf(s'.group.value, p) == if p in invitees then Some(Member(Plain, AwaitingKey)) else None)
            && SealedTo(s, s', env.next, {}, (set p | p in invitees) * env.Seals(), true))
  {
    BroadcastMeaning(s, Group(NewMembers(s.me, invitees), Some(env.next), {}, false), env.next, Invited(invitees), env);
  }

  /** An invitation is taken up exactly when it lists us, comes from an active admin of its own list and
      is within the limit; it then waits for an answer, with no chain of ours. */
  lemma InvitationMeaning(s: State, members: map<Bytes, Member>, operator: Bytes)
    requires s.group.None?
    ensures
      var s' := Step(s, Invitation(members, operator));
      var g := Group(members, None, {}, true);
      && (s'.group.Some? <==> s.me in members && ActiveAdmin(g, operator) && |members| <= 50)
      && (s'.group.Some? ==> s'.group.value == g)
      && s'.sealedTo == s.sealedTo && s'.wire == s.wire
  {
  }

  /** Accepting an open invitation clears it and leaves us with a chain, enrolled if the chain is new; in
      any other state it does nothing. */
  lemma AcceptMeaning(s: State, g: Group, env: Env)
    requires s.group == Some(g)
    ensures
      var s' := AcceptInvitation(s, g, env);
      if g.invited && ActiveMember(g, s.me)
      then && s'.group.Some? && !s'.group.value.invited && s'.group.value.dist.Some?
           && (g.dist.Some? ==> s'.group.value.dist == g.dist && s'.sealedTo == s.sealedTo)
           && (g.dist.None? ==> RowOf(s'.group.value, s.me) == Some(Member(g.members[s.me].role, Enrolled)))
           && (forall p :: p != s.me ==> RowOf(s'.group.value, p) == RowOf(g, p))
      else s' == s
  {
  }

  /** Declining drops exactly an open invitation; leaving always drops the group, after a last chain whose
      key goes to the members if we had one. */
  lemma LeaveMeaning(s: State, g: Group, env: Env)
    requires s.group == Some(g)
    ensures Handle(s, g, Decline) == if g.invited then s.(group := None) else s
    ensures LeaveGroup(s, g, env).group.None?
    ensures g.dist.Some? && s.me in Active(g) ==>
      Of(LeaveGroup(s, g, env).sealedTo, env.next) == Of(s.sealedTo, env.next) + Others(s, g) * env.Seals()
    ensures g.dist.None? ==> LeaveGroup(s, g, env).sealedTo == s.sealedTo
  {
  }

  /** A member's key is taken exactly from an active member with a relay ready and no collision; it marks
      that member enrolled. */
  lemma KeyMeaning(s: State, g: Group, sender: Bytes, binds: bool, env: Env)
    requires s.group == Some(g)
    ensures
      var s' := ReceiveKey(s, g, sender, binds, env);
      if env.up && ActiveMember(g, sender) && binds
      then s'.group.Some? && RowOf(s'.group.value, sender) == Some(Member(g.members[sender].role, Enrolled))
      else s' == s
  {
    PostMutationMembers(s, MarkEnrolled(g, sender), Effects(false, false), env);
  }
}
