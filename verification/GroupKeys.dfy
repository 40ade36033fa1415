/** One group on one device: who is a member, which sender-key chain is ours, and who has been sent
    its key. */
module GroupKeys {
  import opened Wire

  const MAX_MEMBERS := 50
  const IDENTITY_SIZE := 33

  datatype Role = Admin | Plain
  datatype Status = AwaitingKey | Enrolled | Removed
  datatype Member = Member(role: Role, status: Status)

  /** `dist` names our current chain; `recipients` is `mySkdmRecipients`. */
  datatype Group = Group(members: map<Bytes, Member>, dist: Option<nat>, recipients: set<Bytes>, invited: bool)

  function Active(g: Group): set<Bytes> { set p | p in g.members && g.members[p].status != Removed }
  function Admins(g: Group): set<Bytes> {
    set p | p in g.members && g.members[p].status != Removed && g.members[p].role == Admin
  }

  // ----- signed operations -----

  datatype Change =
    | AddMember(peer: Bytes, role: Role)
    | RemoveMember(peer: Bytes)
    | Rename
    | Promote(peer: Bytes)
    | Demote(peer: Bytes)
    | RotateKey
  datatype SignedOp = SignedOp(operator: Bytes, change: Change)

  /** What the host must do after an apply; accumulated over everything the apply drained. */
  datatype Effects = Effects(rotate: bool, clear: bool)
  datatype Applied = Applied(group: Group, effects: Effects)

  predicate Authorised(g: Group, op: SignedOp) {
    if op.change.RotateKey? then op.operator in Active(g) else op.operator in Admins(g)
  }

  predicate LastAdmin(g: Group, peer: Bytes) { |Admins(g)| == 1 && peer in Admins(g) }

  /** The operation passes authorisation and its own checks. */
  predicate Accepts(g: Group, op: SignedOp) {
    && Authorised(g, op)
    && match op.change
       case AddMember(peer, _) => |peer| == IDENTITY_SIZE && peer !in Active(g) && |Active(g)| < MAX_MEMBERS
       case RemoveMember(peer) => peer in Active(g) && !LastAdmin(g, peer)
       case Promote(peer) => peer in Active(g)
       case Demote(peer) => peer in Active(g) && !LastAdmin(g, peer)
       case _ => true
  }

  function Mutate(g: Group, op: SignedOp): Group
    requires Accepts(g, op)
  {
    match op.change
    case AddMember(peer, role) => g.(members := g.members[peer := Member(role, AwaitingKey)])
    case RemoveMember(peer) =>
      g.(members := g.members[peer := g.members[peer].(status := Removed)], recipients := g.recipients - {peer})
    case Promote(peer) => g.(members := g.members[peer := g.members[peer].(role := Admin)])
    case Demote(peer) => g.(members := g.members[peer := g.members[peer].(role := Plain)])
    case _ => g
  }

  function ApplyOne(a: Applied, me: Bytes, op: SignedOp): Applied {
    if !Accepts(a.group, op) then a
    else
      var g' := Mutate(a.group, op);
      Applied(g', Effects(
        a.effects.rotate || (op.change.RemoveMember? && op.change.peer != me && me in Active(g')),
        a.effects.clear || (op.change.RemoveMember? && op.change.peer == me)))
  }

  /** The landed operation followed by the queued ones it unblocks; a rejected one is dropped. */
  function Drain(a: Applied, me: Bytes, ops: seq<SignedOp>): Applied {
    if ops == [] then a else ApplyOne(Drain(a, me, ops[..|ops| - 1]), me, ops[|ops| - 1])
  }

  // ----- sending our key -----

  /** `sealedTo` and `wire` record, per chain, who its key was ever sealed to and put on the wire
      for; `drawn` are the chain ids handed out so far. */
  datatype State = State(
    me: Bytes, group: Option<Group>, sealedTo: map<nat, set<Bytes>>, wire: map<nat, set<Bytes>>, drawn: set<nat>)

  /** The 1:1 contacts; the peers with a token and a working session; whether a relay is ready; fresh
      ids. */
  datatype Env = Env(contacts: set<Bytes>, works: set<Bytes>, up: bool, next: nat, spare: nat) {
    /** Whom a key can be sealed to. */
    function Seals(): set<Bytes> { contacts * works }
  }

  function Of(sent: map<nat, set<Bytes>>, dist: nat): set<Bytes> { if dist in sent then sent[dist] else {} }
  function Others(s: State, g: Group): set<Bytes> { Active(g) - {s.me} }
  function Put(s: State, g: Group): State { s.(group := Some(g)) }
  function Draw(s: State, env: Env): State { s.(drawn := s.drawn + {env.next, env.spare}) }

  /** `broadcastSenderKeyDistribution` to each target: a peer is recorded once the key is sealed for
      it, whether or not a relay took the frame. */
  function Broadcast(s: State, g: Group, dist: nat, targets: set<Bytes>, env: Env): State {
    var sealed := targets * env.Seals();
    s.(group := Some(g.(recipients := g.recipients + sealed)),
       sealedTo := s.sealedTo[dist := Of(s.sealedTo, dist) + sealed],
       wire := if env.up then s.wire[dist := Of(s.wire, dist) + sealed] else s.wire)
  }

  /** A new chain, and its key to every other active member. */
  function StartChain(s: State, g: Group, dist: nat, env: Env): State {
    Broadcast(s, g.(dist := Some(dist), recipients := {}), dist, Others(s, g), env)
  }

  function RotateChain(s: State, g: Group, env: Env): State {
    if s.me in Active(g) then StartChain(s, g, env.next, env) else Put(s, g)
  }

  /** `ensureMySKDMReachesActiveMembers`. */
  function Ensure(s: State, g: Group, env: Env): State {
    if g.dist.None? then Put(s, g) else Broadcast(s, g, g.dist.value, Others(s, g) - g.recipients, env)
  }

  function Clear(s: State, g: Group, env: Env): Group {
    g.(dist := if s.me in Active(g) then Some(env.spare) else None, recipients := {})
  }

  /** `applyPostMutationSideEffects`. */
  function PostMutation(s: State, g: Group, sx: Effects, env: Env): State {
    var g' := if sx.clear then Clear(s, g, env) else g;
    if sx.clear && s.me !in Active(g) then Put(s, g')
    else if g'.invited then Put(s, g')
    else if sx.rotate then RotateChain(s, g', env)
    else Ensure(s, g', env)
  }

  // ----- handlers -----

  datatype Event =
    | Create(named: bool, invitees: seq<Bytes>, env: Env)
    | Invitation(members: map<Bytes, Member>, operator: Bytes)
    | Accept(env: Env)
    | Decline
    | Invite(peer: Bytes, env: Env)
    | Remove(peer: Bytes, env: Env)
    | Administer(change: Change, env: Env)
    | Incoming(ops: seq<SignedOp>, env: Env)
    | KeyArrives(sender: Bytes, binds: bool, env: Env)
    | Rotate(env: Env)
    | Resend(env: Env)
    | Leave(env: Env)

  function NewMembers(me: Bytes, invitees: seq<Bytes>): map<Bytes, Member> {
    (map p | p in invitees :: Member(Plain, AwaitingKey))[me := Member(Admin, Enrolled)]
  }

  /** A name, few enough distinct invitees, all of them paired, none of them us, and a relay. */
  predicate CanCreate(me: Bytes, named: bool, invitees: seq<Bytes>, env: Env) {
    && env.up && named && |invitees| + 1 <= MAX_MEMBERS
    && (forall i :: 0 <= i < |invitees| ==> invitees[i] in env.contacts && invitees[i] != me)
    && (forall i, j :: 0 <= i < j < |invitees| ==> invitees[i] != invitees[j])
  }

  function Invited(invitees: seq<Bytes>): set<Bytes> { set p | p in invitees }

  function CreateGroup(s: State, named: bool, invitees: seq<Bytes>, env: Env): State {
    if !CanCreate(s.me, named, invitees, env) then s
    else
      var g := Group(NewMembers(s.me, invitees), Some(env.next), {}, false);
      Broadcast(s, g, env.next, Invited(invitees), env)
  }

  /** A signed creation or bootstrap from an active admin of its own member list. */
  function ReceiveInvitation(s: State, members: map<Bytes, Member>, operator: Bytes): State {
    var g := Group(members, None, {}, true);
    if s.me !in members || operator !in Admins(g) || |members| > MAX_MEMBERS then s else Put(s, g)
  }

  function MarkEnrolled(g: Group, peer: Bytes): Group {
    if peer in g.members && g.members[peer].status != Removed
    then g.(members := g.members[peer := g.members[peer].(status := Enrolled)]) else g
  }

  /** `acceptGroupInvitation` and `enrolMyChainOnFirstJoin`. */
  function AcceptInvitation(s: State, g: Group, env: Env): State {
    if !g.invited || s.me !in Active(g) then s
    else if g.dist.Some? then Put(s, g.(invited := false))
    else StartChain(s, MarkEnrolled(g, s.me).(invited := false), env.next, env)
  }

  /** `handleGroupOp`, and the local `inviteToGroup`, `removeFromGroup`, `renameGroup`, `promoteToAdmin`
      and `demoteFromAdmin`: nothing follows unless the first operation applied. */
  function ApplyOps(s: State, g: Group, ops: seq<SignedOp>, env: Env): State {
    if ops == [] || !Accepts(g, ops[0]) then s
    else
      var a := Drain(Applied(g, Effects(false, false)), s.me, ops);
      PostMutation(s, a.group, a.effects, env)
  }

  function ReceiveKey(s: State, g: Group, sender: Bytes, binds: bool, env: Env): State {
    if !env.up || sender !in Active(g) || !binds then s
    else PostMutation(s, MarkEnrolled(g, sender), Effects(false, false), env)
  }

  function ResendKeys(s: State, g: Group, env: Env): State {
    if g.dist.None? || g.invited then s
    else Broadcast(s, g.(recipients := {}), g.dist.value, Others(s, g), env)
  }

  /** `leaveGroup`: one last rotation if we ever had a chain, then the group is gone. */
  function LeaveGroup(s: State, g: Group, env: Env): State {
    (if g.dist.Some? then RotateChain(s, g, env) else s).(group := None)
  }

  function Handle(s: State, g: Group, e: Event): State {
    match e
    case Accept(env) => AcceptInvitation(s, g, env)
    case Decline => if g.invited then s.(group := None) else s
    case Invite(peer, env) =>
      if peer in env.contacts then ApplyOps(s, g, [SignedOp(s.me, AddMember(peer, Plain))], env) else s
    case Remove(peer, env) => ApplyOps(s, g, [SignedOp(s.me, RemoveMember(peer))], env)
    case Administer(change, env) =>
      if change.Rename? || change.Promote? || change.Demote? then ApplyOps(s, g, [SignedOp(s.me, change)], env) else s
    case Incoming(ops, env) => if env.up then ApplyOps(s, g, ops, env) else s
    case KeyArrives(sender, binds, env) => ReceiveKey(s, g, sender, binds, env)
    case Rotate(env) => RotateChain(s, g, env)
    case Resend(env) => ResendKeys(s, g, env)
    case Leave(env) => LeaveGroup(s, g, env)
    case _ => s
  }

  predicate HasEnv(e: Event) { !e.Decline? && !e.Invitation? }

  /** Every handler draws its ids, used or not. */
  function Step(s: State, e: Event): State {
    var s' := if HasEnv(e) then Draw(s, e.env) else s;
    match s.group
    case Some(g) => Handle(s', g, e)
    case None =>
      if e.Create? then CreateGroup(s', e.named, e.invitees, e.env)
      else if e.Invitation? then ReceiveInvitation(s', e.members, e.operator)
      else s'
  }

  predicate Fresh(s: State, env: Env) { env.next != env.spare && env.next !in s.drawn && env.spare !in s.drawn }

  predicate Legal(s: State, e: Event) { HasEnv(e) ==> Fresh(s, e.env) }

  /** Not a rotation that, before the invitation is answered, sends our key to someone. */
  predicate Discreet(s: State, e: Event) {
    (e.Rotate? && s.group.Some? && s.group.value.invited && s.me in Active(s.group.value))
    ==> Others(s, s.group.value) * e.env.Seals() == {}
  }
}
