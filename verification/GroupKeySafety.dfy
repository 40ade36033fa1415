/** Over every run, only active members were ever sent the key of the current chain. */
module GroupKeySafety {
  import opened Wire
  import opened GroupKeys

  // ----- the invariant -----

  /** Only chains whose id was drawn have been sealed or sent, and nothing is sent unsealed. */
  ghost predicate Ledger(s: State) {
    && s.sealedTo.Keys <= s.drawn && s.wire.Keys <= s.drawn
    && forall d :: d in s.wire ==> s.wire[d] <= Of(s.sealedTo, d)
  }

  ghost predicate ChainOk(s: State, g: Group) {
    match g.dist
    case None => g.recipients == {}
    case Some(d) =>
      && d in s.drawn && s.me in Active(g)
      && Of(s.sealedTo, d) <= Active(g)
      && g.recipients <= Of(s.sealedTo, d)
      && (g.invited ==> Of(s.sealedTo, d) == {})
  }

  ghost predicate Inv(s: State) { Ledger(s) && (s.group.Some? ==> ChainOk(s, s.group.value)) }

  /** Between the apply and the hook a removed peer may still hold the key, but then a rotation or a
      clear is pending, unless nobody holds it. */
  ghost predicate Mid(s: State, me: Bytes, a: Applied) {
    && (a.group.dist.None? ==> a.group.recipients == {})
    && (a.group.dist.Some? ==> MidChain(s, a.group, a.group.dist.value, a.effects))
    && (a.group.dist.Some? && !a.effects.clear ==> me in Active(a.group))
  }

  ghost predicate MidChain(s: State, g: Group, d: nat, sx: Effects) {
    && d in s.drawn
    && g.recipients <= Of(s.sealedTo, d)
    && (g.invited ==> Of(s.sealedTo, d) == {})
    && (sx.rotate || sx.clear || Of(s.sealedTo, d) <= Active(g))
  }

  // ----- applying operations -----

  lemma ActiveAfter(g: Group, op: SignedOp)
    requires Accepts(g, op)
    ensures Active(Mutate(g, op)) ==
      match op.change
      case AddMember(peer, _) => Active(g) + {peer}
      case RemoveMember(peer) => Active(g) - {peer}
      case _ => Active(g)
  {
  }

  lemma ApplyOneKeepsMid(s: State, me: Bytes, a: Applied, op: SignedOp)
    requires Mid(s, me, a)
    ensures Mid(s, me, ApplyOne(a, me, op))
  {
    if Accepts(a.group, op) {
      ActiveAfter(a.group, op);
      var a' := ApplyOne(a, me, op);
      assert a'.group.dist == a.group.dist && a'.group.invited == a.group.invited;
      assert a'.group.recipients <= a.group.recipients;
    }
  }

  lemma {:induction false} DrainKeepsMid(s: State, me: Bytes, a: Applied, ops: seq<SignedOp>)
    requires Mid(s, me, a)
    ensures Mid(s, me, Drain(a, me, ops))
    decreases |ops|
  {
    if ops != [] {
      DrainKeepsMid(s, me, a, ops[..|ops| - 1]);
      ApplyOneKeepsMid(s, me, Drain(a, me, ops[..|ops| - 1]), ops[|ops| - 1]);
    }
  }

  // ----- the hook and the broadcasts -----

  /** Sending a key to active members only. */
  lemma BroadcastKeeps(s: State, g: Group, d: nat, targets: set<Bytes>, env: Env)
    requires Ledger(s) && d in s.drawn && g.dist == Some(d) && !g.invited && s.me in Active(g)
    requires Of(s.sealedTo, d) <= Active(g) && g.recipients <= Of(s.sealedTo, d) && targets <= Active(g)
    ensures Inv(Broadcast(s, g, d, targets, env))
  {
    var s' := Broadcast(s, g, d, targets, env);
    assert Active(s'.group.value) == Active(g);
    forall x | x in s'.wire ensures s'.wire[x] <= Of(s'.sealedTo, x) {}
  }

  /** A chain nobody was sent yet. */
  ghost predicate Unsent(s: State, d: nat) { d in s.drawn && d !in s.sealedTo }

  lemma StartChainKeeps(s: State, g: Group, d: nat, env: Env)
    requires Ledger(s) && Unsent(s, d) && !g.invited && s.me in Active(g)
    ensures Inv(StartChain(s, g, d, env))
  {
    var g' := g.(dist := Some(d), recipients := {});
    assert Active(g') == Active(g);
    BroadcastKeeps(s, g', d, Others(s, g), env);
  }

  lemma EnsureKeeps(s: State, g: Group, env: Env)
    requires Ledger(s) && ChainOk(s, g) && !g.invited
    ensures Inv(Ensure(s, g, env))
  {
    if g.dist.Some? {
      BroadcastKeeps(s, g, g.dist.value, Others(s, g) - g.recipients, env);
    }
  }

  ghost predicate Drawn(s: State, env: Env) { env.next != env.spare && Unsent(s, env.next) && Unsent(s, env.spare) }

  lemma ClearIsOk(s: State, g: Group, env: Env)
    requires Drawn(s, env)
    ensures ChainOk(s, Clear(s, g, env)) && Active(Clear(s, g, env)) == Active(g)
  {
  }

  /** Whatever the apply drained, the hook re-establishes the invariant. */
  lemma PostMutationKeeps(s: State, a: Applied, env: Env)
    requires Ledger(s) && Drawn(s, env) && Mid(s, s.me, a)
    ensures Inv(PostMutation(s, a.group, a.effects, env))
  {
    var g' := if a.effects.clear then Clear(s, a.group, env) else a.group;
    ClearIsOk(s, a.group, env);
    if !g'.invited && a.effects.rotate && s.me in Active(g') {
      StartChainKeeps(s, g', env.next, env);
    } else {
      assert ChainOk(s, g');
      if !g'.invited { EnsureKeeps(s, g', env); }
    }
  }

  // ----- handlers -----

  lemma ApplyOpsKeeps(s: State, g: Group, ops: seq<SignedOp>, env: Env)
    requires Inv(s) && s.group == Some(g) && Drawn(s, env)
    ensures Inv(ApplyOps(s, g, ops, env))
  {
    var a := Applied(g, Effects(false, false));
    DrainKeepsMid(s, s.me, a, ops);
    PostMutationKeeps(s, Drain(a, s.me, ops), env);
  }

  lemma EnrolledActive(g: Group, peer: Bytes)
    ensures Active(MarkEnrolled(g, peer)) == Active(g) && Admins(MarkEnrolled(g, peer)) == Admins(g)
  {
  }

  lemma KeyKeeps(s: State, g: Group, sender: Bytes, binds: bool, env: Env)
    requires Inv(s) && s.group == Some(g) && Drawn(s, env)
    ensures Inv(ReceiveKey(s, g, sender, binds, env))
  {
    EnrolledActive(g, sender);
    var a := Applied(MarkEnrolled(g, sender), Effects(false, false));
    PostMutationKeeps(s, a, env);
  }

  lemma AcceptKeeps(s: State, g: Group, env: Env)
    requires Inv(s) && s.group == Some(g) && Drawn(s, env)
    ensures Inv(AcceptInvitation(s, g, env))
  {
    if g.invited && s.me in Active(g) {
      EnrolledActive(g, s.me);
      var g' := MarkEnrolled(g, s.me).(invited := false);
      assert Active(g') == Active(MarkEnrolled(g, s.me));
      StartChainKeeps(s, g', env.next, env);
      assert Active(g.(invited := false)) == Active(g);
    }
  }

  lemma ResendKeeps(s: State, g: Group, env: Env)
    requires Inv(s) && s.group == Some(g)
    ensures Inv(ResendKeys(s, g, env))
  {
    if g.dist.Some? && !g.invited {
      var g' := g.(recipients := {});
      assert Active(g') == Active(g);
      BroadcastKeeps(s, g', g.dist.value, Others(s, g), env);
    }
  }

  lemma LeaveKeeps(s: State, g: Group, env: Env)
    requires Inv(s) && s.group == Some(g) && Drawn(s, env)
    ensures Inv(LeaveGroup(s, g, env))
  {
    var s' := LeaveGroup(s, g, env);
    forall x | x in s'.wire ensures s'.wire[x] <= Of(s'.sealedTo, x) {}
  }

  lemma NewMembersActive(me: Bytes, invitees: seq<Bytes>, g: Group)
    requires g.members == NewMembers(me, invitees)
    ensures Active(g) == Invited(invitees) + {me} && me in Admins(g)
  {
  }

  lemma CreateKeeps(s: State, named: bool, invitees: seq<Bytes>, env: Env)
    requires Inv(s) && Drawn(s, env)
    ensures Inv(CreateGroup(s, named, invitees, env))
  {
    if CanCreate(s.me, named, invitees, env) {
      var g := Group(NewMembers(s.me, invitees), Some(env.next), {}, false);
      NewMembersActive(s.me, invitees, g);
      BroadcastKeeps(s, g, env.next, Invited(invitees), env);
    }
  }

  /** Rotating before the invitation is answered, with nobody to seal to. */
  lemma QuietRotationKeeps(s: State, g: Group, env: Env)
    requires Ledger(s) && Drawn(s, env) && s.me in Active(g) && Others(s, g) * env.Seals() == {}
    ensures Inv(RotateChain(s, g, env))
  {
    var s' := RotateChain(s, g, env);
    assert Active(s'.group.value) == Active(g);
    assert Of(s'.sealedTo, env.next) == {};
    forall x | x in s'.wire ensures s'.wire[x] <= Of(s'.sealedTo, x) {}
  }

  /** A discreet rotation by a member starts a sound chain. */
  lemma RotateStarts(s: State, g: Group, env: Env)
    requires Ledger(s) && s.group == Some(g) && Drawn(s, env) && Discreet(s, Rotate(env)) && s.me in Active(g)
    ensures Inv(RotateChain(s, g, env))
  {
    if g.invited { QuietRotationKeeps(s, g, env); } else { StartChainKeeps(s, g, env.next, env); }
  }

  lemma RotateKeeps(s: State, g: Group, env: Env)
    requires Inv(s) && s.group == Some(g) && Drawn(s, env) && Discreet(s, Rotate(env))
    ensures Inv(RotateChain(s, g, env))
  {
    if s.me in Active(g) { RotateStarts(s, g, env); }
  }

  lemma HandleKeeps(s: State, g: Group, e: Event)
    requires Inv(s) && s.group == Some(g) && (HasEnv(e) ==> Drawn(s, e.env)) && Discreet(s, e)
    ensures Inv(Handle(s, g, e))
  {
    match e {
      case Accept(env) => AcceptKeeps(s, g, env);
      case Invite(peer, env) => ApplyOpsKeeps(s, g, [SignedOp(s.me, AddMember(peer, Plain))], env);
      case Remove(peer, env) => ApplyOpsKeeps(s, g, [SignedOp(s.me, RemoveMember(peer))], env);
      case Administer(change, env) => ApplyOpsKeeps(s, g, [SignedOp(s.me, change)], env);
      case Incoming(ops, env) => ApplyOpsKeeps(s, g, ops, env);
      case KeyArrives(sender, binds, env) => KeyKeeps(s, g, sender, binds, env);
      case Rotate(env) => RotateKeeps(s, g, env);
      case Resend(env) => ResendKeeps(s, g, env);
      case Leave(env) => LeaveKeeps(s, g, env);
      case _ =>
    }
  }

  lemma DrawKeeps(s: State, env: Env)
    requires Inv(s) && Fresh(s, env)
    ensures Inv(Draw(s, env)) && Drawn(Draw(s, env), env)
  {
  }

  lemma StepKeeps(s: State, e: Event)
    requires Inv(s) && Legal(s, e) && Discreet(s, e)
    ensures Inv(Step(s, e))
  {
    var s' := if HasEnv(e) then Draw(s, e.env) else s;
    if HasEnv(e) { DrawKeeps(s, e.env); }
    match s.group {
      case Some(g) => HandleKeeps(s', g, e);
      case None => if e.Create? { CreateKeeps(s', e.named, e.invitees, e.env); }
    }
  }

  // ----- whole runs -----

  ghost predicate IsRun(states: seq<State>, events: seq<Event>) {
    && |states| == |events| + 1 && states[0] == State(states[0].me, None, map[], map[], {})
    && (forall i :: 0 <= i < |events| ==> Legal(states[i], events[i]) && states[i + 1] == Step(states[i], events[i]))
  }

  // ----- what holds with no proviso at all -----

  /** `recipients` names only peers the current chain's key was sealed to. */
  ghost predicate Recorded(s: State, g: Group) {
    match g.dist
    case None => g.recipients == {}
    case Some(d) => d in s.drawn && g.recipients <= Of(s.sealedTo, d)
  }

  ghost predicate Base(s: State) { Ledger(s) && (s.group.Some? ==> Recorded(s, s.group.value)) }

  lemma BroadcastBase(s: State, g: Group, d: nat, targets: set<Bytes>, env: Env)
    requires Ledger(s) && g.dist == Some(d) && Recorded(s, g)
    ensures Base(Broadcast(s, g, d, targets, env))
  {
    var s' := Broadcast(s, g, d, targets, env);
    forall x | x in s'.wire ensures s'.wire[x] <= Of(s'.sealedTo, x) {}
  }

  lemma StartChainBase(s: State, g: Group, d: nat, env: Env)
    requires Ledger(s) && d in s.drawn
    ensures Base(StartChain(s, g, d, env))
  {
    BroadcastBase(s, g.(dist := Some(d), recipients := {}), d, Others(s, g), env);
  }

  lemma PostMutationBase(s: State, g: Group, sx: Effects, env: Env)
    requires Ledger(s) && Drawn(s, env) && Recorded(s, g)
    ensures Base(PostMutation(s, g, sx, env))
  {
    var g' := if sx.clear then Clear(s, g, env) else g;
    assert Recorded(s, g');
    StartChainBase(s, g', env.next, env);
    if g'.dist.Some? { BroadcastBase(s, g', g'.dist.value, Others(s, g') - g'.recipients, env); }
  }

  lemma ApplyOpsBase(s: State, g: Group, ops: seq<SignedOp>, env: Env)
    requires Base(s) && s.group == Some(g) && Drawn(s, env)
    ensures Base(ApplyOps(s, g, ops, env))
  {
    var a := Applied(g, Effects(false, false));
    DrainRecipients(a, s.me, ops);
    var b := Drain(a, s.me, ops);
    PostMutationBase(s, b.group, b.effects, env);
  }

  lemma HandleBase(s: State, g: Group, e: Event)
    requires Base(s) && s.group == Some(g) && (HasEnv(e) ==> Drawn(s, e.env))
    ensures Base(Handle(s, g, e))
  {
    match e {
      case Accept(env) =>
        if g.invited && s.me in Active(g) && g.dist.None? {
          StartChainBase(s, MarkEnrolled(g, s.me).(invited := false), env.next, env);
        }
      case Invite(peer, env) => ApplyOpsBase(s, g, [SignedOp(s.me, AddMember(peer, Plain))], env);
      case Remove(peer, env) => ApplyOpsBase(s, g, [SignedOp(s.me, RemoveMember(peer))], env);
      case Administer(change, env) => ApplyOpsBase(s, g, [SignedOp(s.me, change)], env);
      case Incoming(ops, env) => ApplyOpsBase(s, g, ops, env);
      case KeyArrives(sender, binds, env) => PostMutationBase(s, MarkEnrolled(g, sender), Effects(false, false), env);
      case Rotate(env) => StartChainBase(s, g, env.next, env);
      case Resend(env) => if g.dist.Some? { BroadcastBase(s, g.(recipients := {}), g.dist.value, Others(s, g), env); }
      case Leave(env) => StartChainBase(s, g, env.next, env);
      case _ =>
    }
  }

  lemma DrawBase(s: State, env: Env)
    requires Base(s) && Fresh(s, env)
    ensures Base(Draw(s, env)) && Drawn(Draw(s, env), env)
  {
  }

  lemma StepBase(s: State, e: Event)
    requires Base(s) && Legal(s, e)
    ensures Base(Step(s, e))
  {
    var s' := if HasEnv(e) then Draw(s, e.env) else s;
    if HasEnv(e) { DrawBase(s, e.env); }
    match s.group {
      case Some(g) => HandleBase(s', g, e);
      case None =>
        if e.Create? {
          var g := Group(NewMembers(s'.me, e.invitees), Some(e.env.next), {}, false);
          BroadcastBase(s', g, e.env.next, Invited(e.invitees), e.env);
        }
    }
  }

  /** In every run `recipients` names only peers the current chain's key was sealed to. */
  lemma {:induction false} RecordFollowsSealing(states: seq<State>, events: seq<Event>, n: nat)
    requires IsRun(states, events) && n <= |events|
    ensures Base(states[n])
    decreases n
  {
    if n > 0 {
      RecordFollowsSealing(states, events, n - 1);
      StepBase(states[n - 1], events[n - 1]);
    }
  }

  /** What every handler keeps, and what it keeps unless it rotates the key out too early. */
  lemma HandlerKeeps(s: State, e: Event)
    requires Base(s) && Legal(s, e)
    ensures Base(Step(s, e)) && (Inv(s) && Discreet(s, e) ==> Inv(Step(s, e)))
  {
    StepBase(s, e);
    if Inv(s) && Discreet(s, e) { StepKeeps(s, e); }
  }

  // ----- the main theorem -----

  /** Someone who is no longer a member holds the key of the current chain. */
  ghost predicate Leaked(s: State) {
    s.group.Some? && s.group.value.dist.Some? && !(Of(s.sealedTo, s.group.value.dist.value) <= Active(s.group.value))
  }

  /** The hook keeps the chain or starts a sound one, whatever the old one was. */
  lemma PostMutationRecovers(s: State, g: Group, sx: Effects, env: Env)
    requires Ledger(s) && Drawn(s, env)
    ensures
      var s' := PostMutation(s, g, sx, env);
      s'.group.Some? && (s'.group.value.dist == g.dist || ChainOk(s', s'.group.value))
  {
    var g' := if sx.clear then Clear(s, g, env) else g;
    ClearIsOk(s, g, env);
    if !g'.invited && sx.rotate && s.me in Active(g') {
      StartChainKeeps(s, g', env.next, env);
    } else if sx.clear && !g'.invited {
      EnsureKeeps(s, g', env);
    }
  }

  lemma ApplyOpsRecovers(s: State, g: Group, ops: seq<SignedOp>, env: Env)
    requires Ledger(s) && s.group == Some(g) && Drawn(s, env)
    ensures
      var s' := ApplyOps(s, g, ops, env);
      s'.group.Some? && (s'.group.value.dist == g.dist || ChainOk(s', s'.group.value))
  {
    var a := Applied(g, Effects(false, false));
    DrainRecipients(a, s.me, ops);
    var b := Drain(a, s.me, ops);
    PostMutationRecovers(s, b.group, b.effects, env);
  }

  lemma AcceptRecovers(s: State, g: Group, env: Env)
    requires Ledger(s) && s.group == Some(g) && Drawn(s, env)
    ensures
      var s' := AcceptInvitation(s, g, env);
      s'.group.Some? && (s'.group.value.dist == g.dist || ChainOk(s', s'.group.value))
  {
    if g.invited && s.me in Active(g) && g.dist.None? {
      EnrolledActive(g, s.me);
      var g' := MarkEnrolled(g, s.me).(invited := false);
      assert Active(g') == Active(MarkEnrolled(g, s.me));
      StartChainKeeps(s, g', env.next, env);
    }
  }

  /** Every discreet handler drops the group, keeps its chain or starts a sound one. */
  lemma HandlerRecovers(s: State, g: Group, e: Event)
    requires Base(s) && s.group == Some(g) && (HasEnv(e) ==> Drawn(s, e.env)) && Discreet(s, e)
    ensures
      var s' := Handle(s, g, e);
      s'.group.None? || s'.group.value.dist == g.dist || ChainOk(s', s'.group.value)
  {
    match e {
      case Accept(env) => AcceptRecovers(s, g, env);
      case Invite(peer, env) => ApplyOpsRecovers(s, g, [SignedOp(s.me, AddMember(peer, Plain))], env);
      case Remove(peer, env) => ApplyOpsRecovers(s, g, [SignedOp(s.me, RemoveMember(peer))], env);
      case Administer(change, env) => ApplyOpsRecovers(s, g, [SignedOp(s.me, change)], env);
      case Incoming(ops, env) => ApplyOpsRecovers(s, g, ops, env);
      case KeyArrives(sender, binds, env) =>
        PostMutationRecovers(s, MarkEnrolled(g, sender), Effects(false, false), env);
      case Rotate(env) => if s.me in Active(g) { RotateStarts(s, g, env); }
      case _ =>
    }
  }

  lemma StepRecovers(s: State, e: Event)
    requires Base(s) && Legal(s, e) && Discreet(s, e) && Step(s, e).group.Some?
    ensures
      var s' := Step(s, e);
      || ChainOk(s', s'.group.value)
      || (s.group.Some? && !ChainOk(s, s.group.value) && s'.group.value.dist == s.group.value.dist)
  {
    if s.group.None? || ChainOk(s, s.group.value) {
      StepKeeps(s, e);
    } else {
      var s1 := if HasEnv(e) then Draw(s, e.env) else s;
      if HasEnv(e) { DrawBase(s, e.env); }
      HandlerRecovers(s1, s.group.value, e);
    }
  }

  /** The chain was started by a rotation that sent its key out while the invitation was pending. */
  ghost predicate StartedEarly(states: seq<State>, events: seq<Event>, n: nat, d: nat)
    requires n <= |events| <= |states|
  {
    exists i :: 0 <= i < n && events[i].Rotate? && !Discreet(states[i], events[i]) && events[i].env.next == d
  }

  lemma {:induction false} UnsoundChainHasCause(states: seq<State>, events: seq<Event>, n: nat)
    requires IsRun(states, events) && n <= |events| && states[n].group.Some?
    ensures
      var g := states[n].group.value;
      ChainOk(states[n], g) || (g.dist.Some? && StartedEarly(states, events, n, g.dist.value))
    decreases n
  {
    if n > 0 {
      var s, e := states[n - 1], events[n - 1];
      RecordFollowsSealing(states, events, n - 1);
      if s.group.Some? { UnsoundChainHasCause(states, events, n - 1); }
      if Discreet(s, e) { StepRecovers(s, e); }
    }
  }

  /** Between handlers of every run, across create, join, invite, remove, re-add, rotate, resend and
      leave: `recipients` names only peers the current chain's key was sealed to, and every peer it was
      ever sealed to or sent to is an active member, unless this very chain was started by a rotation
      that sent its key to someone before the invitation was answered. */
  lemma CurrentKeyStaysInside(states: seq<State>, events: seq<Event>, n: nat)
    requires IsRun(states, events) && n <= |events| && states[n].group.Some? && states[n].group.value.dist.Some?
    ensures
      var s, g := states[n], states[n].group.value;
      && g.recipients <= Of(s.sealedTo, g.dist.value)
      && Of(s.wire, g.dist.value) <= Of(s.sealedTo, g.dist.value)
      && (Leaked(s) ==> StartedEarly(states, events, n, g.dist.value))
  {
    RecordFollowsSealing(states, events, n);
    UnsoundChainHasCause(states, events, n);
  }

  // ----- recorded is not the same as sent -----

  /** Everyone recorded as having our key was sent it. */
  ghost predicate Honest(s: State) {
    s.group.Some? && s.group.value.dist.Some? ==> s.group.value.recipients <= Of(s.wire, s.group.value.dist.value)
  }

  /** One broadcast keeps the record honest exactly when a relay is ready, or nobody new is sealed to. */
  lemma BroadcastHonestIff(s: State, g: Group, d: nat, targets: set<Bytes>, env: Env)
    requires g.dist == Some(d) && g.recipients <= Of(s.wire, d)
    ensures Honest(Broadcast(s, g, d, targets, env)) <==> env.up || targets * env.Seals() <= Of(s.wire, d)
  {
  }

  /** Rotating with no relay ready records members who were sent nothing, and the next key that
      arrives does not make up for it. */
  lemma RecordedButNeverSent(s: State, peer: Bytes, sender: Bytes, env: Env, later: Env)
    requires Base(s) && s.group.Some? && !s.group.value.invited && s.me in Active(s.group.value)
    requires Fresh(s, env) && !env.up && peer in Others(s, s.group.value) && peer in env.Seals()
    requires Fresh(Step(s, Rotate(env)), later)
    ensures
      var s' := Step(Step(s, Rotate(env)), KeyArrives(sender, true, later));
      && s'.group.value.dist == Some(env.next)
      && peer in s'.group.value.recipients && peer !in Of(s'.wire, env.next)
  {
    var s1 := Step(s, Rotate(env));
    assert env.next !in s1.wire;
    assert peer in s1.group.value.recipients;
    EnrolledActive(s1.group.value, sender);
  }

  lemma PostMutationHonest(s: State, a: Applied, env: Env)
    requires Ledger(s) && Drawn(s, env) && env.up
    requires a.group.dist.Some? ==> a.group.recipients <= Of(s.wire, a.group.dist.value)
    ensures Honest(PostMutation(s, a.group, a.effects, env))
  {
  }

  lemma {:induction false} DrainRecipients(a: Applied, me: Bytes, ops: seq<SignedOp>)
    ensures var a' := Drain(a, me, ops);
      a'.group.dist == a.group.dist && a'.group.recipients <= a.group.recipients
    decreases |ops|
  {
    if ops != [] { DrainRecipients(a, me, ops[..|ops| - 1]); }
  }

  lemma ApplyOpsHonest(s: State, g: Group, ops: seq<SignedOp>, env: Env)
    requires Base(s) && Honest(s) && s.group == Some(g) && Drawn(s, env) && env.up
    ensures Honest(ApplyOps(s, g, ops, env))
  {
    var a := Applied(g, Effects(false, false));
    DrainRecipients(a, s.me, ops);
    PostMutationHonest(s, Drain(a, s.me, ops), env);
  }

  lemma HandleHonest(s: State, g: Group, e: Event)
    requires Base(s) && Honest(s) && s.group == Some(g) && (HasEnv(e) ==> Drawn(s, e.env) && e.env.up)
    ensures Honest(Handle(s, g, e))
  {
    match e {
      case Invite(peer, env) => ApplyOpsHonest(s, g, [SignedOp(s.me, AddMember(peer, Plain))], env);
      case Remove(peer, env) => ApplyOpsHonest(s, g, [SignedOp(s.me, RemoveMember(peer))], env);
      case Administer(change, env) => ApplyOpsHonest(s, g, [SignedOp(s.me, change)], env);
      case Incoming(ops, env) => ApplyOpsHonest(s, g, ops, env);
      case KeyArrives(sender, binds, env) =>
        PostMutationHonest(s, Applied(MarkEnrolled(g, sender), Effects(false, false)), env);
      case _ =>
    }
  }

  /** With a relay ready the hook keeps the chain or starts one whose record is honest. */
  lemma PostMutationConnected(s: State, g: Group, sx: Effects, env: Env)
    requires Ledger(s) && Drawn(s, env) && env.up
    ensures
      var s' := PostMutation(s, g, sx, env);
      s'.group.Some? && (s'.group.value.dist == g.dist || Honest(s'))
  {
  }

  lemma ApplyOpsConnected(s: State, g: Group, ops: seq<SignedOp>, env: Env)
    requires Ledger(s) && s.group == Some(g) && Drawn(s, env) && env.up
    ensures
      var s' := ApplyOps(s, g, ops, env);
      s'.group.Some? && (s'.group.value.dist == g.dist || Honest(s'))
  {
    var a := Applied(g, Effects(false, false));
    DrainRecipients(a, s.me, ops);
    var b := Drain(a, s.me, ops);
    PostMutationConnected(s, b.group, b.effects, env);
  }

  lemma HandlerConnected(s: State, g: Group, e: Event)
    requires Base(s) && s.group == Some(g) && (HasEnv(e) ==> Drawn(s, e.env) && e.env.up)
    ensures
      var s' := Handle(s, g, e);
      s'.group.None? || s'.group.value.dist == g.dist || Honest(s')
  {
    match e {
      case Invite(peer, env) => ApplyOpsConnected(s, g, [SignedOp(s.me, AddMember(peer, Plain))], env);
      case Remove(peer, env) => ApplyOpsConnected(s, g, [SignedOp(s.me, RemoveMember(peer))], env);
      case Administer(change, env) => ApplyOpsConnected(s, g, [SignedOp(s.me, change)], env);
      case Incoming(ops, env) => ApplyOpsConnected(s, g, ops, env);
      case KeyArrives(sender, binds, env) =>
        PostMutationConnected(s, MarkEnrolled(g, sender), Effects(false, false), env);
      case _ =>
    }
  }

  /** Some handler ran with no relay ready and left the chain in place. */
  ghost predicate WentOffline(states: seq<State>, events: seq<Event>, n: nat, d: nat)
    requires n <= |events| < |states|
  {
    exists i :: 0 <= i < n && HasEnv(events[i]) && !events[i].env.up
      && states[i + 1].group.Some? && states[i + 1].group.value.dist == Some(d)
  }

  /** In every run the record names only peers sent the current key, unless some handler had no relay
      while this very chain was in place. */
  lemma {:induction false} RecordIsHonestUnlessOffline(states: seq<State>, events: seq<Event>, n: nat)
    requires IsRun(states, events) && n <= |events|
    ensures
      || Honest(states[n])
      || (&& states[n].group.Some? && states[n].group.value.dist.Some?
          && WentOffline(states, events, n, states[n].group.value.dist.value))
    decreases n
  {
    if n > 0 {
      var s, e := states[n - 1], events[n - 1];
      RecordIsHonestUnlessOffline(states, events, n - 1);
      RecordFollowsSealing(states, events, n - 1);
      if HasEnv(e) ==> e.env.up {
        var s1 := if HasEnv(e) then Draw(s, e.env) else s;
        if HasEnv(e) { DrawBase(s, e.env); }
        if s.group.Some? {
          HandlerConnected(s1, s.group.value, e);
          if Honest(s) { HandleHonest(s1, s.group.value, e); }
        }
      } else if !Honest(states[n]) {
        assert states[n].group.value.dist.Some?;
      }
    }
  }

  // ----- reach -----

  /** The hook leaves no active member without our key, when every seal succeeds. */
  lemma HookReachesEveryone(s: State, g: Group, sx: Effects, env: Env)
    requires !g.invited && Active(g) <= env.Seals() && (sx.rotate ==> s.me in Active(g))
    ensures
      var g' := PostMutation(s, g, sx, env).group.value;
      g'.dist.Some? ==> Others(s, g') <= g'.recipients
    ensures Active(PostMutation(s, g, sx, env).group.value) == Active(g)
  {
  }

  /** When every seal succeeds, a rotation, a resend and an acceptance each reach every other active
      member; with a relay ready the key is on the wire to all of them. */
  lemma BroadcastsReachEveryone(s: State, g: Group, env: Env)
    requires Active(g) <= env.Seals()
    ensures s.me in Active(g) ==> Reached(s, RotateChain(s, g, env), g, env.next, env)
    ensures g.dist.Some? && !g.invited ==> Reached(s, ResendKeys(s, g, env), g, g.dist.value, env)
    ensures g.dist.None? && g.invited && s.me in Active(g) ==> Reached(s, AcceptInvitation(s, g, env), g, env.next, env)
  {
    EnrolledActive(g, s.me);
    assert Active(MarkEnrolled(g, s.me).(invited := false)) == Active(g);
  }

  ghost predicate Reached(s: State, s': State, g: Group, dist: nat, env: Env) {
    && s'.group.Some? && s'.group.value.dist == Some(dist) && Active(s'.group.value) == Active(g)
    && s'.group.value.recipients == Others(s, g)
    && (env.up ==> Others(s, g) <= Of(s'.wire, dist))
  }

  /** Removing a member starts a chain whose key that member was never sent. */
  lemma RemovalStartsFreshChain(s: State, g: Group, op: SignedOp, env: Env)
    requires Inv(s) && s.group == Some(g) && Fresh(s, env) && env.up && Accepts(g, op) && op.change.RemoveMember?
    requires op.change.peer != s.me && s.me in Active(g) && !g.invited
    ensures
      var s' := Step(s, Incoming([op], env));
      && s'.group.value.dist == Some(env.next) && s'.group.value.dist != g.dist
      && op.change.peer !in Of(s'.sealedTo, env.next)
  {
    var a := Applied(g, Effects(false, false));
    assert [op][..0] == [] && Drain(a, s.me, []) == a;
    assert Drain(a, s.me, [op]) == ApplyOne(a, s.me, op);
    StepKeeps(s, Incoming([op], env));
    ActiveAfter(g, op);
  }

  // ----- rotating before answering an invitation -----

  lemma InvitedRotation(s: State, g: Group, env: Env)
    requires s.group == Some(g) && g.invited && s.me in Active(g)
    ensures
      var s' := Step(s, Rotate(env));
      && s'.me == s.me && s'.group.Some? && s'.group.value.members == g.members && s'.group.value.invited
      && s'.group.value.dist == Some(env.next) && Others(s, g) * env.Seals() <= Of(s'.sealedTo, env.next)
  {
  }

  /** While invited, applying operations that do not remove us only changes the member list. */
  lemma InvitedApply(s: State, g: Group, ops: seq<SignedOp>, env: Env)
    requires s.group == Some(g) && g.invited && env.up && ops != [] && Accepts(g, ops[0])
    requires !Drain(Applied(g, Effects(false, false)), s.me, ops).effects.clear
    ensures
      var s' := Step(s, Incoming(ops, env));
      && s'.group == Some(Drain(Applied(g, Effects(false, false)), s.me, ops).group) && s'.sealedTo == s.sealedTo
  {
    DrainRecipients(Applied(g, Effects(false, false)), s.me, ops);
    DrainInvited(Applied(g, Effects(false, false)), s.me, ops);
  }

  lemma {:induction false} DrainInvited(a: Applied, me: Bytes, ops: seq<SignedOp>)
    ensures Drain(a, me, ops).group.invited == a.group.invited
    decreases |ops|
  {
    if ops != [] { DrainInvited(a, me, ops[..|ops| - 1]); }
  }

  lemma DrainOne(a: Applied, me: Bytes, op: SignedOp)
    ensures Drain(a, me, [op]) == ApplyOne(a, me, op)
  {
    assert [op][..0] == [] && Drain(a, me, []) == a;
  }

  lemma DrainTwo(a: Applied, me: Bytes, first: SignedOp, second: SignedOp)
    ensures Drain(a, me, [first, second]) == ApplyOne(ApplyOne(a, me, first), me, second)
  {
    assert [first, second][..1] == [first];
    DrainOne(a, me, first);
  }

  /** Operations that take `peer` out of the group: a removal, by the peer itself if it is the only
      admin and after it made us one. */
  lemma RemovalExists(g: Group, me: Bytes, peer: Bytes) returns (ops: seq<SignedOp>)
    requires Admins(g) != {} && me in Active(g) && peer in Active(g) && peer != me
    ensures ops != [] && Accepts(g, ops[0])
    ensures
      var a := Drain(Applied(g, Effects(false, false)), me, ops);
      !a.effects.clear && peer !in Active(a.group)
  {
    if LastAdmin(g, peer) {
      var promote, remove := SignedOp(peer, Promote(me)), SignedOp(peer, RemoveMember(peer));
      ops := [promote, remove];
      PromotedInstead(g, me, peer);
      DrainTwo(Applied(g, Effects(false, false)), me, promote, remove);
      ActiveAfter(Mutate(g, promote), remove);
    } else {
      var admin :| admin in Admins(g);
      var remove := SignedOp(admin, RemoveMember(peer));
      ops := [remove];
      DrainOne(Applied(g, Effects(false, false)), me, remove);
      ActiveAfter(g, remove);
    }
  }

  /** The only admin may step down once it has promoted someone. */
  lemma PromotedInstead(g: Group, me: Bytes, peer: Bytes)
    requires LastAdmin(g, peer) && me in Active(g) && peer in Active(g) && peer != me
    ensures Accepts(g, SignedOp(peer, Promote(me)))
    ensures Accepts(Mutate(g, SignedOp(peer, Promote(me))), SignedOp(peer, RemoveMember(peer)))
  {
    AfterPromotion(g, peer, me);
    TwoAdmins(Admins(g), peer, me);
  }

  lemma AfterPromotion(g: Group, operator: Bytes, peer: Bytes)
    requires operator in Admins(g) && peer in Active(g)
    ensures
      var g' := Mutate(g, SignedOp(operator, Promote(peer)));
      Admins(g') == Admins(g) + {peer} && Active(g') == Active(g)
  {
  }

  lemma TwoAdmins(admins: set<Bytes>, peer: Bytes, other: Bytes)
    requires |admins| == 1 && peer in admins && other != peer
    ensures |admins + {other}| == 2
  {
    assert |admins - {peer}| == 0;
    assert other !in admins - {peer};
  }

  /** A rotation before the invitation is answered makes a leak possible exactly when it sends the key
      to someone: then some incoming operations leave a removed member with the current key, and
      otherwise none do. */
  lemma RotateWhileInvitedIff(s: State, g: Group, env: Env, later: Env)
    requires Inv(s) && s.group == Some(g) && g.invited && s.me in Active(g) && Admins(g) != {}
    requires Fresh(s, env) && Fresh(Step(s, Rotate(env)), later) && later.up
    ensures (exists ops :: Leaked(Step(Step(s, Rotate(env)), Incoming(ops, later)))) <==> !Discreet(s, Rotate(env))
  {
    if Discreet(s, Rotate(env)) {
      StepKeeps(s, Rotate(env));
      forall ops ensures !Leaked(Step(Step(s, Rotate(env)), Incoming(ops, later))) {
        StepKeeps(Step(s, Rotate(env)), Incoming(ops, later));
      }
    } else {
      var peer :| peer in Others(s, g) * env.Seals();
      var ops := RotateWhileInvitedLeaks(s, g, env, later, peer);
    }
  }

  /** Whoever was sent that key can be removed and keep it. */
  lemma RotateWhileInvitedLeaks(s: State, g: Group, env: Env, later: Env, peer: Bytes) returns (ops: seq<SignedOp>)
    requires s.group == Some(g) && g.invited && s.me in Active(g) && Admins(g) != {} && later.up
    requires peer in Others(s, g) * env.Seals()
    ensures
      var s' := Step(Step(s, Rotate(env)), Incoming(ops, later));
      && Leaked(s') && s'.group.value.dist == Some(env.next)
      && peer in Of(s'.sealedTo, env.next) && peer !in Active(s'.group.value)
  {
    var s1 := Step(s, Rotate(env));
    InvitedRotation(s, g, env);
    var g1 := s1.group.value;
    assert Active(g1) == Active(g) && Admins(g1) == Admins(g);
    ops := RemovalExists(g1, s.me, peer);
    InvitedApply(s1, g1, ops, later);
    DrainRecipients(Applied(g1, Effects(false, false)), s.me, ops);
  }

  // ----- the member list -----

  /** Someone can still administer the group, and it is within its size limit. */
  ghost predicate Governed(g: Group) { Admins(g) != {} && |Active(g)| <= MAX_MEMBERS }

  lemma MutateGoverned(g: Group, op: SignedOp)
    requires Governed(g) && Accepts(g, op)
    ensures Governed(Mutate(g, op))
  {
    ActiveAfter(g, op);
    var g' := Mutate(g, op);
    match op.change {
      case AddMember(peer, _) =>
        var p :| p in Admins(g);
        assert p in Active(g) && p in Admins(g');
      case RemoveMember(peer) => AdminLeft(g, g', peer);
      case Demote(peer) => AdminLeft(g, g', peer);
      case Promote(peer) => assert peer in Admins(g');
      case _ =>
    }
  }

  lemma AdminLeft(g: Group, g': Group, peer: Bytes)
    requires Admins(g) != {} && !LastAdmin(g, peer) && Admins(g') == Admins(g) - {peer}
    ensures Admins(g') != {}
  {
    if peer in Admins(g) {
      assert |Admins(g')| == |Admins(g)| - 1;
    }
  }

  lemma {:induction false} DrainGoverned(a: Applied, me: Bytes, ops: seq<SignedOp>)
    requires Governed(a.group)
    ensures Governed(Drain(a, me, ops).group)
    decreases |ops|
  {
    if ops != [] {
      DrainGoverned(a, me, ops[..|ops| - 1]);
      var mid := Drain(a, me, ops[..|ops| - 1]);
      if Accepts(mid.group, ops[|ops| - 1]) { MutateGoverned(mid.group, ops[|ops| - 1]); }
    }
  }

  lemma SameMembersGoverned(g: Group, g': Group)
    requires Governed(g) && g'.members == g.members
    ensures Governed(g')
  {
    assert Active(g') == Active(g) && Admins(g') == Admins(g);
  }

  lemma PostMutationMembers(s: State, g: Group, sx: Effects, env: Env)
    ensures PostMutation(s, g, sx, env).group.Some? && PostMutation(s, g, sx, env).group.value.members == g.members
  {
  }

  lemma ApplyOpsGoverned(s: State, g: Group, ops: seq<SignedOp>, env: Env)
    requires s.group == Some(g) && Governed(g)
    ensures ApplyOps(s, g, ops, env).group.Some? && Governed(ApplyOps(s, g, ops, env).group.value)
  {
    var a := Applied(g, Effects(false, false));
    DrainGoverned(a, s.me, ops);
    var b := Drain(a, s.me, ops);
    PostMutationMembers(s, b.group, b.effects, env);
    SameMembersGoverned(b.group, PostMutation(s, b.group, b.effects, env).group.value);
  }

  lemma HandleGoverned(s: State, g: Group, e: Event)
    requires s.group == Some(g) && Governed(g)
    ensures Handle(s, g, e).group.Some? ==> Governed(Handle(s, g, e).group.value)
  {
    var s' := Handle(s, g, e);
    match e {
      case Invite(peer, env) => ApplyOpsGoverned(s, g, [SignedOp(s.me, AddMember(peer, Plain))], env);
      case Remove(peer, env) => ApplyOpsGoverned(s, g, [SignedOp(s.me, RemoveMember(peer))], env);
      case Administer(change, env) => ApplyOpsGoverned(s, g, [SignedOp(s.me, change)], env);
      case Incoming(ops, env) => ApplyOpsGoverned(s, g, ops, env);
      case KeyArrives(sender, binds, env) =>
        EnrolledActive(g, sender);
        PostMutationMembers(s, MarkEnrolled(g, sender), Effects(false, false), env);
        if s'.group.value.members != g.members { SameMembersGoverned(MarkEnrolled(g, sender), s'.group.value); }
        else { SameMembersGoverned(g, s'.group.value); }
      case Accept(env) =>
        EnrolledActive(g, s.me);
        if s'.group.value.members != g.members { SameMembersGoverned(MarkEnrolled(g, s.me), s'.group.value); }
        else { SameMembersGoverned(g, s'.group.value); }
      case _ => if s'.group.Some? { SameMembersGoverned(g, s'.group.value); }
    }
  }

  lemma {:induction false} FewInvited(invitees: seq<Bytes>)
    ensures |Invited(invitees)| <= |invitees|
    decreases |invitees|
  {
    if invitees != [] {
      var front, last := invitees[..|invitees| - 1], invitees[|invitees| - 1];
      FewInvited(front);
      assert Invited(invitees) == Invited(front) + {last} by { assert invitees == front + [last]; }
    }
  }

  lemma CreateGoverned(s: State, named: bool, invitees: seq<Bytes>, env: Env)
    requires s.group.None?
    ensures var s' := CreateGroup(s, named, invitees, env); s'.group.Some? ==> Governed(s'.group.value)
  {
    if CanCreate(s.me, named, invitees, env) {
      var g := Group(NewMembers(s.me, invitees), Some(env.next), {}, false);
      NewMembersActive(s.me, invitees, g);
      FewInvited(invitees);
      SameMembersGoverned(g, CreateGroup(s, named, invitees, env).group.value);
    }
  }

  lemma InvitationGoverned(s: State, members: map<Bytes, Member>, operator: Bytes)
    requires s.group.None?
    ensures var s' := ReceiveInvitation(s, members, operator); s'.group.Some? ==> Governed(s'.group.value)
  {
    var g := Group(members, None, {}, true);
    SubsetIsSmaller(Active(g), members.Keys);
  }

  lemma {:induction false} SubsetIsSmaller(a: set<Bytes>, b: set<Bytes>)
    requires a <= b
    ensures |a| <= |b|
    decreases a
  {
    if p :| p in a { SubsetIsSmaller(a - {p}, b - {p}); }
  }

  /** In every run the group keeps an active admin and at most fifty active members. */
  lemma {:induction false} GroupStaysGoverned(states: seq<State>, events: seq<Event>, n: nat)
    requires IsRun(states, events) && n <= |events|
    ensures states[n].group.Some? ==> Governed(states[n].group.value)
    decreases n
  {
    if n > 0 {
      GroupStaysGoverned(states, events, n - 1);
      var s, e := states[n - 1], events[n - 1];
      var s' := if HasEnv(e) then Draw(s, e.env) else s;
      match s.group {
        case Some(g) => HandleGoverned(s', g, e);
        case None =>
          if e.Create? { CreateGoverned(s', e.named, e.invitees, e.env); }
          if e.Invitation? { InvitationGoverned(s', e.members, e.operator); }
      }
    }
  }
}
