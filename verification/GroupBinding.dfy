/** Which group a sender's distribution id belongs to: the current binding, a short history of
    superseded ones, and the gates that keep one id out of two groups. */
module GroupBinding {
  import opened Wire

  const HISTORY_DEPTH := 4

  datatype Group = Group(members: set<Bytes>, current: map<Bytes, nat>, past: map<Bytes, seq<nat>>) {
    function Past(sender: Bytes): seq<nat> { if sender in past then past[sender] else [] }

    predicate Accepts(sender: Bytes, dist: nat) {
      (sender in current && current[sender] == dist) || dist in Past(sender)
    }
  }

  type Groups = map<Bytes, Group>

  function Trim(history: seq<nat>): seq<nat> {
    if |history| > HISTORY_DEPTH then history[|history| - HISTORY_DEPTH..] else history
  }

  /** `recordSupersededDistId`: deduplicated, oldest out first. */
  function Supersede(g: Group, sender: Bytes, old_: nat): Group {
    if old_ in g.Past(sender) then g
    else g.(past := g.past[sender := Trim(g.Past(sender) + [old_])])
  }

  /** `setMemberDistId`. */
  function Bind(g: Group, sender: Bytes, dist: nat): Group {
    var g' := if sender in g.current && g.current[sender] != dist then Supersede(g, sender, g.current[sender]) else g;
    g'.(current := g'.current[sender := dist])
  }

  function Unbind(g: Group, sender: Bytes): Group {
    g.(members := g.members - {sender}, current := g.current - {sender}, past := g.past - {sender})
  }

  /** `distributionIdCollidesAcrossGroups`. */
  predicate Collides(groups: Groups, target: Bytes, sender: Bytes, dist: nat) {
    exists id :: id in groups && id != target && groups[id].Accepts(sender, dist)
  }

  // ----- handlers -----

  datatype Event =
    | KeyArrives(group: Bytes, sender: Bytes, dist: nat)
    | RotateOp(group: Bytes, sender: Bytes, dist: nat)
    | MemberAdded(group: Bytes, peer: Bytes)
    | MemberRemoved(group: Bytes, peer: Bytes)
    | Joined(group: Bytes, members: set<Bytes>)
    | Dropped(group: Bytes)

  /** `handleGroupKeyDistribution`: unknown groups, outsiders and colliding ids are turned away. */
  function InstallKey(groups: Groups, id: Bytes, sender: Bytes, dist: nat): Groups {
    if id !in groups || sender !in groups[id].members || Collides(groups, id, sender, dist) then groups
    else groups[id := Bind(groups[id], sender, dist)]
  }

  /** A `RotateSenderKey` operation binds its id without the collision check. */
  function ApplyRotate(groups: Groups, id: Bytes, sender: Bytes, dist: nat): Groups {
    if id !in groups || sender !in groups[id].members then groups
    else groups[id := Bind(groups[id], sender, dist)]
  }

  function Step(groups: Groups, e: Event): Groups {
    match e
    case KeyArrives(id, sender, dist) => InstallKey(groups, id, sender, dist)
    case RotateOp(id, sender, dist) => ApplyRotate(groups, id, sender, dist)
    case MemberAdded(id, peer) =>
      if id !in groups || peer in groups[id].members then groups
      else groups[id := Unbind(groups[id], peer).(members := groups[id].members + {peer})]
    case MemberRemoved(id, peer) => if id in groups then groups[id := Unbind(groups[id], peer)] else groups
    case Joined(id, members) => if id in groups then groups else groups[id := Group(members, map[], map[])]
    case Dropped(id) => groups - {id}
  }

  /** The gates of `handleGroupChat`. */
  predicate Admits(groups: Groups, id: Bytes, sender: Bytes, dist: nat) {
    && id in groups && sender in groups[id].members
    && groups[id].Accepts(sender, dist) && !Collides(groups, id, sender, dist)
  }

  // ----- disjointness -----

  ghost predicate Disjoint(groups: Groups) {
    forall g, h, sender, dist ::
      (g in groups && h in groups && groups[g].Accepts(sender, dist) && groups[h].Accepts(sender, dist)) ==> g == h
  }

  /** The group accepts nothing it did not accept before, except possibly one new binding: true of
      an install under any eviction of the history. */
  ghost predicate GrowsBy(g: Group, g': Group, sender: Bytes, dist: nat) {
    forall p, d :: g'.Accepts(p, d) ==> g.Accepts(p, d) || (p == sender && d == dist)
  }

  lemma TrimKeepsSome(history: seq<nat>, d: nat)
    requires d in Trim(history)
    ensures d in history
  {
  }

  lemma BindGrows(g: Group, sender: Bytes, dist: nat)
    ensures GrowsBy(g, Bind(g, sender, dist), sender, dist)
    ensures Bind(g, sender, dist).Accepts(sender, dist)
  {
    var g' := Bind(g, sender, dist);
    forall p, d | g'.Accepts(p, d) ensures g.Accepts(p, d) || (p == sender && d == dist) {
      if p == sender && d in g'.Past(p) && d !in g.Past(p) {
        TrimKeepsSome(g.Past(sender) + [g.current[sender]], d);
      }
    }
  }

  lemma GrowthKeepsDisjoint(groups: Groups, id: Bytes, g': Group, sender: Bytes, dist: nat)
    requires Disjoint(groups) && id in groups && GrowsBy(groups[id], g', sender, dist)
    requires !Collides(groups, id, sender, dist)
    ensures Disjoint(groups[id := g'])
  {
  }

  lemma InstallKeepsDisjoint(groups: Groups, id: Bytes, sender: Bytes, dist: nat)
    requires Disjoint(groups)
    ensures Disjoint(InstallKey(groups, id, sender, dist))
  {
    if id in groups && sender in groups[id].members && !Collides(groups, id, sender, dist) {
      BindGrows(groups[id], sender, dist);
      GrowthKeepsDisjoint(groups, id, Bind(groups[id], sender, dist), sender, dist);
    }
  }

  /** A rotation operation keeps bindings disjoint exactly when its id is bound to the sender in no
      other group, which nothing on that path checks. */
  lemma RotateKeepsDisjointIff(groups: Groups, id: Bytes, sender: Bytes, dist: nat)
    requires Disjoint(groups) && id in groups && sender in groups[id].members
    ensures Disjoint(ApplyRotate(groups, id, sender, dist)) <==> !Collides(groups, id, sender, dist)
  {
    var groups' := ApplyRotate(groups, id, sender, dist);
    BindGrows(groups[id], sender, dist);
    if Collides(groups, id, sender, dist) {
      var other :| other in groups && other != id && groups[other].Accepts(sender, dist);
      assert groups'[other] == groups[other] && groups'[id].Accepts(sender, dist);
    } else {
      GrowthKeepsDisjoint(groups, id, Bind(groups[id], sender, dist), sender, dist);
    }
  }

  // ----- one sender and one id over whole runs -----

  /** The sender's id is bound in at most one group. */
  ghost predicate Unique(groups: Groups, sender: Bytes, dist: nat) {
    forall g, h ::
      (g in groups && h in groups && groups[g].Accepts(sender, dist) && groups[h].Accepts(sender, dist)) ==> g == h
  }

  /** The sender, a member of a known group, rotates to an id it has in another one. */
  ghost predicate Collision(groups: Groups, e: Event, sender: Bytes, dist: nat) {
    && e.RotateOp? && e.sender == sender && e.dist == dist
    && e.group in groups && sender in groups[e.group].members && Collides(groups, e.group, sender, dist)
  }

  /** One group replaced by one that accepts no more of this pair. */
  lemma NoNewBinding(groups: Groups, id: Bytes, g': Group, sender: Bytes, dist: nat)
    requires Unique(groups, sender, dist) && id in groups
    requires g'.Accepts(sender, dist) ==> groups[id].Accepts(sender, dist) || !Collides(groups, id, sender, dist)
    ensures Unique(groups[id := g'], sender, dist)
  {
  }

  lemma BindKeepsUnique(groups: Groups, id: Bytes, who: Bytes, what: nat, sender: Bytes, dist: nat)
    requires Unique(groups, sender, dist) && id in groups
    requires who == sender && what == dist ==> !Collides(groups, id, sender, dist)
    ensures Unique(groups[id := Bind(groups[id], who, what)], sender, dist)
  {
    BindGrows(groups[id], who, what);
    NoNewBinding(groups, id, Bind(groups[id], who, what), sender, dist);
  }

  /** Any event keeps a sender's id in at most one group, exactly unless it is a collision of that
      sender on that id. */
  lemma StepKeepsUniqueIff(groups: Groups, e: Event, sender: Bytes, dist: nat)
    requires Unique(groups, sender, dist)
    ensures Unique(Step(groups, e), sender, dist) <==> !Collision(groups, e, sender, dist)
  {
    match e {
      case KeyArrives(id, who, what) =>
        if id in groups && who in groups[id].members && !Collides(groups, id, who, what) {
          BindKeepsUnique(groups, id, who, what, sender, dist);
        }
      case RotateOp(id, who, what) =>
        if Collision(groups, e, sender, dist) {
          CollisionBreaks(groups, e, sender, dist);
        } else if id in groups && who in groups[id].members {
          BindKeepsUnique(groups, id, who, what, sender, dist);
        }
      case MemberAdded(id, peer) =>
        if id in groups {
          NoNewBinding(groups, id, Unbind(groups[id], peer).(members := groups[id].members + {peer}), sender, dist);
        }
      case MemberRemoved(id, peer) =>
        if id in groups { NoNewBinding(groups, id, Unbind(groups[id], peer), sender, dist); }
      case Joined(id, members) =>
        assert !Group(members, map[], map[]).Accepts(sender, dist);
      case Dropped(id) =>
    }
  }

  lemma CollisionBreaks(groups: Groups, e: Event, sender: Bytes, dist: nat)
    requires Collision(groups, e, sender, dist)
    ensures !Unique(Step(groups, e), sender, dist)
  {
    BindGrows(groups[e.group], sender, dist);
    var other :| other in groups && other != e.group && groups[other].Accepts(sender, dist);
    var groups' := Step(groups, e);
    assert groups'[other].Accepts(sender, dist) && groups'[e.group].Accepts(sender, dist);
  }

  ghost predicate IsRun(states: seq<Groups>, events: seq<Event>) {
    && |states| == |events| + 1
    && (forall i :: 0 <= i < |events| ==> states[i + 1] == Step(states[i], events[i]))
  }

  /** This sender collided on this id at some earlier event. */
  ghost predicate Collided(states: seq<Groups>, events: seq<Event>, n: nat, sender: Bytes, dist: nat)
    requires n <= |events| <= |states|
  {
    exists i :: 0 <= i < n && Collision(states[i], events[i], sender, dist)
  }

  /** Along every run of installs, rotations, joins, removals and re-adds, a sender's id stays bound in
      at most one group, superseded ids included, unless that sender collided on that id. */
  lemma {:induction false} RunKeepsUnique(states: seq<Groups>, events: seq<Event>, n: nat, sender: Bytes, dist: nat)
    requires IsRun(states, events) && Unique(states[0], sender, dist) && n <= |events|
    ensures Unique(states[n], sender, dist) || Collided(states, events, n, sender, dist)
    decreases n
  {
    if n > 0 {
      RunKeepsUnique(states, events, n - 1, sender, dist);
      if Unique(states[n - 1], sender, dist) { StepKeepsUniqueIff(states[n - 1], events[n - 1], sender, dist); }
    }
  }

  // ----- what the gates give -----

  /** Disjoint or not, no message is admitted in two groups. */
  lemma AtMostOneGroupAdmits(groups: Groups, g: Bytes, h: Bytes, sender: Bytes, dist: nat)
    requires Admits(groups, g, sender, dist) && Admits(groups, h, sender, dist)
    ensures g == h
  {
    assert g != h ==> Collides(groups, g, sender, dist);
  }

  /** The decrypt-time recheck never rejects what the per-group gate accepts, exactly when bindings
      are disjoint. */
  lemma RecheckIsRedundantIff(groups: Groups)
    ensures Disjoint(groups) <==>
      forall g, sender, dist :: g in groups && groups[g].Accepts(sender, dist) ==> !Collides(groups, g, sender, dist)
  {
  }

  /** So along every run the per-group gate alone decides for a sender and an id, unless that sender
      collided on that id. */
  lemma GateDecidesAlone(states: seq<Groups>, events: seq<Event>, n: nat, g: Bytes, sender: Bytes, dist: nat)
    requires IsRun(states, events) && Unique(states[0], sender, dist) && n <= |events| && g in states[n]
    ensures Admits(states[n], g, sender, dist) ==> sender in states[n][g].members && states[n][g].Accepts(sender, dist)
    ensures
      || Collided(states, events, n, sender, dist)
      || (sender in states[n][g].members && states[n][g].Accepts(sender, dist) ==> Admits(states[n], g, sender, dist))
  {
    RunKeepsUnique(states, events, n, sender, dist);
  }

  /** A colliding rotation lets no message into two groups; it silences the id in both. */
  lemma CollidingRotateSilencesBoth(groups: Groups, id: Bytes, sender: Bytes, dist: nat, g: Bytes)
    requires Disjoint(groups) && id in groups && sender in groups[id].members && Collides(groups, id, sender, dist)
    ensures !Admits(ApplyRotate(groups, id, sender, dist), g, sender, dist)
  {
    var groups' := ApplyRotate(groups, id, sender, dist);
    BindGrows(groups[id], sender, dist);
    var other :| other in groups && other != id && groups[other].Accepts(sender, dist);
    assert groups'[other].Accepts(sender, dist) && groups'[id].Accepts(sender, dist);
    if g == id { assert Collides(groups', g, sender, dist); }
  }

  // ----- how long a superseded id is remembered -----

  ghost predicate Distinct(ids: seq<nat>) { forall i, j :: 0 <= i < j < |ids| ==> ids[i] != ids[j] }

  /** Histories are short and name no id twice. */
  ghost predicate Tidy(g: Group) { forall p :: |g.Past(p)| <= HISTORY_DEPTH && Distinct(g.Past(p)) }

  lemma TrimTidy(history: seq<nat>, d: nat)
    requires Distinct(history) && d !in history
    ensures |Trim(history + [d])| <= HISTORY_DEPTH && Distinct(Trim(history + [d]))
  {
  }

  lemma BindTidy(g: Group, sender: Bytes, dist: nat)
    requires Tidy(g)
    ensures Tidy(Bind(g, sender, dist))
  {
    var g' := Bind(g, sender, dist);
    forall p ensures |g'.Past(p)| <= HISTORY_DEPTH && Distinct(g'.Past(p)) {
      assert |g.Past(p)| <= HISTORY_DEPTH && Distinct(g.Past(p));
      if p == sender && sender in g.current && g.current[sender] !in g.Past(sender) {
        TrimTidy(g.Past(sender), g.current[sender]);
      }
    }
  }

  lemma UnbindTidy(g: Group, peer: Bytes, members: set<Bytes>)
    requires Tidy(g)
    ensures Tidy(Unbind(g, peer).(members := members))
  {
    var g' := Unbind(g, peer).(members := members);
    forall p ensures |g'.Past(p)| <= HISTORY_DEPTH && Distinct(g'.Past(p)) {
      assert |g.Past(p)| <= HISTORY_DEPTH && Distinct(g.Past(p));
    }
  }

  ghost predicate AllTidy(groups: Groups) { forall id :: id in groups ==> Tidy(groups[id]) }

  lemma StepTidy(groups: Groups, e: Event)
    requires AllTidy(groups)
    ensures AllTidy(Step(groups, e))
  {
    if e.group in groups {
      var g := groups[e.group];
      match e {
        case KeyArrives(_, sender, dist) => BindTidy(g, sender, dist);
        case RotateOp(_, sender, dist) => BindTidy(g, sender, dist);
        case MemberAdded(_, peer) => UnbindTidy(g, peer, g.members + {peer});
        case MemberRemoved(_, peer) => UnbindTidy(g, peer, g.members - {peer});
        case _ =>
      }
    }
  }

  /** In every run every history stays within its depth and free of duplicates. */
  lemma {:induction false} RunTidy(states: seq<Groups>, events: seq<Event>, n: nat)
    requires IsRun(states, events) && AllTidy(states[0]) && n <= |events|
    ensures AllTidy(states[n])
    decreases n
  {
    if n > 0 {
      RunTidy(states, events, n - 1);
      StepTidy(states[n - 1], events[n - 1]);
    }
  }

  /** Rotate through `ids[1..k]`, starting from a binding to `ids[0]`. */
  function Rotations(g: Group, sender: Bytes, ids: seq<nat>, k: nat): Group
    requires k < |ids|
  {
    if k == 0 then g else Bind(Rotations(g, sender, ids, k - 1), sender, ids[k])
  }

  /** The history once `first` is superseded, before trimming: an id already in it is not added again. */
  function Seen(past: seq<nat>, first: nat): seq<nat> { if first in past then past else past + [first] }

  /** `ids[0]` is current, and the ids after it were never seen. */
  ghost predicate FreshRotations(g: Group, sender: Bytes, ids: seq<nat>) {
    && ids != [] && sender in g.current && g.current[sender] == ids[0]
    && (forall j :: 1 <= j < |ids| ==> ids[j] !in g.Past(sender)) && Distinct(ids)
  }

  ghost predicate Bound(g: Group, sender: Bytes, dist: nat, history: seq<nat>) {
    sender in g.current && g.current[sender] == dist && g.Past(sender) == Trim(history)
  }

  lemma BindStep(g: Group, sender: Bytes, history: seq<nat>, prior: nat, dist: nat)
    requires Bound(g, sender, prior, history) && prior !in history && dist != prior
    ensures Bound(Bind(g, sender, dist), sender, dist, history + [prior])
  {
    TrimSnoc(history, prior);
    assert prior in Trim(history) ==> prior in history;
  }

  lemma TrimSnoc(history: seq<nat>, d: nat)
    ensures Trim(Trim(history) + [d]) == Trim(history + [d])
  {
  }

  lemma FirstRotation(g: Group, sender: Bytes, ids: seq<nat>)
    requires Tidy(g) && FreshRotations(g, sender, ids) && |ids| > 1
    ensures Bound(Bind(g, sender, ids[1]), sender, ids[1], Seen(g.Past(sender), ids[0]))
  {
    assert |g.Past(sender)| <= HISTORY_DEPTH;
    assert ids[0] != ids[1];
  }

  /** The ids superseded after the first one. */
  function Later(ids: seq<nat>, k: nat): seq<nat> requires 1 <= k <= |ids| { ids[1..k] }

  lemma LaterSnoc(seen: seq<nat>, ids: seq<nat>, k: nat)
    requires 2 <= k <= |ids|
    ensures (seen + Later(ids, k - 1)) + [ids[k - 1]] == seen + Later(ids, k)
  {
  }

  lemma LaterIsNew(g: Group, sender: Bytes, ids: seq<nat>, k: nat, j: nat)
    requires FreshRotations(g, sender, ids) && 1 <= k <= j < |ids|
    ensures ids[j] !in Seen(g.Past(sender), ids[0]) + Later(ids, k)
  {
    assert ids[j] != ids[0] && forall i :: 0 <= i < |Later(ids, k)| ==> Later(ids, k)[i] == ids[i + 1];
  }

  lemma {:induction false} HistoryOf(g: Group, sender: Bytes, ids: seq<nat>, k: nat)
    requires Tidy(g) && FreshRotations(g, sender, ids) && 1 <= k < |ids|
    ensures Bound(Rotations(g, sender, ids, k), sender, ids[k], Seen(g.Past(sender), ids[0]) + Later(ids, k))
    decreases k
  {
    var seen := Seen(g.Past(sender), ids[0]);
    if k == 1 {
      FirstRotation(g, sender, ids);
      assert Rotations(g, sender, ids, 0) == g && seen + Later(ids, 1) == seen;
    } else {
      HistoryOf(g, sender, ids, k - 1);
      LaterIsNew(g, sender, ids, k - 1, k - 1);
      BindStep(Rotations(g, sender, ids, k - 1), sender, seen + Later(ids, k - 1), ids[k - 1], ids[k]);
      LaterSnoc(seen, ids, k);
    }
  }

  /** Trimming keeps exactly the last entries. */
  lemma TrimHas(history: seq<nat>, i: nat)
    requires i < |history| && forall j :: 0 <= j < |history| && j != i ==> history[j] != history[i]
    ensures history[i] in Trim(history) <==> |history| - HISTORY_DEPTH <= i
  {
    var drop := if |history| > HISTORY_DEPTH then |history| - HISTORY_DEPTH else 0;
    assert |Trim(history)| == |history| - drop;
    assert forall j :: 0 <= j < |Trim(history)| ==> Trim(history)[j] == history[drop + j];
    if drop <= i { assert Trim(history)[i - drop] == history[i]; }
  }

  /** The law of the history: after `k` rotations to new ids the first one is still accepted exactly
      while `k` is within what its place in the history leaves. */
  lemma RememberedFor(g: Group, sender: Bytes, ids: seq<nat>, k: nat, i: nat)
    requires Tidy(g) && FreshRotations(g, sender, ids) && 1 <= k < |ids|
    requires i < |Seen(g.Past(sender), ids[0])| && Seen(g.Past(sender), ids[0])[i] == ids[0]
    ensures Rotations(g, sender, ids, k).Accepts(sender, ids[0])
       <==> k <= HISTORY_DEPTH + 1 - |Seen(g.Past(sender), ids[0])| + i
  {
    var seen := Seen(g.Past(sender), ids[0]);
    var all := seen + Later(ids, k);
    HistoryOf(g, sender, ids, k);
    assert Distinct(g.Past(sender)) && Distinct(seen);
    forall j | 0 <= j < |all| && j != i ensures all[j] != all[i] {
      if j >= |seen| { assert all[j] == ids[j - |seen| + 1]; }
    }
    TrimHas(all, i);
    assert ids[k] != ids[0];
  }

  /** A message under an id new to the history survives exactly four further rotations. */
  lemma RemembersFourRotations(g: Group, sender: Bytes, ids: seq<nat>, k: nat)
    requires Tidy(g) && FreshRotations(g, sender, ids) && k < |ids| && ids[0] !in g.Past(sender)
    ensures Rotations(g, sender, ids, k).Accepts(sender, ids[0]) <==> k <= 4
  {
    if k > 0 { RememberedFor(g, sender, ids, k, |g.Past(sender)|); }
  }

  /** Under an id superseded before, it ages from that id's old place `i`: one rotation less for each
      entry after it, so as long as under a new id exactly when that place is the newest. */
  lemma ReusedIdAgesEarly(g: Group, sender: Bytes, ids: seq<nat>, k: nat, i: nat)
    requires Tidy(g) && FreshRotations(g, sender, ids) && k < |ids|
    requires i < |g.Past(sender)| && g.Past(sender)[i] == ids[0]
    ensures Rotations(g, sender, ids, k).Accepts(sender, ids[0])
       <==> k <= HISTORY_DEPTH - (|g.Past(sender)| - 1 - i)
  {
    if k > 0 {
      RememberedFor(g, sender, ids, k, i);
    } else {
      assert |g.Past(sender)| <= HISTORY_DEPTH;
    }
  }

  // ----- what each event leaves alone -----

  /** Binding moves one sender's id and keeps the one it replaces; every other sender is as before. */
  lemma BindMeaning(g: Group, sender: Bytes, dist: nat)
    ensures
      var g' := Bind(g, sender, dist);
      && g'.members == g.members && sender in g'.current && g'.current[sender] == dist
      && (sender in g.current ==> g'.Accepts(sender, g.current[sender]))
      && (forall p, d :: p != sender ==> (g'.Accepts(p, d) <==> g.Accepts(p, d)))
  {
    if sender in g.current && g.current[sender] != dist && g.current[sender] !in g.Past(sender) {
      var all := g.Past(sender) + [g.current[sender]];
      assert Trim(all)[|Trim(all)| - 1] == all[|all| - 1];
    }
  }

  /** A removed or dropped sender is admitted under no id, and a member added again starts with none;
      nobody else notices, and no other group does. */
  lemma MembershipMeaning(groups: Groups, e: Event, id: Bytes, sender: Bytes, dist: nat)
    requires id in groups && e.group == id && (e.MemberRemoved? || e.MemberAdded? || e.Dropped?)
    ensures
      var groups' := Step(groups, e);
      && (e.MemberRemoved? && e.peer == sender ==> !Admits(groups', id, sender, dist) && sender !in groups'[id].members)
      && (e.MemberAdded? && e.peer == sender && sender !in groups[id].members ==>
            sender in groups'[id].members && !groups'[id].Accepts(sender, dist))
      && (e.Dropped? ==> !Admits(groups', id, sender, dist))
      && (!e.Dropped? && e.peer != sender ==>
            && (sender in groups'[id].members <==> sender in groups[id].members)
            && (groups'[id].Accepts(sender, dist) <==> groups[id].Accepts(sender, dist)))
      && (forall g :: g in groups && g != id ==> g in groups' && groups'[g] == groups[g])
  {
  }

  /** A key is installed exactly for a member of a known group whose id is free; it changes that one
      group and binds that one id.  A rotation does the same without asking whether the id is free. */
  lemma InstallMeaning(groups: Groups, id: Bytes, sender: Bytes, dist: nat)
    ensures
      var member := id in groups && sender in groups[id].members;
      var installed, rotated := InstallKey(groups, id, sender, dist), ApplyRotate(groups, id, sender, dist);
      && (member && !Collides(groups, id, sender, dist) ==> installed == rotated)
      && (!member || Collides(groups, id, sender, dist) ==> installed == groups)
      && (member ==> id in rotated && rotated[id].Accepts(sender, dist))
      && (!member ==> rotated == groups)
      && (forall g :: g != id ==> (g in rotated <==> g in groups) && (g in groups ==> rotated[g] == groups[g]))
  {
    if id in groups { BindGrows(groups[id], sender, dist); }
  }

  /** A group joined has the members it lists and no binding; a group known already is left alone. */
  lemma JoinMeaning(groups: Groups, id: Bytes, members: set<Bytes>, sender: Bytes, dist: nat)
    ensures
      var groups' := Step(groups, Joined(id, members));
      && id in groups' && (id in groups ==> groups' == groups)
      && (id !in groups ==> groups'[id].members == members && !groups'[id].Accepts(sender, dist))
      && (forall g :: g in groups ==> g in groups' && groups'[g] == groups[g])
  {
  }

  // ----- the mutable form -----

  class Bindings {
    var groups: Groups

    constructor ()
      ensures groups == map[] && Disjoint(groups)
    {
      groups := map[];
    }

    /** `handleGroupKeyDistribution`. */
    method HandleKeyDistribution(id: Bytes, sender: Bytes, dist: nat) returns (installed: bool)
      requires Disjoint(groups)
      modifies this
      ensures groups == InstallKey(old(groups), id, sender, dist) && Disjoint(groups)
      ensures installed ==
        (id in old(groups) && sender in old(groups)[id].members && !Collides(old(groups), id, sender, dist))
      ensures installed ==> Admits(groups, id, sender, dist)
    {
      InstallKeepsDisjoint(groups, id, sender, dist);
      if id !in groups || sender !in groups[id].members { return false; }
      var collides := FindCollision(id, sender, dist);
      if collides { return false; }
      var g := groups[id];
      BindGrows(g, sender, dist);
      if sender in g.current && g.current[sender] != dist { g := RecordSuperseded(g, sender, g.current[sender]); }
      groups := groups[id := g.(current := g.current[sender := dist])];
      installed := true;
    }

    method RecordSuperseded(g: Group, sender: Bytes, prior: nat) returns (g': Group)
      ensures g' == Supersede(g, sender, prior)
    {
      var history := if sender in g.past then g.past[sender] else [];
      if prior in history { return g; }
      history := history + [prior];
      if |history| > HISTORY_DEPTH { history := history[|history| - HISTORY_DEPTH..]; }
      g' := g.(past := g.past[sender := history]);
    }

    method FindCollision(target: Bytes, sender: Bytes, dist: nat) returns (found: bool)
      ensures found == Collides(groups, target, sender, dist)
    {
      var todo := groups.Keys;
      while todo != {}
        invariant todo <= groups.Keys
        invariant forall id :: id in groups && id !in todo && id != target ==> !groups[id].Accepts(sender, dist)
        decreases todo
      {
        var id :| id in todo;
        if id != target && groups[id].Accepts(sender, dist) { return true; }
        todo := todo - {id};
      }
      found := false;
    }
  }
}
