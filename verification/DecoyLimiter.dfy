/** The rate limiter on decoy bundle responses to unknown peers. */
module DecoyLimiter {
  import opened Wire

  const PER_PEER_COOLDOWN := 21600.0
  const WINDOW := 60.0

  datatype Request = Request(peer: Bytes, at: real)
  datatype Limiter = Limiter(lastEmit: map<Bytes, real>, recent: seq<real>)

  const EMPTY := Limiter(map[], [])

  function Prune(recent: seq<real>, now: real): seq<real> {
    if recent == [] then []
    else
      var front := Prune(recent[..|recent| - 1], now);
      if now - recent[|recent| - 1] >= WINDOW then front else front + [recent[|recent| - 1]]
  }

  /** One request: the per-peer gate, then the pruned aggregate budget. */
  function Decide(l: Limiter, budget: nat, r: Request): (Limiter, bool) {
    if r.peer in l.lastEmit && r.at - l.lastEmit[r.peer] < PER_PEER_COOLDOWN then (l, false)
    else
      var recent := Prune(l.recent, r.at);
      if |recent| >= budget then (l.(recent := recent), false)
      else (Limiter(l.lastEmit[r.peer := r.at], recent + [r.at]), true)
  }

  class Decoys {
    var lastEmitByPeer: map<Bytes, real>
    var aggregateRecent: seq<real>
    const budget: nat

    ghost function Image(): Limiter reads this { Limiter(lastEmitByPeer, aggregateRecent) }

    constructor (budget: nat)
      ensures Image() == EMPTY && this.budget == budget
    {
      lastEmitByPeer, aggregateRecent := map[], [];
      this.budget := budget;
    }

    /** `emitBundleResponseDecoy` up to the point where the decoy is scheduled. */
    method Emit(peer: Bytes, now: real) returns (admitted: bool)
      modifies this
      ensures (Image(), admitted) == Decide(old(Image()), budget, Request(peer, now))
    {
      if peer in lastEmitByPeer && now - lastEmitByPeer[peer] < PER_PEER_COOLDOWN { return false; }
      var kept: seq<real> := [];
      for i := 0 to |aggregateRecent|
        invariant Image() == old(Image()) && kept == Prune(aggregateRecent[..i], now)
      {
        assert aggregateRecent[..i + 1][..i] == aggregateRecent[..i];
        if now - aggregateRecent[i] < WINDOW { kept := kept + [aggregateRecent[i]]; }
      }
      assert aggregateRecent[..|aggregateRecent|] == aggregateRecent;
      aggregateRecent := kept;
      if |aggregateRecent| >= budget { return false; }
      lastEmitByPeer := lastEmitByPeer[peer := now];
      aggregateRecent := aggregateRecent + [now];
      admitted := true;
    }
  }

  // ----- whole request sequences -----

  /** State and admitted requests after a sequence of requests. */
  function Run(budget: nat, requests: seq<Request>): (Limiter, seq<Request>) {
    if requests == [] then (EMPTY, [])
    else
      var (l, log) := Run(budget, requests[..|requests| - 1]);
      var (l', admitted) := Decide(l, budget, requests[|requests| - 1]);
      (l', if admitted then log + [requests[|requests| - 1]] else log)
  }

  ghost predicate Ordered(requests: seq<Request>) {
    forall i, j :: 0 <= i <= j < |requests| ==> requests[i].at <= requests[j].at
  }

  function Times(log: seq<Request>): (ts: seq<real>)
    ensures |ts| == |log| && forall i :: 0 <= i < |log| ==> ts[i] == log[i].at
  {
    seq(|log|, i requires 0 <= i < |log| => log[i].at)
  }

  /** Everything before `k` left the window by `now`; the rest is what the limiter remembers. */
  ghost predicate Remembered(l: Limiter, log: seq<Request>, k: nat, now: real) {
    k <= |log| && l.recent == Times(log[k..]) && forall i :: 0 <= i < k ==> now - log[i].at >= WINDOW
  }

  ghost predicate Spaced(log: seq<Request>, budget: nat) {
    forall i :: budget <= i < |log| ==> log[i].at - log[i - budget].at >= 60.0
  }

  ghost predicate CooledDown(log: seq<Request>) {
    forall i, j :: 0 <= i < j < |log| && log[i].peer == log[j].peer ==> log[j].at - log[i].at >= 21600.0
  }

  ghost predicate LastEmitCovers(l: Limiter, log: seq<Request>) {
    forall i :: 0 <= i < |log| ==> log[i].peer in l.lastEmit && log[i].at <= l.lastEmit[log[i].peer]
  }

  ghost predicate Inv(l: Limiter, log: seq<Request>, budget: nat, now: real) {
    && Ordered(log) && (forall i :: 0 <= i < |log| ==> log[i].at <= now)
    && (exists k :: Remembered(l, log, k, now))
    && Spaced(log, budget) && CooledDown(log) && LastEmitCovers(l, log)
  }

  /** Pruning an ordered list of times drops a prefix of it. */
  lemma {:induction false} PruneIsSuffix(times: seq<real>, now: real) returns (k: nat)
    requires forall i, j :: 0 <= i <= j < |times| ==> times[i] <= times[j]
    ensures k <= |times| && Prune(times, now) == times[k..]
    ensures forall i :: 0 <= i < k ==> now - times[i] >= WINDOW
    ensures forall i :: k <= i < |times| ==> now - times[i] < WINDOW
    decreases |times|
  {
    if times == [] { return 0; }
    var n := |times| - 1;
    k := PruneIsSuffix(times[..n], now);
    assert forall i :: 0 <= i < n ==> times[..n][i] == times[i] <= times[n];
    if now - times[n] >= WINDOW {
      assert k == n && times[..n][n..] == [];
      k := n + 1;
    } else {
      TakeDrop(times, k, n);
    }
  }

  lemma TakeDrop(times: seq<real>, k: nat, n: nat)
    requires k <= n == |times| - 1
    ensures times[k..] == times[..n][k..] + [times[n]]
  {
  }

  lemma PruneKeepsMemory(l: Limiter, log: seq<Request>, k: nat, before: real, now: real) returns (k': nat)
    requires Remembered(l, log, k, before) && before <= now && Ordered(log)
    ensures Remembered(l.(recent := Prune(l.recent, now)), log, k', now)
  {
    var j := PruneIsSuffix(l.recent, now);
    k' := k + j;
    assert log[k..][j..] == log[k'..];
    assert l.recent[j..] == Times(log[k'..]);
    forall i | 0 <= i < k' ensures now - log[i].at >= WINDOW {
      if i >= k { assert l.recent[i - k] == log[i].at; }
    }
  }

  lemma AdmitKeepsSpacing(log: seq<Request>, budget: nat, r: Request, k: nat)
    requires Spaced(log, budget) && k <= |log| && |log| - k < budget
    requires forall i :: 0 <= i < k ==> r.at - log[i].at >= WINDOW
    ensures Spaced(log + [r], budget)
  {
    var log' := log + [r];
    forall i | budget <= i < |log'| ensures log'[i].at - log'[i - budget].at >= WINDOW {
      if i == |log| { assert log'[i - budget] == log[i - budget]; }
    }
  }

  lemma AdmitKeepsCooldown(l: Limiter, log: seq<Request>, r: Request)
    requires CooledDown(log) && LastEmitCovers(l, log)
    requires r.peer !in l.lastEmit || r.at - l.lastEmit[r.peer] >= PER_PEER_COOLDOWN
    ensures CooledDown(log + [r])
  {
    var log' := log + [r];
    forall i, j | 0 <= i < j < |log'| && log'[i].peer == log'[j].peer
      ensures log'[j].at - log'[i].at >= PER_PEER_COOLDOWN
    {
      assert log'[i] == log[i];
    }
  }

  lemma AdmitKeepsOrder(log: seq<Request>, r: Request)
    requires Ordered(log) && forall i :: 0 <= i < |log| ==> log[i].at <= r.at
    ensures Ordered(log + [r]) && forall i :: 0 <= i < |log + [r]| ==> (log + [r])[i].at <= r.at
  {
  }

  lemma AdmitCovers(l: Limiter, log: seq<Request>, r: Request)
    requires LastEmitCovers(l, log) && forall i :: 0 <= i < |log| ==> log[i].at <= r.at
    ensures LastEmitCovers(l.(lastEmit := l.lastEmit[r.peer := r.at]), log + [r])
  {
    var l', log' := l.(lastEmit := l.lastEmit[r.peer := r.at]), log + [r];
    forall i | 0 <= i < |log'| ensures log'[i].peer in l'.lastEmit && log'[i].at <= l'.lastEmit[log'[i].peer] {
      if i < |log| { assert log'[i] == log[i]; }
    }
  }

  lemma AdmitRemembers(l: Limiter, log: seq<Request>, r: Request, k: nat)
    requires Remembered(l, log, k, r.at)
    ensures Remembered(Limiter(l.lastEmit[r.peer := r.at], l.recent + [r.at]), log + [r], k, r.at)
  {
    assert (log + [r])[k..] == log[k..] + [r];
  }

  lemma AdmitKeepsInv(l: Limiter, log: seq<Request>, budget: nat, before: real, r: Request, k: nat)
    requires Inv(l, log, budget, before) && before <= r.at
    requires r.peer !in l.lastEmit || r.at - l.lastEmit[r.peer] >= PER_PEER_COOLDOWN
    requires Remembered(l.(recent := Prune(l.recent, r.at)), log, k, r.at) && |Prune(l.recent, r.at)| < budget
    ensures Inv(Limiter(l.lastEmit[r.peer := r.at], Prune(l.recent, r.at) + [r.at]), log + [r], budget, r.at)
  {
    var pruned := l.(recent := Prune(l.recent, r.at));
    AdmitKeepsOrder(log, r);
    AdmitRemembers(pruned, log, r, k);
    AdmitKeepsSpacing(log, budget, r, k);
    AdmitKeepsCooldown(l, log, r);
    AdmitCovers(l, log, r);
  }

  /** A refusal changes no admitted request. */
  lemma RefuseKeepsInv(l: Limiter, l': Limiter, log: seq<Request>, budget: nat, before: real, now: real, k: nat)
    requires Inv(l, log, budget, before) && before <= now
    requires l'.lastEmit == l.lastEmit && Remembered(l', log, k, now)
    ensures Inv(l', log, budget, now)
  {
  }

  lemma DecideKeepsInv(l: Limiter, log: seq<Request>, budget: nat, before: real, r: Request)
    requires Inv(l, log, budget, before) && before <= r.at
    ensures Inv(Decide(l, budget, r).0, if Decide(l, budget, r).1 then log + [r] else log, budget, r.at)
  {
    var k :| Remembered(l, log, k, before);
    if r.peer in l.lastEmit && r.at - l.lastEmit[r.peer] < PER_PEER_COOLDOWN {
      RefuseKeepsInv(l, l, log, budget, before, r.at, k);
    } else {
      var k' := PruneKeepsMemory(l, log, k, before, r.at);
      if |Prune(l.recent, r.at)| < budget {
        AdmitKeepsInv(l, log, budget, before, r, k');
      } else {
        RefuseKeepsInv(l, l.(recent := Prune(l.recent, r.at)), log, budget, before, r.at, k');
      }
    }
  }

  lemma EmptyInv(budget: nat, now: real)
    ensures Inv(EMPTY, [], budget, now)
  {
    assert Remembered(EMPTY, [], 0, now);
  }

  lemma {:induction false} RunKeepsInv(budget: nat, requests: seq<Request>)
    requires Ordered(requests) && requests != []
    ensures Inv(Run(budget, requests).0, Run(budget, requests).1, budget, requests[|requests| - 1].at)
    decreases |requests|
  {
    var front, r := requests[..|requests| - 1], requests[|requests| - 1];
    if front == [] {
      EmptyInv(budget, r.at);
      assert Run(budget, front) == (EMPTY, []);
      DecideKeepsInv(EMPTY, [], budget, r.at, r);
    } else {
      RunKeepsInv(budget, front);
      DecideKeepsInv(Run(budget, front).0, Run(budget, front).1, budget, front[|front| - 1].at, r);
    }
  }

  /** Indices of the requests admitted in the half-open window starting at `t`. */
  ghost function InWindow(log: seq<Request>, t: real): set<nat> {
    set i: nat | i < |log| && t <= log[i].at < t + 60.0
  }

  ghost function Range(lo: nat, n: nat): (r: set<nat>)
    ensures |r| == n && forall i :: i in r <==> lo <= i < lo + n
  {
    if n == 0 then {} else Range(lo, n - 1) + {lo + n - 1}
  }

  lemma SubsetSize<T>(a: set<T>, b: set<T>)
    requires a <= b
    ensures |a| <= |b|
  {
    assert b == a + (b - a);
  }

  /** Two admissions with `budget` others from one to the next are a window apart. */
  lemma BudgetApart(log: seq<Request>, budget: nat, lo: nat)
    requires Ordered(log) && Spaced(log, budget)
    ensures forall i :: lo + budget <= i < |log| ==> log[i].at - log[lo].at >= WINDOW
  {
    forall i | lo + budget <= i < |log| ensures log[i].at - log[lo].at >= WINDOW {
      assert log[lo].at <= log[i - budget].at;
    }
  }

  lemma SpacedBoundsWindow(log: seq<Request>, budget: nat, t: real)
    requires Ordered(log) && Spaced(log, budget)
    ensures |InWindow(log, t)| <= budget
  {
    if InWindow(log, t) != {} {
      var lo := FirstInWindow(log, t);
      BudgetApart(log, budget, lo);
      SubsetSize(InWindow(log, t), Range(lo, budget));
    }
  }

  lemma FirstInWindow(log: seq<Request>, t: real) returns (lo: nat)
    requires InWindow(log, t) != {}
    ensures lo in InWindow(log, t) && forall i :: i in InWindow(log, t) ==> lo <= i
  {
    lo := 0;
    while lo !in InWindow(log, t)
      invariant lo <= |log| && forall i :: i in InWindow(log, t) ==> lo <= i
      decreases |log| - lo
    {
      lo := lo + 1;
    }
  }

  /** For any requests under a non-decreasing clock and any budget: no 60-second window admits more
      than the budget, and two decoys admitted for one peer are at least six hours apart. */
  lemma DecoysAreRateLimited(budget: nat, requests: seq<Request>)
    requires Ordered(requests)
    ensures forall t :: |InWindow(Run(budget, requests).1, t)| <= budget
    ensures CooledDown(Run(budget, requests).1)
  {
    var log := Run(budget, requests).1;
    if requests == [] {
      forall t ensures |InWindow(log, t)| <= budget { assert InWindow(log, t) == {}; }
    } else {
      RunKeepsInv(budget, requests);
      forall t ensures |InWindow(log, t)| <= budget { SpacedBoundsWindow(log, budget, t); }
    }
  }

  // ----- and no more than that is refused -----

  /** Admitted requests of the sixty seconds up to `now`. */
  ghost function Recent(log: seq<Request>, now: real): set<nat> {
    set i: nat | i < |log| && now - log[i].at < 60.0
  }

  lemma RecentCount(l: Limiter, log: seq<Request>, k: nat, before: real, now: real)
    requires Ordered(log) && Remembered(l, log, k, before) && before <= now
    ensures |Recent(log, now)| == |Prune(l.recent, now)|
  {
    var j := PruneIsSuffix(l.recent, now);
    forall i: nat ensures i in Recent(log, now) <==> k + j <= i < |log| {
      if k <= i < |log| { assert l.recent[i - k] == log[i].at; }
    }
    assert Recent(log, now) == Range(k + j, |log| - k - j);
  }

  /** Every remembered emission is an admitted request of that peer. */
  ghost predicate LastEmitFrom(l: Limiter, log: seq<Request>) {
    forall p :: p in l.lastEmit ==> Request(p, l.lastEmit[p]) in log
  }

  lemma {:induction false} RunFrom(budget: nat, requests: seq<Request>)
    ensures LastEmitFrom(Run(budget, requests).0, Run(budget, requests).1)
    decreases |requests|
  {
    if requests != [] {
      var front, r := requests[..|requests| - 1], requests[|requests| - 1];
      RunFrom(budget, front);
      DecideFrom(Run(budget, front).0, Run(budget, front).1, budget, r);
    }
  }

  lemma DecideFrom(l: Limiter, log: seq<Request>, budget: nat, r: Request)
    requires LastEmitFrom(l, log)
    ensures LastEmitFrom(Decide(l, budget, r).0, if Decide(l, budget, r).1 then log + [r] else log)
  {
  }

  /** The peer was sent a decoy less than six hours before. */
  ghost predicate TooSoon(log: seq<Request>, r: Request) {
    exists i :: 0 <= i < |log| && log[i].peer == r.peer && r.at - log[i].at < 21600.0
  }

  lemma CooldownGate(l: Limiter, log: seq<Request>, r: Request)
    requires LastEmitCovers(l, log) && LastEmitFrom(l, log)
    ensures r.peer in l.lastEmit && r.at - l.lastEmit[r.peer] < PER_PEER_COOLDOWN <==> TooSoon(log, r)
  {
    if r.peer in l.lastEmit && r.at - l.lastEmit[r.peer] < PER_PEER_COOLDOWN {
      var i :| 0 <= i < |log| && log[i] == Request(r.peer, l.lastEmit[r.peer]);
      assert log[i].peer == r.peer;
    }
  }

  lemma {:induction false} RunInv(budget: nat, requests: seq<Request>, now: real)
    requires Ordered(requests) && forall i :: 0 <= i < |requests| ==> requests[i].at <= now
    ensures exists before :: before <= now && Inv(Run(budget, requests).0, Run(budget, requests).1, budget, before)
  {
    if requests == [] {
      EmptyInv(budget, now);
      assert Run(budget, requests) == (EMPTY, []);
    } else {
      RunKeepsInv(budget, requests);
    }
  }

  /** A request is admitted exactly when its peer was admitted none in the last six hours and fewer than
      the budget were admitted, for anyone, in the last sixty seconds. */
  lemma AdmittedIff(budget: nat, requests: seq<Request>, r: Request)
    requires Ordered(requests) && forall i :: 0 <= i < |requests| ==> requests[i].at <= r.at
    ensures
      var (l, log) := Run(budget, requests);
      Decide(l, budget, r).1 <==> !TooSoon(log, r) && |Recent(log, r.at)| < budget
  {
    var l, log := Run(budget, requests).0, Run(budget, requests).1;
    RunInv(budget, requests, r.at);
    var before :| before <= r.at && Inv(l, log, budget, before);
    var k :| Remembered(l, log, k, before);
    RunFrom(budget, requests);
    CooldownGate(l, log, r);
    RecentCount(l, log, k, before, r.at);
  }
}
