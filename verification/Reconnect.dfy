/** The auto-reconnect state machine: backoff, failure streak and the manual-reconnect flag. */
module Reconnect {

  const BACKOFF_FLOOR: nat := 5
  const BACKOFF_CEILING: nat := 60
  const MAX_CONSECUTIVE_FAILURES: nat := 5

  datatype RelayState = Idle | Connecting | ConnectingToTor | Connected | Failed

  datatype Action = ScheduleRetry(delay: nat, nextBackoff: nat) | RequireManual
  datatype Decision = Decision(action: Action, newStreak: nat)

  function Min(x: nat, y: nat): nat { if x < y then x else y }

  function ComputeDecision(previousStreak: nat, currentBackoff: nat): Decision {
    var newStreak := previousStreak + 1;
    if newStreak >= MAX_CONSECUTIVE_FAILURES then Decision(RequireManual, newStreak)
    else Decision(ScheduleRetry(currentBackoff, Min(currentBackoff * 2, BACKOFF_CEILING)), newStreak)
  }

  /** `delays` are the waits of the retries scheduled since the last reset. */
  datatype Machine = Machine(
    relayState: RelayState, backoff: nat, streak: nat, manualRequired: bool, retryPending: bool, delays: seq<nat>)

  const INITIAL := Machine(Idle, BACKOFF_FLOOR, 0, false, false, [])

  datatype Event =
    | Transition(next: RelayState)
    | RetryFires(hasSession: bool)
    | ForceReconnect(hasSession: bool)
    | DaemonExited

  /** `connectRelay` tears the fleet down first, which cancels a pending retry; it does nothing
      before an identity exists. */
  function ConnectRelay(m: Machine, hasSession: bool): Machine {
    if hasSession then m.(relayState := Idle, retryPending := false) else m
  }

  function HandleTransition(m: Machine, next: RelayState): Machine {
    var m' := m.(relayState := next);
    match next
    case Connected =>
      m'.(retryPending := false, backoff := BACKOFF_FLOOR, streak := 0, manualRequired := false, delays := [])
    case Failed =>
      if m.relayState == Failed then m'
      else
        var d := ComputeDecision(m.streak, m.backoff);
        (match d.action
         case RequireManual => m'.(streak := d.newStreak, manualRequired := true, retryPending := false)
         case ScheduleRetry(delay, nextBackoff) =>
           m'.(streak := d.newStreak, backoff := nextBackoff, retryPending := true, delays := m.delays + [delay]))
    case _ => m'
  }

  function Step(m: Machine, e: Event): Machine {
    match e
    case Transition(next) => HandleTransition(m, next)
    case RetryFires(hasSession) =>
      if !m.retryPending then m
      else
        var fired := m.(retryPending := false);
        if m.relayState == Failed then ConnectRelay(fired, hasSession) else fired
    case ForceReconnect(hasSession) =>
      if m.relayState == Connected then m
      else ConnectRelay(m.(backoff := BACKOFF_FLOOR, streak := 0, manualRequired := false, delays := []), hasSession)
    case DaemonExited => m.(retryPending := false)
  }

  /** The object, its scheduled task reduced to whether one is armed. */
  class Reconnector {
    var relayState: RelayState
    var backoff: nat
    var streak: nat
    var manualRequired: bool
    var retryPending: bool
    ghost var delays: seq<nat>

    ghost function Image(): Machine reads this {
      Machine(relayState, backoff, streak, manualRequired, retryPending, delays)
    }

    constructor ()
      ensures Image() == INITIAL
    {
      relayState, backoff, streak, manualRequired, retryPending, delays := Idle, BACKOFF_FLOOR, 0, false, false, [];
    }

    method Connect(hasSession: bool)
      modifies this
      ensures Image() == ConnectRelay(old(Image()), hasSession)
    {
      if !hasSession { return; }
      relayState, retryPending := Idle, false;
    }

    method OnTransition(next: RelayState)
      modifies this
      ensures Image() == Step(old(Image()), Transition(next))
    {
      var prev := relayState;
      relayState := next;
      match next {
        case Connected =>
          retryPending, backoff, streak, manualRequired, delays := false, BACKOFF_FLOOR, 0, false, [];
        case Failed =>
          if prev == Failed { return; }
          var decision := ComputeDecision(streak, backoff);
          streak := decision.newStreak;
          match decision.action {
            case RequireManual =>
              manualRequired, retryPending := true, false;
            case ScheduleRetry(delay, nextBackoff) =>
              backoff, retryPending, delays := nextBackoff, true, delays + [delay];
          }
        case _ =>
      }
    }

    method OnRetryFires(hasSession: bool)
      modifies this
      ensures Image() == Step(old(Image()), RetryFires(hasSession))
    {
      if !retryPending { return; }
      retryPending := false;
      if relayState == Failed { Connect(hasSession); }
    }

    method OnForceReconnect(hasSession: bool)
      modifies this
      ensures Image() == Step(old(Image()), ForceReconnect(hasSession))
    {
      if relayState == Connected { return; }
      backoff, streak, manualRequired, delays := BACKOFF_FLOOR, 0, false, [];
      Connect(hasSession);
    }
  }

  // ----- every run -----

  function Pow2(n: nat): nat { if n == 0 then 1 else 2 * Pow2(n - 1) }

  const DELAYS: seq<nat> := [5, 10, 20, 40]

  /** Backoff follows the streak, the flag says the streak is exhausted, the retries scheduled since
      the last reset are the first ones of 5, 10, 20, 40 seconds, and none is pending under the flag. */
  ghost predicate Inv(m: Machine) {
    && m.backoff == Min(5 * Pow2(m.streak), BACKOFF_CEILING)
    && (m.manualRequired <==> m.streak >= MAX_CONSECUTIVE_FAILURES)
    && m.delays == DELAYS[..Min(m.streak, 4)]
    && (m.manualRequired ==> !m.retryPending)
  }

  lemma PowersCap(n: nat)
    requires n >= 4
    ensures Pow2(n) >= 16
    decreases n
  {
    if n == 4 { assert Pow2(1) == 2 && Pow2(2) == 4 && Pow2(3) == 8; } else { PowersCap(n - 1); }
  }

  lemma FailureKeepsInv(m: Machine)
    requires Inv(m)
    ensures Inv(HandleTransition(m, Failed))
  {
    if m.streak >= 4 {
      PowersCap(m.streak);
      PowersCap(m.streak + 1);
    } else {
      assert Pow2(0) == 1 && Pow2(1) == 2 && Pow2(2) == 4 && Pow2(3) == 8 && Pow2(4) == 16;
      assert DELAYS[..m.streak] + [DELAYS[m.streak]] == DELAYS[..m.streak + 1];
    }
  }

  lemma StepKeepsInv(m: Machine, e: Event)
    requires Inv(m)
    ensures Inv(Step(m, e))
  {
    match e {
      case Transition(next) =>
        if next == Failed { FailureKeepsInv(m); }
        if next == Connected { ResetKeepsInv(HandleTransition(m, next)); }
      case RetryFires(hasSession) =>
      case ForceReconnect(hasSession) => if m.relayState != Connected { ResetKeepsInv(Step(m, e)); }
      case DaemonExited =>
    }
  }

  /** Back to the floor with nothing scheduled since. */
  lemma ResetKeepsInv(m': Machine)
    requires m'.backoff == BACKOFF_FLOOR && m'.streak == 0 && !m'.manualRequired && m'.delays == []
    ensures Inv(m')
  {
    assert Pow2(0) == 1 && DELAYS[..0] == [];
  }

  function Run(events: seq<Event>): Machine {
    if events == [] then INITIAL else Step(Run(events[..|events| - 1]), events[|events| - 1])
  }

  /** In every run of transitions, firing retries and manual reconnects. */
  lemma {:induction false} EveryRunIsBounded(events: seq<Event>)
    ensures Inv(Run(events)) && |Run(events).delays| <= 4
    decreases |events|
  {
    if events != [] {
      EveryRunIsBounded(events[..|events| - 1]);
      StepKeepsInv(Run(events[..|events| - 1]), events[|events| - 1]);
    } else {
      assert Pow2(0) == 1 && DELAYS[..0] == [];
    }
  }

  // ----- what each event does -----

  /** Reaching a relay starts afresh; a first failure counts one, arms a retry after the present backoff
      or, at the fifth, asks for a manual reconnect; a repeated failure changes nothing; any other
      transition moves nothing but the state shown. */
  lemma TransitionMeaning(m: Machine, next: RelayState)
    ensures
      var m' := Step(m, Transition(next));
      && m'.relayState == next
      && (next == Connected ==> m' == Machine(Connected, 5, 0, false, false, []))
      && (next == Failed && m.relayState != Failed ==>
            && m'.streak == m.streak + 1
            && (m.streak + 1 >= 5 ==> m'.manualRequired && !m'.retryPending && m'.delays == m.delays)
            && (m.streak + 1 < 5 ==>
                  && m'.retryPending && m'.delays == m.delays + [m.backoff] && m'.manualRequired == m.manualRequired
                  && m'.backoff == if 2 * m.backoff < 60 then 2 * m.backoff else 60))
      && (next == Failed && m.relayState == Failed ==> m' == m)
      && (next != Connected && next != Failed ==> m' == m.(relayState := next))
  {
  }

  /** A retry that fires is no longer pending, and dials exactly if the relay is still failed; a manual
      reconnect forgets the failures and dials unless connected already; the daemon's exit only disarms. */
  lemma OtherEventsMeaning(m: Machine, hasSession: bool)
    ensures
      var fired := Step(m, RetryFires(hasSession));
      && !fired.retryPending && fired.streak == m.streak && fired.backoff == m.backoff
      && fired.manualRequired == m.manualRequired && fired.delays == m.delays
      && fired.relayState ==
         if m.retryPending && m.relayState == Failed && hasSession then Idle else m.relayState
    ensures
      var forced := Step(m, ForceReconnect(hasSession));
      if m.relayState == Connected then forced == m
      else if hasSession then forced == Machine(Idle, 5, 0, false, false, [])
      else forced == Machine(m.relayState, 5, 0, false, m.retryPending, [])
    ensures Step(m, DaemonExited) == m.(retryPending := false)
  {
  }

  /** Failures entered since the relay was last reached or a manual reconnect began. */
  function Failures(events: seq<Event>): nat {
    if events == [] then 0
    else
      var before, last := events[..|events| - 1], events[|events| - 1];
      match last
      case Transition(next) =>
        if next == Connected then 0
        else if next == Failed && Run(before).relayState != Failed then Failures(before) + 1
        else Failures(before)
      case ForceReconnect(_) => if Run(before).relayState == Connected then Failures(before) else 0
      case _ => Failures(before)
  }

  /** The streak counts exactly those, in every run. */
  lemma {:induction false} StreakCountsFailures(events: seq<Event>)
    ensures Run(events).streak == Failures(events)
    decreases |events|
  {
    if events != [] { StreakCountsFailures(events[..|events| - 1]); }
  }
}
