/** The Issue Queue's state machine (agentrail/afk/queue_state.py): admission, the alignment overlays,
    and the transitions an entry makes on its way to a run outcome. The highest tier is a parameter. */
module QueueState {
  import opened Collections
  import opened Decimal

  /** Three states inside the queue, three run outcomes. */
  datatype State = Queued | Parked | Running | Green | EscalatedToHuman | Blocked

  predicate IsTerminal(s: State) {
    s.Green? || s.EscalatedToHuman? || s.Blocked?
  }

  datatype Entry = Entry(number: int, tier: int, budget: int, state: State, blockedBy: set<int>, reason: string)

  datatype Event = Start | GateGreen | GateRed | SecurityBlock | Refused

  datatype Error = IsParked(number: int) | NotQueued(number: int, state: State)

  const ALIGNMENT_PARK_REASON := "awaiting alignment"
  const ALIGNMENT_DENIED_PARK_REASON := "alignment denied — open a new issue to try again"

  function Numbers(ns: seq<int>): string {
    if ns == [] then "" else if |ns| == 1 then "#" + Dec(ns[0]) else "#" + Dec(ns[0]) + ", " + Numbers(ns[1..])
  }

  function BlockedReason(unmet: set<int>): string {
    "blocked-by unmet dependency: " + Numbers(Ascending(unmet))
  }

  /** The declared blockers that are still open. */
  function Unmet(e: Entry, open: set<int>): set<int> {
    e.blockedBy * open
  }

  /** `admit` */
  function Admit(e: Entry, open: set<int>): Entry {
    var unmet := Unmet(e, open);
    if IsTerminal(e.state) then e
    else if unmet != {} then e.(state := Parked, reason := BlockedReason(unmet))
    else if e.state.Parked? && e.reason != "" && e.blockedBy == {} then e
    else e.(state := Queued, reason := "")
  }

  /** `apply_admission_alignment` */
  function ApplyAdmissionAlignment(e: Entry, aligned: bool): Entry {
    if aligned || !e.state.Queued? then e else e.(state := Parked, reason := ALIGNMENT_PARK_REASON)
  }

  /** `release_if_aligned` */
  function ReleaseIfAligned(e: Entry, open: set<int>, aligned: bool): Entry {
    if e.reason == ALIGNMENT_DENIED_PARK_REASON then e else
      var released := Admit(e, open);
      if released.state.Queued? && !aligned then released.(state := Parked, reason := ALIGNMENT_PARK_REASON)
      else released
  }

  /** `transition` */
  function Transition(e: Entry, event: Event, maxTier: int): Result<Entry, Error> {
    if IsTerminal(e.state) then Ok(e)
    else if e.state.Parked? then Err(IsParked(e.number))
    else match event
    case Start =>
      if !e.state.Queued? then Err(NotQueued(e.number, e.state)) else Ok(e.(state := Running))
    case GateGreen => Ok(e.(state := Green))
    case SecurityBlock => Ok(e.(state := EscalatedToHuman))
    case Refused => Ok(e.(state := EscalatedToHuman))
    case GateRed =>
      var remaining := e.budget - 1;
      if remaining <= 0 || e.tier >= maxTier then Ok(e.(budget := Max(remaining, 0), state := EscalatedToHuman))
      else Ok(e.(tier := e.tier + 1, budget := remaining, state := Queued))
  }

  // ---------------------------------------------------------------------------
  // Termination
  // ---------------------------------------------------------------------------

  /** Attempts the entry can still have: as many as its budget, and as many as there are tiers. */
  function Attempts(e: Entry, maxTier: int): int {
    var byBudget, byTier := Max(e.budget, 1), Max(maxTier - e.tier + 1, 1);
    if byBudget <= byTier then byBudget else byTier
  }

  /** Events the entry can still take before it is in a terminal. Starting is one of them, though it
      spends no budget. */
  function StepsLeft(e: Entry, maxTier: int): int {
    match e.state
    case Queued => 2 * Attempts(e, maxTier)
    case Running => 2 * Attempts(e, maxTier) - 1
    case Parked => 0
    case _ => 0
  }

  lemma TransitionProgress(e: Entry, event: Event, maxTier: int)
    requires Transition(e, event, maxTier).Ok? && !IsTerminal(e.state)
    ensures 0 <= StepsLeft(Transition(e, event, maxTier).value, maxTier) < StepsLeft(e, maxTier)
  {
  }

  /** Starting an entry is the one event that neither ends it nor spends budget. */
  lemma OnlyStartIsFree(e: Entry, event: Event, maxTier: int)
    requires Transition(e, event, maxTier).Ok? && !IsTerminal(e.state)
    ensures var f := Transition(e, event, maxTier).value;
      (IsTerminal(f.state) || f.budget < e.budget) <==> event != Start
  {
  }

  /** The entry after a sequence of events, each of which must be accepted. */
  function After(e: Entry, events: seq<Event>, maxTier: int): Result<Entry, Error>
    decreases |events|
  {
    if events == [] then Ok(e) else
      var next := Transition(e, events[0], maxTier);
      if next.Err? then next else After(next.value, events[1..], maxTier)
  }

  /** Whatever the events, an entry takes at most `StepsLeft` of them before it is in a terminal, and
      then it stays exactly as it is. */
  lemma {:induction false} AlwaysTerminates(e: Entry, events: seq<Event>, maxTier: int)
    requires After(e, events, maxTier).Ok? && |events| >= StepsLeft(e, maxTier)
    requires !e.state.Parked?
    ensures IsTerminal(After(e, events, maxTier).value.state)
    decreases |events|
  {
    if IsTerminal(e.state) {
      TerminalIsFrozen(e, events, maxTier);
    } else {
      TransitionProgress(e, events[0], maxTier);
      AlwaysTerminates(Transition(e, events[0], maxTier).value, events[1..], maxTier);
    }
  }

  lemma {:induction false} TerminalIsFrozen(e: Entry, events: seq<Event>, maxTier: int)
    requires IsTerminal(e.state)
    ensures After(e, events, maxTier) == Ok(e)
    decreases |events|
  {
    if events != [] { TerminalIsFrozen(e, events[1..], maxTier); }
  }

  function Failing(n: nat): seq<Event> {
    if n == 0 then [] else [Start, GateRed] + Failing(n - 1)
  }

  /** The bound is met: starting and failing as often as there are attempts takes every step there is, and
      only the last of them ends the entry. */
  lemma {:induction false} BoundIsReached(e: Entry, maxTier: int, n: nat)
    requires e.state.Queued? && n <= Attempts(e, maxTier)
    ensures |Failing(n)| == 2 * n && StepsLeft(e, maxTier) == 2 * Attempts(e, maxTier)
    ensures n < Attempts(e, maxTier) ==>
      After(e, Failing(n), maxTier) == Ok(e.(budget := e.budget - n, tier := e.tier + n))
    ensures n == Attempts(e, maxTier) ==>
      && After(e, Failing(n)[..2 * n - 1], maxTier).Ok?
      && After(e, Failing(n)[..2 * n - 1], maxTier).value.state.Running?
      && After(e, Failing(n), maxTier).Ok? && After(e, Failing(n), maxTier).value.state.EscalatedToHuman?
      && After(e, Failing(n), maxTier).value.tier == e.tier + n - 1
    decreases n
  {
    if n > 0 {
      var started := Transition(e, Start, maxTier).value;
      var failed := Transition(started, GateRed, maxTier).value;
      var events := Failing(n);
      assert events[1..] == [GateRed] + Failing(n - 1) && events[1..][1..] == Failing(n - 1);
      assert After(started, events[1..], maxTier) == After(failed, Failing(n - 1), maxTier);
      if Attempts(e, maxTier) > 1 {
        BoundIsReached(failed, maxTier, n - 1);
        StartAndFail(e, events[..2 * n - 1], started, failed, maxTier);
        assert n > 1 ==> events[..2 * n - 1][2..] == Failing(n - 1)[..2 * (n - 1) - 1];
      } else {
        assert Failing(0) == [] && events[..1] == [Start];
        assert events[..1][1..] == [];
      }
    }
  }

  lemma StartAndFail(e: Entry, events: seq<Event>, started: Entry, failed: Entry, maxTier: int)
    requires Transition(e, Start, maxTier) == Ok(started) && Transition(started, GateRed, maxTier) == Ok(failed)
    ensures |events| >= 2 && events[0] == Start && events[1] == GateRed ==>
      After(e, events, maxTier) == After(failed, events[2..], maxTier)
  {
    if |events| >= 2 && events[0] == Start && events[1] == GateRed {
      assert events[1..][1..] == events[2..];
    }
  }

  // ---------------------------------------------------------------------------
  // What transitions keep
  // ---------------------------------------------------------------------------

  /** From one version of an entry to a later one. */
  predicate Progressed(e: Entry, f: Entry) {
    && f.number == e.number && f.tier >= e.tier && f.budget <= e.budget
    && f.tier + f.budget <= e.tier + e.budget && f.blockedBy == e.blockedBy && f.reason == e.reason
  }

  lemma TransitionProgresses(e: Entry, event: Event, maxTier: int)
    requires Transition(e, event, maxTier).Ok? && e.budget >= 0
    ensures Progressed(e, Transition(e, event, maxTier).value)
    ensures 0 <= Transition(e, event, maxTier).value.budget
    ensures e.tier <= maxTier ==> Transition(e, event, maxTier).value.tier <= maxTier
  {
  }

  /** "Budget can never increase" holds of every accepted event exactly for budgets that are not negative
      (or entries that take no event): a failure on an overdrawn budget resets it to zero. */
  lemma BudgetRisesOnlyFromDebt(e: Entry, maxTier: int)
    ensures (forall event | Transition(e, event, maxTier).Ok? ::
               Transition(e, event, maxTier).value.budget <= e.budget)
       <==> (e.budget >= 0 || IsTerminal(e.state) || e.state.Parked?)
  {
    if e.budget < 0 && !IsTerminal(e.state) && !e.state.Parked? {
      assert Transition(e, GateRed, maxTier).Ok?;
    }
  }

  /** An accepted event never leads to Blocked: that outcome is never produced here. */
  lemma NeverBecomesBlocked(e: Entry, event: Event, open: set<int>, aligned: bool, maxTier: int)
    requires !e.state.Blocked?
    ensures Transition(e, event, maxTier).Ok? ==> !Transition(e, event, maxTier).value.state.Blocked?
    ensures !Admit(e, open).state.Blocked? && !ReleaseIfAligned(e, open, aligned).state.Blocked?
  {
  }

  /** The failures an entry takes while it is still in the queue. */
  function Failures(e: Entry, events: seq<Event>, maxTier: int): nat
    decreases |events|
  {
    if events == [] then 0 else
      var next := Transition(e, events[0], maxTier);
      (if !IsTerminal(e.state) && events[0].GateRed? then 1 else 0) +
      (if next.Ok? then Failures(next.value, events[1..], maxTier) else 0)
  }

  /** Over any run of events, failures and nothing else spend budget and raise the tier: so a refusal, a
      block or a start never does. An entry stands no more of them than it has attempts, and if nothing
      but starts and failures happens to it, it is out of the queue exactly when they are used up. */
  lemma {:induction false} FailuresDecide(e: Entry, events: seq<Event>, maxTier: int)
    requires After(e, events, maxTier).Ok? && e.budget >= 0 && (e.state.Queued? || e.state.Running?)
    ensures var f, k := After(e, events, maxTier).value, Failures(e, events, maxTier);
      && f.budget == Max(e.budget - k, 0) && k <= Attempts(e, maxTier)
      && (!IsTerminal(f.state) ==> k < Attempts(e, maxTier) && f.tier == e.tier + k)
      && (k == Attempts(e, maxTier) ==> f.state.EscalatedToHuman? && f.tier == e.tier + k - 1)
      && (k < Attempts(e, maxTier) ==> f.tier == e.tier + k)
      && ((forall i | 0 <= i < |events| :: events[i].Start? || events[i].GateRed?) ==>
            (IsTerminal(f.state) <==> k == Attempts(e, maxTier)))
    decreases |events|
  {
    if events != [] {
      var next := Transition(e, events[0], maxTier).value;
      if IsTerminal(next.state) {
        TerminalIsFrozen(next, events[1..], maxTier);
        NoFailuresWhenTerminal(next, events[1..], maxTier);
      } else {
        FailuresDecide(next, events[1..], maxTier);
        assert forall i | 0 < i < |events| :: events[i] == events[1..][i - 1];
      }
    }
  }

  lemma {:induction false} NoFailuresWhenTerminal(e: Entry, events: seq<Event>, maxTier: int)
    requires IsTerminal(e.state)
    ensures Failures(e, events, maxTier) == 0
    decreases |events|
  {
    if events != [] { NoFailuresWhenTerminal(e, events[1..], maxTier); }
  }

  function Reds(events: seq<Event>): nat {
    if events == [] then 0 else (if events[0].GateRed? then 1 else 0) + Reds(events[1..])
  }

  /** Which event decides the outcome: there is one after which the entry is in a terminal and before which it
      is not, and the outcome is green exactly if that was a green gate, and a human's exactly if it was a
      security block, a refusal, or the red gate that used up the attempts. */
  lemma {:induction false} OutcomeExactly(e: Entry, events: seq<Event>, maxTier: int) returns (k: nat)
    requires e.state.Queued? || e.state.Running?
    requires After(e, events, maxTier).Ok? && IsTerminal(After(e, events, maxTier).value.state)
    ensures k < |events|
    ensures var before := After(e, events[..k], maxTier); before.Ok? && !IsTerminal(before.value.state)
    ensures After(e, events[..k + 1], maxTier) == After(e, events, maxTier)
    ensures var f, last := After(e, events, maxTier).value, events[k];
      && (f.state == Green <==> last == GateGreen)
      && (f.state == EscalatedToHuman <==>
            last == SecurityBlock || last == Refused ||
            (last == GateRed && Reds(events[..k + 1]) == Attempts(e, maxTier)))
      && (last == GateRed ==> Reds(events[..k + 1]) == Attempts(e, maxTier))
      && last != Start && f.state != Blocked
    decreases |events|
  {
    var next := Transition(e, events[0], maxTier).value;
    if IsTerminal(next.state) {
      k := 0;
      TerminalIsFrozen(next, events[1..], maxTier);
      assert events[..1][1..] == [] && events[..0] == [];
      assert After(e, events[..1], maxTier) == Ok(next);
    } else {
      var j := OutcomeExactly(next, events[1..], maxTier);
      k := j + 1;
      assert events[..k][1..] == events[1..][..j] && events[..k + 1][1..] == events[1..][..j + 1];
      assert Attempts(next, maxTier) == Attempts(e, maxTier) - (if events[0].GateRed? then 1 else 0);
    }
  }

  /** The events that leave the entry in the queue or put it to work change nothing else. */
  lemma OtherwiseWaitsOrRuns(e: Entry, event: Event, maxTier: int)
    requires (e.state.Queued? || e.state.Running?) && Transition(e, event, maxTier).Ok?
    ensures var f := Transition(e, event, maxTier).value;
      && (f.state == Running <==> event == Start)
      && (f.state == Queued <==> event == GateRed && e.budget > 1 && e.tier < maxTier)
      && (event == Start ==> e.state == Queued)
      && (event != GateRed ==> f.budget == e.budget && f.tier == e.tier)
  {
  }

  // ---------------------------------------------------------------------------
  // Admission and release
  // ---------------------------------------------------------------------------

  /** Admission never touches an outcome and never lets a blocked entry through. */
  lemma AdmitIsSafe(e: Entry, open: set<int>)
    ensures IsTerminal(e.state) ==> Admit(e, open) == e
    ensures !IsTerminal(e.state) ==>
      (Admit(e, open).state.Queued? <==>
        Unmet(e, open) == {} && !(e.state.Parked? && e.reason != "" && e.blockedBy == {}))
    ensures Admit(Admit(e, open), open) == Admit(e, open)
  {
  }

  /** A park that came with a reason of its own survives admission exactly when the entry declares no
      blockers (or is parked for these very blockers already); otherwise the reason is lost, and with
      all blockers met so is the park. */
  lemma GateParkSurvivesOnlyWithoutBlockers(e: Entry, open: set<int>)
    requires e.state.Parked? && e.reason != ""
    ensures Admit(e, open) == e <==>
      e.blockedBy == {} || (Unmet(e, open) != {} && e.reason == BlockedReason(Unmet(e, open)))
    ensures e.blockedBy != {} && Unmet(e, open) == {} ==> Admit(e, open).state.Queued?
  {
  }

  /** When a parked entry is let go: never against a denial, an open blocker or missing alignment. And
      never if it declares no blockers and has a reason to be parked, even when that reason was the
      missing alignment and alignment has come. */
  lemma ReleasedExactlyWhen(e: Entry, open: set<int>, aligned: bool)
    requires e.state.Parked?
    ensures ReleaseIfAligned(e, open, aligned).state.Queued? <==>
      (e.reason != ALIGNMENT_DENIED_PARK_REASON && Unmet(e, open) == {} && aligned
       && (e.blockedBy != {} || e.reason == ""))
    ensures e.reason == ALIGNMENT_DENIED_PARK_REASON ==> ReleaseIfAligned(e, open, aligned) == e
    ensures e.reason != ALIGNMENT_DENIED_PARK_REASON && Unmet(e, open) != {} ==>
      ReleaseIfAligned(e, open, aligned) == e.(reason := BlockedReason(Unmet(e, open)))
  {
  }
}
