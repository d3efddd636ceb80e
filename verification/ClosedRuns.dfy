/**
 Closing a scripted run by itself submits nothing. Closed before its first step or while it waits, it ends as cancelled,
 whatever is submitted afterwards; closed at any other moment it ends so as soon as it takes a decision.
 */
module ClosedRuns {
  import opened Wrappers
  import opened RunLog
  import opened SimulatedRuns

  /** Closed, and on its way to a cancelled end. */
  predicate Stopping(s: Sim) {
    && s.closed
    && (s.phase.NotStarted? || s.phase.Resolved? || (Finishing(s) && EndsCancelled(Trace(s))))
  }

  predicate EndsCancelled(events: seq<Event>) {
    events != [] && events[|events| - 1] == CompletedEvent(Cancelled)
  }

  /** The driver goes on, closed. */
  lemma SegmentStops(s: Sim, phase: Phase)
    requires s.closed && (s.phase.NotStarted? || s.phase.Resolved?) && EndsIn(phase, Cancelled, false)
    ensures Stopping(s.(phase := phase))
  {
    assert Trace(s.(phase := phase)) == Events(s.frames) + phase.script;
  }

  lemma ApplyKeepsStopping(s: Sim, a: Action)
    requires Enabled(s, a) && Stopping(s)
    ensures Stopping(Apply(s, a))
  {
    match a
    case Tick =>
      BeginOpens(s.config, s.closed);
      SegmentStops(s, Begin(s.config, s.closed));
    case Resume =>
      AfterHeeds(s.config, s.phase.point, s.phase.decision, s.closed);
      SegmentStops(s, After(s.config, s.phase.point, s.phase.decision, s.closed));
    case Emit =>
      EmitKeepsTrace(s);
    case _ =>
      assert Trace(Apply(s, a)) == Trace(s);
  }

  lemma {:induction false} StaysStopping(sims: seq<Sim>, actions: seq<Action>, config: Config, k: nat, j: nat)
    requires IsRun(sims, actions, config) && k < j <= |actions| && actions[k].Close?
    requires sims[k].phase.Waiting? || sims[k].phase.NotStarted? || sims[k].phase.Resolved?
    ensures Stopping(sims[j])
  {
    if k + 1 < j {
      StaysStopping(sims, actions, config, k, j - 1);
      ApplyKeepsStopping(sims[j - 1], actions[j - 1]);
    }
  }

  /**
   Closed while it waits, before it began or before it has gone on with a decision, a run never waits again; it has ended
   or has a step of its own to take; and when it has ended, its log ends cancelled and it was reported as no success.
   */
  lemma {:induction false} ClosedRunIsCancelled(sims: seq<Sim>, actions: seq<Action>, config: Config, k: nat, j: nat)
    requires IsRun(sims, actions, config) && k < j <= |actions| && actions[k].Close?
    requires sims[k].phase.Waiting? || sims[k].phase.NotStarted? || sims[k].phase.Resolved?
    ensures !sims[j].phase.Waiting?
    ensures sims[j].phase.Ended? || exists a :: Own(a) && Enabled(sims[j], a)
    ensures sims[j].phase.Ended? ==>
              && LastState(Events(sims[j].frames)) == Cancelled && sims[j].reported == Some(false)
              && EndsCancelled(Events(sims[j].frames))
  {
    StaysStopping(sims, actions, config, k, j);
    if sims[j].phase.Ended? {
      RunKeepsReported(sims, actions, config, j);
      assert Trace(sims[j]) == Events(sims[j].frames);
    } else {
      assert Own(OwnStep(sims[j])) && Enabled(sims[j], OwnStep(sims[j]));
    }
  }

  /** Closing takes no decision away and puts none in; nothing but the waiting driver is touched. */
  lemma {:induction false} ClosingOnlyStops(sims: seq<Sim>, actions: seq<Action>, config: Config, k: nat)
    requires IsRun(sims, actions, config) && k < |actions| && actions[k].Close?
    ensures var s, e := sims[k], sims[k + 1];
            && e.closed && e.submitted == s.submitted && e.taken == s.taken && e.frames == s.frames
            && (e.phase == s.phase <==> !s.phase.Waiting?)
  {
    assert sims[k + 1] == Apply(sims[k], actions[k]);
  }

  // ---- when closing is enough ----

  /** On the way to a question, or at one, with no decision there for it. */
  predicate NeedsDecision(s: Sim) {
    s.queued == [] && (s.phase.Waiting? || (s.phase.Speaking? && s.phase.next.Ask?))
  }

  lemma OwnStepNeeds(s: Sim)
    requires s.closed && !s.phase.Ended? && !s.phase.Waiting?
    ensures var n := Apply(s, OwnStep(s)); n.closed && (NeedsDecision(n) <==> NeedsDecision(s))
    ensures Apply(s, OwnStep(s)).phase.Waiting? ==> Apply(s, OwnStep(s)).queued == []
  {
    match OwnStep(s)
    case Tick => BeginOpens(s.config, s.closed);
    case Resume => AfterHeeds(s.config, s.phase.point, s.phase.decision, s.closed);
    case _ =>
  }

  lemma {:induction false} ClosedAlone(s: Sim)
    requires s.closed && (s.phase.Waiting? ==> s.queued == [])
    ensures Alone(s).phase.Ended? <==> !NeedsDecision(s)
    decreases Left(s.phase)
  {
    if !s.phase.Ended? && !s.phase.Waiting? {
      OwnStepsRunOut(s, OwnStep(s));
      OwnStepNeeds(s);
      ClosedAlone(Apply(s, OwnStep(s)));
    }
  }

  /** A closed run comes to its end by itself exactly when it is not on its way to a question that nothing answers yet. */
  lemma {:induction false} ClosedRunEndsIff(sims: seq<Sim>, actions: seq<Action>, config: Config, i: nat)
    requires IsRun(sims, actions, config) && i <= |actions| && sims[i].closed
    ensures Alone(sims[i]).phase.Ended? <==> !NeedsDecision(sims[i])
  {
    NoDecisionLost(sims, actions, config, i);
    ClosedAlone(sims[i]);
  }

  /** The limit: closed between two frames, a run that nobody has answered waits for a decision, still registered. */
  lemma ClosedWhileSpeakingWaits(config: Config) returns (sims: seq<Sim>, actions: seq<Action>)
    ensures IsRun(sims, actions, config) && actions == [Tick, Close] && sims[2].closed
    ensures !Alone(sims[2]).phase.Ended? && Alone(sims[2]).registered
  {
    var first := Fresh(config);
    var begun := Apply(first, Tick);
    var shut := Apply(begun, Close);
    sims, actions := [first, begun, shut], [Tick, Close];
    BeginOpens(config, false);
    assert NeedsDecision(shut);
    assert IsRun(sims, actions, config) by {
      assert Enabled(first, Tick) && Enabled(begun, Close);
    }
    ClosedRunEndsIff(sims, actions, config, 2);
    RunKeepsInv(sims, actions, config, 2);
    AloneKeepsInv(shut);
  }

  lemma {:induction false} AloneKeepsInv(s: Sim)
    requires Inv(s)
    ensures Inv(Alone(s)) && (Alone(s).phase.Ended? || Alone(s).phase.Waiting?)
    decreases Left(s.phase)
  {
    if !s.phase.Ended? && !s.phase.Waiting? {
      OwnStepsRunOut(s, OwnStep(s));
      ApplyKeepsInv(s, OwnStep(s));
      AloneKeepsInv(Apply(s, OwnStep(s)));
    }
  }
}
