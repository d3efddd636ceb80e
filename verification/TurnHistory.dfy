/**
 What the store of turn numbers holds, told by what was done to it: which Tasks there are, which runs are under way and
 with what, and which turns stand in a transcript. Nothing else gets in, and nothing is lost.
 */
module TurnHistory {
  import opened Wrappers
  import opened TurnSequence

  /** Since the action `k` the Task has not been deleted. */
  ghost predicate NotDeletedSince(actions: seq<Action>, k: nat, i: nat, taskId: string)
    requires k < i <= |actions|
  {
    forall m :: k < m < i ==> actions[m] != Deletes(taskId)
  }

  /** Created, and not deleted since. */
  ghost predicate Stands(actions: seq<Action>, i: nat, taskId: string)
    requires i <= |actions|
  {
    exists k :: 0 <= k < i && actions[k] == Creates(taskId) && NotDeletedSince(actions, k, i, taskId)
  }

  predicate Begins(a: Action, run: string, held: Reserved, delegated: bool) {
    a.Starts? && a.run == run && a.held == held && a.delegated == delegated
  }

  predicate Ends(a: Action, run: string) {
    a.Completes? && a.run == run
  }

  ghost predicate NotCompletedSince(actions: seq<Action>, k: nat, i: nat, run: string)
    requires k < i <= |actions|
  {
    forall m :: k < m < i ==> !Ends(actions[m], run)
  }

  /** Started with this number, and not completed since. */
  ghost predicate UnderWay(actions: seq<Action>, i: nat, run: string, held: Reserved, delegated: bool)
    requires i <= |actions|
  {
    exists k :: 0 <= k < i && Begins(actions[k], run, held, delegated) && NotCompletedSince(actions, k, i, run)
  }

  /** The action is the completion this turn tells of. */
  predicate Told(a: Action, taskId: string, turn: Turn) {
    && a.Completes? && a.held.taskId == taskId
    && turn == Turn(a.run, a.held.sequence, a.ok, a.held.agent)
  }

  /** Completed in a Task that stood then and has stood since. */
  ghost predicate Settled(actions: seq<Action>, i: nat, taskId: string, turn: Turn)
    requires i <= |actions|
  {
    exists k :: 0 <= k < i && Told(actions[k], taskId, turn) && Stands(actions, k, taskId)
                && NotDeletedSince(actions, k, i, taskId)
  }

  // ---- one action more ----

  lemma StandsNext(actions: seq<Action>, i: nat, taskId: string)
    requires i < |actions|
    ensures Stands(actions, i + 1, taskId) <==>
              actions[i] == Creates(taskId) || (Stands(actions, i, taskId) && actions[i] != Deletes(taskId))
  {
    if Stands(actions, i + 1, taskId) {
      var k :| 0 <= k < i + 1 && actions[k] == Creates(taskId) && NotDeletedSince(actions, k, i + 1, taskId);
      if k < i {
        assert NotDeletedSince(actions, k, i, taskId);
      }
    }
    if actions[i] == Creates(taskId) {
      assert NotDeletedSince(actions, i, i + 1, taskId);
    } else if Stands(actions, i, taskId) && actions[i] != Deletes(taskId) {
      var k :| 0 <= k < i && actions[k] == Creates(taskId) && NotDeletedSince(actions, k, i, taskId);
      assert NotDeletedSince(actions, k, i + 1, taskId);
    }
  }

  lemma UnderWayNext(actions: seq<Action>, i: nat, run: string, held: Reserved, delegated: bool)
    requires i < |actions|
    ensures UnderWay(actions, i + 1, run, held, delegated) <==>
              || Begins(actions[i], run, held, delegated)
              || (UnderWay(actions, i, run, held, delegated) && !Ends(actions[i], run))
  {
    if UnderWay(actions, i + 1, run, held, delegated) {
      var k :| 0 <= k < i + 1 && Begins(actions[k], run, held, delegated) && NotCompletedSince(actions, k, i + 1, run);
      if k < i {
        assert NotCompletedSince(actions, k, i, run);
      }
    }
    if Begins(actions[i], run, held, delegated) {
      assert NotCompletedSince(actions, i, i + 1, run);
    } else if UnderWay(actions, i, run, held, delegated) && !Ends(actions[i], run) {
      var k :| 0 <= k < i && Begins(actions[k], run, held, delegated) && NotCompletedSince(actions, k, i, run);
      assert NotCompletedSince(actions, k, i + 1, run);
    }
  }

  lemma SettledNext(actions: seq<Action>, i: nat, taskId: string, turn: Turn)
    requires i < |actions|
    ensures Settled(actions, i + 1, taskId, turn) <==>
              || (Told(actions[i], taskId, turn) && Stands(actions, i, taskId))
              || (Settled(actions, i, taskId, turn) && actions[i] != Deletes(taskId))
  {
    if Settled(actions, i + 1, taskId, turn) {
      var k :| 0 <= k < i + 1 && Told(actions[k], taskId, turn) && Stands(actions, k, taskId)
               && NotDeletedSince(actions, k, i + 1, taskId);
      if k < i {
        assert NotDeletedSince(actions, k, i, taskId);
      }
    }
    if Told(actions[i], taskId, turn) && Stands(actions, i, taskId) {
      assert NotDeletedSince(actions, i, i + 1, taskId);
    } else if Settled(actions, i, taskId, turn) && actions[i] != Deletes(taskId) {
      var k :| 0 <= k < i && Told(actions[k], taskId, turn) && Stands(actions, k, taskId)
               && NotDeletedSince(actions, k, i, taskId);
      assert NotDeletedSince(actions, k, i + 1, taskId);
    }
  }

  lemma OneAction(labs: seq<Lab>, actions: seq<Action>, i: nat)
    requires IsRun(labs, actions) && i < |actions|
    ensures Enabled(labs[i], actions[i]) && labs[i + 1] == Apply(labs[i], actions[i]) && Apart(labs[i])
  {
    EveryReachableStoreIsValid(labs, actions, i);
  }

  lemma AppliedTasks(l: Lab, a: Action, taskId: string)
    ensures taskId in Apply(l, a).tasks <==> a == Creates(taskId) || (taskId in l.tasks && a != Deletes(taskId))
  {
  }

  // ---- the theorems ----

  /** There is a Task exactly from its creation to its deletion. */
  lemma {:induction false} TasksAreTheirHistory(labs: seq<Lab>, actions: seq<Action>, i: nat, taskId: string)
    requires IsRun(labs, actions) && i <= |actions|
    ensures taskId in labs[i].tasks <==> Stands(actions, i, taskId)
  {
    if i > 0 {
      TasksAreTheirHistory(labs, actions, i - 1, taskId);
      OneAction(labs, actions, i - 1);
      AppliedTasks(labs[i - 1], actions[i - 1], taskId);
      StandsNext(actions, i - 1, taskId);
    }
  }

  function Held(l: Lab, run: string, delegated: bool): Option<Reserved> {
    var runs := if delegated then l.delegated else l.active;
    if run in runs then Some(runs[run]) else None
  }

  lemma AppliedRuns(l: Lab, a: Action, run: string, held: Reserved, delegated: bool)
    requires Apart(l) && Enabled(l, a)
    ensures Held(Apply(l, a), run, delegated) == Some(held) <==>
              Begins(a, run, held, delegated) || (Held(l, run, delegated) == Some(held) && !Ends(a, run))
  {
  }

  /** A run is under way exactly from its start to its completion, with the number it was started with. */
  lemma {:induction false} RunsAreTheirHistory(labs: seq<Lab>, actions: seq<Action>, i: nat, run: string,
                                               held: Reserved, delegated: bool)
    requires IsRun(labs, actions) && i <= |actions|
    ensures Held(labs[i], run, delegated) == Some(held) <==> UnderWay(actions, i, run, held, delegated)
  {
    if i > 0 {
      RunsAreTheirHistory(labs, actions, i - 1, run, held, delegated);
      OneAction(labs, actions, i - 1);
      AppliedRuns(labs[i - 1], actions[i - 1], run, held, delegated);
      UnderWayNext(actions, i - 1, run, held, delegated);
    }
  }

  lemma AppliedTurns(l: Lab, a: Action, taskId: string, turn: Turn)
    requires Enabled(l, a)
    ensures turn in TurnsOf(Apply(l, a).transcripts, taskId) <==>
              || (Told(a, taskId, turn) && taskId in l.tasks)
              || (turn in TurnsOf(l.transcripts, taskId) && a != Deletes(taskId))
  {
    if a.Completes? {
      InsertedMembers(TurnsOf(l.transcripts, a.held.taskId), Turn(a.run, a.held.sequence, a.ok, a.held.agent));
    }
  }

  /**
   A transcript holds the turn of every run that was completed in the Task while it stood, with the number and agent the
   run was started with and the status it was completed with, and no other turn; until the Task is deleted.
   */
  lemma {:induction false} TranscriptIsItsHistory(labs: seq<Lab>, actions: seq<Action>, i: nat, taskId: string,
                                                  turn: Turn)
    requires IsRun(labs, actions) && i <= |actions|
    ensures turn in TurnsOf(labs[i].transcripts, taskId) <==> Settled(actions, i, taskId, turn)
  {
    if i > 0 {
      TranscriptIsItsHistory(labs, actions, i - 1, taskId, turn);
      OneAction(labs, actions, i - 1);
      AppliedTurns(labs[i - 1], actions[i - 1], taskId, turn);
      TasksAreTheirHistory(labs, actions, i - 1, taskId);
      SettledNext(actions, i - 1, taskId, turn);
    }
  }
}
