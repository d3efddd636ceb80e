/**
 The turn numbers of a Task. A number is reserved when a run starts, so that runs may finish in any order and still
 stand in the transcript in the order they were started; the Task's roll-up describes the newest turn, not the last
 one to finish.
 */
module TurnSequence {
  import opened Wrappers

  const MAX_TURNS_OUTSTANDING: nat := 10

  datatype Turn = Turn(runId: string, sequence: nat, ok: bool, agent: Option<string>)

  /** A run that has started and not finished, with the number it holds. */
  datatype Reserved = Reserved(taskId: string, sequence: nat, agent: Option<string>)

  datatype Task = Task(runCount: nat, lastRunStatus: Option<bool>, agent: Option<string>)

  type Transcripts = map<string, seq<Turn>>
  type Runs = map<string, Reserved>

  function TurnsOf(transcripts: Transcripts, taskId: string): seq<Turn> {
    if taskId in transcripts then transcripts[taskId] else []
  }

  predicate StrictlyIncreasing(turns: seq<Turn>) {
    forall i, j :: 0 <= i < j < |turns| ==> turns[i].sequence < turns[j].sequence
  }

  /** A transcript as `push` and a stable sort by number leave it. */
  function Insert(turns: seq<Turn>, turn: Turn): seq<Turn> {
    if turns == [] || turns[|turns| - 1].sequence <= turn.sequence then turns + [turn]
    else Insert(turns[..|turns| - 1], turn) + [turns[|turns| - 1]]
  }

  /** Nothing is lost and nothing else comes in. */
  lemma {:induction false} InsertKeepsTurns(turns: seq<Turn>, turn: Turn)
    ensures multiset(Insert(turns, turn)) == multiset(turns) + multiset{turn}
  {
    if turns != [] && turns[|turns| - 1].sequence > turn.sequence {
      InsertKeepsTurns(turns[..|turns| - 1], turn);
      assert turns == turns[..|turns| - 1] + [turns[|turns| - 1]];
    }
  }

  lemma InsertedMembers(turns: seq<Turn>, turn: Turn)
    ensures forall t :: t in Insert(turns, turn) <==> t in turns || t == turn
    ensures |Insert(turns, turn)| == |turns| + 1
  {
    InsertKeepsTurns(turns, turn);
    var inserted := Insert(turns, turn);
    assert forall t :: t in inserted <==> t in multiset(inserted);
    assert |multiset(inserted)| == |multiset(turns)| + 1;
  }

  /** A turn with a number of its own goes in without disturbing the order of the others. */
  lemma {:induction false} InsertKeepsOrder(turns: seq<Turn>, turn: Turn)
    requires StrictlyIncreasing(turns)
    requires forall t :: t in turns ==> t.sequence != turn.sequence
    ensures StrictlyIncreasing(Insert(turns, turn))
  {
    if turns != [] && turns[|turns| - 1].sequence > turn.sequence {
      var rest, last := turns[..|turns| - 1], turns[|turns| - 1];
      InsertKeepsOrder(rest, turn);
      InsertedMembers(rest, turn);
      forall t | t in Insert(rest, turn) ensures t.sequence < last.sequence {
        assert t == turn || exists i :: 0 <= i < |rest| && turns[i] == t;
      }
      assert Insert(turns, turn) == Insert(rest, turn) + [last];
    } else {
      assert forall t :: t in turns ==> t.sequence < turn.sequence || t == turns[|turns| - 1];
    }
  }

  /** What the Task says of its newest turn. */
  function RollUp(turns: seq<Turn>): Task {
    if turns == [] then Task(0, None, None)
    else Task(|turns|, Some(turns[|turns| - 1].ok), turns[|turns| - 1].agent)
  }

  /**
   The store, as far as turn numbers go. `started` says when each run was started, the first run ever first; nothing
   the store does looks at it.
   */
  datatype Lab = Lab(
    transcripts: Transcripts,
    active: Runs,
    delegated: Runs,
    tasks: map<string, Task>,
    started: map<string, nat>)

  /** A run of this Task holds this number: settled, active or delegated. */
  ghost predicate Holds(l: Lab, taskId: string, run: string, n: nat) {
    || (exists turn :: turn in TurnsOf(l.transcripts, taskId) && turn.runId == run && turn.sequence == n)
    || (run in l.active && l.active[run].taskId == taskId && l.active[run].sequence == n)
    || (run in l.delegated && l.delegated[run].taskId == taskId && l.delegated[run].sequence == n)
  }

  /** Among runs of one Task, numbers are ordered as the runs were started; so no two runs share one. */
  ghost predicate NumberedAsStarted(l: Lab) {
    && (forall t, r, n: nat :: Holds(l, t, r, n) ==> r in l.started)
    && (forall t, r, n: nat, q, m: nat :: Holds(l, t, r, n) && Holds(l, t, q, m) ==> (l.started[r] < l.started[q] <==> n < m))
  }

  ghost predicate InOrder(l: Lab) {
    forall t :: t in l.transcripts ==> StrictlyIncreasing(l.transcripts[t])
  }

  ghost predicate RolledUp(l: Lab) {
    forall t :: t in l.tasks ==> l.tasks[t] == RollUp(TurnsOf(l.transcripts, t))
  }

  /** A run is settled, active or delegated, and only one of these; and no two runs were started at one moment. */
  ghost predicate Apart(l: Lab) {
    && l.active.Keys !! l.delegated.Keys
    && l.active.Keys + l.delegated.Keys <= l.started.Keys
    && (forall t, turn :: turn in TurnsOf(l.transcripts, t) ==>
          turn.runId in l.started && turn.runId !in l.active && turn.runId !in l.delegated)
    && (forall r, q :: r in l.started && q in l.started && l.started[r] == l.started[q] ==> r == q)
  }

  ghost predicate Valid(l: Lab) {
    NumberedAsStarted(l) && InOrder(l) && RolledUp(l) && Apart(l)
  }

  // ---- what starting, finishing and deleting make of the store ----

  function Begin(l: Lab, run: string, held: Reserved, delegated: bool, now: nat): Lab {
    if delegated then l.(delegated := l.delegated[run := held], started := l.started[run := now])
    else l.(active := l.active[run := held], started := l.started[run := now])
  }

  /** A number above every one held, at a moment after every start. */
  lemma BeginKeepsValid(l: Lab, run: string, held: Reserved, delegated: bool, now: nat)
    requires Valid(l) && run !in l.started
    requires forall r :: r in l.started ==> l.started[r] < now
    requires forall r, n: nat :: Holds(l, held.taskId, r, n) ==> n < held.sequence
    ensures Valid(Begin(l, run, held, delegated, now))
  {
    var l' := Begin(l, run, held, delegated, now);
    forall t, r, n: nat | Holds(l', t, r, n)
      ensures (r != run && Holds(l, t, r, n)) || (r == run && t == held.taskId && n == held.sequence)
    {
    }
  }

  function Finish(l: Lab, run: string, turn: Turn, taskId: string): Lab {
    var rest := l.(active := l.active - {run}, delegated := l.delegated - {run});
    if taskId !in l.tasks then rest
    else
      var turns := Insert(TurnsOf(l.transcripts, taskId), turn);
      rest.(transcripts := l.transcripts[taskId := turns], tasks := l.tasks[taskId := RollUp(turns)])
  }

  /** What finishing leaves where: nothing that was not there, but the turn itself. */
  lemma FinishedRuns(l: Lab, run: string, turn: Turn, taskId: string)
    ensures var l' := Finish(l, run, turn, taskId);
            && (forall t, other :: other in TurnsOf(l'.transcripts, t) ==>
                  other in TurnsOf(l.transcripts, t) || (other == turn && t == taskId))
            && l'.active == l.active - {run} && l'.delegated == l.delegated - {run} && l'.started == l.started
            && (forall t :: t in l'.tasks ==> t in l.tasks)
            && (forall t :: t in l'.tasks && (t != taskId || taskId !in l.tasks) ==>
                  l'.tasks[t] == l.tasks[t] && TurnsOf(l'.transcripts, t) == TurnsOf(l.transcripts, t))
            && (forall t :: t in l'.transcripts && (t != taskId || taskId !in l.tasks) ==>
                  t in l.transcripts && l'.transcripts[t] == l.transcripts[t])
            && (taskId in l.tasks ==>
                  taskId in l'.transcripts && l'.transcripts[taskId] == Insert(TurnsOf(l.transcripts, taskId), turn)
                  && l'.tasks[taskId] == RollUp(l'.transcripts[taskId]))
  {
    InsertedMembers(TurnsOf(l.transcripts, taskId), turn);
  }

  lemma FinishKeepsOrder(l: Lab, run: string, held: Reserved, ok: bool)
    requires Valid(l)
    requires (run in l.active && l.active[run] == held) || (run in l.delegated && l.delegated[run] == held)
    ensures StrictlyIncreasing(Insert(TurnsOf(l.transcripts, held.taskId), Turn(run, held.sequence, ok, held.agent)))
  {
    var turns := TurnsOf(l.transcripts, held.taskId);
    assert Holds(l, held.taskId, run, held.sequence);
    forall t | t in turns ensures t.sequence != held.sequence {
      assert Holds(l, held.taskId, t.runId, t.sequence);
    }
    InsertKeepsOrder(turns, Turn(run, held.sequence, ok, held.agent));
  }

  lemma FinishKeepsApart(l: Lab, run: string, turn: Turn, taskId: string)
    requires Apart(l) && turn.runId == run && (run in l.active || run in l.delegated)
    ensures Apart(Finish(l, run, turn, taskId))
  {
    FinishedRuns(l, run, turn, taskId);
  }

  lemma FinishKeepsRollUp(l: Lab, run: string, turn: Turn, taskId: string)
    requires RolledUp(l) && InOrder(l) && StrictlyIncreasing(Insert(TurnsOf(l.transcripts, taskId), turn))
    ensures RolledUp(Finish(l, run, turn, taskId)) && InOrder(Finish(l, run, turn, taskId))
  {
    FinishedRuns(l, run, turn, taskId);
  }

  lemma FinishKeepsNumbers(l: Lab, run: string, turn: Turn, taskId: string)
    requires NumberedAsStarted(l) && Holds(l, taskId, turn.runId, turn.sequence)
    ensures NumberedAsStarted(Finish(l, run, turn, taskId))
  {
    FinishedRuns(l, run, turn, taskId);
    SubsetKeepsNumbers(l, Finish(l, run, turn, taskId), taskId, turn);
  }

  lemma FinishKeepsValid(l: Lab, run: string, held: Reserved, ok: bool)
    requires Valid(l)
    requires (run in l.active && l.active[run] == held) || (run in l.delegated && l.delegated[run] == held)
    ensures Valid(Finish(l, run, Turn(run, held.sequence, ok, held.agent), held.taskId))
  {
    var turn := Turn(run, held.sequence, ok, held.agent);
    FinishKeepsOrder(l, run, held, ok);
    FinishKeepsApart(l, run, turn, held.taskId);
    FinishKeepsRollUp(l, run, turn, held.taskId);
    FinishKeepsNumbers(l, run, turn, held.taskId);
  }

  /** Dropping runs, and settling one of them with the number it held, leaves the numbering right. */
  lemma SubsetKeepsNumbers(l: Lab, l': Lab, taskId: string, turn: Turn)
    requires NumberedAsStarted(l) && Holds(l, taskId, turn.runId, turn.sequence)
    requires l'.started == l.started
    requires forall r :: r in l'.active ==> r in l.active && l'.active[r] == l.active[r]
    requires forall r :: r in l'.delegated ==> r in l.delegated && l'.delegated[r] == l.delegated[r]
    requires forall t, other :: other in TurnsOf(l'.transcripts, t) ==>
               other in TurnsOf(l.transcripts, t) || (other == turn && t == taskId)
    ensures NumberedAsStarted(l')
  {
    forall t, r, n: nat | Holds(l', t, r, n) ensures Holds(l, t, r, n) {
    }
  }

  function Delete(l: Lab, taskId: string): Lab {
    l.(transcripts := l.transcripts - {taskId}, tasks := l.tasks - {taskId})
  }

  lemma DeleteKeepsValid(l: Lab, taskId: string)
    requires Valid(l)
    ensures Valid(Delete(l, taskId))
  {
    var l' := Delete(l, taskId);
    forall t, r, n: nat | Holds(l', t, r, n) ensures Holds(l, t, r, n) {
    }
    forall t, turn | turn in TurnsOf(l'.transcripts, t) ensures turn in TurnsOf(l.transcripts, t) {
    }
  }

  /** One more than the highest number any run of the Task holds; one when none does. */
  ghost predicate IsNext(l: Lab, taskId: string, next: nat) {
    && next >= 1
    && (forall r, n: nat :: Holds(l, taskId, r, n) ==> n < next)
    && (next == 1 || exists r, n: nat :: n + 1 == next && Holds(l, taskId, r, n))
  }

  // ---- every run of the store ----

  datatype Action =
    | Starts(run: string, held: Reserved, delegated: bool, now: nat)
    | Completes(run: string, held: Reserved, ok: bool)
    | Creates(taskId: string)
    | Deletes(taskId: string)

  ghost predicate Enabled(l: Lab, a: Action) {
    match a
    case Starts(run, held, _, now) =>
      && run !in l.started && (forall r :: r in l.started ==> l.started[r] < now)
      && IsNext(l, held.taskId, held.sequence)
    case Completes(run, held, _) =>
      (run in l.active && l.active[run] == held) || (run in l.delegated && l.delegated[run] == held)
    case Creates(taskId) => taskId !in l.tasks && taskId !in l.transcripts
    case Deletes(_) => true
  }

  function Apply(l: Lab, a: Action): Lab {
    match a
    case Starts(run, held, delegated, now) => Begin(l, run, held, delegated, now)
    case Completes(run, held, ok) => Finish(l, run, Turn(run, held.sequence, ok, held.agent), held.taskId)
    case Creates(taskId) => l.(tasks := l.tasks[taskId := Task(0, None, None)])
    case Deletes(taskId) => Delete(l, taskId)
  }

  ghost predicate IsRun(labs: seq<Lab>, actions: seq<Action>) {
    && |labs| == |actions| + 1 && labs[0] == Lab(map[], map[], map[], map[], map[])
    && forall i :: 0 <= i < |actions| ==> Enabled(labs[i], actions[i]) && labs[i + 1] == Apply(labs[i], actions[i])
  }

  lemma CreateKeepsValid(l: Lab, taskId: string)
    requires Valid(l) && taskId !in l.transcripts
    ensures Valid(Apply(l, Creates(taskId)))
  {
    var l' := Apply(l, Creates(taskId));
    assert forall t, r, n: nat :: Holds(l', t, r, n) <==> Holds(l, t, r, n);
  }

  /** Whatever starts, finishes, is delegated, created or deleted, in any order, the store stays valid. */
  lemma {:induction false} EveryReachableStoreIsValid(labs: seq<Lab>, actions: seq<Action>, i: nat)
    requires IsRun(labs, actions) && i <= |actions|
    ensures Valid(labs[i])
  {
    if i > 0 {
      EveryReachableStoreIsValid(labs, actions, i - 1);
      var l := labs[i - 1];
      assert Enabled(l, actions[i - 1]) && labs[i] == Apply(l, actions[i - 1]);
      match actions[i - 1]
      case Starts(run, held, delegated, now) => BeginKeepsValid(l, run, held, delegated, now);
      case Completes(run, held, ok) => FinishKeepsValid(l, run, held, ok);
      case Creates(taskId) => CreateKeepsValid(l, taskId);
      case Deletes(taskId) => DeleteKeepsValid(l, taskId);
    }
  }

  // ---- the theorems ----

  /** Whatever is settled, running or delegated, two runs of a Task never hold one number, and a run holds only one. */
  lemma {:induction false} NumbersAreDistinct(labs: seq<Lab>, actions: seq<Action>, i: nat, taskId: string,
                                              r: string, q: string, n: nat, m: nat)
    requires IsRun(labs, actions) && i <= |actions|
    requires Holds(labs[i], taskId, r, n) && Holds(labs[i], taskId, q, m)
    ensures r == q <==> n == m
  {
    EveryReachableStoreIsValid(labs, actions, i);
  }

  /** In a transcript an earlier turn has a lower number and was started earlier, whichever finished first. */
  lemma {:induction false} TranscriptInStartOrder(labs: seq<Lab>, actions: seq<Action>, i: nat, taskId: string,
                                                  j: nat, k: nat)
    requires IsRun(labs, actions) && i <= |actions|
    requires taskId in labs[i].transcripts && j < k < |labs[i].transcripts[taskId]|
    ensures var l, turns := labs[i], labs[i].transcripts[taskId];
            && turns[j].sequence < turns[k].sequence
            && turns[j].runId in l.started && turns[k].runId in l.started
            && l.started[turns[j].runId] < l.started[turns[k].runId]
  {
    EveryReachableStoreIsValid(labs, actions, i);
    var l, turns := labs[i], labs[i].transcripts[taskId];
    assert turns[j] in TurnsOf(l.transcripts, taskId) && turns[k] in TurnsOf(l.transcripts, taskId);
    assert Holds(l, taskId, turns[j].runId, turns[j].sequence) && Holds(l, taskId, turns[k].runId, turns[k].sequence);
  }

  lemma OthersAreLower(turns: seq<Turn>, turn: Turn)
    requires StrictlyIncreasing(turns) && turn in turns
    ensures turn == turns[|turns| - 1] || turn.sequence < turns[|turns| - 1].sequence
  {
    var k :| 0 <= k < |turns| && turns[k] == turn;
  }

  /** A Task counts the turns of its transcript, and its status and agent are those of the turn with the highest number. */
  lemma {:induction false} TaskFollowsNewestTurn(labs: seq<Lab>, actions: seq<Action>, i: nat, taskId: string)
    requires IsRun(labs, actions) && i <= |actions| && taskId in labs[i].tasks
    ensures var task, turns := labs[i].tasks[taskId], TurnsOf(labs[i].transcripts, taskId);
            && task.runCount == |turns|
            && (turns == [] ==> task.lastRunStatus == None && task.agent == None)
            && forall turn :: turn in turns && (forall other :: other in turns ==> other.sequence <= turn.sequence) ==>
                 task.lastRunStatus == Some(turn.ok) && task.agent == turn.agent
  {
    EveryReachableStoreIsValid(labs, actions, i);
    var task, turns := labs[i].tasks[taskId], TurnsOf(labs[i].transcripts, taskId);
    if turns != [] {
      assert turns[|turns| - 1] in turns;
      forall turn | turn in turns && (forall other :: other in turns ==> other.sequence <= turn.sequence)
        ensures turn == turns[|turns| - 1]
      {
        OthersAreLower(turns, turn);
      }
    }
  }

  // ---- the store itself ----

  class Core {
    var transcripts: Transcripts
    var activeRuns: Runs
    var delegatedSequences: Runs
    var tasks: map<string, Task>
    ghost var started: map<string, nat>

    ghost function State(): Lab
      reads this
    {
      Lab(transcripts, activeRuns, delegatedSequences, tasks, started)
    }

    constructor (taskIds: set<string>)
      ensures Valid(State())
      ensures State() == Lab(map[], map[], map[], map t | t in taskIds :: Task(0, None, None), map[])
    {
      transcripts, activeRuns, delegatedSequences, started := map[], map[], map[], map[];
      tasks := map t | t in taskIds :: Task(0, None, None);
    }

    method NextTurnSequence(taskId: string) returns (next: nat)
      ensures IsNext(State(), taskId, next)
    {
      var turns := TurnsOf(transcripts, taskId);
      var highest := 0;
      for i := 0 to |turns|
        invariant forall k :: 0 <= k < i ==> turns[k].sequence <= highest
        invariant highest == 0 || exists r :: Holds(State(), taskId, r, highest)
      {
        if turns[i].sequence > highest {
          highest := turns[i].sequence;
          assert Holds(State(), taskId, turns[i].runId, highest);
        }
      }
      highest := HighestOf(activeRuns, taskId, highest);
      assert forall r :: r in activeRuns && activeRuns[r].taskId == taskId ==> Holds(State(), taskId, r, activeRuns[r].sequence);
      highest := HighestOf(delegatedSequences, taskId, highest);
      assert forall r :: r in delegatedSequences && delegatedSequences[r].taskId == taskId ==>
               Holds(State(), taskId, r, delegatedSequences[r].sequence);
      next := highest + 1;
    }

    /** Refused when the Task already has as many turns waiting as may be typed ahead. */
    method StartRun(run: string, taskId: string, agent: Option<string>) returns (r: Result<nat, nat>)
      requires Valid(State()) && run !in started
      modifies this
      ensures Valid(State())
      ensures var waiting := set w | w in old(activeRuns) && old(activeRuns)[w].taskId == taskId;
              if |waiting| >= MAX_TURNS_OUTSTANDING then r == Failure(|waiting|) && State() == old(State())
              else r.Success?
                   && activeRuns == old(activeRuns)[run := Reserved(taskId, r.value, agent)]
                   && delegatedSequences == old(delegatedSequences)
      ensures r.Success? ==> IsNext(old(State()), taskId, r.value)
      ensures transcripts == old(transcripts) && tasks == old(tasks)
    {
      var waiting := set w | w in activeRuns && activeRuns[w].taskId == taskId;
      if |waiting| >= MAX_TURNS_OUTSTANDING {
        return Failure(|waiting|);
      }
      var sequence := NextTurnSequence(taskId);
      ghost var now := Later(started);
      BeginKeepsValid(State(), run, Reserved(taskId, sequence, agent), false, now);
      activeRuns := activeRuns[run := Reserved(taskId, sequence, agent)];
      started := started[run := now];
      return Success(sequence);
    }

    method DelegateSubagent(run: string, taskId: string, agent: Option<string>) returns (sequence: nat)
      requires Valid(State()) && run !in started
      modifies this
      ensures Valid(State())
      ensures delegatedSequences == old(delegatedSequences)[run := Reserved(taskId, sequence, agent)]
      ensures IsNext(old(State()), taskId, sequence)
      ensures transcripts == old(transcripts) && tasks == old(tasks) && activeRuns == old(activeRuns)
    {
      sequence := NextTurnSequence(taskId);
      ghost var now := Later(started);
      BeginKeepsValid(State(), run, Reserved(taskId, sequence, agent), true, now);
      delegatedSequences := delegatedSequences[run := Reserved(taskId, sequence, agent)];
      started := started[run := now];
    }

    /** The turn lands under the number its run reserved, and the Task's roll-up follows the newest turn. */
    method AppendTurn(taskId: string, turn: Turn)
      modifies this
      ensures activeRuns == old(activeRuns) && delegatedSequences == old(delegatedSequences) && started == old(started)
      ensures if taskId !in old(tasks) then transcripts == old(transcripts) && tasks == old(tasks)
              else
                var turns := Insert(TurnsOf(old(transcripts), taskId), turn);
                transcripts == old(transcripts)[taskId := turns] && tasks == old(tasks)[taskId := RollUp(turns)]
    {
      if taskId !in tasks {
        return;
      }
      var turns := Insert(TurnsOf(transcripts, taskId), turn);
      assert |turns| > 0;
      transcripts := transcripts[taskId := turns];
      var newest := turns[|turns| - 1];
      tasks := tasks[taskId := Task(|turns|, Some(newest.ok), newest.agent)];
    }

    /** A top-level run completes. */
    method CompleteRun(run: string, ok: bool)
      requires Valid(State()) && run in activeRuns
      modifies this
      ensures Valid(State())
      ensures var held := old(activeRuns)[run];
              State() == Finish(old(State()), run, Turn(run, held.sequence, ok, held.agent), held.taskId)
    {
      var held := activeRuns[run];
      FinishKeepsValid(State(), run, held, ok);
      AppendTurn(held.taskId, Turn(run, held.sequence, ok, held.agent));
      activeRuns := activeRuns - {run};
      assert delegatedSequences - {run} == delegatedSequences;
    }

    /** A delegated run completes. */
    method CompleteDelegated(run: string, ok: bool)
      requires Valid(State()) && run in delegatedSequences
      modifies this
      ensures Valid(State())
      ensures var held := old(delegatedSequences)[run];
              State() == Finish(old(State()), run, Turn(run, held.sequence, ok, held.agent), held.taskId)
    {
      var held := delegatedSequences[run];
      FinishKeepsValid(State(), run, held, ok);
      AppendTurn(held.taskId, Turn(run, held.sequence, ok, held.agent));
      delegatedSequences := delegatedSequences - {run};
      assert activeRuns - {run} == activeRuns;
    }

    method DeleteTask(taskId: string)
      requires Valid(State())
      modifies this
      ensures Valid(State()) && State() == Delete(old(State()), taskId)
    {
      DeleteKeepsValid(State(), taskId);
      transcripts := transcripts - {taskId};
      tasks := tasks - {taskId};
    }
  }

  /** The highest number runs of the Task hold, or what was already found. */
  method HighestOf(runs: Runs, taskId: string, found: nat) returns (highest: nat)
    ensures highest >= found
    ensures forall r :: r in runs && runs[r].taskId == taskId ==> runs[r].sequence <= highest
    ensures highest == found || exists r :: r in runs && runs[r].taskId == taskId && runs[r].sequence == highest
  {
    highest := found;
    var rest := runs.Keys;
    while rest != {}
      invariant rest <= runs.Keys && highest >= found
      invariant forall r :: r in runs && r !in rest && runs[r].taskId == taskId ==> runs[r].sequence <= highest
      invariant highest == found || exists r :: r in runs && runs[r].taskId == taskId && runs[r].sequence == highest
      decreases rest
    {
      var r :| r in rest;
      rest := rest - {r};
      if runs[r].taskId == taskId && runs[r].sequence > highest {
        highest := runs[r].sequence;
      }
    }
  }

  /** A moment after every start so far. */
  ghost function Later(started: map<string, nat>): (now: nat)
    ensures forall r :: r in started ==> started[r] < now
    decreases |started|
  {
    if started == map[] then 0
    else
      var r :| r in started;
      var before := Later(started - {r});
      assert forall q :: q in started ==> q == r || q in started - {r};
      if started[r] >= before then started[r] + 1 else before
  }
}
