/**
 The scripted run of the in-memory core: a driver that emits frames, waits for decisions, and completes once. Between
 any two frames the subscribers run, and may submit decisions or close the run; a decision that arrives before the
 driver waits for it is queued.
 */
module SimulatedRuns {
  import opened Wrappers
  import opened RunLog

  datatype Decision =
    | ApprovePlan
    | RejectPlan(reason: Option<string>)
    | Allow
    | Deny
    | Answer(selected: string)
    | Cancel

  datatype Point = PlanGate | Question | Permission

  /** Where the driver goes when it has emitted what it is emitting. */
  datatype Next = Ask(point: Point) | Finish(ok: bool)

  datatype Phase =
    | NotStarted
    | Speaking(script: seq<Event>, next: Next)
    | Waiting(point: Point)
    | Resolved(point: Point, decision: Decision)
    | Ended

  /** How the run was asked for: plan first or not, a prompt that provokes a question or not, in a Task or not. */
  datatype Config = Config(planMode: bool, clarify: bool, inTask: bool)

  datatype Sim = Sim(
    config: Config,
    phase: Phase,
    queued: seq<Decision>,
    closed: bool,
    frames: seq<Frame>,
    completions: nat,
    reported: Option<bool>,
    registered: bool,
    submitted: seq<Decision>,
    taken: seq<Decision>)

  function Fresh(config: Config): Sim {
    Sim(config, NotStarted, [], false, [], 0, None, true, [], [])
  }

  const REAL_PLAN: nat := 0
  const EMPTY_PLAN: nat := 1

  function ActivePlan(config: Config): nat {
    if config.planMode then REAL_PLAN else EMPTY_PLAN
  }

  const PLAN_FILE_WRITE: Event := LogEntry(Entry("tu-plan-file", "ran", "created"))

  function Write(decision: string, result: string): Event {
    LogEntry(Entry("tu-1", decision, result))
  }

  function Say(text: string): Event {
    AssistantText(text, false)
  }

  /** Every turn leaves its in-flight channels empty, and then completes. */
  function Closing(state: TurnState): seq<Event> {
    [Live(""), CompletedEvent(state)]
  }

  function ReviewedClosing(config: Config): seq<Event> {
    [Live("")] + (if config.inTask then [Reviewing] else []) + [CompletedEvent(Completed)]
  }

  function Executing(config: Config): Event {
    State(TurnState.Executing(ActivePlan(config)))
  }

  function AskPermission(config: Config): seq<Event> {
    [Say("Running the analysis."), PermissionCard("perm-1"),
     State(AwaitingPermission(Some(ActivePlan(config)), "perm-1"))]
  }

  function Execute(config: Config): Phase {
    if config.clarify then
      Speaking([Executing(config), QuestionAsked("q-1"),
                State(AwaitingQuestion(Some(ActivePlan(config)), "q-1"))], Ask(Question))
    else Speaking([Executing(config)] + AskPermission(config), Ask(Permission))
  }

  /** The first tick: a run closed before it began is cancelled, any other begins. */
  function Begin(config: Config, closed: bool): Phase {
    if closed then Speaking(Closing(Cancelled), Finish(false))
    else if config.planMode then
      Speaking([State(Planning), Live("Here's my plan"), Say("Here's my plan for this task."), PLAN_FILE_WRITE,
                PlanProposed(REAL_PLAN), State(AwaitingPlanApproval(REAL_PLAN))], Ask(PlanGate))
    else Execute(config)
  }

  /** What the driver does with a decision. */
  function After(config: Config, point: Point, d: Decision, closed: bool): Phase {
    match point
    case PlanGate =>
      if closed || d == Cancel then Speaking(Closing(Cancelled), Finish(false))
      else if d != ApprovePlan then
        Speaking(Closing(Failed(if d.RejectPlan? && d.reason.Some? then d.reason.value else "plan rejected")),
                 Finish(false))
      else Execute(config)
    case Question =>
      if closed || d == Cancel then Speaking(Closing(Cancelled), Finish(false))
      else Speaking([Say(if d.Answer? && d.selected != "" then d.selected else "Brunello"), Executing(config)]
                    + AskPermission(config), Ask(Permission))
    case Permission =>
      if closed || d == Cancel then Speaking([Write("cancelled", "")] + Closing(Cancelled), Finish(false))
      else if d != Allow then
        Speaking([Write("denied", "Denied by the researcher"), Executing(config), Say("Wrapping up without it.")]
                 + ReviewedClosing(config), Finish(true))
      else
        Speaking([Executing(config), Write("allowed-once", "created"), Executing(config), Say("The run is complete.")]
                 + ReviewedClosing(config), Finish(true))
  }

  datatype Action = Tick | Emit | Reach | Resume | Submit(decision: Decision) | Close

  predicate Enabled(s: Sim, a: Action) {
    match a
    case Tick => s.phase.NotStarted?
    case Emit => s.phase.Speaking? && s.phase.script != []
    case Reach => s.phase.Speaking? && s.phase.script == []
    case Resume => s.phase.Resolved?
    case _ => true
  }

  function Apply(s: Sim, a: Action): Sim
    requires Enabled(s, a)
  {
    match a
    case Tick => s.(phase := Begin(s.config, s.closed))
    case Emit =>
      s.(frames := s.frames + [Frame(|s.frames| + 1, s.phase.script[0])],
         phase := Speaking(s.phase.script[1..], s.phase.next))
    case Reach =>
      (match s.phase.next
       case Finish(ok) =>
         s.(phase := Ended, completions := s.completions + 1, reported := Some(ok), registered := false)
       case Ask(point) =>
         if s.queued == [] then s.(phase := Waiting(point))
         else s.(phase := Resolved(point, s.queued[0]), queued := s.queued[1..], taken := s.taken + [s.queued[0]]))
    case Resume => s.(phase := After(s.config, s.phase.point, s.phase.decision, s.closed))
    case Submit(d) =>
      var sent := s.(submitted := s.submitted + [d]);
      if s.phase.Waiting? then sent.(phase := Resolved(s.phase.point, d), taken := s.taken + [d])
      else sent.(queued := s.queued + [d])
    case Close =>
      var shut := s.(closed := true);
      if s.phase.Waiting? then shut.(phase := Resolved(s.phase.point, Cancel)) else shut
  }

  ghost predicate IsRun(sims: seq<Sim>, actions: seq<Action>, config: Config) {
    && |sims| == |actions| + 1
    && sims[0] == Fresh(config)
    && forall i :: 0 <= i < |actions| ==> Enabled(sims[i], actions[i]) && sims[i + 1] == Apply(sims[i], actions[i])
  }

  /** The closure's variables; `pending` is the resolver of the one decision the driver may be waiting for. */
  class SimulatedRun {
    const config: Config
    var pending: Option<Point>
    var queued: seq<Decision>
    var closed: bool
    var frames: seq<Frame>
    var driver: Phase
    var completions: nat
    var reported: Option<bool>
    var registered: bool
    ghost var submitted: seq<Decision>
    ghost var taken: seq<Decision>

    ghost predicate Valid()
      reads this
    {
      pending == if driver.Waiting? then Some(driver.point) else None
    }

    ghost function Value(): Sim
      reads this
    {
      Sim(config, driver, queued, closed, frames, completions, reported, registered, submitted, taken)
    }

    constructor (config: Config)
      ensures Valid() && Value() == Fresh(config)
    {
      this.config := config;
      pending, queued, closed, frames, driver := None, [], false, [], NotStarted;
      completions, reported, registered, submitted, taken := 0, None, true, [], [];
    }

    method EmitNext()
      requires Valid() && Enabled(Value(), Emit)
      modifies this
      ensures Valid() && Value() == Apply(old(Value()), Emit)
    {
      frames := frames + [Frame(|frames| + 1, driver.script[0])];
      driver := Speaking(driver.script[1..], driver.next);
    }

    /** The deferred first tick. */
    method Start()
      requires Valid() && Enabled(Value(), Tick)
      modifies this
      ensures Valid() && Value() == Apply(old(Value()), Tick)
    {
      driver := Begin(config, closed);
    }

    /** The driver resumes with the decision it was handed. */
    method Continue()
      requires Valid() && Enabled(Value(), Resume)
      modifies this
      ensures Valid() && Value() == Apply(old(Value()), Resume)
    {
      driver := After(config, driver.point, driver.decision, closed);
    }

    /** After the last frame the completion callback is called, which takes the run off the registry. */
    method Complete()
      requires Valid() && Enabled(Value(), Reach) && driver.next.Finish?
      modifies this
      ensures Valid() && Value() == Apply(old(Value()), Reach)
    {
      completions := completions + 1;
      reported := Some(driver.next.ok);
      registered := false;
      driver := Ended;
    }

    /** The driver asks for a decision: an early one is handed over at once, else it waits. */
    method WaitDecision()
      requires Valid() && Enabled(Value(), Reach) && driver.next.Ask?
      modifies this
      ensures Valid() && Value() == Apply(old(Value()), Reach)
    {
      var point := driver.next.point;
      if queued != [] {
        taken := taken + [queued[0]];
        driver := Resolved(point, queued[0]);
        queued := queued[1..];
      } else {
        pending := Some(point);
        driver := Waiting(point);
      }
    }

    method SubmitDecision(decision: Decision)
      requires Valid()
      modifies this
      ensures Valid() && Value() == Apply(old(Value()), Submit(decision))
    {
      var resolve := pending;
      pending := None;
      submitted := submitted + [decision];
      if resolve.Some? {
        taken := taken + [decision];
        driver := Resolved(resolve.value, decision);
      } else {
        queued := queued + [decision];
      }
    }

    method CloseRun()
      requires Valid()
      modifies this
      ensures Valid() && Value() == Apply(old(Value()), Close)
    {
      closed := true;
      var resolve := pending;
      pending := None;
      if resolve.Some? {
        driver := Resolved(resolve.value, Cancel);
      }
    }
  }

  // ---- the invariant ----

  predicate NoneCompletes(events: seq<Event>) {
    forall e :: e in events ==> !e.CompletedEvent?
  }

  /** One completion, and it comes last. */
  predicate CompletesLast(events: seq<Event>) {
    events != [] && events[|events| - 1].CompletedEvent? && NoneCompletes(events[..|events| - 1])
  }

  /** Everything said so far and everything the driver is about to say before it next waits or ends. */
  function Trace(s: Sim): seq<Event> {
    Events(s.frames) + (if s.phase.Speaking? then s.phase.script else [])
  }

  predicate Finishing(s: Sim) {
    s.phase.Ended? || (s.phase.Speaking? && s.phase.next.Finish?)
  }

  predicate Allowed(e: Event) {
    e.LogEntry? && e.entry.decision == "allowed-once"
  }

  predicate RunsRealPlan(e: Event) {
    e == State(TurnState.Executing(REAL_PLAN))
  }

  /** The gates: nothing is written before it was allowed, and no proposed plan runs before it was approved. */
  predicate Gated(s: Sim) {
    && ((exists e :: e in Trace(s) && Allowed(e)) ==> Allow in s.taken)
    && ((exists e :: e in Trace(s) && RunsRealPlan(e)) ==> ApprovePlan in s.taken)
  }

  /** Past the plan gate of a plan-first run. */
  predicate PastPlanGate(s: Sim) {
    match s.phase
    case Speaking(_, Ask(point)) => point != PlanGate
    case Waiting(point) => point != PlanGate
    case Resolved(point, _) => point != PlanGate
    case _ => false
  }

  ghost predicate Inv(s: Sim) {
    && Numbered(s.frames)
    && s.taken + s.queued == s.submitted
    && (s.phase.Waiting? ==> s.queued == [])
    && (s.phase.Resolved? ==> s.phase.decision in s.taken || s.phase.decision == Cancel)
    && (if Finishing(s) then CompletesLast(Trace(s)) else NoneCompletes(Trace(s)))
    && s.completions == (if s.phase.Ended? then 1 else 0)
    && s.registered == !s.phase.Ended?
    && Gated(s)
    && (s.config.planMode && PastPlanGate(s) ==> ApprovePlan in s.taken)
  }

  /** A segment that leads to a question completes nothing; one that leads to the end completes last. */
  predicate WellEnded(phase: Phase) {
    phase.Speaking? && if phase.next.Finish? then CompletesLast(phase.script) else NoneCompletes(phase.script)
  }

  lemma BeginIsWellEnded(config: Config, closed: bool)
    ensures WellEnded(Begin(config, closed))
    ensures forall e :: e in Begin(config, closed).script ==>
              !Allowed(e) && (RunsRealPlan(e) ==> config.planMode && PastGate(Begin(config, closed)))
    ensures config.planMode ==> !PastGate(Begin(config, closed))
  {
  }

  predicate PastGate(phase: Phase) {
    phase.Speaking? && phase.next.Ask? && phase.next.point != PlanGate
  }

  lemma AfterIsWellEnded(config: Config, point: Point, d: Decision, closed: bool)
    ensures WellEnded(After(config, point, d, closed))
    ensures point == PlanGate && PastGate(After(config, point, d, closed)) ==> d == ApprovePlan
  {
    if point == Permission {
      AfterPermissionIsWellEnded(config, d, closed);
    }
  }

  lemma AfterPermissionIsWellEnded(config: Config, d: Decision, closed: bool)
    ensures WellEnded(After(config, Permission, d, closed))
  {
  }

  lemma AfterPermissionSaysOnlyWhatIsAllowed(config: Config, d: Decision, closed: bool)
    ensures forall e :: e in After(config, Permission, d, closed).script ==>
              (Allowed(e) ==> d == Allow) && (RunsRealPlan(e) ==> config.planMode)
  {
    assert !Allowed(Write("cancelled", "")) && !Allowed(Write("denied", "Denied by the researcher"));
  }

  lemma AfterSaysOnlyWhatIsAllowed(config: Config, point: Point, d: Decision, closed: bool)
    ensures forall e :: e in After(config, point, d, closed).script ==>
              && (Allowed(e) ==> d == Allow)
              && (RunsRealPlan(e) ==> config.planMode && (point == PlanGate ==> d == ApprovePlan))
  {
    if point == Permission {
      AfterPermissionSaysOnlyWhatIsAllowed(config, d, closed);
    }
  }

  /** Emitting a frame moves it from what is about to be said to what has been. */
  lemma EmitKeepsTrace(s: Sim)
    requires Enabled(s, Emit)
    ensures Trace(Apply(s, Emit)) == Trace(s)
  {
    var s' := Apply(s, Emit);
    assert Events(s'.frames) == Events(s.frames) + [s.phase.script[0]];
  }

  /** A new segment after frames that complete nothing. */
  lemma SpeakingOn(said: seq<Event>, phase: Phase)
    requires NoneCompletes(said) && WellEnded(phase)
    ensures if phase.next.Finish? then CompletesLast(said + phase.script) else NoneCompletes(said + phase.script)
  {
    if phase.next.Finish? {
      assert (said + phase.script)[..|said + phase.script| - 1] == said + phase.script[..|phase.script| - 1];
    }
  }

  /** The driver starts or goes on: the new segment follows everything said so far. */
  lemma SegmentKeepsInv(s: Sim, phase: Phase)
    requires Inv(s) && WellEnded(phase) && (s.phase.NotStarted? || s.phase.Resolved?)
    requires forall e :: e in phase.script ==>
               (Allowed(e) ==> Allow in s.taken) && (RunsRealPlan(e) ==> ApprovePlan in s.taken)
    requires s.config.planMode && PastGate(phase) ==> ApprovePlan in s.taken
    ensures Inv(s.(phase := phase))
  {
    assert Trace(s) == Events(s.frames);
    SpeakingOn(Events(s.frames), phase);
  }

  lemma ApplyKeepsInv(s: Sim, a: Action)
    requires Inv(s) && Enabled(s, a)
    ensures Inv(Apply(s, a))
  {
    match a
    case Tick =>
      BeginIsWellEnded(s.config, s.closed);
      SegmentKeepsInv(s, Begin(s.config, s.closed));
    case Emit =>
      EmitKeepsTrace(s);
    case Resume =>
      AfterIsWellEnded(s.config, s.phase.point, s.phase.decision, s.closed);
      AfterSaysOnlyWhatIsAllowed(s.config, s.phase.point, s.phase.decision, s.closed);
      SegmentKeepsInv(s, After(s.config, s.phase.point, s.phase.decision, s.closed));
    case Reach =>
      ReachKeepsInv(s);
    case Submit(d) =>
      SubmitKeepsInv(s, d);
    case Close =>
      CloseKeepsInv(s);
  }

  lemma ReachKeepsInv(s: Sim)
    requires Inv(s) && Enabled(s, Reach)
    ensures Inv(Apply(s, Reach))
  {
    assert Trace(s) == Trace(Apply(s, Reach)) == Events(s.frames);
  }

  lemma SubmitKeepsInv(s: Sim, d: Decision)
    requires Inv(s)
    ensures Inv(Apply(s, Submit(d)))
  {
    assert Trace(s) == Trace(Apply(s, Submit(d)));
  }

  lemma CloseKeepsInv(s: Sim)
    requires Inv(s)
    ensures Inv(Apply(s, Close))
  {
    assert Trace(s) == Trace(Apply(s, Close));
  }

  lemma {:induction false} RunKeepsInv(sims: seq<Sim>, actions: seq<Action>, config: Config, i: nat)
    requires IsRun(sims, actions, config) && i <= |actions|
    ensures Inv(sims[i])
  {
    if i > 0 {
      RunKeepsInv(sims, actions, config, i - 1);
      ApplyKeepsInv(sims[i - 1], actions[i - 1]);
    }
  }

  // ---- no run tells its snapshot as a frame ----

  lemma BeginSaysNoSnapshot(config: Config, closed: bool)
    ensures NoSnapshots(Begin(config, closed).script)
  {
  }

  lemma AfterPermissionSaysNoSnapshot(config: Config, d: Decision, closed: bool)
    ensures NoSnapshots(After(config, Permission, d, closed).script)
  {
  }

  lemma AfterSaysNoSnapshot(config: Config, point: Point, d: Decision, closed: bool)
    ensures NoSnapshots(After(config, point, d, closed).script)
  {
    if point == Permission {
      AfterPermissionSaysNoSnapshot(config, d, closed);
    }
  }

  lemma ApplyTellsNoSnapshot(s: Sim, a: Action)
    requires Enabled(s, a) && NoSnapshots(Trace(s))
    ensures NoSnapshots(Trace(Apply(s, a)))
  {
    match a
    case Tick =>
      BeginSaysNoSnapshot(s.config, s.closed);
    case Emit =>
      EmitKeepsTrace(s);
    case Resume =>
      AfterSaysNoSnapshot(s.config, s.phase.point, s.phase.decision, s.closed);
    case _ =>
  }

  lemma {:induction false} TellsNoSnapshot(sims: seq<Sim>, actions: seq<Action>, config: Config, i: nat)
    requires IsRun(sims, actions, config) && i <= |actions|
    ensures NoSnapshots(Trace(sims[i]))
  {
    if i > 0 {
      TellsNoSnapshot(sims, actions, config, i - 1);
      ApplyTellsNoSnapshot(sims[i - 1], actions[i - 1]);
    }
  }

  // ---- the theorems ----

  /** At every moment of every run the stored snapshot carries the number of the last frame. */
  lemma {:induction false} SnapshotIsCurrent(sims: seq<Sim>, actions: seq<Action>, config: Config, i: nat)
    requires IsRun(sims, actions, config) && i <= |actions|
    ensures Fold(INITIAL, sims[i].frames).lastEventSeq == |sims[i].frames|
  {
    RunKeepsInv(sims, actions, config, i);
    TellsNoSnapshot(sims, actions, config, i);
    assert forall e :: e in Events(sims[i].frames) ==> e in Trace(sims[i]);
    LastSeqIsLength(sims[i].frames);
  }

  /** No decision is lost or reordered, and the driver never waits while one is queued. */
  lemma {:induction false} NoDecisionLost(sims: seq<Sim>, actions: seq<Action>, config: Config, i: nat)
    requires IsRun(sims, actions, config) && i <= |actions|
    ensures sims[i].taken + sims[i].queued == sims[i].submitted
    ensures sims[i].phase.Waiting? ==> sims[i].queued == []
  {
    RunKeepsInv(sims, actions, config, i);
  }

  /** At most one frame completes, and nothing is emitted after it. */
  lemma {:induction false} CompletesOnceAndLast(sims: seq<Sim>, actions: seq<Action>, config: Config, i: nat, k: nat)
    requires IsRun(sims, actions, config) && i <= |actions|
    requires k < |sims[i].frames| && sims[i].frames[k].event.CompletedEvent?
    ensures k == |sims[i].frames| - 1
    ensures sims[i].phase.Ended? || sims[i].phase == Speaking([], Finish(true)) || sims[i].phase == Speaking([], Finish(false))
  {
    RunKeepsInv(sims, actions, config, i);
    assert Trace(sims[i])[k] == sims[i].frames[k].event;
    OnlyTheLastCompletes(Trace(sims[i]), k);
  }

  lemma OnlyTheLastCompletes(events: seq<Event>, k: nat)
    requires k < |events| && events[k].CompletedEvent?
    ensures !NoneCompletes(events)
    ensures CompletesLast(events) ==> k == |events| - 1
  {
    assert k < |events| - 1 ==> events[..|events| - 1][k] == events[k];
  }

  /** The run is registered exactly until its one completion is reported, and by then its log ends with a completion. */
  lemma {:induction false} RegisteredUntilCompleted(sims: seq<Sim>, actions: seq<Action>, config: Config, i: nat)
    requires IsRun(sims, actions, config) && i <= |actions|
    ensures sims[i].completions <= 1 && (sims[i].registered <==> sims[i].completions == 0)
    ensures !sims[i].registered ==> CompletesLast(Events(sims[i].frames))
  {
    RunKeepsInv(sims, actions, config, i);
    assert sims[i].phase.Ended? ==> Trace(sims[i]) == Events(sims[i].frames);
  }

  /** The approval machine guards its cards: no write before an allow was taken, no proposed plan before an approval. */
  lemma {:induction false} NothingRunsUnapproved(sims: seq<Sim>, actions: seq<Action>, config: Config, i: nat, e: Event)
    requires IsRun(sims, actions, config) && i <= |actions| && e in Events(sims[i].frames)
    ensures Allowed(e) ==> Allow in sims[i].submitted
    ensures RunsRealPlan(e) ==> ApprovePlan in sims[i].submitted
  {
    RunKeepsInv(sims, actions, config, i);
    assert e in Trace(sims[i]);
  }

  // ---- what a decision leads to ----

  predicate EndsIn(phase: Phase, state: TurnState, ok: bool) {
    && phase.Speaking? && phase.next == Finish(ok)
    && phase.script != [] && phase.script[|phase.script| - 1] == CompletedEvent(state)
  }

  /** The run goes on to its next question, executing the plan. */
  predicate GoesOnTo(config: Config, phase: Phase, point: Point) {
    && phase.Speaking? && phase.next == Ask(point) && Executing(config) in phase.script
    && phase.script[|phase.script| - 1] == State(GateState(config, point))
  }

  /** The state told when the driver asks. */
  function GateState(config: Config, point: Point): TurnState {
    match point
    case PlanGate => AwaitingPlanApproval(REAL_PLAN)
    case Question => AwaitingQuestion(Some(ActivePlan(config)), "q-1")
    case Permission => AwaitingPermission(Some(ActivePlan(config)), "perm-1")
  }

  function Reason(d: Decision): string {
    if d.RejectPlan? && d.reason.Some? then d.reason.value else "plan rejected"
  }

  /** A question comes first where the prompt provokes one. */
  function FirstPoint(config: Config): Point {
    if config.clarify then Question else Permission
  }

  /** An approved plan is executed, an answer taken up, an allowed write written and a denied one not; a stop stops. */
  predicate Heeds(config: Config, point: Point, d: Decision, closed: bool, phase: Phase) {
    if closed || d == Cancel then
      EndsIn(phase, Cancelled, false) && (point == Permission ==> phase.script[0] == Write("cancelled", ""))
    else match point
      case PlanGate =>
        if d == ApprovePlan then GoesOnTo(config, phase, FirstPoint(config))
        else EndsIn(phase, Failed(Reason(d)), false)
      case Question =>
        GoesOnTo(config, phase, Permission) && (d.Answer? && d.selected != "" ==> Say(d.selected) in phase.script)
      case Permission =>
        && EndsIn(phase, Completed, true) && (Reviewing in phase.script <==> config.inTask)
        && (Write("allowed-once", "created") in phase.script <==> d == Allow)
        && (Write("denied", "Denied by the researcher") in phase.script <==> d != Allow)
  }

  lemma StopIsHeeded(config: Config, d: Decision, closed: bool)
    requires closed || d == Cancel
    ensures Heeds(config, Permission, d, closed, After(config, Permission, d, closed))
  {
  }

  lemma DenialIsHeeded(config: Config, d: Decision)
    requires d != Allow && d != Cancel
    ensures Heeds(config, Permission, d, false, After(config, Permission, d, false))
  {
    var script := After(config, Permission, d, false).script;
    assert script[0] == Write("denied", "Denied by the researcher");
    assert config.inTask ==> script[|script| - 2] == Reviewing;
  }

  lemma AllowIsHeeded(config: Config)
    ensures Heeds(config, Permission, Allow, false, After(config, Permission, Allow, false))
  {
    var script := After(config, Permission, Allow, false).script;
    assert script[1] == Write("allowed-once", "created");
    assert config.inTask ==> script[|script| - 2] == Reviewing;
  }

  lemma PermissionIsHeeded(config: Config, d: Decision, closed: bool)
    ensures Heeds(config, Permission, d, closed, After(config, Permission, d, closed))
  {
    if closed || d == Cancel {
      StopIsHeeded(config, d, closed);
    } else if d == Allow {
      AllowIsHeeded(config);
    } else {
      DenialIsHeeded(config, d);
    }
  }

  lemma QuestionIsHeeded(config: Config, d: Decision, closed: bool)
    ensures Heeds(config, Question, d, closed, After(config, Question, d, closed))
  {
    var script := After(config, Question, d, closed).script;
    if !closed && d != Cancel {
      assert script[1] == Executing(config);
      assert d.Answer? && d.selected != "" ==> script[0] == Say(d.selected);
    }
  }

  lemma ExecutesOn(config: Config)
    ensures GoesOnTo(config, Execute(config), FirstPoint(config))
  {
    assert Execute(config).script[0] == Executing(config);
  }

  lemma AfterHeeds(config: Config, point: Point, d: Decision, closed: bool)
    ensures Heeds(config, point, d, closed, After(config, point, d, closed))
  {
    match point
    case PlanGate => ExecutesOn(config);
    case Question => QuestionIsHeeded(config, d, closed);
    case Permission => PermissionIsHeeded(config, d, closed);
  }

  /** How a run begins: closed, at the plan gate, or executing at once. */
  predicate Opens(config: Config, closed: bool, phase: Phase) {
    if closed then EndsIn(phase, Cancelled, false)
    else if config.planMode then
      && phase.Speaking? && phase.next == Ask(PlanGate) && PlanProposed(REAL_PLAN) in phase.script
      && phase.script[|phase.script| - 1] == State(GateState(config, PlanGate))
    else GoesOnTo(config, phase, FirstPoint(config))
  }

  lemma BeginOpens(config: Config, closed: bool)
    ensures Opens(config, closed, Begin(config, closed))
  {
    if !closed && config.planMode {
      assert Begin(config, closed).script[4] == PlanProposed(REAL_PLAN);
    } else {
      ExecutesOn(config);
    }
  }

  /** What was said, or was about to be, is not taken back. */
  lemma {:induction false} TraceOnlyGrows(sims: seq<Sim>, actions: seq<Action>, config: Config, i: nat, j: nat)
    requires IsRun(sims, actions, config) && i <= j <= |actions|
    ensures Trace(sims[i]) <= Trace(sims[j])
  {
    if i < j {
      TraceOnlyGrows(sims, actions, config, i, j - 1);
      OneStepGrows(sims, actions, config, j - 1);
      PrefixOfPrefix(Trace(sims[i]), Trace(sims[j - 1]), Trace(sims[j]));
    }
  }

  lemma OneStepGrows(sims: seq<Sim>, actions: seq<Action>, config: Config, k: nat)
    requires IsRun(sims, actions, config) && k < |actions|
    ensures Trace(sims[k]) <= Trace(sims[k + 1])
  {
    OneActionGrows(sims[k], actions[k]);
  }

  lemma PrefixOfPrefix(a: seq<Event>, b: seq<Event>, c: seq<Event>)
    requires a <= b <= c
    ensures a <= c
  {
  }

  lemma {:induction false} ConfigStays(sims: seq<Sim>, actions: seq<Action>, config: Config, i: nat)
    requires IsRun(sims, actions, config) && i <= |actions|
    ensures sims[i].config == config
  {
    if i > 0 {
      ConfigStays(sims, actions, config, i - 1);
    }
  }

  lemma OneActionGrows(s: Sim, a: Action)
    requires Enabled(s, a)
    ensures Trace(s) <= Trace(Apply(s, a))
  {
    if a.Emit? {
      EmitKeepsTrace(s);
    }
  }

  /** A segment the driver started has been said once it waits or has ended; a last segment ends the run. */
  lemma SegmentIsSaid(sims: seq<Sim>, actions: seq<Action>, config: Config, k: nat, j: nat)
    requires IsRun(sims, actions, config) && k < j <= |actions| && (actions[k].Resume? || actions[k].Tick?)
    requires !sims[j].phase.Speaking?
    ensures sims[k + 1].phase.Speaking?
    ensures Events(sims[k].frames) + sims[k + 1].phase.script <= Events(sims[j].frames)
    ensures sims[k + 1].phase.next.Finish? ==>
              sims[j].phase.Ended? && Events(sims[j].frames) == Events(sims[k].frames) + sims[k + 1].phase.script
  {
    var s, e := sims[k], sims[k + 1];
    assert Enabled(s, actions[k]) && e == Apply(s, actions[k]);
    if actions[k].Resume? {
      AfterIsWellEnded(s.config, s.phase.point, s.phase.decision, s.closed);
    } else {
      BeginIsWellEnded(s.config, s.closed);
    }
    assert Trace(e) == Events(s.frames) + e.phase.script;
    TraceOnlyGrows(sims, actions, config, k + 1, j);
    RunKeepsInv(sims, actions, config, j);
    RunKeepsInv(sims, actions, config, k + 1);
    if e.phase.next.Finish? {
      var n := |Trace(e)| - 1;
      assert Trace(sims[j])[n].CompletedEvent?;
      OnlyTheLastCompletes(Trace(sims[j]), n);
    }
  }

  /** What was reported is how the last segment ends. */
  predicate ReportedRightly(s: Sim) {
    && (s.phase.Ended? <==> s.reported.Some?)
    && (Finishing(s) ==> Trace(s) != [] && Trace(s)[|Trace(s)| - 1].CompletedEvent?)
    && (Finishing(s) ==>
          (if s.phase.Ended? then s.reported.value else s.phase.next.ok)
          == (Trace(s)[|Trace(s)| - 1].state == Completed))
  }

  /** A last segment is reported as a success exactly if it ends completed. */
  predicate EndsRightly(phase: Phase)
    requires phase.Speaking? && phase.next.Finish?
  {
    && phase.script != [] && phase.script[|phase.script| - 1].CompletedEvent?
    && phase.next.ok == (phase.script[|phase.script| - 1].state == Completed)
  }

  lemma SegmentReports(s: Sim, phase: Phase)
    requires s.phase.NotStarted? || s.phase.Resolved?
    requires ReportedRightly(s) && phase.Speaking?
    requires phase.next.Finish? ==> EndsRightly(phase)
    ensures ReportedRightly(s.(phase := phase))
  {
    assert Trace(s.(phase := phase)) == Events(s.frames) + phase.script;
  }

  lemma ApplyKeepsReported(s: Sim, a: Action)
    requires Enabled(s, a) && ReportedRightly(s)
    ensures ReportedRightly(Apply(s, a))
  {
    match a
    case Tick =>
      BeginOpens(s.config, s.closed);
      SegmentReports(s, Begin(s.config, s.closed));
    case Emit =>
      EmitKeepsTrace(s);
    case Resume =>
      AfterHeeds(s.config, s.phase.point, s.phase.decision, s.closed);
      SegmentReports(s, After(s.config, s.phase.point, s.phase.decision, s.closed));
    case Reach =>
      assert Trace(Apply(s, a)) == Trace(s);
    case _ =>
      assert Trace(Apply(s, a)) == Trace(s);
  }

  lemma {:induction false} RunKeepsReported(sims: seq<Sim>, actions: seq<Action>, config: Config, i: nat)
    requires IsRun(sims, actions, config) && i <= |actions|
    ensures ReportedRightly(sims[i])
  {
    if i > 0 {
      RunKeepsReported(sims, actions, config, i - 1);
      ApplyKeepsReported(sims[i - 1], actions[i - 1]);
    }
  }

  /**
   Every decision the driver takes is heeded: by the time it next waits or has ended, it has said what the decision asks
   for, and where the decision ends the run the log ends there, in the state that goes with it.
   */
  lemma {:induction false} DecisionIsHeeded(sims: seq<Sim>, actions: seq<Action>, config: Config, k: nat, j: nat)
    requires IsRun(sims, actions, config) && k < j <= |actions| && actions[k].Resume?
    requires !sims[j].phase.Speaking?
    ensures var s, said := sims[k], sims[k + 1].phase;
            && s.phase.Resolved? && Heeds(config, s.phase.point, s.phase.decision, s.closed, said)
            && Events(s.frames) + said.script <= Events(sims[j].frames)
            && (said.next.Finish? ==>
                  && sims[j].phase.Ended? && Events(sims[j].frames) == Events(s.frames) + said.script
                  && sims[j].reported == Some(said.next.ok))
  {
    var s := sims[k];
    assert Enabled(s, actions[k]) && sims[k + 1] == Apply(s, actions[k]);
    ConfigStays(sims, actions, config, k);
    AfterHeeds(config, s.phase.point, s.phase.decision, s.closed);
    SegmentIsSaid(sims, actions, config, k, j);
    if sims[k + 1].phase.next.Finish? {
      RunKeepsReported(sims, actions, config, j);
      RunKeepsReported(sims, actions, config, k + 1);
      assert Trace(sims[j]) == Events(sims[j].frames) == Trace(sims[k + 1]);
    }
  }

  /** So a write that was allowed is in the log of the run when it ends, and the run ends completed. */
  lemma {:induction false} AllowedIsWritten(sims: seq<Sim>, actions: seq<Action>, config: Config, k: nat, j: nat)
    requires IsRun(sims, actions, config) && k < j <= |actions| && actions[k].Resume?
    requires sims[k].phase == Resolved(Permission, Allow) && !sims[k].closed && !sims[j].phase.Speaking?
    ensures sims[j].phase.Ended? && sims[j].reported == Some(true)
    ensures Write("allowed-once", "created") in Events(sims[j].frames)
    ensures LastState(Events(sims[j].frames)) == Completed
  {
    DecisionIsHeeded(sims, actions, config, k, j);
    var said, events := sims[k + 1].phase.script, Events(sims[j].frames);
    var at :| 0 <= at < |said| && said[at] == Write("allowed-once", "created");
    assert events[|sims[k].frames| + at] == said[at];
    assert events[|events| - 1] == said[|said| - 1];
  }

  // ---- where a waiting run stands ----

  /** The last thing told before a question is the state that asks it. */
  predicate AsksLast(s: Sim) {
    match s.phase
    case Speaking(_, Ask(point)) => ToldLast(s, point)
    case Waiting(point) => ToldLast(s, point)
    case Resolved(point, _) => ToldLast(s, point)
    case _ => true
  }

  predicate ToldLast(s: Sim, point: Point) {
    Trace(s) != [] && Trace(s)[|Trace(s)| - 1] == State(GateState(s.config, point))
  }

  lemma SegmentAsksLast(s: Sim, phase: Phase)
    requires s.phase.NotStarted? || s.phase.Resolved?
    requires phase.Speaking? && phase.next.Ask? ==>
               phase.script != [] && phase.script[|phase.script| - 1] == State(GateState(s.config, phase.next.point))
    requires phase.Speaking?
    ensures AsksLast(s.(phase := phase))
  {
    assert Trace(s.(phase := phase)) == Events(s.frames) + phase.script;
  }

  lemma ApplyKeepsAsksLast(s: Sim, a: Action)
    requires Enabled(s, a) && AsksLast(s)
    ensures AsksLast(Apply(s, a))
  {
    match a
    case Tick =>
      BeginOpens(s.config, s.closed);
      SegmentAsksLast(s, Begin(s.config, s.closed));
    case Emit =>
      EmitKeepsTrace(s);
    case Resume =>
      AfterHeeds(s.config, s.phase.point, s.phase.decision, s.closed);
      SegmentAsksLast(s, After(s.config, s.phase.point, s.phase.decision, s.closed));
    case _ =>
      assert Trace(Apply(s, a)) == Trace(s);
  }

  lemma {:induction false} RunKeepsAsksLast(sims: seq<Sim>, actions: seq<Action>, config: Config, i: nat)
    requires IsRun(sims, actions, config) && i <= |actions|
    ensures AsksLast(sims[i])
  {
    if i > 0 {
      RunKeepsAsksLast(sims, actions, config, i - 1);
      ApplyKeepsAsksLast(sims[i - 1], actions[i - 1]);
    }
  }

  // ---- a run that is cancelled ends ----

  /** What the driver does by itself, as opposed to what is submitted to it. */
  predicate Own(a: Action) {
    a.Tick? || a.Emit? || a.Reach? || a.Resume?
  }

  /** Its next step, where it has one: a run that has ended has none, nor has one that waits. */
  function OwnStep(s: Sim): (a: Action)
    requires !s.phase.Ended? && !s.phase.Waiting?
    ensures Own(a) && Enabled(s, a)
  {
    match s.phase
    case NotStarted => Tick
    case Speaking(script, _) => if script == [] then Reach else Emit
    case _ => Resume
  }

  /** The questions a run has yet to come to, this one included. */
  function Stage(point: Point): nat {
    match point
    case PlanGate => 3
    case Question => 2
    case Permission => 1
  }

  /** A bound on the driver's own steps. */
  function Left(phase: Phase): nat {
    match phase
    case NotStarted => 80
    case Speaking(script, next) => 20 * (if next.Ask? then Stage(next.point) else 0) + |script| + 1
    case Waiting(point) => 20 * Stage(point)
    case Resolved(point, _) => 20 * Stage(point)
    case Ended => 0
  }

  lemma BeginIsShort(config: Config, closed: bool)
    ensures Left(Begin(config, closed)) < 80
  {
  }

  lemma AfterIsShort(config: Config, point: Point, d: Decision, closed: bool)
    ensures Left(After(config, point, d, closed)) < 20 * Stage(point)
  {
    match point
    case PlanGate =>
    case Question =>
    case Permission =>
  }

  /** Whatever is submitted in between, every step of the driver brings it nearer to its end. */
  lemma OwnStepsRunOut(s: Sim, a: Action)
    requires Enabled(s, a)
    ensures Left(Apply(s, a).phase) <= Left(s.phase)
    ensures Own(a) ==> Left(Apply(s, a).phase) < Left(s.phase)
  {
    match a
    case Tick => BeginIsShort(s.config, s.closed);
    case Resume => AfterIsShort(s.config, s.phase.point, s.phase.decision, s.closed);
    case _ =>
  }

  /** A cancel the driver has taken leads it to its end. */
  predicate Heeded(s: Sim) {
    Cancel in s.taken ==> Finishing(s) || (s.phase.Resolved? && s.phase.decision == Cancel)
  }

  lemma AfterCancelFinishes(config: Config, point: Point, closed: bool)
    ensures After(config, point, Cancel, closed).Speaking? && After(config, point, Cancel, closed).next.Finish?
  {
  }

  lemma ApplyKeepsHeeded(s: Sim, a: Action)
    requires Enabled(s, a) && Heeded(s)
    ensures Heeded(Apply(s, a))
  {
    if a.Resume? {
      AfterCancelFinishes(s.config, s.phase.point, s.closed);
    }
  }

  lemma {:induction false} RunKeepsHeeded(sims: seq<Sim>, actions: seq<Action>, config: Config, i: nat)
    requires IsRun(sims, actions, config) && i <= |actions|
    ensures Heeded(sims[i])
  {
    if i > 0 {
      RunKeepsHeeded(sims, actions, config, i - 1);
      ApplyKeepsHeeded(sims[i - 1], actions[i - 1]);
    }
  }

  /** Cancelled, or past its last question. */
  predicate Ending(s: Sim) {
    Cancel in s.submitted || Finishing(s)
  }

  lemma EndingNeverWaits(s: Sim)
    requires Inv(s) && Heeded(s) && Ending(s)
    ensures !s.phase.Waiting?
  {
    assert s.queued == [] ==> s.submitted == s.taken;
  }

  lemma EndingStays(s: Sim, a: Action)
    requires Enabled(s, a) && Ending(s)
    ensures Ending(Apply(s, a))
  {
  }

  /** The driver left to itself: until the run has ended or waits for a decision. */
  function Alone(s: Sim): Sim
    decreases Left(s.phase)
  {
    if s.phase.Ended? || s.phase.Waiting? then s
    else
      OwnStepsRunOut(s, OwnStep(s));
      Alone(Apply(s, OwnStep(s)))
  }

  lemma {:induction false} EndingEnds(s: Sim)
    requires Inv(s) && Heeded(s) && Ending(s)
    ensures Alone(s).phase.Ended? && Inv(Alone(s)) && s.frames <= Alone(s).frames
    decreases Left(s.phase)
  {
    EndingNeverWaits(s);
    if !s.phase.Ended? {
      var a := OwnStep(s);
      OwnStepsRunOut(s, a);
      ApplyKeepsInv(s, a);
      ApplyKeepsHeeded(s, a);
      EndingStays(s, a);
      EndingEnds(Apply(s, a));
    }
  }

  lemma EndedIsComplete(s: Sim)
    requires Inv(s) && s.phase.Ended?
    ensures CompletesLast(Events(s.frames))
  {
    assert Trace(s) == Events(s.frames);
  }

  lemma SaidIsFinishing(s: Sim, e: Event)
    requires Inv(s) && e in Events(s.frames) && e.CompletedEvent?
    ensures Finishing(s)
  {
    assert e in Trace(s);
  }

  /** From any moment of any run, once a cancel was submitted, the driver's own steps lead to the completing frame. */
  lemma {:induction false} CancelledRunCompletes(sims: seq<Sim>, actions: seq<Action>, config: Config, i: nat)
    requires IsRun(sims, actions, config) && i <= |actions| && Cancel in sims[i].submitted
    ensures Alone(sims[i]).phase.Ended? && sims[i].frames <= Alone(sims[i]).frames
    ensures CompletesLast(Events(Alone(sims[i]).frames))
  {
    RunKeepsInv(sims, actions, config, i);
    RunKeepsHeeded(sims, actions, config, i);
    EndingEnds(sims[i]);
    EndedIsComplete(Alone(sims[i]));
  }

  function OwnCount(actions: seq<Action>): nat {
    if actions == [] then 0 else OwnCount(actions[..|actions| - 1]) + (if Own(actions[|actions| - 1]) then 1 else 0)
  }

  lemma {:induction false} OwnStepsAreFew(sims: seq<Sim>, actions: seq<Action>, config: Config, i: nat)
    requires IsRun(sims, actions, config) && i <= |actions|
    ensures OwnCount(actions[..i]) + Left(sims[i].phase) <= 80
  {
    if i > 0 {
      OwnStepsAreFew(sims, actions, config, i - 1);
      OwnStepsRunOut(sims[i - 1], actions[i - 1]);
      assert actions[..i][..i - 1] == actions[..i - 1];
    }
  }

  /**
   Nor can anything submitted or closed in between hold it up: no run has more than 80 steps of the driver, and from a
   cancel on it always has a next one until it has ended.
   */
  lemma {:induction false} NothingHoldsUpCancelled(sims: seq<Sim>, actions: seq<Action>, config: Config, i: nat, j: nat)
    requires IsRun(sims, actions, config) && i <= j <= |actions| && Cancel in sims[i].submitted
    ensures OwnCount(actions[..j]) <= 80
    ensures sims[j].phase.Ended? || exists a :: Own(a) && Enabled(sims[j], a)
  {
    OwnStepsAreFew(sims, actions, config, j);
    SubmittedStays(sims, actions, config, i, j);
    RunKeepsInv(sims, actions, config, j);
    RunKeepsHeeded(sims, actions, config, j);
    EndingNeverWaits(sims[j]);
    if !sims[j].phase.Ended? {
      assert Own(OwnStep(sims[j])) && Enabled(sims[j], OwnStep(sims[j]));
    }
  }

  lemma {:induction false} SubmittedStays(sims: seq<Sim>, actions: seq<Action>, config: Config, i: nat, j: nat)
    requires IsRun(sims, actions, config) && i <= j <= |actions|
    ensures sims[i].submitted <= sims[j].submitted
  {
    if i < j {
      SubmittedStays(sims, actions, config, i, j - 1);
    }
  }

  /** Frames are only ever added at the end of the log. */
  lemma {:induction false} LogOnlyGrows(sims: seq<Sim>, actions: seq<Action>, config: Config, i: nat, j: nat)
    requires IsRun(sims, actions, config) && i <= j <= |actions|
    ensures sims[i].frames <= sims[j].frames
  {
    if i < j {
      LogOnlyGrows(sims, actions, config, i, j - 1);
    }
  }
}
