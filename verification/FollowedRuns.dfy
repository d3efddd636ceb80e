/**
 A simulated run, the snapshot the core stores beside its log, and one client that resumes it from that snapshot at any
 moment: the driver, the decision queue, the log, the snapshot and the resumed handle in one state machine.
 */
module FollowedRuns {
  import opened Wrappers
  import opened RunLog
  import R = ResumedRuns
  import S = SimulatedRuns

  /** `resumed` is the copy of the stored snapshot the client was given. */
  datatype World = World(sim: S.Sim, snapshot: Snapshot, resumed: Snapshot, client: Option<R.Client>)

  /** Only a run that is still registered is resumed. What the client does from inside a delivery is its reaction. */
  datatype Action =
    | Drive(act: S.Action, reaction: R.Reaction)
    | ResumeRun
    | OnEvent(react: nat -> R.Reaction)
    | Detach
    | Submit(decision: S.Decision)
    | Close

  predicate Enabled(w: World, a: Action) {
    match a
    case Drive(act, _) => S.Enabled(w.sim, act)
    case ResumeRun => w.sim.registered && w.client.None?
    case OnEvent(_) => w.client.Some? && !w.client.value.live
    case _ => w.client.Some?
  }

  /** A handle closed before it saw the run complete cancels the run. */
  function Cancelling(sim: S.Sim, before: R.Client, after: R.Client): S.Sim {
    if !before.closed && after.closed && !after.terminal then S.Apply(sim, S.Submit(S.Cancel)) else sim
  }

  function Follow(w: World, after: R.Client): World
    requires w.client.Some?
  {
    w.(client := Some(after), sim := Cancelling(w.sim, w.client.value, after))
  }

  /** The next frame is logged and folded into the stored snapshot, */
  function Logged(w: World): World
    requires S.Enabled(w.sim, S.Emit)
  {
    var sim := S.Apply(w.sim, S.Emit);
    w.(sim := sim, snapshot := Update(w.snapshot, sim.frames[|w.sim.frames|]))
  }

  /** and then handed over. */
  function Told(w: World, reaction: R.Reaction): World
    requires S.Enabled(w.sim, S.Emit)
  {
    var logged := Logged(w);
    if w.client.None? then logged
    else Follow(logged, R.Hand(w.client.value, logged.sim.frames[|w.sim.frames|], reaction))
  }

  function Apply(w: World, a: Action): World
    requires Enabled(w, a)
  {
    match a
    case Drive(act, reaction) => if act.Emit? then Told(w, reaction) else w.(sim := S.Apply(w.sim, act))
    case ResumeRun => w.(resumed := w.snapshot, client := Some(R.Resume(w.snapshot.lastEventSeq)))
    case OnEvent(react) => Follow(w, R.Subscribe(w.client.value, w.sim.frames, react))
    case Detach => w.(client := Some(w.client.value.(live := false)))
    case Submit(d) =>
      if w.client.value.closed || w.client.value.terminal then w else w.(sim := S.Apply(w.sim, S.Submit(d)))
    case Close => Follow(w, w.client.value.(live := false, closed := true))
  }

  ghost predicate IsRun(worlds: seq<World>, actions: seq<Action>, config: S.Config) {
    && |worlds| == |actions| + 1
    && worlds[0] == World(S.Fresh(config), INITIAL, INITIAL, None)
    && forall i :: 0 <= i < |actions| ==> Enabled(worlds[i], actions[i]) && worlds[i + 1] == Apply(worlds[i], actions[i])
  }

  // ---- the invariant ----

  ghost predicate Sound(sim: S.Sim) {
    && S.Inv(sim) && NoSnapshots(S.Trace(sim)) && S.Heeded(sim)
    && S.AsksLast(sim) && S.ReportedRightly(sim)
  }

  ghost predicate Inv(w: World) {
    && Sound(w.sim)
    && w.snapshot == Fold(INITIAL, w.sim.frames)
    && (w.client.Some? ==> Followed(w.sim, w.resumed, w.client.value))
  }

  /** The client has the frames after the snapshot it was given, and has said so if it left before the end. */
  ghost predicate Followed(sim: S.Sim, resumed: Snapshot, c: R.Client) {
    && R.Inv(R.World(sim.frames, c))
    && resumed == Fold(INITIAL, sim.frames[..c.start])
    && (c.terminal <==> !S.NoneCompletes(c.received))
    && (c.closed && !c.terminal ==> S.Cancel in sim.submitted)
  }

  lemma Stored(sim: S.Sim)
    requires Sound(sim)
    ensures NoSnapshots(Events(sim.frames)) && Fold(INITIAL, sim.frames).lastEventSeq == |sim.frames|
  {
    assert forall e :: e in Events(sim.frames) ==> e in S.Trace(sim);
    LastSeqIsLength(sim.frames);
  }

  lemma SimKeepsInv(sim: S.Sim, act: S.Action)
    requires Sound(sim) && S.Enabled(sim, act)
    ensures Sound(S.Apply(sim, act))
  {
    S.ApplyKeepsInv(sim, act);
    S.ApplyTellsNoSnapshot(sim, act);
    S.ApplyKeepsHeeded(sim, act);
    S.ApplyKeepsAsksLast(sim, act);
    S.ApplyKeepsReported(sim, act);
  }

  /** However far a delivery or a replay got, the client knows of the completion exactly if it was handed one. */
  lemma HandKeepsTerminal(c: R.Client, f: Frame, reaction: R.Reaction)
    requires c.terminal <==> !S.NoneCompletes(c.received)
    ensures var h := R.Hand(c, f, reaction); h.terminal <==> !S.NoneCompletes(h.received)
  {
    assert (c.received + [f.event])[|c.received|] == f.event;
  }

  lemma {:induction false} ReplayKeepsTerminal(c: R.Client, log: seq<Frame>, after: nat, react: nat -> R.Reaction)
    requires c.terminal <==> !S.NoneCompletes(c.received)
    ensures var r := R.Replay(c, log, after, react); r.terminal <==> !S.NoneCompletes(r.received)
  {
    if log != [] {
      var last := log[|log| - 1];
      ReplayKeepsTerminal(c, log[..|log| - 1], after, react);
      HandKeepsTerminal(R.Replay(c, log[..|log| - 1], after, react), last, react(last.seqNo));
    }
  }

  /** What a client did in a delivery, a replay or by itself, with the cancel that goes with closing early. */
  lemma FollowKeepsInv(w: World, before: R.Client, after: R.Client, resumed: Snapshot)
    requires Inv(w) && w.client.None? && after.start == before.start
    requires R.Inv(R.World(w.sim.frames, after)) && (after.terminal <==> !S.NoneCompletes(after.received))
    requires resumed == Fold(INITIAL, w.sim.frames[..after.start])
    requires before.closed ==> after == before && (!before.terminal ==> S.Cancel in w.sim.submitted)
    ensures Inv(Follow(w.(resumed := resumed, client := Some(before)), after))
  {
    var sim := Cancelling(w.sim, before, after);
    if sim != w.sim {
      SimKeepsInv(w.sim, S.Submit(S.Cancel));
      assert S.Cancel == sim.submitted[|w.sim.submitted|];
    }
    assert Followed(sim, resumed, after);
  }

  lemma ToldKeepsInv(w: World, reaction: R.Reaction)
    requires Inv(w) && S.Enabled(w.sim, S.Emit)
    ensures Inv(Told(w, reaction))
  {
    var frame := S.Apply(w.sim, S.Emit).frames[|w.sim.frames|];
    LoggedKeepsInv(w.(client := None));
    if w.client.Some? {
      var c := w.client.value;
      HandedStays(w.sim.frames, c, frame, reaction);
      FollowKeepsInv(Logged(w.(client := None)), c, R.Hand(c, frame, reaction), w.resumed);
    }
  }

  lemma LoggedKeepsInv(w: World)
    requires Inv(w) && S.Enabled(w.sim, S.Emit) && w.client.None?
    ensures Inv(Logged(w))
  {
    SimKeepsInv(w.sim, S.Emit);
    FoldOneMore(INITIAL, w.sim.frames, Frame(|w.sim.frames| + 1, w.sim.phase.script[0]));
  }

  lemma HandedStays(frames: seq<Frame>, c: R.Client, f: Frame, reaction: R.Reaction)
    requires R.Inv(R.World(frames, c)) && f.seqNo == |frames| + 1
    requires c.terminal <==> !S.NoneCompletes(c.received)
    ensures var h := R.Hand(c, f, reaction);
            && R.Inv(R.World(frames + [f], h)) && h.start == c.start
            && (h.terminal <==> !S.NoneCompletes(h.received))
    ensures (frames + [f])[..c.start] == frames[..c.start]
  {
    R.ApplyKeepsInv(R.World(frames, c), R.Emit(f.event, reaction));
    HandKeepsTerminal(c, f, reaction);
  }

  lemma ResumeKeepsInv(w: World)
    requires Inv(w) && Enabled(w, ResumeRun)
    ensures Inv(Apply(w, ResumeRun))
  {
    Stored(w.sim);
    assert w.sim.frames[..|w.sim.frames|] == w.sim.frames;
  }

  lemma OnEventKeepsInv(w: World, react: nat -> R.Reaction)
    requires Inv(w) && Enabled(w, OnEvent(react))
    ensures Inv(Apply(w, OnEvent(react)))
  {
    var c, log := w.client.value, w.sim.frames;
    var after := R.Subscribe(c, log, react);
    R.ApplyKeepsInv(R.World(log, c), R.OnEvent(react));
    R.StartStays(c, log, R.OnEvent(react));
    if !c.closed {
      ReplayKeepsTerminal(c.(live := true), log, c.cursor, react);
    }
    FollowKeepsInv(w.(client := None), c, after, w.resumed);
  }

  lemma ApplyKeepsInv(w: World, a: Action)
    requires Inv(w) && Enabled(w, a)
    ensures Inv(Apply(w, a))
  {
    match a
    case Drive(act, reaction) =>
      if act.Emit? {
        ToldKeepsInv(w, reaction);
      } else {
        SimKeepsInv(w.sim, act);
      }
    case ResumeRun =>
      ResumeKeepsInv(w);
    case OnEvent(react) =>
      OnEventKeepsInv(w, react);
    case Detach =>
    case Submit(d) =>
      SimKeepsInv(w.sim, S.Submit(d));
    case Close =>
      var c := w.client.value;
      FollowKeepsInv(w.(client := None), c, c.(live := false, closed := true), w.resumed);
  }

  lemma {:induction false} RunKeepsInv(worlds: seq<World>, actions: seq<Action>, config: S.Config, i: nat)
    requires IsRun(worlds, actions, config) && i <= |actions|
    ensures Inv(worlds[i])
  {
    if i > 0 {
      RunKeepsInv(worlds, actions, config, i - 1);
      ApplyKeepsInv(worlds[i - 1], actions[i - 1]);
    }
  }

  // ---- the theorems ----

  /**
   At every moment of every run the stored snapshot carries the number of the last frame; its transcript is the log's, in
   order, with the last entry logged for each tool use; its state, plan and in-flight payload are those last told.
   */
  lemma {:induction false} SnapshotTellsTheRun(worlds: seq<World>, actions: seq<Action>, config: S.Config, i: nat,
                                               id: string)
    requires IsRun(worlds, actions, config) && i <= |actions|
    ensures var w, events := worlds[i], Events(worlds[i].sim.frames);
            && w.snapshot.lastEventSeq == |w.sim.frames|
            && Prose(w.snapshot.stream) == Spoken(w.sim.frames)
            && EntryAt(w.snapshot.stream, id) == LastEntry(w.sim.frames, id)
            && Outline(w.snapshot.stream) == Outlined(events)
            && w.snapshot.state == LastState(events) && w.snapshot.plan == LastPlan(events)
            && w.snapshot.live == LastLive(events) && (w.snapshot.reviewing <==> UnderReview(events))
  {
    RunKeepsInv(worlds, actions, config, i);
    var frames := worlds[i].sim.frames;
    Stored(worlds[i].sim);
    forall f | f in frames ensures !f.event.Whole? {
      var k :| 0 <= k < |frames| && frames[k] == f;
      assert Events(frames)[k] == f.event;
    }
    ProseIsEverythingSpoken(frames);
    StepIsLastLogged(frames, id);
    TranscriptIsOutlined(frames);
    SnapshotIsLastTold(frames);
  }

  lemma LastToldState(sim: S.Sim)
    requires Sound(sim) && !sim.phase.Speaking?
    ensures S.Trace(sim) == Events(sim.frames)
    ensures sim.phase.Waiting? ==> LastState(Events(sim.frames)) == S.GateState(sim.config, sim.phase.point)
    ensures sim.phase.Ended? ==>
              var events := Events(sim.frames);
              && events != [] && events[|events| - 1].CompletedEvent?
              && LastState(events) == events[|events| - 1].state && LastLive(events) == "" && !UnderReview(events)
              && sim.reported == Some(LastState(events) == TurnState.Completed)
  {
  }

  /**
   A run that waits for a decision stores the state that asks for it; a run that has ended stores how it ended, with
   nothing in flight and no review, and was reported as a success exactly if that is completed.
   */
  lemma {:induction false} SnapshotShowsWhereItStands(worlds: seq<World>, actions: seq<Action>, config: S.Config, i: nat)
    requires IsRun(worlds, actions, config) && i <= |actions|
    ensures var w := worlds[i];
            && (w.sim.phase.Waiting? ==> w.snapshot.state == S.GateState(w.sim.config, w.sim.phase.point))
            && (w.sim.phase.Ended? ==>
                  && w.sim.frames != [] && w.sim.frames[|w.sim.frames| - 1].event == CompletedEvent(w.snapshot.state)
                  && w.snapshot.live == "" && !w.snapshot.reviewing
                  && w.sim.reported == Some(w.snapshot.state == TurnState.Completed))
  {
    RunKeepsInv(worlds, actions, config, i);
    Stored(worlds[i].sim);
    SnapshotIsLastTold(worlds[i].sim.frames);
    if !worlds[i].sim.phase.Speaking? {
      LastToldState(worlds[i].sim);
    }
  }

  /**
   Whenever the run was resumed and however often the client left and came back: it has been handed exactly the frames
   after its snapshot up to its cursor, once each and in order; and while it is attached, folding them into the snapshot
   it was given yields the snapshot the core stores now.
   */
  lemma {:induction false} FollowerAgrees(worlds: seq<World>, actions: seq<Action>, config: S.Config, i: nat,
                                          c: R.Client)
    requires IsRun(worlds, actions, config) && i <= |actions| && worlds[i].client == Some(c)
    ensures var w, n := worlds[i], worlds[i].resumed.lastEventSeq;
            && n <= c.cursor <= |w.sim.frames|
            && c.received == Events(w.sim.frames[n..c.cursor])
            && (c.live ==> c.cursor == |w.sim.frames| && Fold(w.resumed, w.sim.frames[n..]) == w.snapshot)
  {
    RunKeepsInv(worlds, actions, config, i);
    var w := worlds[i];
    Stored(w.sim);
    StoredThen(w.sim.frames, c.start);
    FoldInParts(INITIAL, w.sim.frames, c.start);
  }

  /** The snapshot of an earlier moment carried the number of its last frame too. */
  lemma StoredThen(frames: seq<Frame>, n: nat)
    requires n <= |frames| && Numbered(frames) && NoSnapshots(Events(frames))
    ensures Fold(INITIAL, frames[..n]).lastEventSeq == n
  {
    forall e | e in Events(frames[..n]) ensures !e.Whole? {
      var k :| 0 <= k < n && Events(frames[..n])[k] == e;
      assert Events(frames)[k] == e;
    }
    LastSeqIsLength(frames[..n]);
  }

  /**
   A client that is attached when the run's completion has been reported, and resumed before the completing frame, has
   been handed that frame once, and last.
   */
  lemma {:induction false} FollowerSeesTheEnd(worlds: seq<World>, actions: seq<Action>, config: S.Config, i: nat,
                                              c: R.Client)
    requires IsRun(worlds, actions, config) && i <= |actions| && worlds[i].client == Some(c)
    requires c.live && !worlds[i].sim.registered && c.start < |worlds[i].sim.frames|
    ensures S.CompletesLast(c.received) && c.terminal
  {
    RunKeepsInv(worlds, actions, config, i);
    var frames := worlds[i].sim.frames;
    assert S.CompletesLast(Events(frames)) by {
      assert S.Trace(worlds[i].sim) == Events(frames);
    }
    assert c.received == Events(frames)[c.start..];
    assert c.received[..|c.received| - 1] == Events(frames)[..|frames| - 1][c.start..];
    assert c.received[|c.received| - 1].CompletedEvent?;
  }

  /** A client that closed before it saw the run complete has cancelled it. */
  lemma {:induction false} ClosingEarlyCancels(worlds: seq<World>, actions: seq<Action>, config: S.Config, i: nat,
                                               c: R.Client)
    requires IsRun(worlds, actions, config) && i <= |actions| && worlds[i].client == Some(c) && c.closed
    ensures S.Cancel in worlds[i].sim.submitted || exists e :: e in c.received && e.CompletedEvent?
  {
    RunKeepsInv(worlds, actions, config, i);
  }

  /**
   And closing brings the run to its end: from any reachable world with a closed client, whenever it closed, the driver's
   own steps lead to the completing frame.
   */
  lemma {:induction false} ClosedRunCompletes(worlds: seq<World>, actions: seq<Action>, config: S.Config, i: nat,
                                              c: R.Client)
    requires IsRun(worlds, actions, config) && i <= |actions| && worlds[i].client == Some(c) && c.closed
    ensures var end := S.Alone(worlds[i].sim);
            end.phase.Ended? && worlds[i].sim.frames <= end.frames && S.CompletesLast(Events(end.frames))
  {
    RunKeepsInv(worlds, actions, config, i);
    var sim := worlds[i].sim;
    if c.terminal {
      SeenIsFinishing(sim, worlds[i].resumed, c);
    }
    S.EndingEnds(sim);
    S.EndedIsComplete(S.Alone(sim));
  }

  lemma SeenIsFinishing(sim: S.Sim, resumed: Snapshot, c: R.Client)
    requires Sound(sim) && Followed(sim, resumed, c) && c.terminal
    ensures S.Finishing(sim)
  {
    var e :| e in c.received && e.CompletedEvent?;
    assert c.received == Events(sim.frames)[c.start..c.cursor];
    S.SaidIsFinishing(sim, e);
  }
}
