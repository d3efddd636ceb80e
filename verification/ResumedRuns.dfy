/**
 A handle resumed from a snapshot. It replays the log after its cursor to a subscriber, synchronously, and then stays
 attached for live frames. The subscriber may detach or close from inside any delivery, and come back later.
 */
module ResumedRuns {
  import opened Wrappers
  import opened RunLog

  /** What a callback does with its own handle before it returns. */
  datatype Reaction = Stay | DetachNow | CloseNow

  /** `start` is the snapshot's frame, `cursor` the last frame handed over, `live` whether the source still calls. */
  datatype Client = Client(start: nat, cursor: nat, live: bool, closed: bool, terminal: bool, received: seq<Event>)

  function Resume(n: nat): Client {
    Client(n, n, false, false, false, [])
  }

  /** One frame through the handle's own callback, while its subscription stands. */
  function Hand(c: Client, f: Frame, reaction: Reaction): Client {
    if !c.live || c.closed then c
    else c.(cursor := if f.seqNo > c.cursor then f.seqNo else c.cursor,
            terminal := c.terminal || f.event.CompletedEvent?,
            received := c.received + [f.event],
            live := reaction == Stay,
            closed := reaction == CloseNow)
  }

  /** Replaying a log: every frame after `after`, in order, with `react` saying what the callback does at each. */
  function Replay(c: Client, log: seq<Frame>, after: nat, react: nat -> Reaction): Client {
    if log == [] then c
    else
      var before := Replay(c, log[..|log| - 1], after, react);
      var f := log[|log| - 1];
      if f.seqNo > after then Hand(before, f, react(f.seqNo)) else before
  }

  function Subscribe(c: Client, log: seq<Frame>, react: nat -> Reaction): Client {
    if c.closed then c else Replay(c.(live := true), log, c.cursor, react)
  }

  class ResumedRun {
    const start: nat
    var cursor: nat
    var subscribed: bool
    var closed: bool
    var terminal: bool
    var received: seq<Event>

    function State(): Client
      reads this
    {
      Client(start, cursor, subscribed, closed, terminal, received)
    }

    constructor (snapshot: Snapshot)
      ensures State() == Resume(snapshot.lastEventSeq)
    {
      start, cursor := snapshot.lastEventSeq, snapshot.lastEventSeq;
      subscribed, closed, terminal, received := false, false, false, [];
    }

    /** The wrapped callback the source is given. */
    method OnFrame(frame: Frame, reaction: Reaction)
      modifies this
      ensures State() == Hand(old(State()), frame, reaction)
    {
      if !subscribed || closed {
        return;
      }
      if frame.seqNo > cursor {
        cursor := frame.seqNo;
      }
      if frame.event.CompletedEvent? {
        terminal := true;
      }
      received := received + [frame.event];
      match reaction {
        case Stay =>
        case DetachNow =>
          subscribed := false;
        case CloseNow =>
          subscribed, closed := false, true;
      }
    }

    /** The source replays its log from the cursor the handle had when it asked, and keeps the observer if it still stands. */
    method OnEvent(log: seq<Frame>, react: nat -> Reaction)
      modifies this
      ensures State() == Subscribe(old(State()), log, react)
    {
      if closed {
        return;
      }
      var asked := cursor;
      subscribed := true;
      ghost var begun := State();
      var i := 0;
      while i < |log|
        invariant i <= |log|
        invariant State() == Replay(begun, log[..i], asked, react)
      {
        assert log[..i + 1][..i] == log[..i] && log[..i + 1][i] == log[i];
        if log[i].seqNo > asked {
          OnFrame(log[i], react(log[i].seqNo));
        }
        i := i + 1;
      }
      assert log[..i] == log;
    }

    method Detach()
      modifies this
      ensures State() == old(State()).(live := false)
    {
      subscribed := false;
    }

    /** `cancel` says that the source is told to stop the run. */
    method Close() returns (cancel: bool)
      modifies this
      ensures State() == old(State()).(live := false, closed := true)
      ensures cancel == (!old(closed) && !old(terminal))
    {
      subscribed := false;
      if closed {
        return false;
      }
      closed := true;
      cancel := !terminal;
    }
  }

  // ---- the client beside the run it follows ----

  datatype World = World(log: seq<Frame>, client: Client)

  /** Subscribing waits until the last subscription is gone; a frame is handed over as it is emitted. */
  datatype Action =
    | Emit(event: Event, reaction: Reaction)
    | OnEvent(react: nat -> Reaction)
    | Detach
    | Close

  predicate Enabled(w: World, a: Action) {
    a.OnEvent? ==> !w.client.live
  }

  function Apply(w: World, a: Action): World {
    match a
    case Emit(event, reaction) =>
      var f := Frame(|w.log| + 1, event);
      World(w.log + [f], Hand(w.client, f, reaction))
    case OnEvent(react) => w.(client := Subscribe(w.client, w.log, react))
    case Detach => w.(client := w.client.(live := false))
    case Close => w.(client := w.client.(live := false, closed := true))
  }

  /** The client was resumed from the stored snapshot when the log held its first `n` frames. */
  ghost predicate IsRun(worlds: seq<World>, actions: seq<Action>, n: nat) {
    && |worlds| == |actions| + 1
    && |worlds[0].log| == n && Numbered(worlds[0].log) && NoSnapshots(Events(worlds[0].log))
    && worlds[0].client == Resume(Fold(INITIAL, worlds[0].log).lastEventSeq)
    && forall i :: 0 <= i < |actions| ==> Enabled(worlds[i], actions[i]) && worlds[i + 1] == Apply(worlds[i], actions[i])
  }

  /** Of the log's first `n` frames the client was handed those after its start, all of them while it is attached. */
  predicate Gapless(c: Client, log: seq<Frame>, n: nat)
    requires n <= |log|
  {
    && c.start <= c.cursor <= n && c.received == Events(log[c.start..c.cursor])
    && (c.live ==> c.cursor == n && !c.closed)
  }

  ghost predicate Inv(w: World) {
    Numbered(w.log) && Gapless(w.client, w.log, |w.log|)
  }

  /** Replaying frames `c.cursor + 1` onward hands over a run of them without a gap, up to where the callback left. */
  lemma {:induction false} ReplayIsGapless(c: Client, log: seq<Frame>, n: nat, react: nat -> Reaction)
    requires c.live && Numbered(log) && c.cursor <= n <= |log| && Gapless(c, log, c.cursor)
    ensures var r := Replay(c, log[..n], c.cursor, react);
            r.start == c.start && c.cursor <= r.cursor && Gapless(r, log, n)
  {
    if n == c.cursor {
      NothingToReplay(c, log[..n], react);
    } else {
      ReplayIsGapless(c, log, n - 1, react);
      var before := Replay(c, log[..n - 1], c.cursor, react);
      assert log[..n][..n - 1] == log[..n - 1] && log[..n][n - 1] == log[n - 1];
      HandIsGapless(before, log, n - 1, react(n));
    }
  }

  lemma HandIsGapless(c: Client, log: seq<Frame>, n: nat, reaction: Reaction)
    requires Numbered(log) && n < |log| && Gapless(c, log, n)
    ensures var h := Hand(c, log[n], reaction); h.start == c.start && c.cursor <= h.cursor && Gapless(h, log, n + 1)
  {
    assert Events(log[c.start..n + 1]) == Events(log[c.start..n]) + [log[n].event];
  }

  lemma {:induction false} NothingToReplay(c: Client, log: seq<Frame>, react: nat -> Reaction)
    requires forall f :: f in log ==> f.seqNo <= c.cursor
    ensures Replay(c, log, c.cursor, react) == c
  {
    if log != [] {
      NothingToReplay(c, log[..|log| - 1], react);
    }
  }

  lemma ApplyKeepsInv(w: World, a: Action)
    requires Inv(w) && Enabled(w, a)
    ensures Inv(Apply(w, a))
    ensures a.OnEvent? && !w.client.closed && (forall n :: a.react(n) == Stay) ==> Apply(w, a).client.live
  {
    var c := w.client;
    match a {
      case Emit(event, reaction) =>
        var log := w.log + [Frame(|w.log| + 1, event)];
        assert log[c.start..c.cursor] == w.log[c.start..c.cursor];
        HandIsGapless(c, log, |w.log|, reaction);
      case OnEvent(react) =>
        if !c.closed {
          ReplayIsGapless(c.(live := true), w.log, |w.log|, react);
          assert w.log[..|w.log|] == w.log;
          if forall n :: react(n) == Stay {
            StayingIsLive(c.(live := true), w.log, c.cursor, react);
          }
        }
      case _ =>
    }
  }

  lemma {:induction false} StayingIsLive(c: Client, log: seq<Frame>, after: nat, react: nat -> Reaction)
    requires c.live && !c.closed && forall n :: react(n) == Stay
    ensures Replay(c, log, after, react).live && !Replay(c, log, after, react).closed
  {
    if log != [] {
      StayingIsLive(c, log[..|log| - 1], after, react);
    }
  }

  lemma {:induction false} RunKeepsInv(worlds: seq<World>, actions: seq<Action>, n: nat, i: nat)
    requires IsRun(worlds, actions, n) && i <= |actions|
    ensures Inv(worlds[i]) && worlds[i].client.start == n
  {
    if i > 0 {
      RunKeepsInv(worlds, actions, n, i - 1);
      ApplyKeepsInv(worlds[i - 1], actions[i - 1]);
      StartStays(worlds[i - 1].client, worlds[i - 1].log, actions[i - 1]);
    } else {
      LastSeqIsLength(worlds[0].log);
    }
  }

  lemma StartStays(c: Client, log: seq<Frame>, a: Action)
    ensures Apply(World(log, c), a).client.start == c.start
  {
    if a.OnEvent? {
      ReplayKeepsStart(c.(live := true), log, c.cursor, a.react);
    }
  }

  lemma {:induction false} ReplayKeepsStart(c: Client, log: seq<Frame>, after: nat, react: nat -> Reaction)
    ensures Replay(c, log, after, react).start == c.start
  {
    if log != [] {
      ReplayKeepsStart(c, log[..|log| - 1], after, react);
    }
  }

  /**
   Across any detaching and coming back, inside a replay or outside one, what the subscriber has been handed is the
   run of frames after the snapshot, each once and in order; while it is attached it has been handed every one.
   */
  lemma {:induction false} ResumedFramesOnceInOrder(worlds: seq<World>, actions: seq<Action>, n: nat, i: nat)
    requires IsRun(worlds, actions, n) && i <= |actions|
    ensures var c := worlds[i].client;
            && n <= c.cursor <= |worlds[i].log|
            && c.received == Events(worlds[i].log[n..c.cursor])
            && (c.live ==> c.received == Events(worlds[i].log[n..]))
  {
    RunKeepsInv(worlds, actions, n, i);
  }

  /** A client that folds what it is handed into its snapshot has, while attached, the snapshot the run itself stores. */
  lemma {:induction false} ResumedClientAgrees(worlds: seq<World>, actions: seq<Action>, n: nat, i: nat)
    requires IsRun(worlds, actions, n) && i <= |actions| && worlds[i].client.live
    ensures var log := worlds[i].log;
            && n <= |log| && worlds[0].log == log[..n]
            && Events(log[n..]) == worlds[i].client.received
            && Fold(Fold(INITIAL, worlds[0].log), log[n..]) == Fold(INITIAL, log)
  {
    RunKeepsInv(worlds, actions, n, i);
    LogOnlyGrows(worlds, actions, n, i);
    FoldInParts(INITIAL, worlds[i].log, n);
  }

  lemma {:induction false} LogOnlyGrows(worlds: seq<World>, actions: seq<Action>, n: nat, i: nat)
    requires IsRun(worlds, actions, n) && i <= |actions|
    ensures n <= |worlds[i].log| && worlds[i].log[..n] == worlds[0].log
  {
    if i > 0 {
      LogOnlyGrows(worlds, actions, n, i - 1);
    } else {
      assert worlds[0].log[..n] == worlds[0].log;
    }
  }

  /** Whenever it comes back and stays, a handle that was not closed is brought up to the end of the log. */
  lemma {:induction false} ComingBackCatchesUp(worlds: seq<World>, actions: seq<Action>, n: nat, i: nat)
    requires IsRun(worlds, actions, n) && i < |actions|
    requires actions[i].OnEvent? && !worlds[i].client.closed && forall k :: actions[i].react(k) == Stay
    ensures n <= |worlds[i].log| && worlds[i + 1].client.received == Events(worlds[i].log[n..])
  {
    RunKeepsInv(worlds, actions, n, i);
    RunKeepsInv(worlds, actions, n, i + 1);
    ApplyKeepsInv(worlds[i], actions[i]);
  }
}
