/**
 The run handle a client assembles from a run id and a transport. The transport may call back before `openRun` has
 returned, and a subscriber may call the handle from inside a delivery, so handler bodies nest: `Handle` and its
 functions are the bodies between two such calls, `RunHandle` is the object, and `World` puts them under every
 nesting a transport and its subscribers can produce.
 */
module RunHandles {
  import opened Wrappers

  /** The variables `buildRunHandle` closes over. A stream is named by the generation it was opened under. */
  datatype Handle = Handle(
    subs: set<nat>,
    attached: Option<nat>,
    cursor: Option<nat>,
    generation: nat,
    closed: bool,
    terminal: bool)

  function Fresh(cursor: Option<nat>): Handle {
    Handle({}, None, cursor, 0, false, false)
  }

  /** The last frame already taken; a handle without a cursor starts before the first frame. */
  function Taken(h: Handle): nat {
    if h.cursor.Some? then h.cursor.value else 0
  }

  /** The first half of `onEvent`: the subscriber is in, and a stream is being opened unless one is attached. */
  function Subscribe(h: Handle, cb: nat): Handle {
    if h.closed then h
    else if h.attached.Some? then h.(subs := h.subs + {cb})
    else h.(subs := h.subs + {cb}, generation := h.generation + 1)
  }

  predicate Opens(h: Handle) {
    !h.closed && h.attached == None
  }

  /** The second half of `onEvent`, once `openRun` has returned: the stream is attached, or let go at once. */
  function Attach(h: Handle, generation: nat, ended: bool): Handle {
    if Superseded(h, generation, ended) then h else h.(attached := Some(generation))
  }

  predicate Superseded(h: Handle, generation: nat, ended: bool) {
    ended || generation != h.generation || h.closed || h.subs == {}
  }

  predicate Accepts(h: Handle, generation: nat) {
    generation == h.generation && !h.closed
  }

  function TakeFrame(h: Handle, generation: nat, seqNo: nat, terminal: bool): Handle {
    if !Accepts(h, generation) then h
    else h.(cursor := if h.cursor == None || seqNo > h.cursor.value then Some(seqNo) else h.cursor,
            terminal := h.terminal || terminal)
  }

  function StreamOver(h: Handle, generation: nat): Handle {
    if generation != h.generation then h else h.(attached := None)
  }

  function Unsubscribe(h: Handle, cb: nat): Handle {
    h.(subs := h.subs - {cb})
  }

  function Detach(h: Handle): Handle {
    h.(generation := h.generation + 1, attached := None, subs := {})
  }

  function Close(h: Handle): Handle {
    if h.closed then h else Detach(h).(closed := true)
  }

  /** The object itself. What its methods hand back is what they make the transport do. */
  class RunHandle {
    var subs: set<nat>
    var detachStream: Option<nat>
    var latestCursor: Option<nat>
    var streamGeneration: nat
    var closed: bool
    var terminal: bool

    function State(): Handle
      reads this
    {
      Handle(subs, detachStream, latestCursor, streamGeneration, closed, terminal)
    }

    constructor (cursor: Option<nat>)
      ensures State() == Fresh(cursor)
    {
      subs, detachStream, latestCursor := {}, None, cursor;
      streamGeneration, closed, terminal := 0, false, false;
    }

    /** `opening` is the generation and the cursor `openRun` is called with, if it is called. */
    method OnEvent(cb: nat) returns (opening: Option<(nat, Option<nat>)>)
      modifies this
      ensures State() == Subscribe(old(State()), cb)
      ensures opening == if Opens(old(State())) then Some((streamGeneration, latestCursor)) else None
    {
      if closed {
        return None;
      }
      subs := subs + {cb};
      if detachStream == None {
        streamGeneration := streamGeneration + 1;
        return Some((streamGeneration, latestCursor));
      }
      return None;
    }

    /** `release` says that the stream just opened is unsubscribed at once. */
    method OpenReturned(generation: nat, endedSynchronously: bool) returns (release: bool)
      modifies this
      ensures State() == Attach(old(State()), generation, endedSynchronously)
      ensures release == Superseded(old(State()), generation, endedSynchronously)
    {
      release := endedSynchronously || generation != streamGeneration || closed || subs == {};
      if !release {
        detachStream := Some(generation);
      }
    }

    method OnFrame(generation: nat, seqNo: nat, terminalFrame: bool) returns (deliver: bool)
      modifies this
      ensures State() == TakeFrame(old(State()), generation, seqNo, terminalFrame)
      ensures deliver == Accepts(old(State()), generation)
    {
      if generation != streamGeneration || closed {
        return false;
      }
      if latestCursor == None || seqNo > latestCursor.value {
        latestCursor := Some(seqNo);
      }
      if terminalFrame {
        terminal := true;
      }
      return true;
    }

    method OnStreamClose(generation: nat) returns (endedSynchronously: bool)
      modifies this
      ensures State() == StreamOver(old(State()), generation)
      ensures endedSynchronously == (generation == old(streamGeneration))
    {
      if generation != streamGeneration {
        return false;
      }
      detachStream := None;
      return true;
    }

    method Leave(cb: nat)
      modifies this
      ensures State() == Unsubscribe(old(State()), cb)
    {
      subs := subs - {cb};
    }

    /** `release` is the stream that is unsubscribed. */
    method DetachAll() returns (release: Option<nat>)
      modifies this
      ensures State() == Detach(old(State()))
      ensures release == old(detachStream)
    {
      streamGeneration := streamGeneration + 1;
      release := detachStream;
      detachStream := None;
      subs := {};
    }

    /** `cancel` says that the run is told to stop. */
    method End() returns (release: Option<nat>, cancel: bool)
      modifies this
      ensures State() == Close(old(State()))
      ensures release == if old(closed) then None else old(detachStream)
      ensures cancel == (!old(closed) && !old(terminal))
    {
      if closed {
        return None, false;
      }
      closed := true;
      release := DetachAll();
      cancel := !terminal;
    }
  }

  // ---- the handle among its callers ----

  /** One stream the transport has opened: how far it has delivered, and how it ended, if it has. */
  datatype Stream = Stream(position: nat, released: bool, over: bool)

  /** What is still on the call stack: an `openRun` that has not returned, or a frame on its way round the subscribers. */
  datatype Activation = Opening(generation: nat, ended: bool) | Delivering

  datatype World = World(
    handle: Handle,
    streams: map<nat, Stream>,
    stack: seq<Activation>,
    accepted: seq<nat>,
    cancels: nat)

  datatype Event =
    | CallOnEvent(cb: nat)
    | CallUnsubscribe(cb: nat)
    | CallDetach
    | CallClose
    | DeliveryReturns
    | OpenReturns
    | Frame(generation: nat, terminal: bool)
    | StreamEnds(generation: nat)

  /** Callers have control outside every call, and subscribers inside a delivery. */
  predicate UserTurn(w: World) {
    w.stack == [] || w.stack[|w.stack| - 1].Delivering?
  }

  /** The transport has control outside every call, and inside `openRun`. */
  predicate TransportTurn(w: World) {
    w.stack == [] || w.stack[|w.stack| - 1].Opening?
  }

  predicate Enabled(w: World, e: Event) {
    match e
    case CallOnEvent(_) => UserTurn(w)
    case CallUnsubscribe(_) => UserTurn(w)
    case CallDetach => UserTurn(w)
    case CallClose => UserTurn(w)
    case DeliveryReturns => w.stack != [] && w.stack[|w.stack| - 1].Delivering?
    case OpenReturns => w.stack != [] && w.stack[|w.stack| - 1].Opening?
    case Frame(g, _) => TransportTurn(w) && g in w.streams && !w.streams[g].over
    case StreamEnds(g) => TransportTurn(w) && g in w.streams && !w.streams[g].over
  }

  function Release(streams: map<nat, Stream>, g: Option<nat>): map<nat, Stream> {
    if g.Some? && g.value in streams then streams[g.value := streams[g.value].(released := true)] else streams
  }

  /** The `openRun` of this generation, if it is still on the stack, remembers that its stream ended inside it. */
  function MarkEnded(stack: seq<Activation>, g: nat): (marked: seq<Activation>)
    ensures |marked| == |stack|
    ensures forall i :: 0 <= i < |stack| ==>
              marked[i] == if stack[i].Opening? && stack[i].generation == g then Opening(g, true) else stack[i]
  {
    seq(|stack|, i requires 0 <= i < |stack| =>
      if stack[i].Opening? && stack[i].generation == g then Opening(g, true) else stack[i])
  }

  /** A stream delivers the frames after the cursor it was opened with, one by one and in order. */
  function Apply(w: World, e: Event): World
    requires Enabled(w, e)
  {
    var h := w.handle;
    match e
    case CallOnEvent(cb) =>
      var h' := Subscribe(h, cb);
      if Opens(h) then
        w.(handle := h', streams := w.streams[h'.generation := Stream(Taken(h), false, false)],
           stack := w.stack + [Opening(h'.generation, false)])
      else w.(handle := h')
    case CallUnsubscribe(cb) => w.(handle := Unsubscribe(h, cb))
    case CallDetach => w.(handle := Detach(h), streams := Release(w.streams, h.attached))
    case CallClose =>
      if h.closed then w
      else w.(handle := Close(h), streams := Release(w.streams, h.attached),
              cancels := w.cancels + (if h.terminal then 0 else 1))
    case DeliveryReturns => w.(stack := w.stack[..|w.stack| - 1])
    case OpenReturns =>
      var top := w.stack[|w.stack| - 1];
      w.(handle := Attach(h, top.generation, top.ended),
         streams := if Superseded(h, top.generation, top.ended) then Release(w.streams, Some(top.generation))
                    else w.streams,
         stack := w.stack[..|w.stack| - 1])
    case Frame(g, terminal) =>
      var seqNo := w.streams[g].position + 1;
      var moved := w.(streams := w.streams[g := w.streams[g].(position := seqNo)],
                      handle := TakeFrame(h, g, seqNo, terminal));
      if Accepts(h, g) then moved.(stack := w.stack + [Delivering], accepted := w.accepted + [seqNo]) else moved
    case StreamEnds(g) =>
      w.(streams := w.streams[g := w.streams[g].(over := true)],
         handle := StreamOver(h, g),
         stack := if g == h.generation then MarkEnded(w.stack, g) else w.stack)
  }

  ghost predicate IsRun(worlds: seq<World>, events: seq<Event>, cursor: Option<nat>) {
    && |worlds| == |events| + 1
    && worlds[0] == World(Fresh(cursor), map[], [], [], 0)
    && forall i :: 0 <= i < |events| ==> Enabled(worlds[i], events[i]) && worlds[i + 1] == Apply(worlds[i], events[i])
  }

  // ---- the invariant ----

  predicate IsOpen(w: World, g: nat) {
    g in w.streams && !w.streams[g].released && !w.streams[g].over
  }

  ghost predicate BeingOpened(w: World, g: nat) {
    exists i :: 0 <= i < |w.stack| && w.stack[i].Opening? && w.stack[i].generation == g
  }

  /** The frames from `from + 1` to `to`, once each and in order. */
  ghost predicate Consecutive(frames: seq<nat>, from: nat, to: nat) {
    && from + |frames| == to
    && forall i :: 0 <= i < |frames| ==> frames[i] == from + 1 + i
  }

  /** Which streams may be open: the attached one, and those whose `openRun` has not returned. */
  ghost predicate Tracked(w: World) {
    var h := w.handle;
    && (forall g: nat :: g in w.streams ==> g <= h.generation)
    && (h.attached.Some? ==>
          h.attached.value == h.generation && IsOpen(w, h.generation) && !BeingOpened(w, h.generation))
    && (forall g: nat :: IsOpen(w, g) ==> h.attached == Some(g) || BeingOpened(w, g))
    && (h.closed ==> h.attached == None && h.subs == {})
  }

  /** Each `openRun` still on the stack has a stream of its own, not let go of and, while current, known to have ended. */
  ghost predicate Stacked(w: World) {
    && (forall i :: 0 <= i < |w.stack| && w.stack[i].Opening? ==> OpeningKnows(w, w.stack[i]))
    && (forall i, j :: 0 <= i < j < |w.stack| && w.stack[i].Opening? && w.stack[j].Opening? ==>
          w.stack[i].generation != w.stack[j].generation)
  }

  predicate OpeningKnows(w: World, opening: Activation)
    requires opening.Opening?
  {
    && opening.generation in w.streams
    && !w.streams[opening.generation].released
    && (opening.generation == w.handle.generation && w.streams[opening.generation].over ==> opening.ended)
  }

  /** The current stream stands where the handle's cursor does, and the accepted frames lead up to it. */
  ghost predicate Counted(w: World, start: nat) {
    var h := w.handle;
    && (forall g: nat :: g in w.streams ==> g <= h.generation)
    && (h.generation in w.streams && !h.closed ==> w.streams[h.generation].position == Taken(h))
    && Consecutive(w.accepted, start, Taken(h))
    && w.cancels == (if h.closed && !h.terminal then 1 else 0)
  }

  ghost predicate Inv(w: World, start: nat) {
    Tracked(w) && Stacked(w) && Counted(w, start)
  }

  lemma ApplyKeepsCounted(w: World, e: Event, start: nat)
    requires Counted(w, start) && Enabled(w, e)
    ensures Counted(Apply(w, e), start)
  {
  }

  lemma ApplyKeepsStacked(w: World, e: Event)
    requires Tracked(w) && Stacked(w) && Enabled(w, e)
    ensures Stacked(Apply(w, e))
  {
    var w' := Apply(w, e);
    match e
    case OpenReturns =>
      var top := w.stack[|w.stack| - 1];
      forall i | 0 <= i < |w'.stack| && w'.stack[i].Opening? ensures OpeningKnows(w', w'.stack[i]) {
        assert OpeningKnows(w, w.stack[i]) && w.stack[i].generation != top.generation;
      }
    case CallOnEvent(cb) =>
      assert forall i :: 0 <= i < |w.stack| && w.stack[i].Opening? ==> OpeningKnows(w, w.stack[i]);
    case _ =>
      assert forall i :: 0 <= i < |w.stack| && w.stack[i].Opening? ==> OpeningKnows(w, w.stack[i]);
      if w.handle.attached.Some? {
        assert !BeingOpened(w, w.handle.generation);
      }
  }

  lemma ApplyKeepsTracked(w: World, e: Event)
    requires Tracked(w) && Stacked(w) && Enabled(w, e)
    ensures Tracked(Apply(w, e))
  {
    var w' := Apply(w, e);
    match e
    case OpenReturns =>
      var top := w.stack[|w.stack| - 1];
      assert OpeningKnows(w, top);
      forall g: nat | IsOpen(w', g) ensures w'.handle.attached == Some(g) || BeingOpened(w', g) {
        assert IsOpen(w, g);
        if BeingOpened(w, g) && g != top.generation {
          var i :| 0 <= i < |w.stack| && w.stack[i].Opening? && w.stack[i].generation == g;
          assert w'.stack[i] == w.stack[i];
        }
      }
    case CallOnEvent(_) =>
      SameOpenings(w, e);
      if Opens(w.handle) {
        assert w'.stack[|w.stack|].Opening? && w'.stack[|w.stack|].generation == w'.handle.generation;
      }
    case _ =>
      SameOpenings(w, e);
  }

  /** Nothing but a return takes an `openRun` off the stack, and nothing but `onEvent` puts one on. */
  lemma SameOpenings(w: World, e: Event)
    requires Enabled(w, e) && !e.OpenReturns?
    ensures forall g: nat :: BeingOpened(w, g) ==> BeingOpened(Apply(w, e), g)
    ensures forall g: nat :: BeingOpened(Apply(w, e), g) ==>
              BeingOpened(w, g) || (e.CallOnEvent? && Opens(w.handle) && g == w.handle.generation + 1)
  {
    var w' := Apply(w, e);
    forall g: nat | BeingOpened(w, g) ensures BeingOpened(w', g) {
      var i :| 0 <= i < |w.stack| && w.stack[i].Opening? && w.stack[i].generation == g;
      assert w'.stack[i].Opening? && w'.stack[i].generation == g;
    }
    forall g: nat | BeingOpened(w', g)
      ensures BeingOpened(w, g) || (e.CallOnEvent? && Opens(w.handle) && g == w.handle.generation + 1)
    {
      var i :| 0 <= i < |w'.stack| && w'.stack[i].Opening? && w'.stack[i].generation == g;
      assert i < |w.stack| ==> w.stack[i].Opening? && w.stack[i].generation == g;
    }
  }

  lemma {:induction false} RunKeepsInv(worlds: seq<World>, events: seq<Event>, cursor: Option<nat>, i: nat)
    requires IsRun(worlds, events, cursor) && i <= |events|
    ensures Inv(worlds[i], Taken(Fresh(cursor)))
  {
    if i > 0 {
      RunKeepsInv(worlds, events, cursor, i - 1);
      ApplyKeepsCounted(worlds[i - 1], events[i - 1], Taken(Fresh(cursor)));
      ApplyKeepsStacked(worlds[i - 1], events[i - 1]);
      ApplyKeepsTracked(worlds[i - 1], events[i - 1]);
    }
  }

  // ---- the theorems ----

  /**
   However the calls nest: whenever the outermost one has returned, at most one stream is open, it is the attached one
   under the newest generation, and every superseded stream has ended or been let go of. A closed handle keeps none.
   */
  lemma {:induction false} AtMostOneOpenStream(worlds: seq<World>, events: seq<Event>, cursor: Option<nat>, i: nat,
                                               g: nat)
    requires IsRun(worlds, events, cursor) && i <= |events|
    requires worlds[i].stack == [] && IsOpen(worlds[i], g)
    ensures worlds[i].handle.attached == Some(g) && g == worlds[i].handle.generation && !worlds[i].handle.closed
  {
    RunKeepsInv(worlds, events, cursor, i);
    assert !BeingOpened(worlds[i], g);
  }

  /** Even inside nested calls, a stream is open only while it is attached or its own `openRun` is still running. */
  lemma {:induction false} OpenStreamsAreAccountedFor(worlds: seq<World>, events: seq<Event>, cursor: Option<nat>,
                                                      i: nat, g: nat)
    requires IsRun(worlds, events, cursor) && i <= |events| && IsOpen(worlds[i], g)
    ensures worlds[i].handle.attached == Some(g) || BeingOpened(worlds[i], g)
  {
    RunKeepsInv(worlds, events, cursor, i);
  }

  /** Over the handle's whole life the frames it accepts are those after its first cursor, once each, without gaps. */
  lemma {:induction false} AcceptedOnceInOrder(worlds: seq<World>, events: seq<Event>, cursor: Option<nat>, i: nat)
    requires IsRun(worlds, events, cursor) && i <= |events|
    ensures Consecutive(worlds[i].accepted, Taken(Fresh(cursor)), Taken(worlds[i].handle))
  {
    RunKeepsInv(worlds, events, cursor, i);
  }

  // ---- what sets the flags ----

  /** A frame that says the run is over arrived and was accepted: `accepted` grew by it. */
  predicate SeesEnd(before: World, e: Event, after: World) {
    e.Frame? && e.terminal && |after.accepted| > |before.accepted|
  }

  ghost predicate SawEnd(worlds: seq<World>, events: seq<Event>, i: nat)
    requires |worlds| == |events| + 1 && i <= |events|
  {
    exists k :: 0 <= k < i && SeesEnd(worlds[k], events[k], worlds[k + 1])
  }

  predicate ClosedBefore(events: seq<Event>, i: nat)
    requires i <= |events|
  {
    exists k :: 0 <= k < i && events[k].CallClose?
  }

  lemma OneEventMarks(w: World, e: Event)
    requires Enabled(w, e)
    ensures Apply(w, e).handle.terminal <==> w.handle.terminal || SeesEnd(w, e, Apply(w, e))
    ensures Apply(w, e).handle.closed <==> w.handle.closed || e.CallClose?
    ensures Apply(w, e).cancels == w.cancels + if e.CallClose? && !w.handle.closed && !w.handle.terminal then 1 else 0
  {
  }

  /** A handle knows a run to be over exactly when it has accepted a frame that says so; closed it is by being closed. */
  lemma {:induction false} FlagsAreEvents(worlds: seq<World>, events: seq<Event>, cursor: Option<nat>, i: nat)
    requires IsRun(worlds, events, cursor) && i <= |events|
    ensures worlds[i].handle.terminal <==> SawEnd(worlds, events, i)
    ensures worlds[i].handle.closed <==> ClosedBefore(events, i)
  {
    if i > 0 {
      FlagsAreEvents(worlds, events, cursor, i - 1);
      OneEventMarks(worlds[i - 1], events[i - 1]);
    }
  }

  /** Some `close` came before any frame that ends the run was accepted. */
  ghost predicate ClosedEarly(worlds: seq<World>, events: seq<Event>, i: nat)
    requires |worlds| == |events| + 1 && i <= |events|
  {
    exists k :: 0 <= k < i && events[k].CallClose? && !SawEnd(worlds, events, k)
  }

  /** One cancel exactly when the handle was closed before a terminal frame was accepted; nothing else ever cancels. */
  lemma {:induction false} CloseCancelsOnce(worlds: seq<World>, events: seq<Event>, cursor: Option<nat>, i: nat)
    requires IsRun(worlds, events, cursor) && i <= |events|
    ensures worlds[i].cancels == if ClosedEarly(worlds, events, i) then 1 else 0
    ensures worlds[i].cancels == if worlds[i].handle.closed && !worlds[i].handle.terminal then 1 else 0
  {
    RunKeepsInv(worlds, events, cursor, i);
    if i > 0 {
      CloseCancelsOnce(worlds, events, cursor, i - 1);
      OneMoreCancel(worlds, events, cursor, i - 1);
    }
  }

  lemma OneMoreCancel(worlds: seq<World>, events: seq<Event>, cursor: Option<nat>, i: nat)
    requires IsRun(worlds, events, cursor) && i < |events|
    requires worlds[i].cancels == if ClosedEarly(worlds, events, i) then 1 else 0
    requires ClosedEarly(worlds, events, i) ==> worlds[i].handle.closed
    ensures worlds[i + 1].cancels == if ClosedEarly(worlds, events, i + 1) then 1 else 0
  {
    OneEventMarks(worlds[i], events[i]);
    FlagsAreEvents(worlds, events, cursor, i);
    OneMoreClose(worlds, events, i);
    if ClosedBefore(events, i) && !SawEnd(worlds, events, i) {
      ClosedLater(worlds, events, cursor, i);
    }
  }

  lemma OneMoreClose(worlds: seq<World>, events: seq<Event>, i: nat)
    requires |worlds| == |events| + 1 && i < |events|
    ensures ClosedEarly(worlds, events, i + 1)
            <==> ClosedEarly(worlds, events, i) || (events[i].CallClose? && !SawEnd(worlds, events, i))
  {
  }

  /** Closing again is no earlier than closing was. */
  lemma ClosedLater(worlds: seq<World>, events: seq<Event>, cursor: Option<nat>, i: nat)
    requires IsRun(worlds, events, cursor) && i <= |events| && ClosedBefore(events, i)
    requires !SawEnd(worlds, events, i)
    ensures ClosedEarly(worlds, events, i)
  {
    var k :| 0 <= k < i && events[k].CallClose?;
    assert !SawEnd(worlds, events, k);
  }

  // ---- who is served ----

  /** What one event more makes of a subscription. */
  predicate Keeps(was: bool, e: Event, closed: bool, cb: nat) {
    match e
    case CallOnEvent(mine) => was || (mine == cb && !closed)
    case CallUnsubscribe(mine) => was && mine != cb
    case CallDetach => false
    case CallClose => false
    case _ => was
  }

  /** The subscribers are those who came while it was open, and neither left nor were let go since. */
  predicate Subscribed(events: seq<Event>, cb: nat) {
    if events == [] then false
    else
      var before := events[..|events| - 1];
      Keeps(Subscribed(before, cb), events[|events| - 1], ClosedBefore(before, |before|), cb)
  }

  lemma OneEventSubscribes(w: World, e: Event, cb: nat)
    requires Enabled(w, e) && (w.handle.closed ==> w.handle.subs == {})
    ensures cb in Apply(w, e).handle.subs <==> Keeps(cb in w.handle.subs, e, w.handle.closed, cb)
  {
  }

  lemma SubscribedNext(events: seq<Event>, i: nat, cb: nat)
    requires i < |events|
    ensures Subscribed(events[..i + 1], cb) == Keeps(Subscribed(events[..i], cb), events[i], ClosedBefore(events, i), cb)
  {
    assert events[..i + 1][..i] == events[..i] && events[..i + 1][i] == events[i];
    assert ClosedBefore(events[..i], i) <==> ClosedBefore(events, i);
  }

  lemma {:induction false} SubscribersAreEvents(worlds: seq<World>, events: seq<Event>, cursor: Option<nat>, i: nat,
                                                cb: nat)
    requires IsRun(worlds, events, cursor) && i <= |events|
    ensures cb in worlds[i].handle.subs <==> Subscribed(events[..i], cb)
  {
    if i > 0 {
      SubscribersAreEvents(worlds, events, cursor, i - 1, cb);
      RunKeepsInv(worlds, events, cursor, i - 1);
      FlagsAreEvents(worlds, events, cursor, i - 1);
      SubscribedNext(events, i - 1, cb);
      OneEventSubscribes(worlds[i - 1], events[i - 1], cb);
    }
  }

  predicate Ended(w: World, g: nat) {
    g in w.streams && w.streams[g].over
  }

  /** Whoever is subscribed has a stream, or one being opened, or the last one has ended. */
  ghost predicate Served(w: World) {
    var h := w.handle;
    && (h.subs != {} ==> h.attached.Some? || BeingOpened(w, h.generation) || Ended(w, h.generation))
    && (forall i :: 0 <= i < |w.stack| && w.stack[i].Opening? && w.stack[i].ended ==> Ended(w, w.stack[i].generation))
  }

  lemma ApplyKeepsServed(w: World, e: Event)
    requires Tracked(w) && Stacked(w) && Served(w) && Enabled(w, e)
    ensures Served(Apply(w, e))
  {
    match e
    case OpenReturns =>
      OpenReturnsServed(w);
    case CallOnEvent(_) =>
      SameOpenings(w, e);
      if Opens(w.handle) {
        assert Apply(w, e).stack[|w.stack|] == Opening(w.handle.generation + 1, false);
      }
    case _ =>
      SameOpenings(w, e);
  }

  lemma OpenReturnsServed(w: World)
    requires Tracked(w) && Stacked(w) && Served(w) && Enabled(w, OpenReturns)
    ensures Served(Apply(w, OpenReturns))
  {
    var w', g := Apply(w, OpenReturns), w.handle.generation;
    if w.handle.attached.None? && BeingOpened(w, g) && w.stack[|w.stack| - 1].generation != g {
      var i :| 0 <= i < |w.stack| && w.stack[i].Opening? && w.stack[i].generation == g;
      assert w'.stack[i] == w.stack[i];
    }
  }

  lemma {:induction false} RunKeepsServed(worlds: seq<World>, events: seq<Event>, cursor: Option<nat>, i: nat)
    requires IsRun(worlds, events, cursor) && i <= |events|
    ensures Served(worlds[i])
  {
    if i > 0 {
      RunKeepsServed(worlds, events, cursor, i - 1);
      RunKeepsInv(worlds, events, cursor, i - 1);
      ApplyKeepsServed(worlds[i - 1], events[i - 1]);
    }
  }

  /**
   Whenever the outermost call has returned, whoever is subscribed is served: the newest stream is open and attached,
   unless it has ended by itself.
   */
  lemma {:induction false} SubscribersAreServed(worlds: seq<World>, events: seq<Event>, cursor: Option<nat>, i: nat,
                                                cb: nat)
    requires IsRun(worlds, events, cursor) && i <= |events|
    requires worlds[i].stack == [] && Subscribed(events[..i], cb)
    ensures var g := worlds[i].handle.generation; IsOpen(worlds[i], g) || Ended(worlds[i], g)
  {
    SubscribersAreEvents(worlds, events, cursor, i, cb);
    RunKeepsServed(worlds, events, cursor, i);
    RunKeepsInv(worlds, events, cursor, i);
    assert !BeingOpened(worlds[i], worlds[i].handle.generation);
  }
}
