/**
 What each event does for those who wait, in any host that can be reached: a reply tells its own call and no other, the
 host's end tells all of them, a call is put on the pipe once, an ask is answered when its handler is done; and what
 makes the host dead, closed, deaf or down.
 */
module KernelAnswers {
  import opened Wrappers
  import opened Text
  import opened KernelHost

  /** After these events and one more. */
  function After(events: seq<Event>, e: Event): Host {
    Run(FRESH, events + [e])
  }

  lemma Reached(events: seq<Event>, e: Event)
    ensures Inv(Run(FRESH, events)) && Inv(After(events, e))
    ensures After(events, e) == Apply(Run(FRESH, events), e)
  {
    FreshInv();
    RunKeepsInv(FRESH, events);
    RunKeepsInv(FRESH, events + [e]);
    RunOnce(events, e);
  }

  /** The call stands as it did. */
  predicate Unmoved(h: Host, h': Host, call: nat) {
    Told(h', call) == Told(h, call) && Waiting(h', call) == Waiting(h, call)
  }

  /** The call waits for a reply under this id. */
  predicate WaitsUnder(h: Host, call: nat, id: nat) {
    call < |h.made| && h.made[call] == Some(id) && Waiting(h, call) > 0
  }

  // ---- a reply ----

  lemma FoundUnder(h: Host, call: nat, id: nat)
    requires IdsMatch(h) && WaitsUnder(h, call, id)
    ensures var i := Find(h.outstanding, Some(id)); i >= 0 && h.outstanding[i] == Pending(id, call)
  {
    WaitsSomewhere(h.outstanding, call);
    var j :| 0 <= j < |h.outstanding| && h.outstanding[j].call == call;
    assert h.made[h.outstanding[j].call] == Some(h.outstanding[j].id);
    var i := Find(h.outstanding, Some(id));
    assert h.made[h.outstanding[i].call] == Some(h.outstanding[i].id);
  }

  lemma WaitingOnce(h: Host, call: nat)
    requires Inv(h)
    ensures Told(h, call) + Waiting(h, call) <= 1
  {
    NumbersOnce(|h.made|, call);
  }

  lemma SettledMoves(h: Host, i: nat, how: How, other: nat)
    requires i < |h.outstanding|
    ensures var call := h.outstanding[i].call;
            var h' := h.(outstanding := Without(h.outstanding, i), settled := h.settled + [Settlement(call, how)]);
            && Told(h', other) == Told(h, other) + (if other == call then 1 else 0)
            && Waiting(h', other) == Waiting(h, other) - (if other == call then 1 else 0)
  {
    var more := [Settlement(h.outstanding[i].call, how)];
    RemovedCall(h.outstanding, i);
    ToldOfMore(h.settled, more);
    assert ToldOf(more) == [h.outstanding[i].call];
  }

  /** A reply tells the call that waits under its id, with its own result, and leaves every other call as it stood. */
  lemma ReplyTellsItsCall(events: seq<Event>, call: nat, id: nat, ok: bool, other: nat)
    requires Run(FRESH, events).up && WaitsUnder(Run(FRESH, events), call, id)
    ensures var h, h' := Run(FRESH, events), After(events, Receives(Reply(Some(id), ok)));
            && Told(h', call) == 1 && Waiting(h', call) == 0
            && h'.settled == h.settled + [Settlement(call, ByReply(id, ok))]
            && (other != call ==> Unmoved(h, h', other)) && h'.up && h'.lines == h.lines
  {
    var h := Run(FRESH, events);
    Reached(events, Receives(Reply(Some(id), ok)));
    FoundUnder(h, call, id);
    SettledMoves(h, Find(h.outstanding, Some(id)), ByReply(id, ok), call);
    SettledMoves(h, Find(h.outstanding, Some(id)), ByReply(id, ok), other);
    WaitingOnce(h, call);
  }

  /** A reply no call waits for, and whatever is no reply and no ask, changes nothing. */
  lemma StraysChangeNothing(events: seq<Event>, m: Message)
    requires match m
             case Reply(id, _) => forall p :: p in Run(FRESH, events).outstanding ==> id != Some(p.id)
             case BadReply(id) => forall p :: p in Run(FRESH, events).outstanding ==> id != Some(p.id)
             case Ask(_) => false
             case NoObject => false
             case _ => true
    ensures After(events, Receives(m)) == Run(FRESH, events)
  {
    Reached(events, Receives(m));
    var h := Run(FRESH, events);
    if m.Reply? || m.BadReply? {
      assert Find(h.outstanding, m.id) >= 0 ==> h.outstanding[Find(h.outstanding, m.id)] in h.outstanding;
    }
  }

  /** What was told by a reply was told by one that arrived. */
  lemma {:induction false} RepliesArrived(events: seq<Event>, s: Settlement)
    requires s in Run(FRESH, events).settled && s.how.ByReply?
    ensures Receives(Reply(Some(s.how.id), s.how.ok)) in events
  {
    if events != [] {
      var before, e := events[..|events| - 1], events[|events| - 1];
      assert events == before + [e];
      Reached(before, e);
      if s in Run(FRESH, before).settled {
        RepliesArrived(before, s);
      } else {
        OneEventTells(Run(FRESH, before), e, s);
      }
    }
  }

  /** Nothing more has been told by a reply. */
  predicate NoneByReply(settled: seq<Settlement>, later: seq<Settlement>) {
    forall s :: s in later && s.how.ByReply? ==> s in settled
  }

  lemma SendingTells(h: Host, line: Line)
    ensures NoneByReply(h.settled, Die(h).settled) && NoneByReply(h.settled, Send(h, line).settled)
  {
    assert forall r :: r in Rejections(h.outstanding) ==> r.how == ByDeath;
  }

  lemma CallingTells(h: Host)
    ensures NoneByReply(h.settled, Call(h).settled)
  {
    SendingTells(Registered(h), Request(h.nextId));
  }

  lemma AskingTells(h: Host, name: Str)
    ensures NoneByReply(h.settled, Deliver(h, Ask(name)).settled)
  {
    SendingTells(h.(asked := h.asked + 1), Answer(h.asked));
  }

  lemma HandlingTells(h: Host, ask: nat)
    ensures NoneByReply(h.settled, Handled(h, ask).settled)
  {
    SendingTells(h.(answering := h.answering - {ask}), Answer(ask));
  }

  lemma OneEventTells(h: Host, e: Event, s: Settlement)
    requires s !in h.settled && s in Apply(h, e).settled && s.how.ByReply?
    ensures e == Receives(Reply(Some(s.how.id), s.how.ok))
  {
    match e
    case Calls => CallingTells(h);
    case Handles(ask) => HandlingTells(h, ask);
    case Gone => SendingTells(h, Answer(0));
    case Receives(m) =>
      if m.Ask? {
        AskingTells(h, m.name);
      }
    case _ =>
  }

  // ---- the end of the host ----

  lemma DeathTells(h: Host, call: nat)
    requires h.alive
    ensures Told(Die(h), call) == Told(h, call) + Waiting(h, call) && Waiting(Die(h), call) == 0
    ensures Waiting(h, call) > 0 ==> Settlement(call, ByDeath) in Die(h).settled
  {
    ToldOfMore(h.settled, Rejections(h.outstanding));
    RejectedCalls(h.outstanding);
    assert CallsOf([]) == [];
    WaitsSomewhere(h.outstanding, call);
    if Waiting(h, call) > 0 {
      var i :| 0 <= i < |h.outstanding| && h.outstanding[i].call == call;
      assert Rejections(h.outstanding)[i] == Settlement(call, ByDeath);
    }
  }

  /** When the host goes, every call that waits is told so, once, and the others stand as they did. */
  lemma GoneTellsAll(events: seq<Event>, call: nat)
    requires Run(FRESH, events).up && Run(FRESH, events).alive
    ensures var h, h' := Run(FRESH, events), After(events, Gone);
            && !h'.alive && h'.outstanding == [] && h'.lines == h.lines
            && (Waiting(h, call) > 0 ==> Told(h', call) == 1 && Settlement(call, ByDeath) in h'.settled)
            && (Waiting(h, call) == 0 ==> Unmoved(h, h', call))
  {
    Reached(events, Gone);
    DeathTells(Run(FRESH, events), call);
    WaitingOnce(Run(FRESH, events), call);
  }

  // ---- a call ----

  lemma RegisteredWaits(h: Host, call: nat)
    ensures Waiting(Registered(h), call) == Waiting(h, call) + (if call == |h.made| then 1 else 0)
    ensures Told(Registered(h), call) == Told(h, call)
  {
    CallsOfMore(h.outstanding, Pending(h.nextId, |h.made|));
  }

  /**
   A call to a host that is there and not stopping goes out under an id of its own and waits; with its input gone, it
   finds the host dead and is told so. A call to any other is told at once and nothing is sent.
   */
  lemma CallGoesOut(events: seq<Event>)
    requires Run(FRESH, events).up
    ensures var h, h' := Run(FRESH, events), After(events, Calls);
            var call := |h.made|;
            if h.alive && !h.closed then
              && h'.made == h.made + [Some(h.nextId)] && Some(h.nextId) !in h.made
              && (if h.writable then h'.lines == h.lines + [Request(h.nextId)] && WaitsUnder(h', call, h.nextId)
                  else !h'.alive && h'.lines == h.lines && Settlement(call, ByDeath) in h'.settled)
            else
              && h'.made == h.made + [None] && h'.lines == h.lines && h'.outstanding == h.outstanding
              && h'.settled == h.settled + [Settlement(call, AtOnce)]
  {
    var h := Run(FRESH, events);
    Reached(events, Calls);
    RegisteredWaits(h, |h.made|);
    DeathTells(Registered(h).(alive := true), |h.made|);
  }

  predicate RequestsFit(h: Host) {
    && (forall i :: 0 <= i < |h.lines| && h.lines[i].Request? ==> Some(h.lines[i].id) in h.made)
    && (forall i, j :: 0 <= i < j < |h.lines| && h.lines[i].Request? ==> h.lines[i] != h.lines[j])
  }

  /** At most one line goes out at a time, and a request only for the call just made. */
  predicate Grown(h: Host, h': Host) {
    && h.made <= h'.made && h.lines <= h'.lines && |h'.lines| <= |h.lines| + 1
    && (|h'.lines| > |h.lines| && h'.lines[|h.lines|].Request? ==>
          h'.lines[|h.lines|] == Request(h.nextId) && h'.made == h.made + [Some(h.nextId)])
  }

  lemma LinesGrow(h: Host, e: Event)
    ensures Grown(h, Apply(h, e))
  {
    if e.Receives? {
      DeliveryGrows(h, e.message);
    }
  }

  lemma DeliveryGrows(h: Host, m: Message)
    ensures Grown(h, Deliver(h, m))
  {
  }

  lemma MadeStays(made: seq<Option<nat>>, more: seq<Option<nat>>, id: nat)
    requires made <= more && Some(id) in made
    ensures Some(id) in more
  {
    var c :| 0 <= c < |made| && made[c] == Some(id);
    assert more[c] == made[c];
  }

  lemma GrownFits(h: Host, h': Host)
    requires IdsMatch(h) && RequestsFit(h) && Grown(h, h')
    ensures RequestsFit(h')
  {
    forall i | 0 <= i < |h'.lines| && h'.lines[i].Request? ensures Some(h'.lines[i].id) in h'.made {
      if i < |h.lines| {
        assert h'.lines[i] == h.lines[i];
        MadeStays(h.made, h'.made, h.lines[i].id);
      } else {
        assert h'.made[|h.made|] == Some(h.nextId);
      }
    }
    forall i, j | 0 <= i < j < |h'.lines| && h'.lines[i].Request? ensures h'.lines[i] != h'.lines[j] {
      assert h'.lines[i] == h.lines[i];
      var c :| 0 <= c < |h.made| && h.made[c] == Some(h.lines[i].id);
      assert h.lines[i].id < h.nextId;
    }
  }

  lemma {:induction false} RunKeepsRequests(events: seq<Event>)
    ensures RequestsFit(Run(FRESH, events))
  {
    if events != [] {
      var before := events[..|events| - 1];
      RunKeepsRequests(before);
      FreshInv();
      RunKeepsInv(FRESH, before);
      LinesGrow(Run(FRESH, before), events[|events| - 1]);
      GrownFits(Run(FRESH, before), Run(FRESH, events));
    }
  }

  /** No request goes out twice, and none without a call. */
  lemma RequestsGoOutOnce(events: seq<Event>, id: nat)
    ensures var h := Run(FRESH, events);
            && multiset(h.lines)[Request(id)] <= 1
            && (Request(id) in h.lines ==> Some(id) in h.made)
  {
    RunKeepsRequests(events);
    OncePerLine(Run(FRESH, events).lines, Request(id));
  }

  // ---- an ask ----

  /** An ask nothing serves is answered as it arrives; one that is served is left to its handler. */
  lemma AskIsTaken(events: seq<Event>, name: Str)
    requires Run(FRESH, events).up
    ensures var h, h' := Run(FRESH, events), After(events, Receives(Ask(name)));
            && h'.asked == h.asked + 1
            && (if name in h.served then h'.answering == h.answering + {h.asked} && h'.lines == h.lines
                else if h.writable then h'.answering == h.answering && h'.lines == h.lines + [Answer(h.asked)]
                else !h'.alive && h'.lines == h.lines)
  {
    Reached(events, Receives(Ask(name)));
  }

  /** And answered when that is done. */
  lemma HandledIsAnswered(events: seq<Event>, ask: nat)
    requires Run(FRESH, events).up && ask in Run(FRESH, events).answering
    ensures var h, h' := Run(FRESH, events), After(events, Handles(ask));
            && h'.answering == h.answering - {ask}
            && (if h.writable then h'.lines == h.lines + [Answer(ask)] else !h'.alive && h'.lines == h.lines)
  {
    Reached(events, Handles(ask));
  }

  // ---- what makes the host what it is ----

  /** The event ends the process: no object at all, or a null error for a call that waits. */
  predicate Crashes(h: Host, e: Event) {
    h.up && e.Receives? && (e.message == NoObject || (e.message.BadReply? && exists p :: p in h.outstanding && e.message.id == Some(p.id)))
  }

  /** The event writes to the pipe. */
  predicate Writes(h: Host, e: Event) {
    match e
    case Calls => h.alive && !h.closed
    case Receives(m) => m.Ask? && m.name !in h.served
    case Handles(ask) => ask in h.answering
    case _ => false
  }

  /** The host is gone, or turns out to be when something is written to it. */
  predicate Kills(h: Host, e: Event) {
    h.up && (e == Gone || (Writes(h, e) && !h.writable))
  }

  lemma OneEventMarks(h: Host, e: Event)
    ensures var h' := Apply(h, e);
            && (h'.up <==> h.up && !Crashes(h, e))
            && (h'.alive <==> h.alive && !Kills(h, e))
            && (h'.closed <==> h.closed || (h.up && e == Stops))
            && (h'.writable <==> h.writable && !(h.up && e == StreamEnds))
            && h'.served == (if h.up && e.Serves? then h.served + {e.name} else h.served)
  {
    if e.Receives? && e.message.BadReply? {
      assert Find(h.outstanding, e.message.id) >= 0 ==>
               h.outstanding[Find(h.outstanding, e.message.id)] in h.outstanding;
    }
  }

  ghost predicate Earlier(events: seq<Event>, happens: (Host, Event) -> bool) {
    exists k :: 0 <= k < |events| && happens(Run(FRESH, events[..k]), events[k])
  }

  lemma EarlierOrNow(events: seq<Event>, e: Event, happens: (Host, Event) -> bool)
    ensures Earlier(events + [e], happens) <==> Earlier(events, happens) || happens(Run(FRESH, events), e)
  {
    var more := events + [e];
    assert more[..|events|] == events && more[|events|] == e;
    forall k | 0 <= k < |events| ensures more[..k] == events[..k] && more[k] == events[k] {
    }
    if Earlier(events, happens) {
      var k :| 0 <= k < |events| && happens(Run(FRESH, events[..k]), events[k]);
      assert happens(Run(FRESH, more[..k]), more[k]);
    }
  }

  /** Down by a crash, dead by a loss, closed by a stop, deaf by its input ending, and by nothing else. */
  lemma {:induction false} FlagsAreEvents(events: seq<Event>)
    ensures var h := Run(FRESH, events);
            && (!h.up <==> Earlier(events, (g, e) => Crashes(g, e)))
            && (!h.alive <==> Earlier(events, (g, e) => Kills(g, e)))
            && (h.closed <==> Earlier(events, (g: Host, e) => g.up && e == Stops))
            && (!h.writable <==> Earlier(events, (g: Host, e) => g.up && e == StreamEnds))
  {
    if events != [] {
      var before, e := events[..|events| - 1], events[|events| - 1];
      assert before + [e] == events;
      FlagsAreEvents(before);
      RunOnce(before, e);
      OneEventMarks(Run(FRESH, before), e);
      EarlierOrNow(before, e, (g, e) => Crashes(g, e));
      EarlierOrNow(before, e, (g, e) => Kills(g, e));
      EarlierOrNow(before, e, (g: Host, e) => g.up && e == Stops);
      EarlierOrNow(before, e, (g: Host, e) => g.up && e == StreamEnds);
    }
  }
}
