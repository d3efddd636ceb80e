/**
 The kernel host's two ends of a pipe: the lines it writes, cut out of chunks that end anywhere, and the calls waiting
 for its replies. Every call is settled once, by its own reply or because the host is gone; a reply whose error is null is
 the exception, and it takes the whole process with it.
 */
module KernelHost {
  import opened Wrappers
  import opened Text
  import opened Framing

  /**
   A line, parsed. `NoObject` and `BadReply`, whose error is null, make the reader throw; an id that is no number
   matches no call.
   */
  datatype Message =
    | Unreadable
    | NoObject
    | Reply(id: Option<int>, ok: bool)
    | BadReply(id: Option<int>)
    | Ask(name: Str)
    | Notice(name: Str)
    | Neither

  datatype How = ByReply(id: int, ok: bool) | ByDeath | AtOnce

  datatype Pending = Pending(id: nat, call: nat)

  datatype Settlement = Settlement(call: nat, how: How)

  datatype Line = Request(id: nat) | Answer(ask: nat)

  /**
   Calls are numbered as they are made, refused ones included; `made` holds the id each was sent under. `settled` is
   what promises have been told, `lost` the call whose reply threw before its promise was told, `up` whether the
   daemon's own process goes on: an error thrown out of the reader ends it.
   */
  datatype Host = Host(
    made: seq<Option<nat>>, outstanding: seq<Pending>, settled: seq<Settlement>, lost: seq<nat>, nextId: nat,
    alive: bool, closed: bool, writable: bool, up: bool,
    served: set<Str>, asked: nat, answering: set<nat>, lines: seq<Line>)

  const FRESH: Host := Host([], [], [], [], 1, true, false, true, true, {}, 0, {}, [])

  // ---- one step of the host ----

  function Rejections(pending: seq<Pending>): seq<Settlement> {
    seq(|pending|, i requires 0 <= i < |pending| => Settlement(pending[i].call, ByDeath))
  }

  function Die(h: Host): Host {
    if !h.alive then h
    else h.(alive := false, settled := h.settled + Rejections(h.outstanding), outstanding := [])
  }

  function Send(h: Host, line: Line): Host {
    if h.writable then h.(lines := h.lines + [line]) else Die(h)
  }

  function Call(h: Host): Host {
    var n := |h.made|;
    if !h.alive || h.closed then h.(made := h.made + [None], settled := h.settled + [Settlement(n, AtOnce)])
    else
      var registered := h.(made := h.made + [Some(h.nextId)], outstanding := h.outstanding + [Pending(h.nextId, n)],
                           nextId := h.nextId + 1);
      Send(registered, Request(h.nextId))
  }

  /** Where the call waiting under an id stands, or -1. */
  function Find(pending: seq<Pending>, id: Option<int>): (i: int)
    ensures -1 <= i < |pending|
    ensures i >= 0 ==> id == Some(pending[i].id)
    ensures i == -1 ==> forall j :: 0 <= j < |pending| ==> id != Some(pending[j].id)
  {
    if pending == [] then -1
    else if id == Some(pending[|pending| - 1].id) then |pending| - 1
    else Find(pending[..|pending| - 1], id)
  }

  function Without(pending: seq<Pending>, i: nat): seq<Pending>
    requires i < |pending|
  {
    pending[..i] + pending[i + 1..]
  }

  function Deliver(h: Host, m: Message): Host {
    match m
    case NoObject => h.(up := false)
    case Reply(id, ok) =>
      var i := Find(h.outstanding, id);
      if i == -1 then h
      else
        var p := h.outstanding[i];
        h.(outstanding := Without(h.outstanding, i), settled := h.settled + [Settlement(p.call, ByReply(p.id, ok))])
    case BadReply(id) =>
      var i := Find(h.outstanding, id);
      if i == -1 then h
      else h.(outstanding := Without(h.outstanding, i), lost := h.lost + [h.outstanding[i].call], up := false)
    case Ask(name) =>
      var taken := h.(asked := h.asked + 1);
      if name in h.served then taken.(answering := h.answering + {h.asked}) else Send(taken, Answer(h.asked))
    case Unreadable => h
    case Notice(_) => h
    case Neither => h
  }

  /** A handler is done with an ask, one way or the other. */
  function Handled(h: Host, ask: nat): Host {
    if ask in h.answering then Send(h.(answering := h.answering - {ask}), Answer(ask)) else h
  }

  // ---- runs ----

  /** `Gone` is an exit, a spawn that failed or a write that failed; `StreamEnds` is the input stream closing quietly. */
  datatype Event =
    | Calls
    | Receives(message: Message)
    | Handles(ask: nat)
    | Serves(name: Str)
    | Gone
    | StreamEnds
    | Stops

  function Apply(h: Host, e: Event): Host {
    if !h.up then h
    else
      match e
      case Calls => Call(h)
      case Receives(m) => Deliver(h, m)
      case Handles(ask) => Handled(h, ask)
      case Serves(name) => h.(served := h.served + {name})
      case Gone => Die(h)
      case StreamEnds => h.(writable := false)
      case Stops => h.(closed := true)
  }

  function Run(h: Host, events: seq<Event>): Host {
    if events == [] then h else Apply(Run(h, events[..|events| - 1]), events[|events| - 1])
  }

  // ---- the invariant ----

  function CallsOf(pending: seq<Pending>): seq<nat> {
    seq(|pending|, i requires 0 <= i < |pending| => pending[i].call)
  }

  function ToldOf(settled: seq<Settlement>): seq<nat> {
    seq(|settled|, i requires 0 <= i < |settled| => settled[i].call)
  }

  function Numbers(n: nat): seq<nat> {
    seq(n, i requires 0 <= i < n => i)
  }

  /** Every call made stands in one place: told, waiting or lost. */
  predicate Accounted(h: Host) {
    multiset(ToldOf(h.settled)) + multiset(CallsOf(h.outstanding)) + multiset(h.lost) == multiset(Numbers(|h.made|))
  }

  predicate IdsMatch(h: Host) {
    && (forall i :: 0 <= i < |h.made| && h.made[i].Some? ==> h.made[i].value < h.nextId)
    && (forall i, j :: 0 <= i < j < |h.made| && h.made[i].Some? ==> h.made[i] != h.made[j])
    && (forall i :: 0 <= i < |h.outstanding| ==>
          h.outstanding[i].call < |h.made| && h.made[h.outstanding[i].call] == Some(h.outstanding[i].id))
  }

  /** A promise was told by its own reply, by the host's end, or at once because nothing was sent for it. */
  predicate RightlyTold(h: Host, s: Settlement) {
    && s.call < |h.made|
    && match s.how
       case ByReply(id, _) => h.made[s.call].Some? && h.made[s.call].value == id
       case ByDeath => h.made[s.call].Some? && !h.alive
       case AtOnce => h.made[s.call] == None
  }

  predicate AllRightlyTold(h: Host) {
    forall i :: 0 <= i < |h.settled| ==> RightlyTold(h, h.settled[i])
  }

  predicate AsksAnswered(h: Host) {
    && (forall n :: n in h.answering ==> n < h.asked && Answer(n) !in h.lines)
    && (forall i, j :: 0 <= i < j < |h.lines| && h.lines[i].Answer? ==> h.lines[i] != h.lines[j])
    && (forall i :: 0 <= i < |h.lines| && h.lines[i].Answer? ==> h.lines[i].ask < h.asked)
    && (h.alive ==> forall n: nat :: n < h.asked && n !in h.answering ==> Answer(n) in h.lines)
  }

  predicate Inv(h: Host) {
    && Accounted(h) && IdsMatch(h) && AllRightlyTold(h) && AsksAnswered(h)
    && (!h.alive ==> h.outstanding == [])
    && (h.up ==> h.lost == [])
  }

  // ---- each step keeps it ----

  lemma FreshInv()
    ensures Inv(FRESH)
  {
    assert ToldOf(FRESH.settled) == [] && CallsOf(FRESH.outstanding) == [] && Numbers(|FRESH.made|) == [];
  }

  lemma ToldStays(h: Host, h': Host, more: seq<Settlement>)
    requires AllRightlyTold(h) && h.made <= h'.made && (h'.alive ==> h.alive)
    requires h'.settled == h.settled + more
    requires forall i :: 0 <= i < |more| ==> RightlyTold(h', more[i])
    ensures AllRightlyTold(h')
  {
    forall i | 0 <= i < |h'.settled| ensures RightlyTold(h', h'.settled[i]) {
      if i < |h.settled| {
        assert RightlyTold(h, h.settled[i]);
      } else {
        assert h'.settled[i] == more[i - |h.settled|];
      }
    }
  }

  lemma AsksStay(h: Host, h': Host)
    requires AsksAnswered(h) && (h'.alive ==> h.alive)
    requires h'.lines == h.lines && h'.asked == h.asked && h'.answering == h.answering
    ensures AsksAnswered(h')
  {
  }

  lemma ToldOfMore(a: seq<Settlement>, b: seq<Settlement>)
    ensures ToldOf(a + b) == ToldOf(a) + ToldOf(b)
  {
  }

  lemma RejectedCalls(pending: seq<Pending>)
    ensures ToldOf(Rejections(pending)) == CallsOf(pending)
  {
  }

  lemma DieKeepsInv(h: Host)
    requires Inv(h)
    ensures Inv(Die(h))
  {
    if h.alive {
      var d := Die(h);
      ToldOfMore(h.settled, Rejections(h.outstanding));
      RejectedCalls(h.outstanding);
      assert CallsOf(d.outstanding) == [];
      assert Accounted(d);
      ToldStays(h, d, Rejections(h.outstanding));
      AsksStay(h, d);
    }
  }

  lemma NumbersMore(n: nat)
    ensures Numbers(n + 1) == Numbers(n) + [n]
  {
  }

  lemma CallsOfMore(pending: seq<Pending>, p: Pending)
    ensures CallsOf(pending + [p]) == CallsOf(pending) + [p.call]
  {
  }

  function Registered(h: Host): Host {
    h.(made := h.made + [Some(h.nextId)], outstanding := h.outstanding + [Pending(h.nextId, |h.made|)],
       nextId := h.nextId + 1)
  }

  lemma AccountsGrow(told: seq<nat>, waiting: seq<nat>, lost: seq<nat>, n: nat)
    requires multiset(told) + multiset(waiting) + multiset(lost) == multiset(Numbers(n))
    ensures multiset(told + [n]) + multiset(waiting) + multiset(lost) == multiset(Numbers(n + 1))
    ensures multiset(told) + multiset(waiting + [n]) + multiset(lost) == multiset(Numbers(n + 1))
  {
    NumbersMore(n);
  }

  lemma IdsGrow(h: Host, h': Host)
    requires IdsMatch(h) && h'.nextId >= h.nextId
    requires || (h'.made == h.made + [None] && h'.outstanding == h.outstanding)
             || (&& h'.made == h.made + [Some(h.nextId)] && h'.nextId == h.nextId + 1
                 && h'.outstanding == h.outstanding + [Pending(h.nextId, |h.made|)])
    ensures IdsMatch(h')
  {
  }

  lemma RegisteredAccounted(h: Host)
    requires Accounted(h)
    ensures Accounted(Registered(h))
  {
    AccountsGrow(ToldOf(h.settled), CallsOf(h.outstanding), h.lost, |h.made|);
    CallsOfMore(h.outstanding, Pending(h.nextId, |h.made|));
  }

  lemma NoneToldStays(h: Host, h': Host)
    requires AllRightlyTold(h) && h.made <= h'.made && (h'.alive ==> h.alive) && h'.settled == h.settled
    ensures AllRightlyTold(h')
  {
    assert h.settled + [] == h.settled;
    ToldStays(h, h', []);
  }

  lemma RegisteredKeepsInv(h: Host)
    requires Inv(h) && h.alive
    ensures Inv(Registered(h))
  {
    RegisteredAccounted(h);
    NoneToldStays(h, Registered(h));
    IdsGrow(h, Registered(h));
    AsksStay(h, Registered(h));
  }

  function RefusedCall(h: Host): Host {
    h.(made := h.made + [None], settled := h.settled + [Settlement(|h.made|, AtOnce)])
  }

  lemma RefusedAccounted(h: Host)
    requires Accounted(h)
    ensures Accounted(RefusedCall(h))
  {
    AccountsGrow(ToldOf(h.settled), CallsOf(h.outstanding), h.lost, |h.made|);
    ToldOfMore(h.settled, [Settlement(|h.made|, AtOnce)]);
    assert ToldOf([Settlement(|h.made|, AtOnce)]) == [|h.made|];
  }

  lemma RefusedTold(h: Host)
    requires AllRightlyTold(h)
    ensures AllRightlyTold(RefusedCall(h))
  {
    ToldStays(h, RefusedCall(h), [Settlement(|h.made|, AtOnce)]);
  }

  lemma RefusedKeepsInv(h: Host)
    requires Inv(h)
    ensures Inv(RefusedCall(h))
  {
    RefusedAccounted(h);
    RefusedTold(h);
    IdsGrow(h, RefusedCall(h));
    AsksStay(h, RefusedCall(h));
  }

  lemma RequestKeepsInv(h: Host, id: nat)
    requires Inv(h)
    ensures Inv(h.(lines := h.lines + [Request(id)]))
  {
    var r := h.(lines := h.lines + [Request(id)]);
    NoneToldStays(h, r);
    forall n: nat | r.alive && n < r.asked && n !in r.answering ensures Answer(n) in r.lines {
      assert Answer(n) in h.lines;
    }
  }

  lemma CallKeepsInv(h: Host)
    requires Inv(h)
    ensures Inv(Call(h))
  {
    if !h.alive || h.closed {
      RefusedKeepsInv(h);
    } else {
      RegisteredKeepsInv(h);
      DieKeepsInv(Registered(h));
      RequestKeepsInv(Registered(h), h.nextId);
    }
  }

  lemma RemovedCall(pending: seq<Pending>, i: nat)
    requires i < |pending|
    ensures multiset(CallsOf(pending)) == multiset(CallsOf(Without(pending, i))) + multiset{pending[i].call}
  {
    var c := CallsOf(pending);
    assert CallsOf(Without(pending, i)) == c[..i] + c[i + 1..];
    assert c == c[..i] + [c[i]] + c[i + 1..];
  }

  lemma IdsStay(h: Host, i: nat, h': Host)
    requires IdsMatch(h) && i < |h.outstanding|
    requires h'.made == h.made && h'.nextId == h.nextId && h'.outstanding == Without(h.outstanding, i)
    ensures IdsMatch(h')
  {
    forall k | 0 <= k < |h'.outstanding|
      ensures h'.outstanding[k].call < |h.made| && h.made[h'.outstanding[k].call] == Some(h'.outstanding[k].id)
    {
      assert h'.outstanding[k] == h.outstanding[if k < i then k else k + 1];
    }
  }

  lemma RepliedKeepsInv(h: Host, i: nat, ok: bool)
    requires Inv(h) && i < |h.outstanding|
    ensures var p := h.outstanding[i];
            Inv(h.(outstanding := Without(h.outstanding, i),
                   settled := h.settled + [Settlement(p.call, ByReply(p.id, ok))]))
  {
    var p := h.outstanding[i];
    var more := [Settlement(p.call, ByReply(p.id, ok))];
    var r := h.(outstanding := Without(h.outstanding, i), settled := h.settled + more);
    RemovedCall(h.outstanding, i);
    ToldOfMore(h.settled, more);
    assert ToldOf(more) == [p.call];
    assert Accounted(r);
    IdsStay(h, i, r);
    ToldStays(h, r, more);
    AsksStay(h, r);
  }

  lemma LostKeepsInv(h: Host, i: nat)
    requires Inv(h) && i < |h.outstanding|
    ensures Inv(h.(outstanding := Without(h.outstanding, i), lost := h.lost + [h.outstanding[i].call], up := false))
  {
    var r := h.(outstanding := Without(h.outstanding, i), lost := h.lost + [h.outstanding[i].call], up := false);
    RemovedCall(h.outstanding, i);
    assert Accounted(r);
    IdsStay(h, i, r);
    NoneToldStays(h, r);
    AsksStay(h, r);
  }

  lemma OthersKeepInv(h: Host, h': Host)
    requires Inv(h)
    requires h' == h.(up := h'.up, closed := h'.closed, writable := h'.writable, served := h'.served)
    requires h'.up ==> h.up
    ensures Inv(h')
  {
    NoneToldStays(h, h');
    AsksStay(h, h');
  }

  /** The ask is new, or its handler is just done with it. */
  function Replying(h: Host, ask: nat): Host {
    h.(asked := if ask == h.asked then h.asked + 1 else h.asked, answering := h.answering - {ask})
  }

  lemma WrittenKeepsAsks(h: Host, ask: nat, h': Host)
    requires AsksAnswered(h) && (ask == h.asked || ask in h.answering)
    requires h' == Replying(h, ask).(lines := h.lines + [Answer(ask)])
    ensures AsksAnswered(h')
  {
    assert Answer(ask) !in h.lines;
    assert h'.lines[|h.lines|] == Answer(ask);
    forall n: nat | h'.alive && n < h'.asked && n !in h'.answering ensures Answer(n) in h'.lines {
      if n != ask {
        assert Answer(n) in h.lines;
      }
    }
  }

  lemma AnsweredKeepsInv(h: Host, ask: nat)
    requires Inv(h) && (ask == h.asked || ask in h.answering)
    ensures Inv(Send(Replying(h, ask), Answer(ask)))
  {
    var r := Send(Replying(h, ask), Answer(ask));
    if h.writable {
      WrittenKeepsAsks(h, ask, r);
      NoneToldStays(h, r);
    } else {
      DieKeepsInv(h);
      var d := Die(h);
      assert r == d.(asked := r.asked, answering := r.answering);
      NoneToldStays(d, r);
      assert AsksAnswered(r);
    }
  }

  lemma TakenKeepsInv(h: Host)
    requires Inv(h)
    ensures Inv(h.(asked := h.asked + 1, answering := h.answering + {h.asked}))
  {
    var r := h.(asked := h.asked + 1, answering := h.answering + {h.asked});
    NoneToldStays(h, r);
    assert AsksAnswered(r);
  }

  lemma AskKeepsInv(h: Host, name: Str)
    requires Inv(h)
    ensures Inv(Deliver(h, Ask(name)))
  {
    if name in h.served {
      TakenKeepsInv(h);
    } else {
      assert h.answering - {h.asked} == h.answering;
      UnservedAsk(h, name);
      AnsweredKeepsInv(h, h.asked);
    }
  }

  lemma UnservedAsk(h: Host, name: Str)
    requires name !in h.served && h.answering - {h.asked} == h.answering
    ensures Deliver(h, Ask(name)) == Send(Replying(h, h.asked), Answer(h.asked))
  {
  }

  lemma DeliverKeepsInv(h: Host, m: Message)
    requires Inv(h) && h.up
    ensures Inv(Deliver(h, m))
  {
    match m
    case NoObject => OthersKeepInv(h, h.(up := false));
    case Reply(id, ok) =>
      if Find(h.outstanding, id) != -1 {
        RepliedKeepsInv(h, Find(h.outstanding, id), ok);
      }
    case BadReply(id) =>
      if Find(h.outstanding, id) != -1 {
        LostKeepsInv(h, Find(h.outstanding, id));
      }
    case Ask(name) =>
      AskKeepsInv(h, name);
    case Unreadable =>
    case Notice(_) =>
    case Neither =>
  }

  lemma ApplyKeepsInv(h: Host, e: Event)
    requires Inv(h)
    ensures Inv(Apply(h, e))
  {
    if h.up {
      match e
      case Calls => CallKeepsInv(h);
      case Receives(m) => DeliverKeepsInv(h, m);
      case Handles(ask) =>
        if ask in h.answering {
          AnsweredKeepsInv(h, ask);
        }
      case Serves(name) => OthersKeepInv(h, h.(served := h.served + {name}));
      case Gone => DieKeepsInv(h);
      case StreamEnds => OthersKeepInv(h, h.(writable := false));
      case Stops => OthersKeepInv(h, h.(closed := true));
    }
  }

  lemma {:induction false} RunKeepsInv(h: Host, events: seq<Event>)
    requires Inv(h)
    ensures Inv(Run(h, events))
  {
    if events != [] {
      RunKeepsInv(h, events[..|events| - 1]);
      ApplyKeepsInv(Run(h, events[..|events| - 1]), events[|events| - 1]);
    }
  }

  // ---- main results ----

  /** How often a call's promise has been told something. */
  function Told(h: Host, call: nat): nat {
    multiset(ToldOf(h.settled))[call]
  }

  function Waiting(h: Host, call: nat): nat {
    multiset(CallsOf(h.outstanding))[call]
  }

  lemma {:induction false} NumbersOnce(n: nat, call: nat)
    ensures multiset(Numbers(n))[call] == if call < n then 1 else 0
  {
    if n == 0 {
      assert Numbers(n) == [];
    } else {
      NumbersOnce(n - 1, call);
      assert Numbers(n) == Numbers(n - 1) + [n - 1];
    }
  }

  /** A reply with a null error arrives for a call that waits, in a process that is up. */
  predicate Untells(h: Host, e: Event, call: nat) {
    && h.up && e.Receives? && e.message.BadReply?
    && call < |h.made| && h.made[call].Some? && e.message.id == Some(h.made[call].value as int)
    && Waiting(h, call) > 0
  }

  ghost predicate Untold(events: seq<Event>, call: nat) {
    exists k: nat :: k < |events| && Untells(Run(FRESH, events[..k]), events[k], call)
  }

  lemma WaitsSomewhere(pending: seq<Pending>, call: nat)
    ensures multiset(CallsOf(pending))[call] > 0 <==> exists i :: 0 <= i < |pending| && pending[i].call == call
  {
    var calls := CallsOf(pending);
    assert multiset(calls)[call] > 0 <==> call in calls;
    assert forall i :: 0 <= i < |pending| ==> calls[i] == pending[i].call;
  }

  lemma OthersLoseNone(h: Host, e: Event)
    requires e.Receives? ==> !e.message.BadReply?
    ensures Apply(h, e).lost == h.lost
  {
  }

  lemma OneReplyLoses(h: Host, id: Option<int>, call: nat)
    requires Inv(h) && h.up
    ensures call in Deliver(h, BadReply(id)).lost <==> call in h.lost || Untells(h, Receives(BadReply(id)), call)
  {
    var i := Find(h.outstanding, id);
    WaitsSomewhere(h.outstanding, call);
    if i != -1 {
      assert h.made[h.outstanding[i].call] == Some(h.outstanding[i].id);
    }
  }

  lemma OneEventLoses(h: Host, e: Event, call: nat)
    requires Inv(h)
    ensures call in Apply(h, e).lost <==> call in h.lost || Untells(h, e, call)
  {
    if e.Receives? && e.message.BadReply? {
      if h.up {
        OneReplyLoses(h, e.message.id, call);
      }
    } else {
      OthersLoseNone(h, e);
    }
  }

  /** The calls lost are those whose reply with a null error arrived while they waited. */
  lemma {:induction false} LostIsUntold(events: seq<Event>, call: nat)
    ensures call in Run(FRESH, events).lost <==> Untold(events, call)
  {
    if events != [] {
      var n := |events| - 1;
      var before := events[..n];
      LostIsUntold(before, call);
      FreshInv();
      RunKeepsInv(FRESH, before);
      OneEventLoses(Run(FRESH, before), events[n], call);
      forall k: nat | k < n ensures before[..k] == events[..k] && before[k] == events[k] {
      }
      if Untold(before, call) {
        var k: nat :| k < |before| && Untells(Run(FRESH, before[..k]), before[k], call);
        assert Untells(Run(FRESH, events[..k]), events[k], call);
      }
      if Untold(events, call) {
        var k: nat :| k < |events| && Untells(Run(FRESH, events[..k]), events[k], call);
        assert k < n ==> Untells(Run(FRESH, before[..k]), before[k], call);
      }
    }
  }

  /**
   In every run, a call made is waiting or told, never both and never told twice, but for one way out: a reply to it
   whose error is null, arriving while it waits. Exactly then it is neither, and the process has ended.
   */
  lemma EveryCallIsAccountedFor(events: seq<Event>, call: nat)
    ensures var h := Run(FRESH, events);
            && Told(h, call) <= 1
            && (call < |h.made| && h.up ==> Told(h, call) + Waiting(h, call) == 1)
            && (call < |h.made| ==> Told(h, call) + Waiting(h, call) == if Untold(events, call) then 0 else 1)
            && (call >= |h.made| ==> Told(h, call) == Waiting(h, call) == 0)
  {
    FreshInv();
    RunKeepsInv(FRESH, events);
    LostIsUntold(events, call);
    var h := Run(FRESH, events);
    NumbersOnce(|h.made|, call);
    assert multiset(h.lost)[call] > 0 <==> call in h.lost;
  }

  /** So a host that never sends a null error leaves no call behind. */
  lemma NoNullErrorNoCallLost(events: seq<Event>, call: nat)
    requires forall e :: e in events && e.Receives? ==> !e.message.BadReply?
    requires call < |Run(FRESH, events).made|
    ensures Told(Run(FRESH, events), call) + Waiting(Run(FRESH, events), call) == 1
  {
    EveryCallIsAccountedFor(events, call);
  }

  lemma RunOnce(events: seq<Event>, e: Event)
    ensures Run(FRESH, events + [e]) == Apply(Run(FRESH, events), e)
  {
    assert (events + [e])[..|events|] == events;
  }

  lemma CalledOnce()
    ensures var h := Run(FRESH, [Calls]);
            h.made == [Some(1)] && h.outstanding == [Pending(1, 0)] && h.up
  {
    RunOnce([], Calls);
    assert [] + [Calls] == [Calls];
  }

  /** One call, and one reply to it whose error is null. */
  lemma NullErrorLosesCall(events: seq<Event>)
    requires events == [Calls] + [Receives(BadReply(Some(1)))]
    ensures var h := Run(FRESH, events); |h.made| == 1 && Told(h, 0) == Waiting(h, 0) == 0 && !h.up
  {
    CalledOnce();
    RunOnce([Calls], events[1]);
    WaitsSomewhere(Run(FRESH, [Calls]).outstanding, 0);
    assert events[..1] == [Calls];
    assert Untells(Run(FRESH, events[..1]), events[1], 0);
    EveryCallIsAccountedFor(events, 0);
    assert Find([Pending(1, 0)], Some(1)) == 0;
  }

  /** A promise is told by the reply to its own id, by the host's end, or at once when nothing was sent. */
  lemma ToldByItsOwnReplyOrDeath(events: seq<Event>, i: nat)
    requires i < |Run(FRESH, events).settled|
    ensures RightlyTold(Run(FRESH, events), Run(FRESH, events).settled[i])
  {
    FreshInv();
    RunKeepsInv(FRESH, events);
  }

  lemma {:induction false} DeadStaysDead(h: Host, events: seq<Event>)
    requires !h.alive
    ensures !Run(h, events).alive
  {
    if events != [] {
      DeadStaysDead(h, events[..|events| - 1]);
    }
  }

  /** A call is lost only with a host that is there: it has just replied. */
  lemma {:induction false} DeadLostNone(events: seq<Event>)
    ensures !Run(FRESH, events).alive ==> Run(FRESH, events).lost == []
  {
    if events != [] {
      var before := events[..|events| - 1];
      DeadLostNone(before);
      FreshInv();
      RunKeepsInv(FRESH, before);
    }
  }

  /** Once the host is gone every call there is, and every call made later, has been told once and none waits. */
  lemma NothingWaitsAfterDeath(before: seq<Event>, after: seq<Event>, call: nat)
    requires !Run(FRESH, before).alive
    ensures var h := Run(FRESH, before + after);
            h.outstanding == [] && (call < |h.made| ==> Told(h, call) == 1)
  {
    RunsOn(before, after);
    DeadStaysDead(Run(FRESH, before), after);
    DeadLostNone(before + after);
    FreshInv();
    RunKeepsInv(FRESH, before + after);
    LostIsUntold(before + after, call);
    EveryCallIsAccountedFor(before + after, call);
    assert CallsOf(Run(FRESH, before + after).outstanding) == [];
  }

  lemma {:induction false} RunsOn(before: seq<Event>, after: seq<Event>)
    ensures Run(FRESH, before + after) == Run(Run(FRESH, before), after)
    decreases |after|
  {
    if after == [] {
      assert before + after == before;
    } else {
      RunsOn(before, after[..|after| - 1]);
      assert (before + after)[..|before + after| - 1] == before + after[..|after| - 1];
    }
  }

  /** Every ask the host made is answered in one line or being answered, while the host is there to be answered. */
  lemma EveryAskIsAnsweredOnce(events: seq<Event>, ask: nat)
    ensures var h := Run(FRESH, events);
            && multiset(h.lines)[Answer(ask)] <= 1
            && (ask in h.answering ==> Answer(ask) !in h.lines)
            && (h.alive ==> (ask < h.asked <==> ask in h.answering || Answer(ask) in h.lines))
  {
    FreshInv();
    RunKeepsInv(FRESH, events);
    var lines := Run(FRESH, events).lines;
    OncePerLine(lines, Answer(ask));
  }

  lemma {:induction false} OncePerLine(lines: seq<Line>, line: Line)
    requires forall i, j :: 0 <= i < j < |lines| && lines[i] == line ==> lines[i] != lines[j]
    ensures multiset(lines)[line] <= 1
  {
    if lines != [] {
      var n := |lines| - 1;
      OncePerLine(lines[..n], line);
      assert lines == lines[..n] + [lines[n]];
      if lines[n] == line {
        assert line !in lines[..n];
      }
    }
  }

  // ---- reading the output ----

  /** The lines a reader sees: trimmed, empty ones left out. */
  function LinesIn(blocks: seq<Str>): seq<Str> {
    if blocks == [] then []
    else (if Trim(blocks[0]) == [] then [] else [Trim(blocks[0])]) + LinesIn(blocks[1..])
  }

  /** Nothing is read after an error has been thrown. */
  function DeliverAll(h: Host, lines: seq<Str>, read: Str -> Message): Host
    decreases |lines|
  {
    if lines == [] || !h.up then h else DeliverAll(Deliver(h, read(lines[0])), lines[1..], read)
  }

  lemma {:induction false} DeliverAllGoesOn(h: Host, a: seq<Str>, b: seq<Str>, read: Str -> Message)
    ensures DeliverAll(h, a + b, read) == DeliverAll(DeliverAll(h, a, read), b, read)
    decreases |a|
  {
    if a == [] {
      assert a + b == b;
    } else if h.up {
      DeliverAllGoesOn(Deliver(h, read(a[0])), a[1..], b, read);
      assert (a + b)[1..] == a[1..] + b;
    }
  }

  lemma {:induction false} LinesInGoesOn(a: seq<Str>, b: seq<Str>)
    ensures LinesIn(a + b) == LinesIn(a) + LinesIn(b)
    decreases |a|
  {
    if a == [] {
      assert a + b == b;
    } else {
      LinesInGoesOn(a[1..], b);
      assert (a + b)[1..] == a[1..] + b;
      var first := if Trim(a[0]) == [] then [] else [Trim(a[0])];
      assert first + (LinesIn(a[1..]) + LinesIn(b)) == first + LinesIn(a[1..]) + LinesIn(b);
    }
  }

  /** Chunk after chunk with a carry between them. */
  function ReadChunks(h: Host, chunks: seq<Str>, read: Str -> Message): Host {
    if chunks == [] then h
    else
      var n := |chunks| - 1;
      var carry := Fed(chunks[..n], [NEWLINE]).tail;
      DeliverAll(ReadChunks(h, chunks[..n], read), LinesIn(Split(carry + chunks[n], [NEWLINE]).blocks), read)
  }

  /** However the output was cut, the messages are the lines of the whole of it, in order. */
  lemma {:induction false} MessagesAreTheLines(h: Host, chunks: seq<Str>, read: Str -> Message)
    ensures ReadChunks(h, chunks, read)
         == DeliverAll(h, LinesIn(Split(Received(chunks), [NEWLINE]).blocks), read)
  {
    if chunks == [] {
      assert IndexOf([], [NEWLINE]) == -1;
      assert Split([], [NEWLINE]).blocks == [];
    } else {
      var n := |chunks| - 1;
      var before := Fed(chunks[..n], [NEWLINE]);
      var now := Split(before.tail + chunks[n], [NEWLINE]);
      MessagesAreTheLines(h, chunks[..n], read);
      ChunksDoNotMatter(chunks[..n], [NEWLINE]);
      ChunksDoNotMatter(chunks, [NEWLINE]);
      LinesInGoesOn(before.blocks, now.blocks);
      DeliverAllGoesOn(h, LinesIn(before.blocks), LinesIn(now.blocks), read);
    }
  }

  lemma NextLine(h: Host, carry: Str, newline: nat, read: Str -> Message)
    requires h.up && IndexOf(carry, [NEWLINE]) == newline
    ensures var line := Trim(carry[..newline]);
            var rest := Split(carry[newline + 1..], [NEWLINE]);
            && Split(carry, [NEWLINE]).tail == rest.tail
            && DeliverAll(h, LinesIn(Split(carry, [NEWLINE]).blocks), read)
               == DeliverAll(if line == [] then h else Deliver(h, read(line)), LinesIn(rest.blocks), read)
  {
    var line := Trim(carry[..newline]);
    var rest := Split(carry[newline + 1..], [NEWLINE]);
    assert Split(carry, [NEWLINE]) == Push(carry[..newline], rest);
    assert ([carry[..newline]] + rest.blocks)[1..] == rest.blocks;
    if line == [] {
      assert [] + LinesIn(rest.blocks) == LinesIn(rest.blocks);
    } else {
      assert ([line] + LinesIn(rest.blocks))[1..] == LinesIn(rest.blocks);
    }
  }

  // ---- the host as the program has it ----

  class Process {
    const read: Str -> Message
    var made: seq<Option<nat>>
    var outstanding: seq<Pending>
    var settled: seq<Settlement>
    var lost: seq<nat>
    var nextId: nat
    var alive: bool
    var closed: bool
    var writable: bool
    var up: bool
    var served: set<Str>
    var asked: nat
    var answering: set<nat>
    var lines: seq<Line>
    var carry: Str

    ghost function State(): Host
      reads this
    {
      Host(made, outstanding, settled, lost, nextId, alive, closed, writable, up, served, asked, answering, lines)
    }

    constructor (read: Str -> Message)
      ensures State() == FRESH && carry == [] && this.read == read
    {
      this.read := read;
      made, outstanding, settled, lost, nextId := [], [], [], [], 1;
      alive, closed, writable, up := true, false, true, true;
      served, asked, answering, lines, carry := {}, 0, {}, [], [];
    }

    method OnData(chunk: Str)
      requires up
      modifies this
      ensures var p := Split(old(carry) + chunk, [NEWLINE]);
              && State() == DeliverAll(old(State()), LinesIn(p.blocks), read)
              && (up ==> carry == p.tail)
    {
      carry := carry + chunk;
      var newline := IndexOf(carry, [NEWLINE]);
      while newline != -1 && up
        invariant newline == IndexOf(carry, [NEWLINE])
        invariant DeliverAll(State(), LinesIn(Split(carry, [NEWLINE]).blocks), read)
               == DeliverAll(old(State()), LinesIn(Split(old(carry) + chunk, [NEWLINE]).blocks), read)
        invariant up ==> Split(carry, [NEWLINE]).tail == Split(old(carry) + chunk, [NEWLINE]).tail
        decreases |carry|
      {
        NextLine(State(), carry, newline, read);
        var line := Trim(carry[..newline]);
        carry := carry[newline + 1..];
        if line != [] {
          DeliverLine(line);
        }
        newline := IndexOf(carry, [NEWLINE]);
      }
    }

    /** `deliver` */
    method DeliverLine(line: Str)
      requires up
      modifies this
      ensures State() == Deliver(old(State()), read(line)) && carry == old(carry)
    {
      match read(line)
      case Unreadable =>
      case NoObject =>
        up := false;
      case Reply(id, ok) =>
        var i := Find(outstanding, id);
        if i != -1 {
          var pending := outstanding[i];
          outstanding := Without(outstanding, i);
          settled := settled + [Settlement(pending.call, ByReply(pending.id, ok))];
        }
      case BadReply(id) =>
        var i := Find(outstanding, id);
        if i != -1 {
          lost := lost + [outstanding[i].call];
          outstanding := Without(outstanding, i);
          up := false;
        }
      case Ask(name) =>
        OnAsk(name);
      case Notice(_) =>
      case Neither =>
    }

    /** `answer`, up to where the handler is left to work */
    method OnAsk(name: Str)
      requires up
      modifies this
      ensures State() == Deliver(old(State()), Ask(name)) && carry == old(carry)
    {
      var ask := asked;
      asked := asked + 1;
      if name in served {
        answering := answering + {ask};
      } else {
        SendLine(Answer(ask));
      }
    }

    /** `send` */
    method SendLine(line: Line)
      requires up
      modifies this
      ensures State() == Send(old(State()), line) && carry == old(carry)
    {
      if !writable {
        OnGone();
        return;
      }
      lines := lines + [line];
    }

    /** `die` */
    method OnGone()
      requires up
      modifies this
      ensures State() == Die(old(State())) && carry == old(carry)
    {
      if !alive {
        return;
      }
      alive := false;
      var i := 0;
      while i < |outstanding|
        invariant 0 <= i <= |outstanding|
        invariant settled == old(settled) + Rejections(outstanding)[..i]
        invariant State() == old(State()).(alive := false, settled := settled) && carry == old(carry)
      {
        settled := settled + [Settlement(outstanding[i].call, ByDeath)];
        i := i + 1;
      }
      outstanding := [];
    }

    method MakeCall()
      requires up
      modifies this
      ensures State() == Call(old(State())) && carry == old(carry)
    {
      var n := |made|;
      if !alive || closed {
        made := made + [None];
        settled := settled + [Settlement(n, AtOnce)];
        return;
      }
      var id := nextId;
      nextId := nextId + 1;
      made := made + [Some(id)];
      outstanding := outstanding + [Pending(id, n)];
      SendLine(Request(id));
    }

    /** The handler of an ask has settled. */
    method OnHandled(ask: nat)
      requires up && ask in answering
      modifies this
      ensures State() == Handled(old(State()), ask) && carry == old(carry)
    {
      answering := answering - {ask};
      SendLine(Answer(ask));
    }

    method Serve(name: Str)
      requires up
      modifies this
      ensures State() == Apply(old(State()), Serves(name)) && carry == old(carry)
    {
      served := served + {name};
    }

    method Stop()
      requires up
      modifies this
      ensures State() == Apply(old(State()), Stops) && carry == old(carry)
    {
      closed := true;
    }
  }
}
