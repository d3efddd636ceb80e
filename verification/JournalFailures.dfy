/**
 Three runs of one daemon, from an empty directory, in which a fsync throws, the daemon lives on, and a power loss takes
 back what was returned: the cases that the exact conditions of JournalBegin, JournalPower and JournalAcknowledge shut
 out.
 */
module JournalFailures {
  import opened Wrappers
  import opened Journal
  import opened JournalPower
  import opened JournalAcknowledge

  // ---- where a run can lead ----

  /** Of all the versions since its last fsync the directory had `oldest` first, and has `now` now. */
  datatype Place = Place(oldest: Dir, now: Dir, pc: Option<Pc>)

  predicate At(m: Machine, place: Place) {
    m.history != [] && m.history[0] == place.oldest && Now(m) == place.now && m.pc == place.pc
  }

  ghost predicate Ends(machines: seq<Machine>, events: seq<Event>, m: Machine) {
    IsRun(machines, events) && machines[|events|] == m
  }

  /** Some run leads here. */
  ghost predicate Leads(place: Place) {
    exists machines, events, m :: Ends(machines, events, m) && At(m, place)
  }

  /** Some run leads to a machine whose directory has been `now` ever since its last fsync. */
  ghost predicate Rests(now: Dir, pc: Pc) {
    exists machines, events, m :: Ends(machines, events, m) && Resting(m, now, pc)
  }

  ghost predicate Resting(m: Machine, now: Dir, pc: Pc) {
    At(m, Place(now, now, Some(pc))) && forall v :: v in m.history ==> v == now
  }

  /** The outcome was returned at moment `i` of the run, durably, and nobody has begun again. */
  ghost predicate DurablyReturned(machines: seq<Machine>, events: seq<Event>, i: nat, o: Outcome) {
    && IsRun(machines, events) && i <= |events| && NoneBegins(events, i, |events|)
    && Answered(machines[i], Completed(o)) && FsyncedInView(machines, events, i, o)
  }

  /** Some run leads here through such a return. */
  ghost predicate LeadsAfter(o: Outcome, place: Place) {
    exists machines, events, i, m ::
      DurablyReturned(machines, events, i, o) && Ends(machines, events, m) && At(m, place)
  }

  // ---- one event on ----

  predicate Possible(place: Place, e: Event) {
    match e
    case Invoke(call) => place.pc.Some? && place.pc.value.Ended? && !call.Open? && !call.Begin?
    case Step(_, _) => place.pc.Some? && !place.pc.value.Ended?
    case Throw => place.pc.Some? && !place.pc.value.Ended?
    case _ => false
  }

  function After(place: Place, e: Event): Place {
    if !Possible(place, e) then place else
    match e
    case Invoke(call) => place.(pc := Some(Start(call)))
    case Step(t, ino) =>
      var next := Next(place.now, place.pc.value, t, ino);
      Place(if next.synced then next.dir else place.oldest, next.dir, Carry(place.pc.value, next.pc))
    case _ => place.(pc := Carry(place.pc.value, Unwind(place.pc.value)))
  }

  /** What can be reached can be reached one call, one operation or one throw on. */
  ghost predicate GoesOn(reach: Place -> bool) {
    forall place, e :: reach(place) && Possible(place, e) ==> reach(After(place, e))
  }

  lemma Goes(e: Event, machines: seq<Machine>, events: seq<Event>, m: Machine)
    requires Ends(machines, events, m) && Enabled(m, e)
    ensures Ends(machines + [Apply(m, e)], events + [e], Apply(m, e))
  {
  }

  lemma StaysAt(m: Machine, place: Place, e: Event)
    requires At(m, place) && Possible(place, e)
    ensures Enabled(m, e) && At(Apply(m, e), After(place, e))
  {
  }

  lemma LeadsOn()
    ensures GoesOn(place => Leads(place))
  {
    forall place, e | Leads(place) && Possible(place, e) ensures Leads(After(place, e)) {
      var machines, events, m :| Ends(machines, events, m) && At(m, place);
      StaysAt(m, place, e);
      Goes(e, machines, events, m);
    }
  }

  lemma GoesAfter(o: Outcome, e: Event, machines: seq<Machine>, events: seq<Event>, i: nat, m: Machine)
    requires DurablyReturned(machines, events, i, o) && Ends(machines, events, m) && Enabled(m, e) && !IsBegin(e)
    ensures DurablyReturned(machines + [Apply(m, e)], events + [e], i, o)
    ensures Ends(machines + [Apply(m, e)], events + [e], Apply(m, e))
  {
    Goes(e, machines, events, m);
    var longer, more := machines + [Apply(m, e)], events + [e];
    var s: nat :| s <= i && Hard(machines, events, s) && forall r :: s <= r <= i ==> Visible(machines[r], o);
    assert s > 0 ==> longer[s - 1] == machines[s - 1] && more[s - 1] == events[s - 1];
    assert Hard(longer, more, s);
    forall r | s <= r <= i ensures Visible(longer[r], o) {
      assert longer[r] == machines[r];
    }
  }

  lemma LeadsAfterOn(o: Outcome)
    ensures GoesOn(place => LeadsAfter(o, place))
  {
    forall place, e | LeadsAfter(o, place) && Possible(place, e) ensures LeadsAfter(o, After(place, e)) {
      var machines, events, i, m :|
        DurablyReturned(machines, events, i, o) && Ends(machines, events, m) && At(m, place);
      StaysAt(m, place, e);
      GoesAfter(o, e, machines, events, i, m);
    }
  }

  /** The operation `pc` stands at is performed. */
  lemma Steps(reach: Place -> bool, oldest: Dir, now: Dir, pc: Pc, t: nat, ino: nat)
    requires GoesOn(reach) && reach(Place(oldest, now, Some(pc))) && !pc.Ended?
    ensures var next := Next(now, pc, t, ino);
            reach(Place(if next.synced then next.dir else oldest, next.dir, Carry(pc, next.pc)))
  {
    assert Possible(Place(oldest, now, Some(pc)), Step(t, ino));
  }

  lemma Throws(reach: Place -> bool, oldest: Dir, now: Dir, pc: Pc)
    requires GoesOn(reach) && reach(Place(oldest, now, Some(pc))) && !pc.Ended?
    ensures reach(Place(oldest, now, Carry(pc, Unwind(pc))))
  {
    assert Possible(Place(oldest, now, Some(pc)), Throw);
  }

  lemma Calls(reach: Place -> bool, oldest: Dir, now: Dir, ending: Ending, call: Call)
    requires GoesOn(reach) && reach(Place(oldest, now, Some(Ended(ending)))) && !call.Open? && !call.Begin?
    ensures reach(Place(oldest, now, Some(Start(call))))
  {
    assert Possible(Place(oldest, now, Some(Ended(ending))), Invoke(call));
  }

  // ---- up to the fsync of a fresh claim ----

  /** The directory as begun, with the outcome written beside it, and with the claim linked. */
  function Begun(o: Outcome): Dir {
    map[Main := File(0, Provisioning(o.id))]
  }

  function Written(o: Outcome): Dir {
    Begun(o)[Temp(0) := File(1, Terminal(o))]
  }

  function Claimed(o: Outcome): Dir {
    Written(o)[Claim := File(1, Terminal(o))]
  }

  /** A spool opened over the empty directory. */
  lemma OpensEmpty()
    ensures Leads(Place(map[], map[], Some(Ended(Returned(Done)))))
  {
    var machine: Machine := Machine([map[]], None);
    assert Ends([machine], [], machine);
    Goes(Boot([]), [machine], [], machine);
    assert At(Apply(machine, Boot([])), Place(map[], map[], Some(OpenSync([]))));
    LeadsOn();
    var reach := (place: Place) => Leads(place);
    assert reach(Place(map[], map[], Some(OpenSync([]))));
    Steps(reach, map[], map[], OpenSync([]), 0, 0);
    Steps(reach, map[], map[], ScavengeLook([]), 0, 0);
  }

  lemma CallsBegin(oldest: Dir, now: Dir, ending: Ending, id: Identity)
    requires Leads(Place(oldest, now, Some(Ended(ending))))
    ensures Leads(Place(oldest, now, Some(BeginSeeClaim(id))))
  {
    var machines, events, m :| Ends(machines, events, m) && At(m, Place(oldest, now, Some(Ended(ending))));
    Goes(Invoke(Begin(id)), machines, events, m);
    assert At(Apply(m, Invoke(Begin(id))), Place(oldest, now, Some(BeginSeeClaim(id))));
  }

  lemma FirstBegins(id: Identity)
    ensures Leads(Place(map[], map[], Some(BeginSeeClaim(id))))
  {
    OpensEmpty();
    CallsBegin(map[], map[], Returned(Done), id);
  }

  /** The directory `d` with the record a `begin` writes, and with that linked as the main record. */
  function Drafted(d: Dir, id: Identity): Dir {
    d[Temp(0) := File(0, Provisioning(id))]
  }

  function Linked(d: Dir, id: Identity): Dir {
    Drafted(d, id)[Main := File(0, Provisioning(id))]
  }

  lemma BeginsToWrite(reach: Place -> bool, oldest: Dir, now: Dir, id: Identity)
    requires GoesOn(reach) && reach(Place(oldest, now, Some(BeginSeeClaim(id)))) && Temp(0) !in now && Claim !in now
    ensures reach(Place(oldest, Drafted(now, id), Some(BeginLink(id, 0))))
  {
    Steps(reach, oldest, now, BeginSeeClaim(id), 0, 0);
    Steps(reach, oldest, now, BeginWrite(id), 0, 0);
  }

  lemma BeginsToSync(reach: Place -> bool, d: Dir, id: Identity)
    requires GoesOn(reach) && reach(Place(d, d, Some(BeginSeeClaim(id))))
    requires Temp(0) !in d && Main !in d && Claim !in d
    ensures reach(Place(d, Linked(d, id), Some(BeginSync(id, 0))))
  {
    BeginsToWrite(reach, d, d, id);
    Steps(reach, d, Drafted(d, id), BeginLink(id, 0), 0, 0);
  }

  lemma BeginsToLink(reach: Place -> bool, d: Dir, id: Identity)
    requires GoesOn(reach) && reach(Place(d, d, Some(BeginSeeClaim(id))))
    requires Temp(0) !in d && Main !in d && Claim !in d
    ensures reach(Place(Linked(d, id), Linked(d, id), Some(BeginDropTemp(id, 0))))
  {
    BeginsToSync(reach, d, id);
    Steps(reach, d, Linked(d, id), BeginSync(id, 0), 0, 0);
  }

  lemma BeginsCleanly(reach: Place -> bool, d: Dir, id: Identity)
    requires GoesOn(reach) && reach(Place(d, d, Some(BeginDropTemp(id, 0)))) && Temp(0) in d
    ensures var now := Remove(d, Temp(0)); reach(Place(now, now, Some(Ended(Returned(Owner(id))))))
  {
    var now := Remove(d, Temp(0));
    Steps(reach, d, d, BeginDropTemp(id, 0), 0, 0);
    Steps(reach, d, now, BeginSyncDrop(id, 0), 0, 0);
    assert Remove(now, Temp(0)) == now;
    Steps(reach, now, now, Cleanup(0, Returned(Owner(id))), 0, 0);
  }

  lemma Begins(reach: Place -> bool, o: Outcome)
    requires GoesOn(reach) && reach(Place(map[], map[], Some(BeginSeeClaim(o.id))))
    ensures reach(Place(Begun(o), Begun(o), Some(Ended(Returned(Owner(o.id))))))
  {
    BeginsToLink(reach, map[], o.id);
    BeginsCleanly(reach, Linked(map[], o.id), o.id);
    assert Remove(Linked(map[], o.id), Temp(0)) == Begun(o);
  }

  lemma LinksClaim(reach: Place -> bool, o: Outcome)
    requires GoesOn(reach) && reach(Place(Begun(o), Begun(o), Some(Ended(Returned(Owner(o.id))))))
    ensures reach(Place(Begun(o), Claimed(o), Some(CompleteSyncClaim(o, 0))))
  {
    var d, reader := Begun(o), ForComplete(o);
    Calls(reach, d, d, Returned(Owner(o.id)), Complete(o));
    Steps(reach, d, d, SeeClaim(reader), 0, 0);
    Steps(reach, d, d, SeeMain(reader), 0, 0);
    Steps(reach, d, d, LoadMain(reader), 0, 0);
    Steps(reach, d, d, CompleteWrite(o), 0, 1);
    Steps(reach, d, Written(o), CompleteLink(o, 0), 0, 0);
  }

  lemma ReachesClaimFsync(o: Outcome)
    ensures Leads(Place(Begun(o), Claimed(o), Some(CompleteSyncClaim(o, 0))))
  {
    var reach := (place: Place) => Leads(place);
    LeadsOn();
    FirstBegins(o.id);
    Begins(reach, o);
    LinksClaim(reach, o);
  }

  // ---- the fsync of the main record throws ----

  lemma BeginThrows(reach: Place -> bool, d: Dir, id: Identity)
    requires GoesOn(reach) && reach(Place(d, d, Some(BeginSeeClaim(id))))
    requires Temp(0) !in d && Main !in d && Claim !in d
    ensures reach(Place(d, Remove(Linked(d, id), Temp(0)), Some(Ended(Threw))))
  {
    BeginsToSync(reach, d, id);
    Throws(reach, d, Linked(d, id), BeginSync(id, 0));
    Steps(reach, d, Linked(d, id), Cleanup(0, Threw), 0, 0);
  }

  /** A `begin` that finds its own provisioning observes it. */
  lemma BeginObserves(reach: Place -> bool, oldest: Dir, now: Dir, id: Identity)
    requires GoesOn(reach) && reach(Place(oldest, now, Some(BeginSeeClaim(id))))
    requires Temp(0) !in now && Stands(now, id)
    ensures reach(Place(oldest, now, Some(Ended(Returned(Observer(id))))))
  {
    var written := Drafted(now, id);
    BeginsToWrite(reach, oldest, now, id);
    Steps(reach, oldest, written, BeginLink(id, 0), 0, 0);
    BeginReads(reach, oldest, written, id);
    assert Remove(written, Temp(0)) == now;
  }

  lemma BeginReads(reach: Place -> bool, oldest: Dir, now: Dir, id: Identity)
    requires GoesOn(reach) && reach(Place(oldest, now, Some(SeeClaim(ForBegin(id, 0))))) && Stands(now, id)
    ensures reach(Place(oldest, Remove(now, Temp(0)), Some(Ended(Returned(Observer(id))))))
  {
    BeginLooks(reach, oldest, now, id);
    Steps(reach, oldest, now, LoadMain(ForBegin(id, 0)), 0, 0);
    Steps(reach, oldest, now, Cleanup(0, Returned(Observer(id))), 0, 0);
  }

  lemma BeginLooks(reach: Place -> bool, oldest: Dir, now: Dir, id: Identity)
    requires GoesOn(reach) && reach(Place(oldest, now, Some(SeeClaim(ForBegin(id, 0))))) && Stands(now, id)
    ensures reach(Place(oldest, now, Some(LoadMain(ForBegin(id, 0)))))
  {
    Steps(reach, oldest, now, SeeClaim(ForBegin(id, 0)), 0, 0);
    Steps(reach, oldest, now, SeeMain(ForBegin(id, 0)), 0, 0);
  }

  /**
   The fsync of the main record throws, `begin` is called again and observes what it finds without a fsync: provisioning
   is returned, and a power loss can leave nothing.
   */
  lemma FailedMainClaimFsyncForgetsObserved(id: Identity)
    returns (machines: seq<Machine>, events: seq<Event>, dir: Dir)
    ensures IsRun(machines, events) && Answered(machines[|events|], Observer(id))
    ensures Survives(machines[|events|].history, dir) && Reading(dir) == None
  {
    dir := map[];
    var now := Remove(Linked(dir, id), Temp(0));
    var place := Place(dir, now, Some(Ended(Returned(Observer(id)))));
    var reach := (place: Place) => Leads(place);
    LeadsOn();
    FirstBegins(id);
    BeginThrows(reach, dir, id);
    assert reach(Place(dir, now, Some(Ended(Threw))));
    CallsBegin(dir, now, Threw, id);
    BeginObserves(reach, dir, now, id);
    assert reach(place);
    var m: Machine;
    machines, events, m :| Ends(machines, events, m) && At(m, place);
    SurvivesItself(m.history, dir);
  }

  // ---- the fsync of the claim throws ----

  lemma CompletesUnsynced(reach: Place -> bool, o: Outcome, oldest: Dir, now: Dir)
    requires GoesOn(reach) && reach(Place(oldest, now, Some(CompleteSyncClaim(o, 0))))
    requires Lookup(now, Claim) == Some(Terminal(o))
    ensures reach(Place(oldest, Remove(now, Temp(0)), Some(Ended(Returned(Completed(o))))))
  {
    Throws(reach, oldest, now, CompleteSyncClaim(o, 0));
    Steps(reach, oldest, now, Cleanup(0, Threw), 0, 0);
    CompletesEarly(reach, o, oldest, Remove(now, Temp(0)), Threw);
  }

  /** A `complete` that finds the claim returns it at once. */
  lemma CompletesEarly(reach: Place -> bool, o: Outcome, oldest: Dir, now: Dir, ending: Ending)
    requires GoesOn(reach) && reach(Place(oldest, now, Some(Ended(ending))))
    requires Lookup(now, Claim) == Some(Terminal(o))
    ensures reach(Place(oldest, now, Some(Ended(Returned(Completed(o))))))
  {
    Calls(reach, oldest, now, ending, Complete(o));
    Steps(reach, oldest, now, SeeClaim(ForComplete(o)), 0, 0);
    Steps(reach, oldest, now, LoadClaim(ForComplete(o)), 0, 0);
  }

  /**
   The fsync of the claim throws, `complete` is called again and returns the claim it finds without a fsync: the outcome
   is returned, and a power loss can leave provisioning.
   */
  lemma FailedClaimFsyncLosesOutcome(o: Outcome)
    returns (machines: seq<Machine>, events: seq<Event>, dir: Dir)
    ensures IsRun(machines, events) && Answered(machines[|events|], Completed(o))
    ensures Survives(machines[|events|].history, dir) && Reading(dir) == Some(Provisioning(o.id))
  {
    var place := Place(Begun(o), Remove(Claimed(o), Temp(0)), Some(Ended(Returned(Completed(o)))));
    var reach := (place: Place) => Leads(place);
    LeadsOn();
    ReachesClaimFsync(o);
    CompletesUnsynced(reach, o, Begun(o), Claimed(o));
    assert reach(place);
    var m: Machine;
    machines, events, m :| Ends(machines, events, m) && At(m, place);
    dir := Begun(o);
    SurvivesItself(m.history, dir);
  }

  // ---- the fsync of the main record's removal throws ----

  lemma RestsOn(now: Dir, pc: Pc, t: nat, ino: nat)
    requires Rests(now, pc) && !pc.Ended?
    requires Next(now, pc, t, ino).dir == now && Carry(pc, Next(now, pc, t, ino).pc).Some?
    ensures Rests(now, Next(now, pc, t, ino).pc)
  {
    var machines, events, m :| Ends(machines, events, m) && Resting(m, now, pc);
    StaysAt(m, Place(now, now, Some(pc)), Step(t, ino));
    Goes(Step(t, ino), machines, events, m);
    assert Resting(Apply(m, Step(t, ino)), now, Next(now, pc, t, ino).pc);
  }

  lemma RestsCalled(now: Dir, ending: Ending, call: Call)
    requires Rests(now, Ended(ending)) && !call.Open?
    ensures Rests(now, Start(call))
  {
    var machines, events, m :| Ends(machines, events, m) && Resting(m, now, Ended(ending));
    Goes(Invoke(call), machines, events, m);
    assert Resting(Apply(m, Invoke(call)), now, Start(call));
  }

  /** The daemon dies just after a fsync, and is opened again. */
  lemma Reopens(now: Dir, pc: Pc)
    requires Leads(Place(now, now, Some(pc)))
    ensures Rests(now, ScavengeLook([]))
  {
    var machines, events, m :| Ends(machines, events, m) && At(m, Place(now, now, Some(pc)));
    Goes(Die, machines, events, m);
    var dead := Apply(m, Die);
    Goes(Boot([]), machines + [dead], events + [Die], dead);
    var booted := Apply(dead, Boot([]));
    Goes(Step(0, 0), machines + [dead] + [booted], events + [Die] + [Boot([])], booted);
    assert Resting(Apply(booted, Step(0, 0)), now, ScavengeLook([]));
  }

  /** A return is durable where every version since the last fsync reads the outcome. */
  lemma ReturnsDurably(now: Dir, o: Outcome)
    requires Rests(now, Ended(Returned(Completed(o)))) && Reading(now) == Some(Terminal(o))
    ensures LeadsAfter(o, Place(now, now, Some(Ended(Returned(Completed(o))))))
  {
    var machines, events, m :|
      Ends(machines, events, m) && Resting(m, now, Ended(Returned(Completed(o))));
    var s := LastHard(machines, events, |events|);
    forall r | s <= r <= |events| ensures Visible(machines[r], o) {
      SeenSince(machines, events, r, |events|);
    }
    assert DurablyReturned(machines, events, |events|, o);
  }

  /** The daemon dies after the claim's fsync and before the promotion, and is opened again. */
  lemma DiesBeforePromotion(o: Outcome)
    ensures Rests(Claimed(o), Ended(Returned(Done)))
  {
    var reach := (place: Place) => Leads(place);
    LeadsOn();
    ReachesClaimFsync(o);
    Steps(reach, Begun(o), Claimed(o), CompleteSyncClaim(o, 0), 0, 0);
    assert reach(Place(Claimed(o), Claimed(o), Some(CompletePromote(o, 0))));
    Reopens(Claimed(o), CompletePromote(o, 0));
    RestsOn(Claimed(o), ScavengeLook([]), 0, 0);
  }

  /** Completing again returns the claim that stands, durably: the directory was fsynced when the spool was opened. */
  lemma CompletesAgain(o: Outcome)
    ensures LeadsAfter(o, Place(Claimed(o), Claimed(o), Some(Ended(Returned(Completed(o))))))
  {
    var c, reader := Claimed(o), ForComplete(o);
    DiesBeforePromotion(o);
    RestsCalled(c, Returned(Done), Complete(o));
    RestsOn(c, SeeClaim(reader), 0, 0);
    RestsOn(c, LoadClaim(reader), 0, 0);
    ReturnsDurably(c, o);
  }

  lemma AcknowledgeLooks(reach: Place -> bool, o: Outcome, oldest: Dir, now: Dir, ending: Ending)
    requires GoesOn(reach) && reach(Place(oldest, now, Some(Ended(ending)))) && Claim in now
    ensures reach(Place(oldest, now, Some(SeeClaim(ForAcknowledge(o, Main in now, true)))))
  {
    Calls(reach, oldest, now, ending, Acknowledge(o));
    Steps(reach, oldest, now, AckSeeMain(o), 0, 0);
    Steps(reach, oldest, now, AckSeeClaim(o, Main in now), 0, 0);
  }

  /** An acknowledge that finds the claim looks at both names and reads the outcome. */
  lemma AcknowledgeReads(reach: Place -> bool, o: Outcome, oldest: Dir, now: Dir, ending: Ending)
    requires GoesOn(reach) && reach(Place(oldest, now, Some(Ended(ending))))
    requires Lookup(now, Claim) == Some(Terminal(o))
    ensures reach(Place(oldest, now, Some(if Main in now then AckDropMain(o, true) else AckDropClaim(o))))
  {
    var reader := ForAcknowledge(o, Main in now, true);
    AcknowledgeLooks(reach, o, oldest, now, ending);
    Steps(reach, oldest, now, SeeClaim(reader), 0, 0);
    Steps(reach, oldest, now, LoadClaim(reader), 0, 0);
  }

  /**
   It removes the main record, and the fsync of that throws. Called again, it sees no main record, goes on to the claim
   and removes that.
   */
  lemma AcknowledgeSkips(reach: Place -> bool, o: Outcome)
    requires GoesOn(reach)
    requires reach(Place(Claimed(o), Claimed(o), Some(Ended(Returned(Completed(o))))))
    ensures reach(Place(Claimed(o), Remove(Remove(Claimed(o), Main), Claim), Some(AckSyncClaim(o))))
  {
    var c, m := Claimed(o), Remove(Claimed(o), Main);
    AcknowledgeReads(reach, o, c, c, Returned(Completed(o)));
    Steps(reach, c, c, AckDropMain(o, true), 0, 0);
    Throws(reach, c, m, AckSyncMain(o, true));
    AcknowledgeReads(reach, o, c, m, Threw);
    Steps(reach, c, m, AckDropClaim(o), 0, 0);
  }

  /**
   The fsync of the main record's removal throws, the acknowledge is called again, sees no main record, skips that fsync
   and removes the claim: the outcome had been returned durably, nobody has begun again, and a power loss can leave
   provisioning.
   */
  lemma FailedMainFsyncBringsProvisioningBack(o: Outcome)
    returns (machines: seq<Machine>, events: seq<Event>, i: nat, dir: Dir)
    ensures DurablyReturned(machines, events, i, o)
    ensures Survives(machines[|events|].history, dir) && Reading(dir) == Some(Provisioning(o.id))
  {
    var dropped := Remove(Remove(Claimed(o), Main), Claim);
    var place := Place(Claimed(o), dropped, Some(AckSyncClaim(o)));
    var reach := (place: Place) => LeadsAfter(o, place);
    LeadsAfterOn(o);
    CompletesAgain(o);
    AcknowledgeSkips(reach, o);
    assert reach(place);
    var m: Machine;
    machines, events, i, m :|
      DurablyReturned(machines, events, i, o) && Ends(machines, events, m) && At(m, place);
    dir := WithMainOf(dropped, Claimed(o));
    MainComesBack(m.history, dropped, Claimed(o));
  }
}
