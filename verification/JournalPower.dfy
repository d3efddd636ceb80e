/**
 One daemon on the journal, and a machine that may lose power. A directory change is on disk for certain only once
 the directory has been fsynced; until then a power loss keeps, name by name, any version since the last fsync. The
 daemon may die between any two file operations and is opened again, which fsyncs what it finds; and any operation may
 throw, a fsync included, with the daemon living on.
 */
module JournalPower {
  import opened Wrappers
  import opened Journal

  /** The directory's versions since its last fsync, the newest last; `pc` is None while no daemon is running. */
  datatype Machine = Machine(history: seq<Dir>, pc: Option<Pc>)

  datatype Event =
    | Boot(temps: seq<nat>)
    | Invoke(call: Call)
    | Step(t: nat, ino: nat)
    | Throw
    | Die
    | PowerLoss(dir: Dir)

  function Now(m: Machine): Dir
    requires m.history != []
  {
    m.history[|m.history| - 1]
  }

  /** Every name of `dir` is as some version since the last fsync had it, each name on its own. */
  ghost predicate Survives(history: seq<Dir>, dir: Dir) {
    forall n: Name :: KeptBySome(history, dir, n)
  }

  ghost predicate KeptBySome(history: seq<Dir>, dir: Dir, n: Name) {
    exists v :: v in history && Kept(v, dir, n)
  }

  predicate Kept(version: Dir, dir: Dir, n: Name) {
    (n in dir <==> n in version) && (n in dir ==> dir[n] == version[n])
  }

  predicate Opening(pc: Pc) {
    pc.OpenSync? || pc.ScavengeLook? || pc.ScavengeDrop? || pc.ScavengeSync?
  }

  ghost predicate Enabled(m: Machine, e: Event) {
    && m.history != []
    && match e
       case Boot(_) => m.pc == None
       case Invoke(call) => m.pc.Some? && m.pc.value.Ended? && !call.Open?
       case Step(_, _) => m.pc.Some? && !m.pc.value.Ended?
       case Throw => m.pc.Some? && !m.pc.value.Ended?
       case Die => m.pc.Some?
       case PowerLoss(dir) => Survives(m.history, dir)
  }

  /** A spool that could not be opened is no spool. */
  function Carry(from: Pc, to: Pc): Option<Pc> {
    if Opening(from) && to == Ended(Threw) then None else Some(to)
  }

  function Apply(m: Machine, e: Event): Machine
    requires m.history != []
    requires (e.Step? || e.Throw?) ==> m.pc.Some?
  {
    match e
    case Boot(temps) => m.(pc := Some(Start(Open(temps))))
    case Invoke(call) => m.(pc := Some(Start(call)))
    case Step(t, ino) =>
      var next := Next(Now(m), m.pc.value, t, ino);
      Machine(if next.synced then [next.dir] else m.history + [next.dir], Carry(m.pc.value, next.pc))
    case Throw => m.(pc := Carry(m.pc.value, Unwind(m.pc.value)))
    case Die => m.(pc := None)
    case PowerLoss(dir) => Machine([dir], None)
  }

  ghost predicate IsRun(machines: seq<Machine>, events: seq<Event>) {
    && |machines| == |events| + 1
    && machines[0] == Machine([map[]], None)
    && forall i :: 0 <= i < |events| ==>
         Enabled(machines[i], events[i]) && machines[i + 1] == Apply(machines[i], events[i])
  }

  // ---- the invariant ----

  predicate ReaderKnows(dir: Dir, reader: Reader) {
    match reader
    case ForAcknowledge(o, mainSeen, claimSeen) => mainSeen == (Main in dir) && claimSeen == (Claim in dir)
    case _ => true
  }

  predicate ClaimsIfSeen(dir: Dir, o: Outcome, claimSeen: bool) {
    claimSeen == (Claim in dir) && (claimSeen ==> Lookup(dir, Claim) == Some(Terminal(o)))
  }

  /** The request is provisioning: so says the main record, and there is no claim. */
  predicate Stands(dir: Dir, id: Identity) {
    Claim !in dir && Lookup(dir, Main) == Some(Provisioning(id))
  }

  /** What each program counter knows of the directory as it stands. */
  predicate Knows(dir: Dir, pc: Pc) {
    match pc
    case SeeClaim(reader) => ReaderKnows(dir, reader)
    case SeeMain(reader) => ReaderKnows(dir, reader) && Claim !in dir
    case LoadClaim(reader) => ReaderKnows(dir, reader) && Claim in dir
    case LoadMain(reader) => ReaderKnows(dir, reader) && Claim !in dir && Main in dir
    case BeginWrite(_) => Claim !in dir
    case BeginLink(id, t) => Claim !in dir && Lookup(dir, Temp(t)) == Some(Provisioning(id))
    case BeginSync(id, _) => Stands(dir, id)
    case BeginDropTemp(id, _) => Stands(dir, id)
    case BeginSyncDrop(id, _) => Stands(dir, id)
    case CompleteWrite(o) => Claim !in dir && Lookup(dir, Main) == Some(Provisioning(o.id))
    case CompleteLink(o, t) =>
      Claim !in dir && Lookup(dir, Main) == Some(Provisioning(o.id)) && Lookup(dir, Temp(t)) == Some(Terminal(o))
    case CompleteSyncClaim(o, t) => Lookup(dir, Claim) == Some(Terminal(o)) && Lookup(dir, Temp(t)) == Some(Terminal(o))
    case CompleteCompare(o, t) => false
    case CompletePromote(o, t) => Lookup(dir, Claim) == Some(Terminal(o)) && Lookup(dir, Temp(t)) == Some(Terminal(o))
    case CompleteSyncPromotion(o, t) => Lookup(dir, Claim) == Some(Terminal(o))
    case AckSeeClaim(_, mainSeen) => mainSeen == (Main in dir)
    case AckDropMain(o, claimSeen) => ClaimsIfSeen(dir, o, claimSeen)
    case AckSyncMain(o, claimSeen) => ClaimsIfSeen(dir, o, claimSeen) && Main !in dir
    case AckDropClaim(o) => Lookup(dir, Claim) == Some(Terminal(o)) && Main !in dir
    case AckSyncClaim(_) => Main !in dir && Claim !in dir
    case Cleanup(_, ending) => Truthful(dir, ending)
    case Ended(ending) => Truthful(dir, ending)
    case _ => true
  }

  predicate Truthful(dir: Dir, ending: Ending) {
    match ending
    case Returned(Completed(o)) => Reading(dir) == Some(Terminal(o))
    case Returned(Found(record)) => record == Reading(dir)
    case Returned(Owner(id)) => Stands(dir, id)
    case Returned(Observer(id)) => Stands(dir, id)
    case _ => true
  }

  ghost predicate Inv(m: Machine) {
    m.history != [] && (m.pc.Some? ==> Knows(Now(m), m.pc.value))
  }

  lemma StepKnows(dir: Dir, pc: Pc, t: nat, ino: nat)
    requires Knows(dir, pc) && !pc.Ended?
    ensures Knows(Next(dir, pc, t, ino).dir, Next(dir, pc, t, ino).pc)
  {
    if pc.SeeClaim? || pc.SeeMain? || pc.LoadClaim? || pc.LoadMain? {
      ReadKnows(dir, pc, t, ino);
    }
  }

  lemma ReadKnows(dir: Dir, pc: Pc, t: nat, ino: nat)
    requires Knows(dir, pc)
    requires pc.SeeClaim? || pc.SeeMain? || pc.LoadClaim? || pc.LoadMain?
    ensures Knows(Next(dir, pc, t, ino).dir, Next(dir, pc, t, ino).pc)
  {
  }

  lemma ApplyKeepsInv(m: Machine, e: Event)
    requires Inv(m) && Enabled(m, e)
    ensures Inv(Apply(m, e))
  {
    if e.Step? {
      StepKnows(Now(m), m.pc.value, e.t, e.ino);
    }
  }

  lemma {:induction false} RunKeepsInv(machines: seq<Machine>, events: seq<Event>, i: nat)
    requires IsRun(machines, events) && i <= |events|
    ensures Inv(machines[i])
  {
    if i > 0 {
      RunKeepsInv(machines, events, i - 1);
      ApplyKeepsInv(machines[i - 1], events[i - 1]);
    }
  }

  // ---- what is on disk for certain ----

  /** A fsync that succeeds, or a power loss after which the disk is read again, leaves one version. */
  predicate Hardens(m: Machine, e: Event)
    requires m.history != [] && (e.Step? ==> m.pc.Some?)
  {
    e.PowerLoss? || (e.Step? && Next(Now(m), m.pc.value, e.t, e.ino).synced)
  }

  /** At moment `s` the directory as it stands is on disk for certain. */
  ghost predicate Hard(machines: seq<Machine>, events: seq<Event>, s: nat)
    requires IsRun(machines, events) && s <= |events|
  {
    s == 0 || Hardens(machines[s - 1], events[s - 1])
  }

  lemma {:induction false} SeenSince(machines: seq<Machine>, events: seq<Event>, r: nat, i: nat)
    requires IsRun(machines, events) && r <= i <= |events|
    requires forall k :: r < k <= i ==> !Hard(machines, events, k)
    ensures machines[r].history != [] && Now(machines[r]) in machines[i].history
  {
    RunKeepsInv(machines, events, r);
    if r < i {
      SeenSince(machines, events, r, i - 1);
      assert !Hard(machines, events, i);
    }
  }

  lemma {:induction false} OnlySeenSince(machines: seq<Machine>, events: seq<Event>, s: nat, i: nat, v: Dir)
    requires IsRun(machines, events) && s <= i <= |events| && Hard(machines, events, s)
    requires v in machines[i].history
    ensures exists r :: s <= r <= i && Shows(machines[r], v)
  {
    RunKeepsInv(machines, events, i);
    if v == Now(machines[i]) {
      assert Shows(machines[i], v);
    } else if s < i {
      OnlySeenSince(machines, events, s, i - 1, v);
    }
  }

  predicate Shows(m: Machine, v: Dir) {
    m.history != [] && Now(m) == v
  }

  /** The last moment up to `i` at which the directory was on disk for certain. */
  lemma {:induction false} LastHard(machines: seq<Machine>, events: seq<Event>, i: nat) returns (s: nat)
    requires IsRun(machines, events) && i <= |events|
    ensures s <= i && Hard(machines, events, s) && forall k :: s < k <= i ==> !Hard(machines, events, k)
  {
    s := i;
    if !Hard(machines, events, i) {
      s := LastHard(machines, events, i - 1);
    }
  }

  lemma SurvivesItself(history: seq<Dir>, v: Dir)
    requires v in history
    ensures Survives(history, v)
  {
    forall n: Name ensures KeptBySome(history, v, n) {
      assert Kept(v, v, n);
    }
  }

  // ---- a returned outcome ----

  predicate Visible(m: Machine, o: Outcome) {
    m.history != [] && Reading(Now(m)) == Some(Terminal(o))
  }

  /** A fsync has succeeded, or the disk was read again, since the outcome came into view; it has been in view since. */
  ghost predicate FsyncedInView(machines: seq<Machine>, events: seq<Event>, i: nat, o: Outcome)
    requires IsRun(machines, events) && i <= |events|
  {
    exists s: nat :: s <= i && Hard(machines, events, s) && forall r :: s <= r <= i ==> Visible(machines[r], o)
  }

  ghost predicate ClaimIs(history: seq<Dir>, record: Option<Record>) {
    forall v :: v in history ==> Lookup(v, Claim) == record
  }

  ghost predicate MainIs(history: seq<Dir>, record: Option<Record>) {
    forall v :: v in history ==> Lookup(v, Main) == record
  }

  /** However the versions are mixed, the outcome is read, and under one and the same name. */
  ghost predicate Steady(history: seq<Dir>, o: Outcome) {
    || ClaimIs(history, Some(Terminal(o)))
    || (ClaimIs(history, None) && MainIs(history, Some(Terminal(o))))
  }

  lemma SteadySurvives(history: seq<Dir>, dir: Dir, o: Outcome)
    requires Steady(history, o) && Survives(history, dir)
    ensures Reading(dir) == Some(Terminal(o))
  {
    assert KeptBySome(history, dir, Claim) && KeptBySome(history, dir, Main);
  }

  /** An operation that leaves the outcome in view leaves it under the name it was under. */
  lemma StepStaysSteady(dir: Dir, pc: Pc, t: nat, ino: nat, o: Outcome)
    requires Knows(dir, pc) && Reading(dir) == Some(Terminal(o))
    ensures var next := Next(dir, pc, t, ino);
            && (next.synced ==> next.dir == dir)
            && (Reading(next.dir) == Some(Terminal(o)) ==>
                  && Lookup(next.dir, Claim) == Lookup(dir, Claim)
                  && (Claim !in dir ==> Lookup(next.dir, Main) == Lookup(dir, Main)))
  {
  }

  lemma ApplyStaysSteady(m: Machine, e: Event, o: Outcome)
    requires Inv(m) && Enabled(m, e) && Steady(m.history, o) && Visible(Apply(m, e), o)
    ensures Steady(Apply(m, e).history, o)
  {
    assert Now(m) in m.history;
    if e.Step? {
      StepStaysSteady(Now(m), m.pc.value, e.t, e.ino, o);
    }
  }

  lemma {:induction false} InViewIsSteady(machines: seq<Machine>, events: seq<Event>, s: nat, i: nat, o: Outcome)
    requires IsRun(machines, events) && s <= i <= |events| && Hard(machines, events, s)
    requires forall r :: s <= r <= i ==> Visible(machines[r], o)
    ensures Steady(machines[i].history, o)
  {
    assert Visible(machines[i], o);
    if s < i {
      InViewIsSteady(machines, events, s, i - 1, o);
      RunKeepsInv(machines, events, i - 1);
      ApplyStaysSteady(machines[i - 1], events[i - 1], o);
    } else {
      HardIsOneVersion(machines, events, s);
    }
  }

  lemma HardIsOneVersion(machines: seq<Machine>, events: seq<Event>, s: nat)
    requires IsRun(machines, events) && s <= |events| && Hard(machines, events, s)
    ensures machines[s].history != [] && machines[s].history == [Now(machines[s])]
  {
    if s > 0 {
      assert Enabled(machines[s - 1], events[s - 1]);
    }
  }

  predicate Acknowledging(pc: Pc) {
    match pc
    case SeeClaim(reader) => reader.ForAcknowledge?
    case SeeMain(reader) => reader.ForAcknowledge?
    case LoadClaim(reader) => reader.ForAcknowledge?
    case LoadMain(reader) => reader.ForAcknowledge?
    case AckSeeMain(_) => true
    case AckSeeClaim(_, _) => true
    case AckDropMain(_, _) => true
    case AckSyncMain(_, _) => true
    case AckDropClaim(_) => true
    case AckSyncClaim(_) => true
    case _ => false
  }

  predicate IsAcknowledge(e: Event) { e.Invoke? && e.call.Acknowledge? }

  predicate IsBegin(e: Event) { e.Invoke? && e.call.Begin? }

  /** The outcome is read whatever survives, and nobody is taking it away. */
  ghost predicate Held(m: Machine, o: Outcome) {
    Steady(m.history, o) && (m.pc.Some? ==> !Acknowledging(m.pc.value))
  }

  lemma StepKeepsInView(dir: Dir, pc: Pc, t: nat, ino: nat, o: Outcome)
    requires Knows(dir, pc) && !Acknowledging(pc) && Reading(dir) == Some(Terminal(o))
    ensures var next := Next(dir, pc, t, ino);
            Reading(next.dir) == Some(Terminal(o)) && !Acknowledging(next.pc)
  {
  }

  lemma ApplyKeepsHeld(m: Machine, e: Event, o: Outcome)
    requires Inv(m) && Enabled(m, e) && Held(m, o) && !IsAcknowledge(e)
    ensures Held(Apply(m, e), o)
  {
    assert Now(m) in m.history;
    match e
    case Step(t, ino) =>
      StepKeepsInView(Now(m), m.pc.value, t, ino, o);
      ApplyStaysSteady(m, e, o);
    case PowerLoss(dir) =>
      SteadySurvives(m.history, dir, o);
      ApplyStaysSteadyOnLoss(m.history, dir, o);
    case _ =>
  }

  lemma ApplyStaysSteadyOnLoss(history: seq<Dir>, dir: Dir, o: Outcome)
    requires Steady(history, o) && Survives(history, dir)
    ensures Steady([dir], o)
  {
    assert KeptBySome(history, dir, Claim) && KeptBySome(history, dir, Main);
  }

  lemma {:induction false} RunKeepsHeld(machines: seq<Machine>, events: seq<Event>, i: nat, j: nat, o: Outcome)
    requires IsRun(machines, events) && i <= j <= |events|
    requires Held(machines[i], o) && Unacknowledged(events, i, j)
    ensures Held(machines[j], o)
  {
    if i < j {
      RunKeepsHeld(machines, events, i, j - 1, o);
      RunKeepsInv(machines, events, j - 1);
      ApplyKeepsHeld(machines[j - 1], events[j - 1], o);
    }
  }

  predicate Unacknowledged(events: seq<Event>, i: nat, j: nat)
    requires i <= j <= |events|
  {
    forall k :: i <= k < j ==> !IsAcknowledge(events[k])
  }

  ghost predicate Answered(m: Machine, answer: Answer) {
    m.pc == Some(Ended(Returned(answer)))
  }

  /** Whatever survives a power loss, from moment `i` on until somebody calls `acknowledge`, reads the outcome. */
  ghost predicate Outlasts(machines: seq<Machine>, events: seq<Event>, i: nat, o: Outcome)
    requires IsRun(machines, events) && i <= |events|
  {
    forall j: nat, dir :: i <= j <= |events| && Unacknowledged(events, i, j) && Survives(machines[j].history, dir) ==>
      Reading(dir) == Some(Terminal(o))
  }

  /**
   When the outcome a `complete` returned is durable: exactly when a fsync has succeeded, or the disk was read again,
   between the moment that outcome came into view and the return. Nothing is asked of what throws, when or how often.
   */
  lemma {:induction false} ReturnedOutcomeOutlastsIff(machines: seq<Machine>, events: seq<Event>, i: nat, o: Outcome)
    requires IsRun(machines, events) && i <= |events| && Answered(machines[i], Completed(o))
    ensures Outlasts(machines, events, i, o) <==> FsyncedInView(machines, events, i, o)
  {
    if FsyncedInView(machines, events, i, o) {
      var s: nat :| s <= i && Hard(machines, events, s) && forall r :: s <= r <= i ==> Visible(machines[r], o);
      InViewIsSteady(machines, events, s, i, o);
      forall j: nat, dir | i <= j <= |events| && Unacknowledged(events, i, j) && Survives(machines[j].history, dir)
        ensures Reading(dir) == Some(Terminal(o))
      {
        RunKeepsHeld(machines, events, i, j, o);
        SteadySurvives(machines[j].history, dir, o);
      }
    }
    if Outlasts(machines, events, i, o) {
      var s := LastHard(machines, events, i);
      assert Unacknowledged(events, i, i);
      forall r | s <= r <= i ensures Visible(machines[r], o) {
        SeenSince(machines, events, r, i);
        SurvivesItself(machines[i].history, Now(machines[r]));
      }
    }
  }

  // ---- the one throw that matters to `complete` ----

  /** The fsync of a freshly linked claim throws, and the daemon lives on. */
  predicate ClaimFsyncThrows(m: Machine, e: Event) {
    e.Throw? && m.pc.Some? && m.pc.value.CompleteSyncClaim?
  }

  /** Outside the fsync that is to harden it, an outcome in view is steady. */
  ghost predicate InViewSteady(m: Machine) {
    m.pc.Some? && !m.pc.value.OpenSync? && !m.pc.value.CompleteSyncClaim? ==>
      forall o :: Visible(m, o) ==> Steady(m.history, o)
  }

  lemma ComesIntoView(dir: Dir, pc: Pc, t: nat, ino: nat, o: Outcome)
    requires Knows(dir, pc) && Reading(dir) != Some(Terminal(o))
    ensures var next := Next(dir, pc, t, ino);
            Reading(next.dir) == Some(Terminal(o)) ==> next.pc.CompleteSyncClaim?
  {
  }

  lemma ApplyKeepsInViewSteady(m: Machine, e: Event)
    requires Inv(m) && Enabled(m, e) && InViewSteady(m) && !ClaimFsyncThrows(m, e)
    ensures InViewSteady(Apply(m, e))
  {
    var m' := Apply(m, e);
    if e.Step? && m'.pc.Some? && !m'.pc.value.OpenSync? && !m'.pc.value.CompleteSyncClaim? {
      forall o | Visible(m', o) ensures Steady(m'.history, o) {
        if |m'.history| > 1 {
          if Visible(m, o) {
            ApplyStaysSteady(m, e, o);
          } else {
            ComesIntoView(Now(m), m.pc.value, e.t, e.ino, o);
          }
        }
      }
    }
  }

  lemma {:induction false} RunKeepsInViewSteady(machines: seq<Machine>, events: seq<Event>, i: nat)
    requires IsRun(machines, events) && i <= |events|
    requires forall k :: 0 <= k < i ==> !ClaimFsyncThrows(machines[k], events[k])
    ensures InViewSteady(machines[i])
  {
    if i > 0 {
      RunKeepsInViewSteady(machines, events, i - 1);
      RunKeepsInv(machines, events, i - 1);
      ApplyKeepsInViewSteady(machines[i - 1], events[i - 1]);
    }
  }

  /**
   So as long as the fsync of a fresh claim has not thrown, whatever else did: once `complete` has returned `o`, every
   directory a power loss could bring back reads `o` until somebody calls `acknowledge`, and so does every read.
   */
  lemma {:induction false} CompletedOutcomeSurvives(machines: seq<Machine>, events: seq<Event>, i: nat, j: nat,
                                                    o: Outcome, dir: Dir)
    requires IsRun(machines, events) && i <= j <= |events|
    requires Answered(machines[i], Completed(o)) && Unacknowledged(events, i, j)
    requires forall k :: 0 <= k < i ==> !ClaimFsyncThrows(machines[k], events[k])
    requires Survives(machines[j].history, dir)
    ensures Reading(dir) == Some(Terminal(o))
    ensures forall record :: Answered(machines[j], Found(record)) ==> record == Some(Terminal(o))
  {
    RunKeepsInv(machines, events, i);
    RunKeepsInv(machines, events, j);
    RunKeepsInViewSteady(machines, events, i);
    assert Visible(machines[i], o);
    RunKeepsHeld(machines, events, i, j, o);
    SteadySurvives(machines[j].history, dir, o);
    SurvivesItself(machines[j].history, Now(machines[j]));
    SteadySurvives(machines[j].history, Now(machines[j]), o);
  }
}
