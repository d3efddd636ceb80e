/**
 One data directory, any number of daemons: the claim published by hard link, the probe of an abandoned claim, and
 the reclaim lock. Every file operation is a step of its own, and so are the read and the remove of the control file;
 processes may die at every step. `lykeion stop` clears an abandoned claim without the lock and is modelled beside
 the daemons, because it is the one thing that can break the exclusion.
 */
module DirectoryClaim {
  import opened Wrappers

  /** What the control file says: a claim, by the daemon whose token only it knows, or bytes that are no claim. */
  datatype Control = ClaimBy(owner: nat) | Garbage(n: nat)

  /** What the reclaim lock says. A process takes the lock under a nonce of its own. */
  datatype Lock = HeldBy(holder: nat) | Unparsable

  datatype ClaimState = Answering | Silent | Gone

  /** The next file operation of a process, with what it has read so far. */
  datatype Pc =
    | FastPublish
    | Inspect
    | FirstProbe(read: Control)
    | TakeLock
    | ReadLock
    | JudgeLock(seen: Lock)
    | ReadAgain
    | ProbeAgain(read: Control)
    | Compare(read: Control)
    | RemoveStale(read: Control)
    | Publish
    | CompareLock(won: bool)
    | ReleaseLock(won: bool)
    | Serving
    | CompareOwn
    | RemoveOwn
    | StopRead
    | StopProbe(read: Control)
    | StopCompare(read: Control)
    | StopRemove(read: Control)
    | Out
    | Dead

  datatype World = World(file: Option<Control>, lock: Option<Lock>, procs: map<nat, Pc>)

  datatype Event =
    | Spawn(p: nat)
    | SpawnStop(p: nat)
    | Step(p: nat)
    | Probed(p: nat, answer: ClaimState)
    | BreakLock(p: nat)
    | GiveUp(p: nat)
    | Leave(p: nat)
    | Die(p: nat)

  predicate Live(w: World, p: nat) {
    p in w.procs && w.procs[p] != Out && w.procs[p] != Dead
  }

  /** Between a won publish and the end of the exit handler, a daemon takes the directory for its own. */
  predicate Holds(pc: Pc) {
    match pc
    case CompareLock(won) => won
    case ReleaseLock(won) => won
    case Serving => true
    case CompareOwn => true
    case RemoveOwn => true
    case _ => false
  }

  predicate InSection(pc: Pc) {
    pc.ReadAgain? || pc.ProbeAgain? || pc.Compare? || pc.RemoveStale? || pc.Publish? || pc.CompareLock?
    || pc.ReleaseLock?
  }

  predicate Probing(pc: Pc) {
    pc.FirstProbe? || pc.ProbeAgain? || pc.StopProbe?
  }

  function Probes(pc: Pc): Control
    requires Probing(pc)
  {
    match pc
    case FirstProbe(read) => read
    case ProbeAgain(read) => read
    case StopProbe(read) => read
  }

  /** Whoever wrote this takes no more steps on the directory; nobody wrote bytes that are no claim. */
  predicate OwnerGone(w: World, read: Control) {
    read.ClaimBy? ==> read.owner in w.procs && !Live(w, read.owner)
  }

  /**
   The three assumptions are here. "Gone" is answered only for an owner that takes no more steps; a reclaim lock is
   broken in one compare-and-remove; and it is broken only when no live process is inside it, which is what
   "no live hold outlasts the stale age" buys. A process id is never one already on record.
   */
  predicate Enabled(w: World, e: Event) {
    match e
    case Spawn(p) => p !in w.procs
    case SpawnStop(p) => p !in w.procs
    case Step(p) => Live(w, p) && w.procs[p] != Serving && (Probing(w.procs[p]) ==> Probes(w.procs[p]).Garbage?)
    case Probed(p, answer) =>
      Live(w, p) && Probing(w.procs[p]) && Probes(w.procs[p]).ClaimBy?
      && (answer == Gone ==> OwnerGone(w, Probes(w.procs[p])))
    case BreakLock(p) =>
      Live(w, p) && w.procs[p].JudgeLock?
      && var seen := w.procs[p].seen;
         (seen.HeldBy? ==> !(Live(w, seen.holder) && InSection(w.procs[seen.holder])))
    case GiveUp(p) => Live(w, p) && w.procs[p].TakeLock?
    case Leave(p) => Live(w, p) && w.procs[p] == Serving
    case Die(p) => Live(w, p)
  }

  function To(w: World, p: nat, pc: Pc): World {
    w.(procs := w.procs[p := pc])
  }

  /** What one file operation leads to: the process's next one, the control file and the lock. */
  datatype Effect = Effect(pc: Pc, file: Option<Control>, lock: Option<Lock>)

  /** One file operation of process `p`. */
  function Operate(p: nat, pc: Pc, file: Option<Control>, lock: Option<Lock>): Effect {
    match pc
    case FastPublish =>
      if file == None then Effect(Serving, Some(ClaimBy(p)), lock) else Effect(Inspect, file, lock)
    case Inspect => Effect(if file == None then TakeLock else FirstProbe(file.value), file, lock)
    case FirstProbe(_) => Effect(TakeLock, file, lock)
    case TakeLock =>
      if lock == None then Effect(ReadAgain, file, Some(HeldBy(p))) else Effect(ReadLock, file, lock)
    case ReadLock => Effect(if lock == None then TakeLock else JudgeLock(lock.value), file, lock)
    case JudgeLock(_) => Effect(TakeLock, file, lock)
    case ReadAgain => Effect(if file == None then Publish else ProbeAgain(file.value), file, lock)
    case ProbeAgain(read) => Effect(Compare(read), file, lock)
    case Compare(read) => Effect(if file == Some(read) then RemoveStale(read) else Publish, file, lock)
    case RemoveStale(_) => Effect(Publish, None, lock)
    case Publish =>
      if file == None then Effect(CompareLock(true), Some(ClaimBy(p)), lock) else Effect(CompareLock(false), file, lock)
    case CompareLock(won) =>
      Effect(if lock == Some(HeldBy(p)) then ReleaseLock(won) else if won then Serving else Out, file, lock)
    case ReleaseLock(won) => Effect(if won then Serving else Out, file, None)
    case CompareOwn => Effect(if file == Some(ClaimBy(p)) then RemoveOwn else Out, file, lock)
    case RemoveOwn => Effect(Out, None, lock)
    case StopRead => Effect(if file.Some? && file.value.ClaimBy? then StopProbe(file.value) else Out, file, lock)
    case StopProbe(_) => Effect(Out, file, lock)
    case StopCompare(read) => Effect(if file == Some(read) then StopRemove(read) else Out, file, lock)
    case StopRemove(_) => Effect(Out, None, lock)
    case _ => Effect(pc, file, lock)
  }

  /** What a process does with the answer to its probe. */
  function Answered(pc: Pc, answer: ClaimState): Pc
    requires Probing(pc)
  {
    match pc
    case FirstProbe(_) => if answer == Gone then TakeLock else Out
    case ProbeAgain(read) => if answer == Gone then Compare(read) else CompareLock(false)
    case StopProbe(read) => if answer == Gone then StopCompare(read) else Out
  }

  function Apply(w: World, e: Event): World
    requires Enabled(w, e)
  {
    match e
    case Spawn(p) => To(w, p, FastPublish)
    case SpawnStop(p) => To(w, p, StopRead)
    case Step(p) =>
      var done := Operate(p, w.procs[p], w.file, w.lock);
      World(done.file, done.lock, w.procs[p := done.pc])
    case Probed(p, answer) => To(w, p, Answered(w.procs[p], answer))
    case BreakLock(p) =>
      To(w, p, TakeLock).(lock := if w.lock == Some(w.procs[p].seen) then None else w.lock)
    case GiveUp(p) => To(w, p, Out)
    case Leave(p) => To(w, p, CompareOwn)
    case Die(p) => To(w, p, Dead)
  }

  /** Whatever crashed daemons left behind: any control file and any lock, but nobody running. */
  ghost predicate Abandoned(w: World) {
    && (forall p :: p in w.procs ==> !Live(w, p))
    && (w.file.Some? && w.file.value.ClaimBy? ==> w.file.value.owner in w.procs)
    && (w.lock.Some? && w.lock.value.HeldBy? ==> w.lock.value.holder in w.procs)
  }

  ghost predicate IsRun(worlds: seq<World>, events: seq<Event>) {
    && |worlds| == |events| + 1
    && forall i :: 0 <= i < |events| ==> Enabled(worlds[i], events[i]) && worlds[i + 1] == Apply(worlds[i], events[i])
  }

  // ---- the invariant ----

  /** What each process relies on while it lives. */
  ghost predicate Relies(w: World, p: nat, pc: Pc) {
    && (Holds(pc) ==> w.file == Some(ClaimBy(p)))
    && (InSection(pc) ==> w.lock == Some(HeldBy(p)))
    && match pc
       case FirstProbe(read) => Written(w, read)
       case ProbeAgain(read) => Written(w, read)
       case Compare(read) => OwnerGone(w, read)
       case RemoveStale(read) => OwnerGone(w, read) && w.file == Some(read)
       case StopProbe(read) => read.ClaimBy? && Written(w, read)
       case StopCompare(read) => OwnerGone(w, read)
       case StopRemove(read) => OwnerGone(w, read)
       case _ => true
  }

  predicate Written(w: World, read: Control) {
    read.ClaimBy? ==> read.owner in w.procs
  }

  ghost predicate Inv(w: World) {
    && (w.file.Some? ==> Written(w, w.file.value))
    && (w.lock.Some? && w.lock.value.HeldBy? ==> w.lock.value.holder in w.procs)
    && (forall p :: Live(w, p) ==> Relies(w, p, w.procs[p]))
  }

  /** The removal by a `stop`. */
  predicate StopRemoves(w: World, e: Event) {
    e.Step? && Live(w, e.p) && w.procs[e.p].StopRemove?
  }

  /** Some live daemon holds the directory, or is about to remove a stale claim. */
  ghost predicate Endangered(w: World) {
    exists q :: Live(w, q) && (Holds(w.procs[q]) || w.procs[q].RemoveStale?)
  }

  ghost predicate ClearsHarmlessly(w: World, e: Event) {
    StopRemoves(w, e) ==> !Endangered(w)
  }

  /** One step of `e.p` leaves every other process what it relies on. */
  lemma OthersRely(w: World, e: Event, q: nat)
    requires Inv(w) && Enabled(w, e) && ClearsHarmlessly(w, e) && Live(w, q) && q != e.p
    ensures Relies(Apply(w, e), q, w.procs[q])
  {
    assert Relies(w, q, w.procs[q]);
    if Live(w, e.p) {
      assert Relies(w, e.p, w.procs[e.p]);
    }
  }

  lemma OwnRelies(w: World, e: Event)
    requires Inv(w) && Enabled(w, e) && Live(Apply(w, e), e.p)
    ensures Relies(Apply(w, e), e.p, Apply(w, e).procs[e.p])
  {
    if Live(w, e.p) {
      assert Relies(w, e.p, w.procs[e.p]);
    }
  }

  lemma ApplyKeepsInv(w: World, e: Event)
    requires Inv(w) && Enabled(w, e) && ClearsHarmlessly(w, e)
    ensures Inv(Apply(w, e))
  {
    var w' := Apply(w, e);
    forall p | Live(w', p) ensures Relies(w', p, w'.procs[p]) {
      if e.p == p {
        OwnRelies(w, e);
      } else {
        OthersRely(w, e, p);
      }
    }
  }

  lemma {:induction false} RunKeepsInv(worlds: seq<World>, events: seq<Event>, i: nat)
    requires IsRun(worlds, events) && Abandoned(worlds[0]) && i <= |events|
    requires forall k :: 0 <= k < i ==> ClearsHarmlessly(worlds[k], events[k])
    ensures Inv(worlds[i])
  {
    if i > 0 {
      RunKeepsInv(worlds, events, i - 1);
      ApplyKeepsInv(worlds[i - 1], events[i - 1]);
    }
  }

  predicate Stopping(pc: Pc) {
    pc.StopRead? || pc.StopProbe? || pc.StopCompare? || pc.StopRemove?
  }

  lemma {:induction false} DaemonsNeverStop(worlds: seq<World>, events: seq<Event>, i: nat)
    requires IsRun(worlds, events) && Abandoned(worlds[0]) && i <= |events|
    requires forall e :: e in events ==> !e.SpawnStop?
    ensures forall p :: Live(worlds[i], p) ==> !Stopping(worlds[i].procs[p])
    ensures forall k :: 0 <= k < i ==> ClearsHarmlessly(worlds[k], events[k])
  {
    if i > 0 {
      DaemonsNeverStop(worlds, events, i - 1);
      assert events[i - 1] in events;
      NobodyStops(worlds[i - 1], events[i - 1]);
    }
  }

  lemma NobodyStops(w: World, e: Event)
    requires Enabled(w, e) && !e.SpawnStop? && forall p :: Live(w, p) ==> !Stopping(w.procs[p])
    ensures forall p :: Live(Apply(w, e), p) ==> !Stopping(Apply(w, e).procs[p])
    ensures ClearsHarmlessly(w, e)
  {
    var w' := Apply(w, e);
    forall p | Live(w', p) ensures !Stopping(w'.procs[p]) {
      assert p == e.p || w'.procs[p] == w.procs[p];
    }
  }

  // ---- the theorems ----

  /**
   Daemons starting, reclaiming, crashing and leaving, however interleaved: at most one live daemon believes it holds
   the directory, and what is published is that daemon's own claim.
   */
  lemma {:induction false} AtMostOneDaemon(worlds: seq<World>, events: seq<Event>, i: nat, p: nat, q: nat)
    requires IsRun(worlds, events) && Abandoned(worlds[0]) && i <= |events|
    requires forall e :: e in events ==> !e.SpawnStop?
    requires Live(worlds[i], p) && Holds(worlds[i].procs[p])
    ensures worlds[i].file == Some(ClaimBy(p))
    ensures Live(worlds[i], q) && Holds(worlds[i].procs[q]) ==> q == p
  {
    DaemonsNeverStop(worlds, events, i);
    RunKeepsInv(worlds, events, i);
  }

  /** The same with `stop` commands about, as long as at each of their removals no live daemon is endangered. */
  lemma {:induction false} AtMostOneDaemonWithStops(worlds: seq<World>, events: seq<Event>, i: nat, p: nat, q: nat)
    requires IsRun(worlds, events) && Abandoned(worlds[0]) && i <= |events|
    requires forall k :: 0 <= k < i ==> ClearsHarmlessly(worlds[k], events[k])
    requires Live(worlds[i], p) && Holds(worlds[i].procs[p])
    ensures worlds[i].file == Some(ClaimBy(p))
    ensures Live(worlds[i], q) && Holds(worlds[i].procs[q]) ==> q == p
  {
    RunKeepsInv(worlds, events, i);
  }

  /** Whose claim is published, if it lives, takes the directory for its own. */
  ghost predicate OwnerHolds(w: World) {
    w.file.Some? && w.file.value.ClaimBy? && Live(w, w.file.value.owner) ==> Holds(w.procs[w.file.value.owner])
  }

  lemma ApplyKeepsOwnerHolds(w: World, e: Event)
    requires Inv(w) && Enabled(w, e) && OwnerHolds(w)
    ensures OwnerHolds(Apply(w, e))
  {
  }

  lemma {:induction false} RunKeepsOwnerHolds(worlds: seq<World>, events: seq<Event>, i: nat)
    requires IsRun(worlds, events) && Abandoned(worlds[0]) && i <= |events|
    requires forall k :: 0 <= k < i ==> ClearsHarmlessly(worlds[k], events[k])
    ensures OwnerHolds(worlds[i])
  {
    if i > 0 {
      RunKeepsOwnerHolds(worlds, events, i - 1);
      RunKeepsInv(worlds, events, i - 1);
      ApplyKeepsOwnerHolds(worlds[i - 1], events[i - 1]);
    }
  }

  /**
   However the processes are interleaved, a published claim goes only by its own daemon's hand on the way out, or after
   its daemon has stopped for good.
   */
  lemma {:induction false} OnlyGoneClaimsGo(worlds: seq<World>, events: seq<Event>, i: nat, owner: nat)
    requires IsRun(worlds, events) && Abandoned(worlds[0]) && i < |events|
    requires forall k :: 0 <= k <= i ==> ClearsHarmlessly(worlds[k], events[k])
    requires worlds[i].file == Some(ClaimBy(owner)) && worlds[i + 1].file != worlds[i].file
    ensures worlds[i + 1].file == None
    ensures !Live(worlds[i], owner) || (events[i] == Step(owner) && worlds[i].procs[owner] == RemoveOwn)
  {
    RunKeepsInv(worlds, events, i);
    RunKeepsOwnerHolds(worlds, events, i);
    var w, e := worlds[i], events[i];
    assert Enabled(w, e) && worlds[i + 1] == Apply(w, e) && ClearsHarmlessly(w, e);
    assert Relies(w, e.p, w.procs[e.p]);
  }

  // ---- why a daemon stops, and what it leaves ----

  /** The starter read a claim that did not answer gone, ran into the deadline, lost the publish, or was told to leave. */
  predicate Reason(w: World, e: Event, p: nat) {
    || (e.Probed? && e.p == p && e.answer != Gone)
    || e == GiveUp(p)
    || (e == Step(p) && p in w.procs && w.procs[p] == Publish && w.file.Some?)
    || e == Leave(p)
  }

  ghost predicate HadReason(worlds: seq<World>, events: seq<Event>, i: nat, p: nat)
    requires |worlds| == |events| + 1 && i <= |events|
  {
    exists k :: 0 <= k < i && Reason(worlds[k], events[k], p)
  }

  /** On the way out, or out. */
  predicate GivingUp(pc: Pc) {
    pc == CompareLock(false) || pc == ReleaseLock(false) || pc == CompareOwn || pc == RemoveOwn || pc == Out
  }

  lemma OneEventGivesUp(w: World, e: Event, p: nat)
    requires Enabled(w, e) && p in Apply(w, e).procs && GivingUp(Apply(w, e).procs[p])
    requires p in w.procs ==> !Stopping(w.procs[p])
    ensures Reason(w, e, p) || (p in w.procs && GivingUp(w.procs[p]))
  {
  }

  lemma {:induction false} DaemonIsNoStop(worlds: seq<World>, events: seq<Event>, i: nat, p: nat)
    requires IsRun(worlds, events) && i <= |events| && p !in worlds[0].procs && SpawnStop(p) !in events
    ensures p in worlds[i].procs ==> !Stopping(worlds[i].procs[p])
  {
    if i > 0 {
      DaemonIsNoStop(worlds, events, i - 1, p);
      assert Enabled(worlds[i - 1], events[i - 1]) && events[i - 1] in events;
    }
  }

  /**
   A daemon that started gives up only on a claim it read whose probe did not answer gone, on the deadline of the lock,
   or on losing the publish; any other that is out was told to leave.
   */
  lemma {:induction false} GivesUpOnlyForReason(worlds: seq<World>, events: seq<Event>, i: nat, p: nat)
    requires IsRun(worlds, events) && i <= |events| && p !in worlds[0].procs && SpawnStop(p) !in events
    requires p in worlds[i].procs && GivingUp(worlds[i].procs[p])
    ensures HadReason(worlds, events, i, p)
  {
    if i > 0 {
      assert Enabled(worlds[i - 1], events[i - 1]) && worlds[i] == Apply(worlds[i - 1], events[i - 1]);
      DaemonIsNoStop(worlds, events, i - 1, p);
      OneEventGivesUp(worlds[i - 1], events[i - 1], p);
      if p in worlds[i - 1].procs && GivingUp(worlds[i - 1].procs[p]) {
        GivesUpOnlyForReason(worlds, events, i - 1, p);
      }
    }
  }

  lemma OneEventKeepsGivingUp(w: World, e: Event, p: nat)
    requires Enabled(w, e) && p in w.procs && (GivingUp(w.procs[p]) || w.procs[p] == Dead)
    ensures p in Apply(w, e).procs && (GivingUp(Apply(w, e).procs[p]) || Apply(w, e).procs[p] == Dead)
  {
  }

  lemma OneReasonIsEnough(w: World, e: Event, p: nat)
    requires Enabled(w, e) && Reason(w, e, p) && p in w.procs && !Stopping(w.procs[p])
    ensures p in Apply(w, e).procs && GivingUp(Apply(w, e).procs[p])
  {
  }

  /** And any of these ends it: from there on it neither reclaims nor serves, and does nothing but let go. */
  lemma {:induction false} ReasonIsHeeded(worlds: seq<World>, events: seq<Event>, k: nat, i: nat, p: nat)
    requires IsRun(worlds, events) && k < i <= |events| && p !in worlds[0].procs && SpawnStop(p) !in events
    requires p in worlds[k].procs && Reason(worlds[k], events[k], p)
    ensures p in worlds[i].procs && (GivingUp(worlds[i].procs[p]) || worlds[i].procs[p] == Dead)
  {
    assert Enabled(worlds[i - 1], events[i - 1]) && worlds[i] == Apply(worlds[i - 1], events[i - 1]);
    if k + 1 < i {
      ReasonIsHeeded(worlds, events, k, i - 1, p);
      OneEventKeepsGivingUp(worlds[i - 1], events[i - 1], p);
    } else {
      DaemonIsNoStop(worlds, events, k, p);
      OneReasonIsEnough(worlds[k], events[k], p);
    }
  }

  /** What is published and what is locked is so by a process that died, or by one that still has to do with it. */
  ghost predicate Attended(w: World, p: nat) {
    p in w.procs ==>
      && (w.file == Some(ClaimBy(p)) ==> w.procs[p] == Dead || Holds(w.procs[p]))
      && (w.lock == Some(HeldBy(p)) ==> w.procs[p] == Dead || InSection(w.procs[p]))
  }

  lemma ApplyKeepsAttended(w: World, e: Event, p: nat)
    requires Inv(w) && Enabled(w, e) && Attended(w, p)
    ensures Attended(Apply(w, e), p)
  {
    assert Live(w, e.p) ==> Relies(w, e.p, w.procs[e.p]);
  }

  lemma {:induction false} RunKeepsAttended(worlds: seq<World>, events: seq<Event>, i: nat, p: nat)
    requires IsRun(worlds, events) && Abandoned(worlds[0]) && i <= |events| && p !in worlds[0].procs
    requires forall k :: 0 <= k < i ==> ClearsHarmlessly(worlds[k], events[k])
    ensures Attended(worlds[i], p)
  {
    if i > 0 {
      RunKeepsAttended(worlds, events, i - 1, p);
      RunKeepsInv(worlds, events, i - 1);
      ApplyKeepsAttended(worlds[i - 1], events[i - 1], p);
    }
  }

  /** A daemon that has gone out, whether it served or gave up, leaves neither its claim nor its lock behind. */
  lemma {:induction false} OutLeavesNothing(worlds: seq<World>, events: seq<Event>, i: nat, p: nat)
    requires IsRun(worlds, events) && Abandoned(worlds[0]) && i <= |events| && p !in worlds[0].procs
    requires forall k :: 0 <= k < i ==> ClearsHarmlessly(worlds[k], events[k])
    requires p in worlds[i].procs && worlds[i].procs[p] == Out
    ensures worlds[i].file != Some(ClaimBy(p)) && worlds[i].lock != Some(HeldBy(p))
  {
    RunKeepsAttended(worlds, events, i, p);
  }

  /** The remove of a `stop` keeps the invariant exactly when no live daemon holds the claim or is about to remove it. */
  lemma StopKeepsInvIff(w: World, p: nat)
    requires Inv(w) && Live(w, p) && w.procs[p].StopRemove?
    ensures Inv(Apply(w, Step(p))) <==> !Endangered(w)
  {
    var w' := Apply(w, Step(p));
    if Inv(w') {
      forall q | Live(w, q) ensures !Holds(w.procs[q]) && !w.procs[q].RemoveStale? {
        if q != p {
          assert Live(w', q) && Relies(w', q, w'.procs[q]);
        }
      }
    }
    if !Endangered(w) {
      ApplyKeepsInv(w, Step(p));
    }
  }

  ghost predicate TwoHold(w: World) {
    exists p, q :: p != q && Live(w, p) && Live(w, q) && Holds(w.procs[p]) && Holds(w.procs[q])
  }

  /** From here two daemons can come to hold the directory without any further removal by a `stop`. */
  ghost predicate LetsTwoIn(w: World) {
    exists worlds, events :: EndsWithTwo(worlds, events, w)
  }

  ghost predicate EndsWithTwo(worlds: seq<World>, events: seq<Event>, w: World) {
    && IsRun(worlds, events) && worlds[0] == w && TwoHold(worlds[|events|])
    && forall k :: 0 <= k < |events| ==> !StopRemoves(worlds[k], events[k])
  }

  /**
   When the removal by a `stop` can let two daemons in, whatever came before it: exactly when a live daemon holds the
   directory or is about to remove a stale claim itself.
   */
  lemma {:induction false} StopLetsTwoInIff(worlds: seq<World>, events: seq<Event>, p: nat)
    requires IsRun(worlds, events) && Abandoned(worlds[0])
    requires forall k :: 0 <= k < |events| ==> ClearsHarmlessly(worlds[k], events[k])
    requires StopRemoves(worlds[|events|], Step(p))
    ensures LetsTwoIn(Apply(worlds[|events|], Step(p))) <==> Endangered(worlds[|events|])
  {
    var w := worlds[|events|];
    var w' := Apply(w, Step(p));
    RunKeepsInv(worlds, events, |events|);
    if Endangered(w) {
      var q :| Live(w, q) && (Holds(w.procs[q]) || w.procs[q].RemoveStale?);
      assert q != p && Live(w', q) && w'.procs[q] == w.procs[q] && w'.file == None;
      if Holds(w.procs[q]) {
        HolderIsJoined(w', q);
      } else {
        RemoverLetsTwoIn(w', q);
      }
    } else {
      ApplyKeepsInv(w, Step(p));
      if LetsTwoIn(w') {
        var later, more :| EndsWithTwo(later, more, w');
        InvHoldsOn(later, more, |more|);
        assert false;
      }
    }
  }

  lemma {:induction false} InvHoldsOn(worlds: seq<World>, events: seq<Event>, i: nat)
    requires IsRun(worlds, events) && Inv(worlds[0]) && i <= |events|
    requires forall k :: 0 <= k < i ==> ClearsHarmlessly(worlds[k], events[k])
    ensures Inv(worlds[i])
  {
    if i > 0 {
      InvHoldsOn(worlds, events, i - 1);
      ApplyKeepsInv(worlds[i - 1], events[i - 1]);
    }
  }

  /** No process has this number yet. */
  lemma Unused(w: World) returns (p: nat)
    ensures p !in w.procs
  {
    p := 0;
    var below: set<nat> := {};
    while p in w.procs
      invariant below <= w.procs.Keys && |below| == p && forall n: nat :: n in below <==> n < p
      decreases |w.procs.Keys - below|
    {
      below, p := below + {p}, p + 1;
    }
  }

  /** With a holder whose claim is gone, whoever starts holds the directory too. */
  lemma HolderIsJoined(w: World, q: nat)
    requires Live(w, q) && Holds(w.procs[q]) && w.file == None
    ensures LetsTwoIn(w)
  {
    var r := Unused(w);
    var worlds, events, last := StartsAtOnce([w], [], w, r);
    assert Live(last, q) && Live(last, r);
    assert EndsWithTwo(worlds, events, w);
  }

  /** With the stale claim gone already, a daemon about to remove it removes the claim of whoever started meanwhile. */
  lemma RemoverLetsTwoIn(w: World, q: nat)
    requires Live(w, q) && w.procs[q].RemoveStale? && w.file == None
    ensures LetsTwoIn(w)
  {
    var r := Unused(w);
    var worlds, events, w1 := StartsAtOnce([w], [], w, r);
    var w2 := To(w1, q, Publish).(file := None);
    worlds, events := Extend(worlds, events, Step(q), w2);
    var s := Unused(w2);
    var last;
    worlds, events, last := StartsAtOnce(worlds, events, w2, s);
    assert Live(last, r) && Live(last, s);
    assert EndsWithTwo(worlds, events, w);
  }

  lemma Extend(worlds: seq<World>, events: seq<Event>, e: Event, next: World)
    returns (longer: seq<World>, more: seq<Event>)
    requires IsRun(worlds, events)
    requires Enabled(worlds[|events|], e) && next == Apply(worlds[|events|], e)
    ensures longer == worlds + [next] && more == events + [e] && IsRun(longer, more)
  {
    longer, more := worlds + [next], events + [e];
  }

  /** Two `stop` commands that found the same abandoned claim, and two daemons that start between their removals. */
  lemma TwoStopsLetTwoDaemonsIn() returns (worlds: seq<World>, events: seq<Event>)
    ensures IsRun(worlds, events) && Abandoned(worlds[0])
    ensures var last := worlds[|events|];
            Live(last, 3) && last.procs[3] == Serving && Live(last, 4) && last.procs[4] == Serving
  {
    var w := World(Some(ClaimBy(0)), None, map[0 := Dead]);
    worlds, events, w := StopReachesRemoval([w], [], w, 1);
    worlds, events, w := StopReachesRemoval(worlds, events, w, 2);
    worlds, events, w := ClearsAndStarts(worlds, events, w, 1, 3);
    worlds, events, w := ClearsAndStarts(worlds, events, w, 2, 4);
  }

  /**
   One `stop` that found an abandoned claim is enough: a daemon reclaims that claim and serves, the `stop` removes what is
   now that daemon's claim, and another daemon starts.
   */
  lemma OneStopLetsTwoDaemonsIn() returns (worlds: seq<World>, events: seq<Event>, taking: seq<Event>)
    ensures IsRun(worlds, events) && Abandoned(worlds[0])
    ensures events == STOPPING + taking + [Step(1), Spawn(3), Step(3)] && ByAlone(taking, 2)
    ensures var last := worlds[|events|];
            Live(last, 2) && last.procs[2] == Serving && Live(last, 3) && last.procs[3] == Serving
  {
    var stale := ClaimBy(0);
    var w := World(Some(stale), None, map[0 := Dead]);
    worlds, events, w := StopReachesRemoval([w], [], w, 1);
    var between;
    between, taking := Reclaims(w, 2, stale);
    w := World(Some(ClaimBy(2)), None, w.procs[2 := Serving]);
    worlds, events := Joined(worlds, events, between, taking);
    worlds, events, w := ClearsAndStarts(worlds, events, w, 1, 3);
  }

  /** A `stop` removes whatever claim stands, and a daemon starts. */
  lemma ClearsAndStarts(worlds: seq<World>, events: seq<Event>, w: World, p: nat, r: nat)
    returns (longer: seq<World>, more: seq<Event>, next: World)
    requires IsRun(worlds, events) && worlds[|events|] == w && StopRemoves(w, Step(p)) && r !in w.procs
    ensures IsRun(longer, more) && longer[|more|] == next && longer[0] == worlds[0]
    ensures more == events + [Step(p), Spawn(r), Step(r)]
    ensures next == World(Some(ClaimBy(r)), w.lock, w.procs[p := Out][r := Serving])
  {
    var cleared := To(w, p, Out).(file := None);
    longer, more := Extend(worlds, events, Step(p), cleared);
    longer, more, next := StartsAtOnce(longer, more, cleared, r);
  }

  /** What a `stop` does until it is about to remove the claim it found. */
  const STOPPING := [SpawnStop(1), Step(1), Probed(1, Gone), Step(1)]

  lemma Joined(worlds: seq<World>, events: seq<Event>, later: seq<World>, more: seq<Event>)
    returns (joined: seq<World>, all: seq<Event>)
    requires IsRun(worlds, events) && IsRun(later, more) && worlds[|events|] == later[0]
    ensures IsRun(joined, all) && all == events + more
    ensures joined[0] == worlds[0] && joined[|all|] == later[|more|]
  {
    joined, all := worlds + later[1..], events + more;
    forall i | 0 <= i < |all| ensures Enabled(joined[i], all[i]) && joined[i + 1] == Apply(joined[i], all[i]) {
      if i >= |events| {
        assert joined[i] == later[i - |events|] && joined[i + 1] == later[i + 1 - |events|];
      }
    }
  }

  lemma StopReachesRemoval(worlds: seq<World>, events: seq<Event>, w: World, p: nat)
    returns (longer: seq<World>, more: seq<Event>, next: World)
    requires IsRun(worlds, events) && worlds[|events|] == w && p !in w.procs
    requires w.file.Some? && w.file.value.ClaimBy? && OwnerGone(w, w.file.value)
    ensures IsRun(longer, more) && longer[|more|] == next && longer[0] == worlds[0]
    ensures next == To(w, p, StopRemove(w.file.value))
    ensures more == events + [SpawnStop(p), Step(p), Probed(p, Gone), Step(p)]
  {
    var read := w.file.value;
    longer, more, next := StopReads(worlds, events, w, p);
    var compare := To(w, p, StopCompare(read));
    assert To(next, p, StopCompare(read)) == compare;
    longer, more := Extend(longer, more, Probed(p, Gone), compare);
    next := To(w, p, StopRemove(read));
    assert To(compare, p, StopRemove(read)) == next;
    longer, more := Extend(longer, more, Step(p), next);
  }

  lemma StopReads(worlds: seq<World>, events: seq<Event>, w: World, p: nat)
    returns (longer: seq<World>, more: seq<Event>, next: World)
    requires IsRun(worlds, events) && worlds[|events|] == w && p !in w.procs
    requires w.file.Some? && w.file.value.ClaimBy?
    ensures IsRun(longer, more) && longer[|more|] == next && longer[0] == worlds[0]
    ensures next == To(w, p, StopProbe(w.file.value)) && more == events + [SpawnStop(p), Step(p)]
  {
    var spawned := To(w, p, StopRead);
    longer, more := Extend(worlds, events, SpawnStop(p), spawned);
    next := To(w, p, StopProbe(w.file.value));
    assert To(spawned, p, StopProbe(w.file.value)) == next;
    longer, more := Extend(longer, more, Step(p), next);
  }

  /** The fast path: nothing there at all. */
  lemma StartsAtOnce(worlds: seq<World>, events: seq<Event>, w: World, p: nat)
    returns (longer: seq<World>, more: seq<Event>, next: World)
    requires IsRun(worlds, events) && worlds[|events|] == w && p !in w.procs && w.file == None
    ensures IsRun(longer, more) && longer[|more|] == next && longer[0] == worlds[0]
    ensures more == events + [Spawn(p), Step(p)] && |longer| == |worlds| + 2 && worlds <= longer
    ensures longer[|worlds|] == To(w, p, FastPublish)
    ensures next == World(Some(ClaimBy(p)), w.lock, w.procs[p := Serving])
  {
    longer, more := Extend(worlds, events, Spawn(p), To(w, p, FastPublish));
    next := World(Some(ClaimBy(p)), w.lock, w.procs[p := Serving]);
    assert To(To(w, p, FastPublish), p, Serving).(file := Some(ClaimBy(p))) == next;
    longer, more := Extend(longer, more, Step(p), next);
  }

  // ---- an abandoned directory can always be taken ----

  /** The world in which `p` stands at `pc` beside processes that are all finished. */
  function At(procs: map<nat, Pc>, p: nat, at: Effect): World {
    World(at.file, at.lock, procs[p := at.pc])
  }

  /** One file operation of `p`, as it shows in the world. */
  lemma Operates(worlds: seq<World>, events: seq<Event>, procs: map<nat, Pc>, p: nat, before: Effect, after: Effect)
    returns (longer: seq<World>, more: seq<Event>)
    requires IsRun(worlds, events) && worlds[|events|] == At(procs, p, before)
    requires after == Operate(p, before.pc, before.file, before.lock)
    requires before.pc != Serving && before.pc != Out && before.pc != Dead
    requires Probing(before.pc) ==> Probes(before.pc).Garbage?
    ensures IsRun(longer, more) && longer[0] == worlds[0] && (ByAlone(events, p) ==> ByAlone(more, p))
    ensures longer[|more|] == At(procs, p, after)
  {
    assert procs[p := before.pc][p := after.pc] == procs[p := after.pc];
    longer, more := Extend(worlds, events, Step(p), At(procs, p, after));
  }

  /** Asking after a claim whose owner is finished; bytes that are no claim are not asked after. */
  lemma Asks(worlds: seq<World>, events: seq<Event>, procs: map<nat, Pc>, p: nat, before: Effect, after: Effect)
    returns (longer: seq<World>, more: seq<Event>)
    requires IsRun(worlds, events) && worlds[|events|] == At(procs, p, before) && p !in procs
    requires before.pc.FirstProbe? || before.pc.ProbeAgain?
    requires OwnerFinished(procs, Probes(before.pc))
    requires after == before.(pc := if before.pc.FirstProbe? then TakeLock else Compare(Probes(before.pc)))
    ensures IsRun(longer, more) && longer[0] == worlds[0] && (ByAlone(events, p) ==> ByAlone(more, p))
    ensures longer[|more|] == At(procs, p, after)
  {
    if Probes(before.pc).Garbage? {
      longer, more := Operates(worlds, events, procs, p, before, after);
    } else {
      assert procs[p := before.pc][p := after.pc] == procs[p := after.pc];
      longer, more := Extend(worlds, events, Probed(p, Gone), At(procs, p, after));
    }
  }

  /** Only starting, stepping, asking and breaking a dead lock, all by the one daemon. */
  predicate ByAlone(events: seq<Event>, p: nat) {
    forall e :: e in events ==> e == Spawn(p) || e == Step(p) || e == Probed(p, Gone) || e == BreakLock(p)
  }

  predicate OwnerFinished(procs: map<nat, Pc>, read: Control) {
    read.ClaimBy? ==> read.owner in procs && (procs[read.owner] == Out || procs[read.owner] == Dead)
  }

  /** The link finds a claim in its way, and nobody stands behind that claim. */
  lemma Inspects(worlds: seq<World>, events: seq<Event>, procs: map<nat, Pc>, p: nat, read: Control, lock: Option<Lock>)
    returns (longer: seq<World>, more: seq<Event>)
    requires IsRun(worlds, events) && p !in procs && OwnerFinished(procs, read)
    requires worlds[|events|] == World(Some(read), lock, procs)
    ensures IsRun(longer, more) && longer[0] == worlds[0] && (ByAlone(events, p) ==> ByAlone(more, p))
    ensures longer[|more|] == At(procs, p, Effect(TakeLock, Some(read), lock))
  {
    var publish, inspect := Effect(FastPublish, Some(read), lock), Effect(Inspect, Some(read), lock);
    var probe := Effect(FirstProbe(read), Some(read), lock);
    longer, more := Extend(worlds, events, Spawn(p), At(procs, p, publish));
    longer, more := Operates(longer, more, procs, p, publish, inspect);
    longer, more := Operates(longer, more, procs, p, inspect, probe);
    longer, more := Asks(longer, more, procs, p, probe, Effect(TakeLock, Some(read), lock));
  }

  /** A lock nobody stands behind is broken. */
  lemma BreaksLock(worlds: seq<World>, events: seq<Event>, procs: map<nat, Pc>, p: nat, read: Control, lock: Lock)
    returns (longer: seq<World>, more: seq<Event>)
    requires IsRun(worlds, events) && p !in procs
    requires worlds[|events|] == At(procs, p, Effect(TakeLock, Some(read), Some(lock)))
    requires lock.HeldBy? ==> lock.holder in procs && (procs[lock.holder] == Out || procs[lock.holder] == Dead)
    ensures IsRun(longer, more) && longer[0] == worlds[0] && (ByAlone(events, p) ==> ByAlone(more, p))
    ensures longer[|more|] == At(procs, p, Effect(TakeLock, Some(read), None))
  {
    var take, look := Effect(TakeLock, Some(read), Some(lock)), Effect(ReadLock, Some(read), Some(lock));
    var judge := Effect(JudgeLock(lock), Some(read), Some(lock));
    longer, more := Operates(worlds, events, procs, p, take, look);
    longer, more := Operates(longer, more, procs, p, look, judge);
    assert procs[p := judge.pc][p := TakeLock] == procs[p := TakeLock];
    longer, more := Extend(longer, more, BreakLock(p), At(procs, p, Effect(TakeLock, Some(read), None)));
  }

  /** Under the lock the claim is read again, asked after again, and compared. */
  lemma Compares(worlds: seq<World>, events: seq<Event>, procs: map<nat, Pc>, p: nat, read: Control)
    returns (longer: seq<World>, more: seq<Event>)
    requires IsRun(worlds, events) && p !in procs && OwnerFinished(procs, read)
    requires worlds[|events|] == At(procs, p, Effect(TakeLock, Some(read), None))
    ensures IsRun(longer, more) && longer[0] == worlds[0] && (ByAlone(events, p) ==> ByAlone(more, p))
    ensures longer[|more|] == At(procs, p, Effect(RemoveStale(read), Some(read), Some(HeldBy(p))))
  {
    var lock := Some(HeldBy(p));
    var again, probe := Effect(ReadAgain, Some(read), lock), Effect(ProbeAgain(read), Some(read), lock);
    var compare := Effect(Compare(read), Some(read), lock);
    longer, more := Operates(worlds, events, procs, p, Effect(TakeLock, Some(read), None), again);
    longer, more := Operates(longer, more, procs, p, again, probe);
    longer, more := Asks(longer, more, procs, p, probe, compare);
    longer, more := Operates(longer, more, procs, p, compare, Effect(RemoveStale(read), Some(read), lock));
  }

  /** It is removed, the new claim is published, and the lock is let go. */
  lemma Publishes(worlds: seq<World>, events: seq<Event>, procs: map<nat, Pc>, p: nat, read: Control)
    returns (longer: seq<World>, more: seq<Event>)
    requires IsRun(worlds, events)
    requires worlds[|events|] == At(procs, p, Effect(RemoveStale(read), Some(read), Some(HeldBy(p))))
    ensures IsRun(longer, more) && longer[0] == worlds[0] && (ByAlone(events, p) ==> ByAlone(more, p))
    ensures longer[|more|] == At(procs, p, Effect(Serving, Some(ClaimBy(p)), None))
  {
    var lock, claim := Some(HeldBy(p)), Some(ClaimBy(p));
    var publish, won := Effect(Publish, None, lock), Effect(CompareLock(true), claim, lock);
    longer, more := Operates(worlds, events, procs, p, Effect(RemoveStale(read), Some(read), lock), publish);
    longer, more := Operates(longer, more, procs, p, publish, won);
    longer, more := Operates(longer, more, procs, p, won, Effect(ReleaseLock(true), claim, lock));
    longer, more := Operates(longer, more, procs, p, Effect(ReleaseLock(true), claim, lock), Effect(Serving, claim, None));
  }

  /** A claim nobody stands behind is taken over, whoever else is about. */
  lemma Reclaims(w: World, p: nat, read: Control) returns (worlds: seq<World>, events: seq<Event>)
    requires w.file == Some(read) && p !in w.procs && OwnerFinished(w.procs, read)
    requires w.lock.Some? && w.lock.value.HeldBy? ==> OwnerFinished(w.procs, ClaimBy(w.lock.value.holder))
    ensures IsRun(worlds, events) && worlds[0] == w && ByAlone(events, p)
    ensures worlds[|events|] == At(w.procs, p, Effect(Serving, Some(ClaimBy(p)), None))
  {
    worlds, events := Inspects([w], [], w.procs, p, read, w.lock);
    if w.lock.Some? {
      worlds, events := BreaksLock(worlds, events, w.procs, p, read, w.lock.value);
    }
    worlds, events := Compares(worlds, events, w.procs, p, read);
    worlds, events := Publishes(worlds, events, w.procs, p, read);
  }

  /**
   Whatever control file and lock crashed daemons leave behind, a daemon that starts alone can take the directory:
   no leftover shuts it for good.
   */
  lemma AbandonedCanBeTaken(w: World, p: nat) returns (worlds: seq<World>, events: seq<Event>)
    requires Abandoned(w) && p !in w.procs
    ensures IsRun(worlds, events) && worlds[0] == w
    ensures ByAlone(events, p)
    ensures Live(worlds[|events|], p) && worlds[|events|].procs[p] == Serving
  {
    if w.file == None {
      var serving;
      worlds, events, serving := StartsAtOnce([w], [], w, p);
    } else {
      worlds, events := Reclaims(w, p, w.file.value);
    }
  }
}
