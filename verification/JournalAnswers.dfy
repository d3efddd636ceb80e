/**
 What racing calls answer, when nothing outside them interferes: a `complete` that loses the race to an identical
 outcome returns it all the same, and no call refuses without a reason that stands in the directory.
 */
module JournalAnswers {
  import opened Wrappers
  import opened Journal
  import opened JournalRace

  /** The temporary file a call may still remove. */
  function Uses(pc: Pc): Option<nat> {
    match pc
    case SeeClaim(ForBegin(_, t)) => Some(t)
    case SeeMain(ForBegin(_, t)) => Some(t)
    case LoadClaim(ForBegin(_, t)) => Some(t)
    case LoadMain(ForBegin(_, t)) => Some(t)
    case BeginLink(_, t) => Some(t)
    case BeginSync(_, t) => Some(t)
    case BeginDropTemp(_, t) => Some(t)
    case BeginSyncDrop(_, t) => Some(t)
    case CompleteLink(_, t) => Some(t)
    case CompleteSyncClaim(_, t) => Some(t)
    case CompleteCompare(_, t) => Some(t)
    case CompletePromote(_, t) => Some(t)
    case CompleteSyncPromotion(_, t) => Some(t)
    case Cleanup(t, _) => Some(t)
    case _ => None
  }

  predicate Opening(pc: Pc) {
    pc.OpenSync? || pc.ScavengeLook? || pc.ScavengeDrop? || pc.ScavengeSync?
  }

  predicate NoneOpens(events: seq<Event>) {
    forall e :: e in events && e.Invoke? ==> !e.call.Open?
  }

  // ---- nobody removes another's temporary file ----

  ghost predicate OwnFiles(w: World) {
    && (forall p :: p in w.procs ==> !Opening(w.procs[p]))
    && (forall p :: p in w.procs && Uses(w.procs[p]).Some? ==> Uses(w.procs[p]).value in w.used)
    && (forall p, q :: p in w.procs && q in w.procs && p != q && Uses(w.procs[p]).Some? ==>
          Uses(w.procs[p]) != Uses(w.procs[q]))
  }

  predicate KeepsFile(dir: Dir, later: Dir, pc: Pc) {
    Uses(pc).Some? && Temp(Uses(pc).value) in dir ==> Temp(Uses(pc).value) in later
  }

  lemma StepUses(dir: Dir, pc: Pc, t: nat, ino: nat)
    requires !Opening(pc)
    ensures var m := Next(dir, pc, t, ino);
            !Opening(m.pc) && (Uses(m.pc) == None || Uses(m.pc) == Uses(pc) || Uses(m.pc) == Some(t))
  {
  }

  lemma StepLeaves(dir: Dir, pc: Pc, t: nat, ino: nat, other: nat)
    requires !Opening(pc) && Temp(other) in dir && Uses(pc) != Some(other)
    ensures Temp(other) in Next(dir, pc, t, ino).dir
  {
  }

  lemma UnwindUses(pc: Pc)
    requires !Opening(pc)
    ensures !Opening(Unwind(pc)) && (Uses(Unwind(pc)) == None || Uses(Unwind(pc)) == Uses(pc))
  {
  }

  lemma ApplyKeepsOwnFiles(w: World, e: Event)
    requires OwnFiles(w) && Enabled(w, e) && (e.Invoke? ==> !e.call.Open?)
    ensures OwnFiles(Apply(w, e))
    ensures forall p :: p in w.procs && p != e.p ==> KeepsFile(w.dir, Apply(w, e).dir, w.procs[p])
  {
    match e
    case Invoke(p, call) =>
    case Step(p, t, ino) =>
      StepUses(w.dir, w.procs[p], t, ino);
      forall q | q in w.procs && q != p ensures KeepsFile(w.dir, Apply(w, e).dir, w.procs[q]) {
        if Uses(w.procs[q]).Some? && Temp(Uses(w.procs[q]).value) in w.dir {
          StepLeaves(w.dir, w.procs[p], t, ino, Uses(w.procs[q]).value);
        }
      }
    case Throw(p) =>
      UnwindUses(w.procs[p]);
    case Die(p) =>
  }

  lemma {:induction false} RunKeepsOwnFiles(worlds: seq<World>, events: seq<Event>, i: nat)
    requires IsRun(worlds, events) && NoneOpens(events) && i <= |events|
    ensures OwnFiles(worlds[i])
  {
    if i > 0 {
      RunKeepsOwnFiles(worlds, events, i - 1);
      assert events[i - 1] in events;
      ApplyKeepsOwnFiles(worlds[i - 1], events[i - 1]);
    }
  }

  // ---- a call left in peace ----

  /** From its call on, no operation of `p` throws by itself, and the suffix it draws is not taken. */
  ghost predicate InPeace(worlds: seq<World>, events: seq<Event>, i: nat, j: nat, p: nat)
    requires IsRun(worlds, events) && i <= j <= |events|
  {
    forall k :: i <= k < j ==> UndisturbedBy(worlds[k], events[k], p)
  }

  predicate UndisturbedBy(w: World, e: Event, p: nat) {
    && e != JournalRace.Throw(p)
    && (e.Step? && e.p == p && p in w.procs && (w.procs[p].CompleteWrite? || w.procs[p].BeginWrite?) ==>
          Temp(e.t) !in w.dir)
  }

  lemma GoesOn(worlds: seq<World>, events: seq<Event>, i: nat, j: nat, p: nat)
    requires IsRun(worlds, events) && NoneOpens(events) && i < j <= |events| && InPeace(worlds, events, i, j, p)
    ensures var w, e := worlds[j - 1], events[j - 1];
            && Inv(w) && OwnFiles(w) && Enabled(w, e) && (e.Invoke? ==> !e.call.Open?) && UndisturbedBy(w, e, p)
            && worlds[j] == Apply(w, e)
    ensures InPeace(worlds, events, i, j - 1, p)
  {
    RunKeepsInv(worlds, events, j - 1);
    RunKeepsOwnFiles(worlds, events, j - 1);
    assert events[j - 1] in events;
  }

  lemma Called(worlds: seq<World>, events: seq<Event>, i: nat, p: nat, call: Call)
    requires IsRun(worlds, events) && i < |events| && events[i] == Invoke(p, call)
    ensures p in worlds[i + 1].procs && worlds[i + 1].procs[p] == Start(call) && worlds[i + 1].dir == worlds[i].dir
  {
    assert worlds[i + 1] == Apply(worlds[i], events[i]);
  }

  predicate Identified(dir: Dir, id: Identity) {
    Main in dir && IdentityOf(dir[Main].record) == id
  }

  // ---- complete ----

  /** The outcome is returned if it is the one claimed, and refused if another is. */
  predicate Settled(dir: Dir, ending: Ending, o: Outcome) {
    Claim in dir && ending == if ClaimOf(dir) == Some(Terminal(o)) then Returned(Completed(o)) else Threw
  }

  /** Where a `complete` of `o` can stand, and what it has still to rely on. */
  predicate Completes(dir: Dir, pc: Pc, o: Outcome) {
    match pc
    case SeeClaim(reader) => reader == ForComplete(o)
    case SeeMain(reader) => reader == ForComplete(o)
    case LoadClaim(reader) => reader == ForComplete(o) && Claim in dir
    case LoadMain(reader) => reader == ForComplete(o)
    case CompleteWrite(mine) => mine == o
    case CompleteLink(mine, t) => mine == o && Temp(t) in dir
    case CompleteSyncClaim(mine, t) => mine == o && Temp(t) in dir && ClaimOf(dir) == Some(Terminal(o))
    case CompleteCompare(mine, t) => mine == o && Temp(t) in dir && Claim in dir
    case CompletePromote(mine, t) => mine == o && Temp(t) in dir && ClaimOf(dir) == Some(Terminal(o))
    case CompleteSyncPromotion(mine, _) => mine == o && ClaimOf(dir) == Some(Terminal(o))
    case Cleanup(_, ending) => Settled(dir, ending, o)
    case Ended(ending) => Settled(dir, ending, o)
    case _ => false
  }

  lemma StepCompletes(dir: Dir, pc: Pc, t: nat, ino: nat, o: Outcome)
    requires Coherent(dir) && JournalRace.Knows(dir, pc) && Identified(dir, o.id) && Completes(dir, pc, o)
    requires pc.CompleteWrite? ==> Temp(t) !in dir
    ensures Completes(Next(dir, pc, t, ino).dir, Next(dir, pc, t, ino).pc, o)
  {
  }

  lemma CompletesIsStable(dir: Dir, later: Dir, used: set<nat>, pc: Pc, o: Outcome)
    requires Completes(dir, pc, o) && Extends(dir, later, used)
    requires KeepsFile(dir, later, pc)
    ensures Completes(later, pc, o)
  {
  }

  lemma ApplyCompletes(w: World, e: Event, p: nat, o: Outcome)
    requires Inv(w) && OwnFiles(w) && Enabled(w, e) && (e.Invoke? ==> !e.call.Open?) && UndisturbedBy(w, e, p)
    requires p in w.procs && Identified(w.dir, o.id) && Completes(w.dir, w.procs[p], o)
    ensures p in Apply(w, e).procs && Completes(Apply(w, e).dir, Apply(w, e).procs[p], o)
    ensures Identified(Apply(w, e).dir, o.id)
  {
    ApplyKeepsInv(w, e);
    if e.Step? && e.p == p {
      StepCompletes(w.dir, w.procs[p], e.t, e.ino, o);
    } else {
      ApplyKeepsOwnFiles(w, e);
      CompletesIsStable(w.dir, Apply(w, e).dir, w.used, w.procs[p], o);
    }
  }

  lemma CompletesOn(worlds: seq<World>, events: seq<Event>, i: nat, j: nat, p: nat, o: Outcome)
    requires IsRun(worlds, events) && NoneOpens(events) && i < j <= |events| && InPeace(worlds, events, i, j, p)
    requires p in worlds[j - 1].procs && Completes(worlds[j - 1].dir, worlds[j - 1].procs[p], o)
    requires Identified(worlds[j - 1].dir, o.id)
    ensures p in worlds[j].procs && Completes(worlds[j].dir, worlds[j].procs[p], o) && Identified(worlds[j].dir, o.id)
  {
    GoesOn(worlds, events, i, j, p);
    ApplyCompletes(worlds[j - 1], events[j - 1], p, o);
  }

  lemma {:induction false} RunCompletes(worlds: seq<World>, events: seq<Event>, i: nat, j: nat, p: nat, o: Outcome)
    requires IsRun(worlds, events) && NoneOpens(events) && i < j <= |events| && InPeace(worlds, events, i, j, p)
    requires events[i] == Invoke(p, Complete(o)) && Identified(worlds[i].dir, o.id)
    ensures p in worlds[j].procs && Completes(worlds[j].dir, worlds[j].procs[p], o) && Identified(worlds[j].dir, o.id)
  {
    if i + 1 < j {
      RunCompletes(worlds, events, i, j - 1, p, o);
      CompletesOn(worlds, events, i, j, p, o);
    } else {
      Called(worlds, events, i, p, Complete(o));
    }
  }

  /**
   What a `complete` of the setup on record answers, however many others race it: the outcome, if that is what is
   claimed, whoever claimed it; and a refusal only where another outcome is claimed.
   */
  lemma {:induction false} CompleteAnswersIff(worlds: seq<World>, events: seq<Event>, i: nat, j: nat, p: nat, o: Outcome)
    requires IsRun(worlds, events) && NoneOpens(events) && i < j <= |events| && InPeace(worlds, events, i, j, p)
    requires events[i] == Invoke(p, Complete(o)) && Identified(worlds[i].dir, o.id)
    requires p in worlds[j].procs && worlds[j].procs[p].Ended?
    ensures Claim in worlds[j].dir
    ensures JournalRace.Answered(worlds[j], p, Completed(o)) <==> ClaimOf(worlds[j].dir) == Some(Terminal(o))
    ensures worlds[j].procs[p] == Ended(Threw) <==> ClaimOf(worlds[j].dir) != Some(Terminal(o))
  {
    RunCompletes(worlds, events, i, j, p, o);
  }

  // ---- begin ----

  /** A `begin` refuses only where the request has been claimed or is another's. */
  predicate Reasoned(dir: Dir, ending: Ending, id: Identity) {
    || (ending == Returned(Owner(id)) && Identified(dir, id))
    || (ending == Returned(Observer(id)) && Identified(dir, id))
    || (ending == Threw && (Claim in dir || (Main in dir && !Identified(dir, id))))
  }

  predicate Begins(dir: Dir, pc: Pc, id: Identity) {
    match pc
    case BeginSeeClaim(mine) => mine == id
    case BeginWrite(mine) => mine == id
    case BeginLink(mine, t) => mine == id && Temp(t) in dir
    case BeginSync(mine, t) => mine == id && Temp(t) in dir && Identified(dir, id)
    case BeginDropTemp(mine, t) => mine == id && Temp(t) in dir && Identified(dir, id)
    case BeginSyncDrop(mine, _) => mine == id && Identified(dir, id)
    case SeeClaim(ForBegin(mine, _)) => mine == id && Main in dir
    case SeeMain(ForBegin(mine, _)) => mine == id && Main in dir
    case LoadClaim(ForBegin(mine, _)) => mine == id && Claim in dir
    case LoadMain(ForBegin(mine, _)) => mine == id && Main in dir
    case Cleanup(_, ending) => Reasoned(dir, ending, id)
    case Ended(ending) => Reasoned(dir, ending, id)
    case _ => false
  }

  lemma StepBegins(dir: Dir, pc: Pc, t: nat, ino: nat, id: Identity)
    requires Coherent(dir) && JournalRace.Knows(dir, pc) && Begins(dir, pc, id)
    requires pc.BeginWrite? ==> Temp(t) !in dir
    ensures Begins(Next(dir, pc, t, ino).dir, Next(dir, pc, t, ino).pc, id)
  {
  }

  lemma BeginsIsStable(dir: Dir, later: Dir, used: set<nat>, pc: Pc, id: Identity)
    requires Begins(dir, pc, id) && Extends(dir, later, used)
    requires KeepsFile(dir, later, pc)
    ensures Begins(later, pc, id)
  {
  }

  lemma ApplyBegins(w: World, e: Event, p: nat, id: Identity)
    requires Inv(w) && OwnFiles(w) && Enabled(w, e) && (e.Invoke? ==> !e.call.Open?) && UndisturbedBy(w, e, p)
    requires p in w.procs && Begins(w.dir, w.procs[p], id)
    ensures p in Apply(w, e).procs && Begins(Apply(w, e).dir, Apply(w, e).procs[p], id)
  {
    ApplyKeepsInv(w, e);
    if e.Step? && e.p == p {
      StepBegins(w.dir, w.procs[p], e.t, e.ino, id);
    } else {
      ApplyKeepsOwnFiles(w, e);
      BeginsIsStable(w.dir, Apply(w, e).dir, w.used, w.procs[p], id);
    }
  }

  lemma BeginsOn(worlds: seq<World>, events: seq<Event>, i: nat, j: nat, p: nat, id: Identity)
    requires IsRun(worlds, events) && NoneOpens(events) && i < j <= |events| && InPeace(worlds, events, i, j, p)
    requires p in worlds[j - 1].procs && Begins(worlds[j - 1].dir, worlds[j - 1].procs[p], id)
    ensures p in worlds[j].procs && Begins(worlds[j].dir, worlds[j].procs[p], id)
  {
    GoesOn(worlds, events, i, j, p);
    ApplyBegins(worlds[j - 1], events[j - 1], p, id);
  }

  lemma {:induction false} RunBegins(worlds: seq<World>, events: seq<Event>, i: nat, j: nat, p: nat, id: Identity)
    requires IsRun(worlds, events) && NoneOpens(events) && i < j <= |events| && InPeace(worlds, events, i, j, p)
    requires events[i] == Invoke(p, Begin(id))
    ensures p in worlds[j].procs && Begins(worlds[j].dir, worlds[j].procs[p], id)
  {
    if i + 1 < j {
      RunBegins(worlds, events, i, j - 1, p, id);
      BeginsOn(worlds, events, i, j, p, id);
    } else {
      Called(worlds, events, i, p, Begin(id));
    }
  }

  /** However many race it, a `begin` owns or observes its own setup, or finds it claimed or another's. */
  lemma {:induction false} BeginAnswers(worlds: seq<World>, events: seq<Event>, i: nat, j: nat, p: nat, id: Identity)
    requires IsRun(worlds, events) && NoneOpens(events) && i < j <= |events| && InPeace(worlds, events, i, j, p)
    requires events[i] == Invoke(p, Begin(id))
    requires p in worlds[j].procs && worlds[j].procs[p].Ended?
    ensures Main in worlds[j].dir && (!Identified(worlds[j].dir, id) ==> worlds[j].procs[p] == Ended(Threw))
    ensures Claim !in worlds[j].dir && Identified(worlds[j].dir, id) ==>
              JournalRace.Answered(worlds[j], p, Owner(id)) || JournalRace.Answered(worlds[j], p, Observer(id))
  {
    RunBegins(worlds, events, i, j, p, id);
    RunKeepsInv(worlds, events, j);
  }

  // ---- read ----

  /** A read that began where a record stood. */
  predicate Reads(dir: Dir, pc: Pc, stood: bool) {
    && (stood ==> Main in dir)
    && match pc
       case SeeClaim(reader) => reader == ForRead
       case SeeMain(reader) => reader == ForRead
       case LoadClaim(reader) => reader == ForRead && Claim in dir
       case LoadMain(reader) => reader == ForRead && Main in dir
       case Ended(ending) => ending.Returned? && ending.answer.Found? && (stood ==> ending.answer.record.Some?)
       case _ => false
  }

  lemma StepReads(dir: Dir, pc: Pc, t: nat, ino: nat, stood: bool)
    requires Coherent(dir) && Reads(dir, pc, stood)
    ensures Reads(Next(dir, pc, t, ino).dir, Next(dir, pc, t, ino).pc, stood)
  {
  }

  lemma ApplyReads(w: World, e: Event, p: nat, stood: bool)
    requires Inv(w) && Enabled(w, e) && UndisturbedBy(w, e, p)
    requires p in w.procs && Reads(w.dir, w.procs[p], stood)
    ensures p in Apply(w, e).procs && Reads(Apply(w, e).dir, Apply(w, e).procs[p], stood)
  {
    ApplyKeepsInv(w, e);
    if e.Step? && e.p == p {
      StepReads(w.dir, w.procs[p], e.t, e.ino, stood);
    }
  }

  lemma ReadsOn(worlds: seq<World>, events: seq<Event>, i: nat, j: nat, p: nat, stood: bool)
    requires IsRun(worlds, events) && NoneOpens(events) && i < j <= |events| && InPeace(worlds, events, i, j, p)
    requires p in worlds[j - 1].procs && Reads(worlds[j - 1].dir, worlds[j - 1].procs[p], stood)
    ensures p in worlds[j].procs && Reads(worlds[j].dir, worlds[j].procs[p], stood)
  {
    GoesOn(worlds, events, i, j, p);
    ApplyReads(worlds[j - 1], events[j - 1], p, stood);
  }

  lemma {:induction false} RunReads(worlds: seq<World>, events: seq<Event>, i: nat, j: nat, p: nat)
    requires IsRun(worlds, events) && NoneOpens(events) && i < j <= |events| && InPeace(worlds, events, i, j, p)
    requires events[i] == Invoke(p, Read)
    ensures p in worlds[j].procs && Reads(worlds[j].dir, worlds[j].procs[p], Main in worlds[i].dir)
  {
    if i + 1 < j {
      RunReads(worlds, events, i, j - 1, p);
      ReadsOn(worlds, events, i, j, p, Main in worlds[i].dir);
    } else {
      Called(worlds, events, i, p, Read);
    }
  }

  /** A read answers, whatever happens meanwhile, and finds a record where one stood when it was called. */
  lemma {:induction false} ReadAnswers(worlds: seq<World>, events: seq<Event>, i: nat, j: nat, p: nat)
    requires IsRun(worlds, events) && NoneOpens(events) && i < j <= |events| && InPeace(worlds, events, i, j, p)
    requires events[i] == Invoke(p, Read) && p in worlds[j].procs && worlds[j].procs[p].Ended?
    ensures var ending := worlds[j].procs[p].ending;
            ending.Returned? && ending.answer.Found? && (Main in worlds[i].dir ==> ending.answer.record.Some?)
  {
    RunReads(worlds, events, i, j, p);
  }
}
