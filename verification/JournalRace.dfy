/**
 Any number of processes at work on one request's journal, their file operations interleaved one by one. A process
 may die, or any of its operations may throw, at every step. Nobody acknowledges.
 */
module JournalRace {
  import opened Wrappers
  import opened Journal

  /** The shared directory, every call ever made by the number of its process, and the random suffixes drawn so far. */
  datatype World = World(dir: Dir, procs: map<nat, Pc>, dead: set<nat>, used: set<nat>)

  datatype Event =
    | Invoke(p: nat, call: Call)
    | Step(p: nat, t: nat, ino: nat)
    | Throw(p: nat)
    | Die(p: nat)

  predicate Running(w: World, p: nat) {
    p in w.procs && p !in w.dead && !w.procs[p].Ended?
  }

  /** Six random bytes beside the process id: a suffix is never drawn twice. */
  predicate Enabled(w: World, e: Event) {
    match e
    case Invoke(p, call) => p !in w.procs && !call.Acknowledge?
    case Step(p, t, _) => Running(w, p) && t !in w.used
    case Throw(p) => Running(w, p)
    case Die(p) => Running(w, p)
  }

  function Apply(w: World, e: Event): World
    requires Enabled(w, e)
  {
    match e
    case Invoke(p, call) => w.(procs := w.procs[p := Journal.Start(call)])
    case Step(p, t, ino) =>
      var m := Next(w.dir, w.procs[p], t, ino);
      w.(dir := m.dir, procs := w.procs[p := m.pc], used := w.used + {t})
    case Throw(p) => w.(procs := w.procs[p := Unwind(w.procs[p])])
    case Die(p) => w.(dead := w.dead + {p})
  }

  /** Before anybody has called: whatever the directory coherently holds. */
  ghost predicate Initial(w: World) {
    Coherent(w.dir) && w.procs == map[] && w.dead == {}
  }

  ghost predicate IsRun(worlds: seq<World>, events: seq<Event>) {
    && |worlds| == |events| + 1
    && Initial(worlds[0])
    && forall i :: 0 <= i < |events| ==> Enabled(worlds[i], events[i]) && worlds[i + 1] == Apply(worlds[i], events[i])
  }

  // ---- the invariant ----

  function ClaimOf(dir: Dir): Option<Record> { Lookup(dir, Claim) }

  function MainOf(dir: Dir): Option<Record> { Lookup(dir, Main) }

  /** The claim is terminal, and a main record is either the claimed outcome or the provisioning it completes. */
  predicate Coherent(dir: Dir) {
    && (Claim in dir ==> Main in dir && dir[Claim].record.Terminal? &&
                         IdentityOf(dir[Main].record) == IdentityOf(dir[Claim].record))
    && (Main in dir && dir[Main].record.Terminal? ==> ClaimOf(dir) == MainOf(dir))
  }

  /** A process that has won the main record, or goes on to tell its caller so. */
  predicate Owns(pc: Pc) {
    match pc
    case BeginSync(_, _) => true
    case BeginDropTemp(_, _) => true
    case BeginSyncDrop(_, _) => true
    case Cleanup(_, ending) => ending.Returned? && ending.answer.Owner?
    case Ended(ending) => ending.Returned? && ending.answer.Owner?
    case _ => false
  }

  predicate Holding(dir: Dir, t: nat, record: Record) {
    Temp(t) in dir ==> dir[Temp(t)].record == record
  }

  /** A process told its caller, or is about to, that the journal says this. */
  predicate Truthful(dir: Dir, ending: Ending) {
    match ending
    case Threw => true
    case Returned(Completed(o)) => ClaimOf(dir) == Some(Terminal(o))
    case Returned(Owner(id)) => Main in dir && IdentityOf(dir[Main].record) == id
    case Returned(Observer(id)) => Main in dir && IdentityOf(dir[Main].record) == id
    case Returned(Found(Some(Terminal(o)))) => ClaimOf(dir) == Some(Terminal(o))
    case Returned(Found(Some(Provisioning(id)))) => Main in dir && IdentityOf(dir[Main].record) == id
    case Returned(_) => true
  }

  /** What each program counter knows about the directory. */
  predicate Knows(dir: Dir, pc: Pc) {
    match pc
    case SeeClaim(reader) => ReaderKnows(dir, reader)
    case SeeMain(reader) => ReaderKnows(dir, reader)
    case LoadClaim(reader) => ReaderKnows(dir, reader)
    case LoadMain(reader) => ReaderKnows(dir, reader)
    case BeginLink(id, t) => Holding(dir, t, Provisioning(id))
    case BeginSync(id, t) => Truthful(dir, Returned(Owner(id)))
    case BeginDropTemp(id, t) => Truthful(dir, Returned(Owner(id)))
    case BeginSyncDrop(id, t) => Truthful(dir, Returned(Owner(id)))
    case CompleteWrite(o) => Main in dir && IdentityOf(dir[Main].record) == o.id
    case CompleteLink(o, t) => Main in dir && IdentityOf(dir[Main].record) == o.id && Holding(dir, t, Terminal(o))
    case CompleteSyncClaim(o, t) => ClaimOf(dir) == Some(Terminal(o)) && Holding(dir, t, Terminal(o))
    case CompleteCompare(o, t) => Holding(dir, t, Terminal(o))
    case CompletePromote(o, t) => ClaimOf(dir) == Some(Terminal(o)) && Holding(dir, t, Terminal(o))
    case CompleteSyncPromotion(o, t) => ClaimOf(dir) == Some(Terminal(o))
    case AckSeeMain(_) => false
    case AckSeeClaim(_, _) => false
    case AckDropMain(_, _) => false
    case AckSyncMain(_, _) => false
    case AckDropClaim(_) => false
    case AckSyncClaim(_) => false
    case Cleanup(_, ending) => Truthful(dir, ending)
    case Ended(ending) => Truthful(dir, ending)
    case _ => true
  }

  predicate ReaderKnows(dir: Dir, reader: Reader) {
    !reader.ForAcknowledge?
  }

  /** The temporary file a call still counts as its own. */
  function OwnTemp(pc: Pc): Option<nat> {
    match pc
    case BeginLink(_, t) => Some(t)
    case CompleteLink(_, t) => Some(t)
    case CompleteSyncClaim(_, t) => Some(t)
    case CompleteCompare(_, t) => Some(t)
    case CompletePromote(_, t) => Some(t)
    case _ => None
  }

  ghost predicate Inv(w: World) {
    && Coherent(w.dir)
    && (forall p :: p in w.procs ==> Knows(w.dir, w.procs[p]))
    && (forall p :: p in w.procs && OwnTemp(w.procs[p]).Some? ==> OwnTemp(w.procs[p]).value in w.used)
    && (forall p, q :: p in w.procs && q in w.procs && Owns(w.procs[p]) && Owns(w.procs[q]) ==> p == q)
  }

  /** What no step of any process undoes: the claim, the identity on record, and the temporary files still counted on. */
  ghost predicate Extends(dir: Dir, later: Dir, used: set<nat>) {
    && (Claim in dir ==> ClaimOf(later) == ClaimOf(dir))
    && (Main in dir ==> Main in later && IdentityOf(later[Main].record) == IdentityOf(dir[Main].record))
    && (forall t :: t in used && Temp(t) in later ==> Temp(t) in dir && later[Temp(t)].record == dir[Temp(t)].record)
  }

  lemma KnowsIsStable(dir: Dir, later: Dir, used: set<nat>, pc: Pc)
    requires Extends(dir, later, used) && Knows(dir, pc)
    requires OwnTemp(pc).Some? ==> OwnTemp(pc).value in used
    ensures Knows(later, pc)
  {
  }

  /** One operation keeps the directory coherent and undoes nothing. */
  lemma StepKeepsDirectory(dir: Dir, pc: Pc, t: nat, ino: nat, used: set<nat>)
    requires Coherent(dir) && Knows(dir, pc) && t !in used
    ensures Coherent(Next(dir, pc, t, ino).dir)
    ensures Extends(dir, Next(dir, pc, t, ino).dir, used)
  {
  }

  /** It leaves its call knowing what it claims to know. */
  lemma StepKeepsKnowledge(dir: Dir, pc: Pc, t: nat, ino: nat)
    requires Coherent(dir) && Knows(dir, pc)
    ensures Knows(Next(dir, pc, t, ino).dir, Next(dir, pc, t, ino).pc)
  {
    if pc.SeeClaim? || pc.SeeMain? || pc.LoadClaim? || pc.LoadMain? {
      ReadKeepsKnowledge(dir, pc, t, ino);
    } else if pc.CompleteWrite? || pc.CompleteLink? || pc.CompleteSyncClaim? || pc.CompleteCompare?
              || pc.CompletePromote? || pc.CompleteSyncPromotion? {
      CompleteKeepsKnowledge(dir, pc, t, ino);
    }
  }

  lemma ReadKeepsKnowledge(dir: Dir, pc: Pc, t: nat, ino: nat)
    requires Coherent(dir) && Knows(dir, pc)
    requires pc.SeeClaim? || pc.SeeMain? || pc.LoadClaim? || pc.LoadMain?
    ensures Knows(Next(dir, pc, t, ino).dir, Next(dir, pc, t, ino).pc)
  {
  }

  lemma CompleteKeepsKnowledge(dir: Dir, pc: Pc, t: nat, ino: nat)
    requires Coherent(dir) && Knows(dir, pc)
    requires pc.CompleteWrite? || pc.CompleteLink? || pc.CompleteSyncClaim? || pc.CompleteCompare?
             || pc.CompletePromote? || pc.CompleteSyncPromotion?
    ensures Knows(Next(dir, pc, t, ino).dir, Next(dir, pc, t, ino).pc)
  {
  }

  lemma StepOwnership(dir: Dir, pc: Pc, t: nat, ino: nat)
    requires Knows(dir, pc)
    ensures var m := Next(dir, pc, t, ino);
            (OwnTemp(m.pc) == None || OwnTemp(m.pc) == OwnTemp(pc) || OwnTemp(m.pc) == Some(t))
            && (Owns(m.pc) ==> Main in m.dir && (Owns(pc) || Main !in dir))
  {
  }

  lemma UnwindIsSound(dir: Dir, pc: Pc)
    requires Knows(dir, pc)
    ensures Knows(dir, Unwind(pc)) && !Owns(Unwind(pc)) && OwnTemp(Unwind(pc)).None?
  {
  }

  /** The invariant is inductive, and every step extends the directory it finds. */
  lemma ApplyKeepsInv(w: World, e: Event)
    requires Inv(w) && Enabled(w, e)
    ensures Inv(Apply(w, e))
    ensures Extends(w.dir, Apply(w, e).dir, w.used)
  {
    var w' := Apply(w, e);
    match e
    case Invoke(p, call) =>
    case Throw(p) =>
      UnwindIsSound(w.dir, w.procs[p]);
    case Die(p) =>
    case Step(p, t, ino) =>
      var pc := w.procs[p];
      StepKeepsDirectory(w.dir, pc, t, ino, w.used);
      StepKeepsKnowledge(w.dir, pc, t, ino);
      StepOwnership(w.dir, pc, t, ino);
      forall q | q in w'.procs ensures Knows(w'.dir, w'.procs[q]) {
        if q != p {
          KnowsIsStable(w.dir, w'.dir, w.used, w.procs[q]);
        }
      }
      forall q | q in w.procs && Owns(w.procs[q]) ensures Main in w.dir {
        OwnerHasMain(w.dir, w.procs[q]);
      }
  }

  lemma OwnerHasMain(dir: Dir, pc: Pc)
    requires Knows(dir, pc) && Owns(pc)
    ensures Main in dir
  {
  }

  lemma {:induction false} RunKeepsInv(worlds: seq<World>, events: seq<Event>, i: nat)
    requires IsRun(worlds, events) && i <= |events|
    ensures Inv(worlds[i])
  {
    if i > 0 {
      RunKeepsInv(worlds, events, i - 1);
      ApplyKeepsInv(worlds[i - 1], events[i - 1]);
    }
  }

  // ---- the theorems, over every run ----

  ghost predicate Answered(w: World, p: nat, answer: Answer) {
    p in w.procs && w.procs[p] == Ended(Returned(answer))
  }

  /** At most one call of `begin` is told it owns the setup. */
  lemma {:induction false} AtMostOneOwner(worlds: seq<World>, events: seq<Event>, i: nat, p: nat, q: nat,
                                          left: Identity, right: Identity)
    requires IsRun(worlds, events) && i <= |events|
    requires Answered(worlds[i], p, Owner(left)) && Answered(worlds[i], q, Owner(right))
    ensures p == q
  {
    RunKeepsInv(worlds, events, i);
  }

  /** A terminal claim, once linked, is the same at every later step, and so is the identity on record. */
  lemma {:induction false} ClaimNeverChanges(worlds: seq<World>, events: seq<Event>, i: nat, j: nat)
    requires IsRun(worlds, events) && i <= j <= |events|
    ensures Claim in worlds[i].dir ==> ClaimOf(worlds[j].dir) == ClaimOf(worlds[i].dir)
    ensures Main in worlds[i].dir ==>
              Main in worlds[j].dir && IdentityOf(worlds[j].dir[Main].record) == IdentityOf(worlds[i].dir[Main].record)
  {
    if i < j {
      ClaimNeverChanges(worlds, events, i, j - 1);
      RunKeepsInv(worlds, events, j - 1);
      ApplyKeepsInv(worlds[j - 1], events[j - 1]);
    }
  }

  /** A main record that says terminal says what the claim says. */
  lemma {:induction false} TerminalMainIsTheClaim(worlds: seq<World>, events: seq<Event>, i: nat, o: Outcome)
    requires IsRun(worlds, events) && i <= |events|
    requires MainOf(worlds[i].dir) == Some(Terminal(o))
    ensures ClaimOf(worlds[i].dir) == Some(Terminal(o))
  {
    RunKeepsInv(worlds, events, i);
  }

  /** Whatever a `complete` returned is the claim from then on, and what every read of a terminal record answers. */
  lemma {:induction false} CompleteReturnsTheClaim(worlds: seq<World>, events: seq<Event>, i: nat, j: nat, p: nat,
                                                   o: Outcome)
    requires IsRun(worlds, events) && i <= j <= |events|
    requires Answered(worlds[i], p, Completed(o)) || Answered(worlds[i], p, Found(Some(Terminal(o))))
    ensures ClaimOf(worlds[j].dir) == Some(Terminal(o))
    ensures Reading(worlds[j].dir) == Some(Terminal(o))
  {
    RunKeepsInv(worlds, events, i);
    ClaimNeverChanges(worlds, events, i, j);
  }

  /** Two `complete` calls, of any processes at any two moments, never return different outcomes. */
  lemma {:induction false} OneOutcome(worlds: seq<World>, events: seq<Event>, i: nat, j: nat, p: nat, q: nat,
                                      left: Outcome, right: Outcome)
    requires IsRun(worlds, events) && i <= |events| && j <= |events|
    requires Answered(worlds[i], p, Completed(left)) && Answered(worlds[j], q, Completed(right))
    ensures left == right
  {
    CompleteReturnsTheClaim(worlds, events, i, |events|, p, left);
    CompleteReturnsTheClaim(worlds, events, j, |events|, q, right);
  }

  /** The outcome that is returned completes the very setup its owner began. */
  lemma {:induction false} OutcomeAnswersTheOwner(worlds: seq<World>, events: seq<Event>, i: nat, j: nat, p: nat, q: nat,
                                                  id: Identity, o: Outcome)
    requires IsRun(worlds, events) && i <= |events| && j <= |events|
    requires Answered(worlds[i], p, Owner(id)) && Answered(worlds[j], q, Completed(o))
    ensures o.id == id
  {
    var n := |events|;
    RunKeepsInv(worlds, events, i);
    ClaimNeverChanges(worlds, events, i, n);
    CompleteReturnsTheClaim(worlds, events, j, n, q, o);
    RunKeepsInv(worlds, events, n);
  }
}
