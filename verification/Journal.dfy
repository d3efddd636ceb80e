/**
 The environment-setup outcome journal, one file operation at a time.

 A request has two names in the spool directory: its main record and its terminal claim. Every call of the
 spool (`begin`, `complete`, `acknowledge`, `readExact`, and opening the spool) is a program whose steps are single
 file operations; `Next` performs one of them. Two environments run these programs: many processes interleaved
 (module JournalRace) and one daemon losing power (module JournalPower). JournalSpool writes the same calls as
 straight-line code.
 */
module Journal {
  import opened Wrappers

  /** What a setup request is, apart from its request id: every record below belongs to one request id. */
  datatype Identity = Identity(name: string, generation: string)

  /** A terminal outcome in its canonical form, which comparison by canonical text turns into equality. */
  datatype Outcome = Outcome(id: Identity, result: string)

  datatype Record = Provisioning(id: Identity) | Terminal(outcome: Outcome)

  /** A directory entry leads to an inode; linking and renaming share it rather than copy it. */
  datatype File = File(ino: nat, record: Record)

  datatype Name = Main | Claim | Temp(n: nat)

  type Dir = map<Name, File>

  function Lookup(dir: Dir, name: Name): Option<Record> {
    if name in dir then Some(dir[name].record) else None
  }

  function Remove(dir: Dir, name: Name): Dir {
    map n | n in dir && n != name :: dir[n]
  }

  /** What `readExact` answers when nothing else touches the directory: the claim overrides the main record. */
  function Reading(dir: Dir): Option<Record> {
    if Claim in dir then Lookup(dir, Claim) else Lookup(dir, Main)
  }

  function IdentityOf(record: Record): Identity {
    match record
    case Provisioning(id) => id
    case Terminal(outcome) => outcome.id
  }

  datatype Call =
    | Open(temps: seq<nat>)
    | Read
    | Begin(id: Identity)
    | Complete(outcome: Outcome)
    | Acknowledge(outcome: Outcome)

  /** What a call hands back when it does not throw. */
  datatype Answer =
    | Owner(id: Identity)
    | Observer(id: Identity)
    | Completed(outcome: Outcome)
    | Found(record: Option<Record>)
    | Done

  /** Which call is reading the exact record, and what it had already learned. */
  datatype Reader =
    | ForRead
    | ForBegin(id: Identity, t: nat)
    | ForComplete(outcome: Outcome)
    | ForAcknowledge(outcome: Outcome, mainSeen: bool, claimSeen: bool)

  /** Where a call stands: the file operation it performs next, with the locals it still needs. */
  datatype Pc =
    | OpenSync(temps: seq<nat>)
    | ScavengeLook(temps: seq<nat>)
    | ScavengeDrop(t: nat, temps: seq<nat>)
    | ScavengeSync(temps: seq<nat>)
    | SeeClaim(reader: Reader)
    | SeeMain(reader: Reader)
    | LoadClaim(reader: Reader)
    | LoadMain(reader: Reader)
    | BeginSeeClaim(id: Identity)
    | BeginWrite(id: Identity)
    | BeginLink(id: Identity, t: nat)
    | BeginSync(id: Identity, t: nat)
    | BeginDropTemp(id: Identity, t: nat)
    | BeginSyncDrop(id: Identity, t: nat)
    | CompleteWrite(outcome: Outcome)
    | CompleteLink(outcome: Outcome, t: nat)
    | CompleteSyncClaim(outcome: Outcome, t: nat)
    | CompleteCompare(outcome: Outcome, t: nat)
    | CompletePromote(outcome: Outcome, t: nat)
    | CompleteSyncPromotion(outcome: Outcome, t: nat)
    | AckSeeMain(outcome: Outcome)
    | AckSeeClaim(outcome: Outcome, mainSeen: bool)
    | AckDropMain(outcome: Outcome, claimSeen: bool)
    | AckSyncMain(outcome: Outcome, claimSeen: bool)
    | AckDropClaim(outcome: Outcome)
    | AckSyncClaim(outcome: Outcome)
    | Cleanup(t: nat, ending: Ending)
    | Ended(ending: Ending)

  datatype Ending = Returned(answer: Answer) | Threw

  function Start(call: Call): Pc {
    match call
    case Open(temps) => OpenSync(temps)
    case Read => SeeClaim(ForRead)
    case Begin(id) => BeginSeeClaim(id)
    case Complete(outcome) => SeeClaim(ForComplete(outcome))
    case Acknowledge(outcome) => AckSeeMain(outcome)
  }

  /** Where an exception leads: a temporary file already written is removed on the way out. */
  function Unwind(pc: Pc): Pc {
    match pc
    case BeginLink(_, t) => Cleanup(t, Threw)
    case BeginSync(_, t) => Cleanup(t, Threw)
    case BeginDropTemp(_, t) => Cleanup(t, Threw)
    case BeginSyncDrop(_, t) => Cleanup(t, Threw)
    case CompleteLink(_, t) => Cleanup(t, Threw)
    case CompleteSyncClaim(_, t) => Cleanup(t, Threw)
    case CompleteCompare(_, t) => Cleanup(t, Threw)
    case CompletePromote(_, t) => Cleanup(t, Threw)
    case CompleteSyncPromotion(_, t) => Cleanup(t, Threw)
    case SeeClaim(ForBegin(_, t)) => Cleanup(t, Threw)
    case SeeMain(ForBegin(_, t)) => Cleanup(t, Threw)
    case LoadClaim(ForBegin(_, t)) => Cleanup(t, Threw)
    case LoadMain(ForBegin(_, t)) => Cleanup(t, Threw)
    case _ => Ended(Threw)
  }

  /** What a call does with the exact record it has just read. */
  function AfterRead(found: Option<Record>, reader: Reader): Pc {
    match reader
    case ForRead => Ended(Returned(Found(found)))
    case ForBegin(id, t) =>
      Cleanup(t, if found == Some(Provisioning(id)) then Returned(Observer(id)) else Threw)
    case ForComplete(outcome) =>
      if found == Some(Terminal(outcome)) then Ended(Returned(Completed(outcome)))
      else if found == Some(Provisioning(outcome.id)) then CompleteWrite(outcome)
      else Ended(Threw)
    case ForAcknowledge(outcome, mainSeen, claimSeen) =>
      if found != Some(Terminal(outcome)) then Ended(Threw)
      else if mainSeen then AckDropMain(outcome, claimSeen)
      else if claimSeen then AckDropClaim(outcome)
      else Ended(Returned(Done))
  }

  /** A temporary hard link that the main record or the claim already represents. */
  predicate Represented(dir: Dir, t: nat) {
    Temp(t) in dir &&
    ((Main in dir && dir[Main].ino == dir[Temp(t)].ino) ||
     (Claim in dir && dir[Claim].ino == dir[Temp(t)].ino))
  }

  /** A directory after one operation, where its call then stands, and whether the directory was fsynced. */
  datatype Moved = Moved(dir: Dir, pc: Pc, synced: bool)

  /**
   Performs the file operation `pc` stands at. `t` and `ino` are the random suffix and the inode of a temporary file,
   should one be written; an existing name fails the exclusive create.
   */
  function Next(dir: Dir, pc: Pc, t: nat, ino: nat): Moved {
    match pc
    case OpenSync(temps) => Moved(dir, ScavengeLook(temps), true)
    case ScavengeLook(temps) =>
      if temps == [] then Moved(dir, Ended(Returned(Done)), false)
      else if Represented(dir, temps[0]) then Moved(dir, ScavengeDrop(temps[0], temps[1..]), false)
      else Moved(dir, ScavengeLook(temps[1..]), false)
    case ScavengeDrop(stale, temps) =>
      if Temp(stale) in dir then Moved(Remove(dir, Temp(stale)), ScavengeSync(temps), false)
      else Moved(dir, Unwind(pc), false)
    case ScavengeSync(temps) => Moved(dir, ScavengeLook(temps), true)

    case SeeClaim(reader) => Moved(dir, if Claim in dir then LoadClaim(reader) else SeeMain(reader), false)
    case SeeMain(reader) => Moved(dir, if Main in dir then LoadMain(reader) else AfterRead(None, reader), false)
    case LoadClaim(reader) =>
      if Claim in dir && dir[Claim].record.Terminal? then
        Moved(dir, AfterRead(Some(dir[Claim].record), reader), false)
      else Moved(dir, Unwind(pc), false)
    case LoadMain(reader) =>
      if Main in dir then Moved(dir, AfterRead(Some(dir[Main].record), reader), false)
      else Moved(dir, Unwind(pc), false)

    case BeginSeeClaim(id) => Moved(dir, if Claim in dir then Ended(Threw) else BeginWrite(id), false)
    case BeginWrite(id) =>
      if Temp(t) in dir then Moved(dir, Ended(Threw), false)
      else Moved(dir[Temp(t) := File(ino, Provisioning(id))], BeginLink(id, t), false)
    case BeginLink(id, mine) =>
      if Temp(mine) !in dir then Moved(dir, Unwind(pc), false)
      else if Main in dir then Moved(dir, SeeClaim(ForBegin(id, mine)), false)
      else Moved(dir[Main := dir[Temp(mine)]], BeginSync(id, mine), false)
    case BeginSync(id, mine) => Moved(dir, BeginDropTemp(id, mine), true)
    case BeginDropTemp(id, mine) =>
      if Temp(mine) in dir then Moved(Remove(dir, Temp(mine)), BeginSyncDrop(id, mine), false)
      else Moved(dir, Unwind(pc), false)
    case BeginSyncDrop(id, mine) => Moved(dir, Cleanup(mine, Returned(Owner(id))), true)

    case CompleteWrite(outcome) =>
      if Temp(t) in dir then Moved(dir, Ended(Threw), false)
      else Moved(dir[Temp(t) := File(ino, Terminal(outcome))], CompleteLink(outcome, t), false)
    case CompleteLink(outcome, mine) =>
      if Temp(mine) !in dir then Moved(dir, Unwind(pc), false)
      else if Claim in dir then Moved(dir, CompleteCompare(outcome, mine), false)
      else Moved(dir[Claim := dir[Temp(mine)]], CompleteSyncClaim(outcome, mine), false)
    case CompleteSyncClaim(outcome, mine) => Moved(dir, CompletePromote(outcome, mine), true)
    case CompleteCompare(outcome, mine) =>
      if Lookup(dir, Claim) == Some(Terminal(outcome)) then Moved(dir, CompletePromote(outcome, mine), false)
      else Moved(dir, Unwind(pc), false)
    case CompletePromote(outcome, mine) =>
      if Temp(mine) in dir then
        Moved(Remove(dir[Main := dir[Temp(mine)]], Temp(mine)), CompleteSyncPromotion(outcome, mine), false)
      else Moved(dir, Unwind(pc), false)
    case CompleteSyncPromotion(outcome, mine) => Moved(dir, Cleanup(mine, Returned(Completed(outcome))), true)

    case AckSeeMain(outcome) => Moved(dir, AckSeeClaim(outcome, Main in dir), false)
    case AckSeeClaim(outcome, mainSeen) =>
      if !mainSeen && Claim !in dir then Moved(dir, Ended(Returned(Done)), false)
      else Moved(dir, SeeClaim(ForAcknowledge(outcome, mainSeen, Claim in dir)), false)
    case AckDropMain(outcome, claimSeen) => Moved(Remove(dir, Main), AckSyncMain(outcome, claimSeen), false)
    case AckSyncMain(outcome, claimSeen) =>
      Moved(dir, if claimSeen then AckDropClaim(outcome) else Ended(Returned(Done)), true)
    case AckDropClaim(outcome) => Moved(Remove(dir, Claim), AckSyncClaim(outcome), false)
    case AckSyncClaim(outcome) => Moved(dir, Ended(Returned(Done)), true)

    case Cleanup(mine, ending) => Moved(Remove(dir, Temp(mine)), Ended(ending), false)
    case Ended(_) => Moved(dir, pc, false)
  }
}
