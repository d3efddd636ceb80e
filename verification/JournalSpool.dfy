/**
 The spool's calls as straight-line code on one directory, with no other process about. What each does to the
 directory as a whole is a function without temporary files; each method computes that function, and so do the steps
 of module Journal when they run alone.
 */
module JournalSpool {
  import opened Wrappers
  import opened Journal

  /** A claim that says provisioning is no claim; reading it throws. */
  predicate Readable(dir: Dir) {
    Claim in dir ==> dir[Claim].record.Terminal?
  }

  /** The caller owns the setup when neither record stands; a matching provisioning makes it an observer. */
  function Beginning(dir: Dir, id: Identity, t: nat, ino: nat): (Dir, Ending) {
    if Claim in dir || Temp(t) in dir then (dir, Threw)
    else if Main !in dir then (dir[Main := File(ino, Provisioning(id))], Returned(Owner(id)))
    else (dir, if dir[Main].record == Provisioning(id) then Returned(Observer(id)) else Threw)
  }

  /** The outcome of a matching provisioning is stored under both names; the outcome already on record is returned. */
  function Completing(dir: Dir, outcome: Outcome, t: nat, ino: nat): (Dir, Ending) {
    if Readable(dir) && Reading(dir) == Some(Terminal(outcome)) then (dir, Returned(Completed(outcome)))
    else if Readable(dir) && Reading(dir) == Some(Provisioning(outcome.id)) && Temp(t) !in dir then
      var file := File(ino, Terminal(outcome));
      (dir[Claim := file][Main := file], Returned(Completed(outcome)))
    else (dir, Threw)
  }

  /** Both names of the outcome on record are removed; any other record stays. */
  function Acknowledging(dir: Dir, outcome: Outcome): (Dir, Ending) {
    if Main !in dir && Claim !in dir then (dir, Returned(Done))
    else if Readable(dir) && Reading(dir) == Some(Terminal(outcome)) then
      (Remove(Remove(dir, Main), Claim), Returned(Done))
    else (dir, Threw)
  }

  /** One temporary link looked at, and gone if a record represents it. */
  function ClearedOf(dir: Dir, t: nat): Dir {
    if Represented(dir, t) then Remove(dir, Temp(t)) else dir
  }

  function Cleared(dir: Dir, temps: seq<nat>): Dir {
    if temps == [] then dir else ClearedOf(Cleared(dir, temps[..|temps| - 1]), temps[|temps| - 1])
  }

  /** Opening the spool removes the listed temporary links that a record already represents, and nothing else. */
  lemma {:induction false} ClearedDropsRepresented(dir: Dir, temps: seq<nat>)
    ensures var to := Cleared(dir, temps);
            && (forall n :: n in to <==> n in dir && !(n.Temp? && n.n in temps && Represented(dir, n.n)))
            && (forall n :: n in to ==> to[n] == dir[n])
  {
    if temps != [] {
      var front, last := temps[..|temps| - 1], temps[|temps| - 1];
      ClearedDropsRepresented(dir, front);
      assert temps == front + [last];
      assert forall t :: t in temps <==> t in front || t == last;
    }
  }

  class Spool {
    var dir: Dir

    constructor (found: Dir)
      ensures dir == found
    {
      dir := found;
    }

    /** What opening does to the directory after the fsync. */
    method Scavenge(temps: seq<nat>)
      modifies this
      ensures dir == Cleared(old(dir), temps)
    {
      for i := 0 to |temps|
        invariant dir == Cleared(old(dir), temps[..i])
      {
        assert temps[..i + 1][..i] == temps[..i];
        if Represented(dir, temps[i]) {
          dir := Remove(dir, Temp(temps[i]));
        }
      }
      assert temps[..|temps|] == temps;
    }

    /** The record under the claim's name if there is one, else under the main name. */
    method ReadExact() returns (found: Option<Record>, threw: bool)
      ensures threw == !Readable(dir)
      ensures !threw ==> found == Reading(dir)
    {
      if Claim in dir {
        return Some(dir[Claim].record), !dir[Claim].record.Terminal?;
      }
      if Main !in dir {
        return None, false;
      }
      return Some(dir[Main].record), false;
    }

    method Begin(id: Identity, t: nat, ino: nat) returns (ending: Ending)
      modifies this
      ensures (dir, ending) == Beginning(old(dir), id, t, ino)
    {
      if Claim in dir {
        return Threw;
      }
      if Temp(t) in dir {
        return Threw;
      }
      dir := dir[Temp(t) := File(ino, Provisioning(id))];
      if Main !in dir {
        dir := dir[Main := dir[Temp(t)]];
        dir := Remove(dir, Temp(t));
        ending := Returned(Owner(id));
      } else {
        var existing, threw := ReadExact();
        ending := if !threw && existing == Some(Provisioning(id)) then Returned(Observer(id)) else Threw;
      }
      dir := Remove(dir, Temp(t));
      assert dir == Beginning(old(dir), id, t, ino).0;
    }

    method Complete(outcome: Outcome, t: nat, ino: nat) returns (ending: Ending)
      modifies this
      ensures (dir, ending) == Completing(old(dir), outcome, t, ino)
    {
      var existing, threw := ReadExact();
      if threw {
        return Threw;
      }
      if existing == Some(Terminal(outcome)) {
        return Returned(Completed(outcome));
      }
      if existing != Some(Provisioning(outcome.id)) || Temp(t) in dir {
        return Threw;
      }
      dir := dir[Temp(t) := File(ino, Terminal(outcome))];
      // The claim was looked for a moment ago and nobody else is about, so the link cannot find one in its way.
      dir := dir[Claim := dir[Temp(t)]];
      dir := Remove(dir[Main := dir[Temp(t)]], Temp(t));
      dir := Remove(dir, Temp(t));
      ending := Returned(Completed(outcome));
      assert dir == Completing(old(dir), outcome, t, ino).0;
    }

    method Acknowledge(outcome: Outcome) returns (ending: Ending)
      modifies this
      ensures (dir, ending) == Acknowledging(old(dir), outcome)
    {
      var mainExists, claimExists := Main in dir, Claim in dir;
      if !mainExists && !claimExists {
        return Returned(Done);
      }
      var existing, threw := ReadExact();
      if threw || existing != Some(Terminal(outcome)) {
        return Threw;
      }
      if mainExists {
        dir := Remove(dir, Main);
      }
      if claimExists {
        dir := Remove(dir, Claim);
      }
      ending := Returned(Done);
      assert dir == Acknowledging(old(dir), outcome).0;
    }
  }

  // ---- the steps of module Journal, alone ----

  datatype Stand = Stand(dir: Dir, pc: Pc)

  /** `n` file operations of one call with nobody else about; a call that has ended stays ended. */
  function Steps(from: Stand, n: nat, t: nat, ino: nat): Stand
    decreases n
  {
    if n == 0 then from
    else
      var moved := Next(from.dir, from.pc, t, ino);
      Steps(Stand(moved.dir, moved.pc), n - 1, t, ino)
  }

  lemma {:induction false} EndedStays(dir: Dir, ending: Ending, n: nat, t: nat, ino: nat)
    ensures Steps(Stand(dir, Ended(ending)), n, t, ino) == Stand(dir, Ended(ending))
  {
    if n > 0 {
      EndedStays(dir, ending, n - 1, t, ino);
    }
  }

  lemma LookStep(dir: Dir, temps: seq<nat>, n: nat, t: nat, ino: nat) returns (cost: nat)
    requires temps != [] && n >= 3
    ensures cost <= 3
    ensures Steps(Stand(dir, ScavengeLook(temps)), n, t, ino)
         == Steps(Stand(ClearedOf(dir, temps[0]), ScavengeLook(temps[1..])), n - cost, t, ino)
  {
    if Represented(dir, temps[0]) {
      var dropped, rest := Remove(dir, Temp(temps[0])), temps[1..];
      assert Steps(Stand(dir, ScavengeLook(temps)), n, t, ino)
          == Steps(Stand(dir, ScavengeDrop(temps[0], rest)), n - 1, t, ino);
      assert Steps(Stand(dir, ScavengeDrop(temps[0], rest)), n - 1, t, ino)
          == Steps(Stand(dropped, ScavengeSync(rest)), n - 2, t, ino);
      cost := 3;
    } else {
      cost := 1;
    }
  }

  lemma {:induction false} ClearedFirst(dir: Dir, temps: seq<nat>)
    requires temps != []
    ensures Cleared(dir, temps) == Cleared(ClearedOf(dir, temps[0]), temps[1..])
  {
    var n := |temps| - 1;
    if n > 0 {
      ClearedFirst(dir, temps[..n]);
      assert temps[..n][1..] == temps[1..][..n - 1];
    }
  }

  lemma {:induction false} ScavengeSteps(dir: Dir, temps: seq<nat>, n: nat, t: nat, ino: nat)
    requires n > 3 * |temps|
    ensures Steps(Stand(dir, ScavengeLook(temps)), n, t, ino) == Stand(Cleared(dir, temps), Ended(Returned(Done)))
    decreases |temps|
  {
    if temps == [] {
      EndedStays(dir, Returned(Done), n - 1, t, ino);
    } else {
      var cost := LookStep(dir, temps, n, t, ino);
      ScavengeSteps(ClearedOf(dir, temps[0]), temps[1..], n - cost, t, ino);
      ClearedFirst(dir, temps);
    }
  }

  lemma OpenSteps(dir: Dir, temps: seq<nat>, t: nat, ino: nat)
    ensures Steps(Stand(dir, Start(Open(temps))), 3 * |temps| + 2, t, ino)
         == Stand(Cleared(dir, temps), Ended(Returned(Done)))
  {
    ScavengeSteps(dir, temps, 3 * |temps| + 1, t, ino);
  }

  function ReadCost(dir: Dir): nat {
    if Claim !in dir && Main in dir then 3 else 2
  }

  /** Reading the exact record, for whichever call, comes down to `Reading`. */
  lemma ReadSteps(dir: Dir, reader: Reader, n: nat, t: nat, ino: nat)
    requires n >= 3
    ensures var found := if Readable(dir) then AfterRead(Reading(dir), reader) else Unwind(LoadClaim(reader));
            Steps(Stand(dir, SeeClaim(reader)), n, t, ino) == Steps(Stand(dir, found), n - ReadCost(dir), t, ino)
  {
    if Claim in dir {
      assert Steps(Stand(dir, SeeClaim(reader)), n, t, ino) == Steps(Stand(dir, LoadClaim(reader)), n - 1, t, ino);
    } else {
      assert Steps(Stand(dir, SeeClaim(reader)), n, t, ino) == Steps(Stand(dir, SeeMain(reader)), n - 1, t, ino);
      if Main in dir {
        assert Steps(Stand(dir, SeeMain(reader)), n - 1, t, ino) == Steps(Stand(dir, LoadMain(reader)), n - 2, t, ino);
      }
    }
  }

  lemma BeginSteps(dir: Dir, id: Identity, t: nat, ino: nat)
    ensures var (to, ending) := Beginning(dir, id, t, ino);
            Steps(Stand(dir, Start(Begin(id))), 7, t, ino) == Stand(to, Ended(ending))
  {
    if Claim in dir {
      EndedStays(dir, Threw, 6, t, ino);
    } else if Temp(t) in dir {
      EndedStays(dir, Threw, 5, t, ino);
    } else {
      var linked := dir[Temp(t) := File(ino, Provisioning(id))];
      assert Steps(Stand(dir, BeginSeeClaim(id)), 7, t, ino) == Steps(Stand(dir, BeginWrite(id)), 6, t, ino);
      assert Steps(Stand(dir, BeginWrite(id)), 6, t, ino) == Steps(Stand(linked, BeginLink(id, t)), 5, t, ino);
      if Main in dir {
        ObserveSteps(dir, id, t, ino);
      } else {
        var _ := OwnSteps(dir, id, t, ino);
      }
    }
  }

  lemma OwnSteps(dir: Dir, id: Identity, t: nat, ino: nat) returns (to: Dir)
    requires Claim !in dir && Main !in dir && Temp(t) !in dir
    ensures Steps(Stand(dir[Temp(t) := File(ino, Provisioning(id))], BeginLink(id, t)), 5, t, ino)
         == Stand(to, Ended(Returned(Owner(id))))
    ensures to == dir[Main := File(ino, Provisioning(id))]
  {
    var d1 := dir[Temp(t) := File(ino, Provisioning(id))];
    var d2 := d1[Main := d1[Temp(t)]];
    LinkMainSteps(d1, id, t, ino);
    DropTempSteps(d2, id, t, ino);
    to := Remove(Remove(d2, Temp(t)), Temp(t));
  }

  lemma LinkMainSteps(dir: Dir, id: Identity, t: nat, ino: nat)
    requires Main !in dir && Temp(t) in dir
    ensures Steps(Stand(dir, BeginLink(id, t)), 5, t, ino)
         == Steps(Stand(dir[Main := dir[Temp(t)]], BeginDropTemp(id, t)), 3, t, ino)
  {
  }

  lemma DropTempSteps(dir: Dir, id: Identity, t: nat, ino: nat)
    requires Temp(t) in dir
    ensures Steps(Stand(dir, BeginDropTemp(id, t)), 3, t, ino)
         == Stand(Remove(Remove(dir, Temp(t)), Temp(t)), Ended(Returned(Owner(id))))
  {
  }

  lemma ObserveSteps(dir: Dir, id: Identity, t: nat, ino: nat)
    requires Claim !in dir && Main in dir && Temp(t) !in dir
    ensures var ending := if dir[Main].record == Provisioning(id) then Returned(Observer(id)) else Threw;
            Steps(Stand(dir[Temp(t) := File(ino, Provisioning(id))], BeginLink(id, t)), 5, t, ino)
            == Stand(dir, Ended(ending))
  {
    var d1 := dir[Temp(t) := File(ino, Provisioning(id))];
    assert Steps(Stand(d1, BeginLink(id, t)), 5, t, ino) == Steps(Stand(d1, SeeClaim(ForBegin(id, t))), 4, t, ino);
    ReadSteps(d1, ForBegin(id, t), 4, t, ino);
    assert Remove(d1, Temp(t)) == dir;
  }

  lemma CompleteSteps(dir: Dir, outcome: Outcome, t: nat, ino: nat)
    ensures var (to, ending) := Completing(dir, outcome, t, ino);
            Steps(Stand(dir, Start(Complete(outcome))), 9, t, ino) == Stand(to, Ended(ending))
  {
    ReadSteps(dir, ForComplete(outcome), 9, t, ino);
    if Readable(dir) && Reading(dir) == Some(Provisioning(outcome.id)) {
      ProvisionedSteps(dir, outcome, t, ino);
    } else {
      EndedStays(dir, Completing(dir, outcome, t, ino).1, 9 - ReadCost(dir), t, ino);
    }
  }

  lemma ProvisionedSteps(dir: Dir, outcome: Outcome, t: nat, ino: nat)
    requires Readable(dir) && Reading(dir) == Some(Provisioning(outcome.id))
    ensures var (to, ending) := Completing(dir, outcome, t, ino);
            Steps(Stand(dir, CompleteWrite(outcome)), 6, t, ino) == Stand(to, Ended(ending))
  {
    if Temp(t) in dir {
      EndedStays(dir, Threw, 5, t, ino);
    } else {
      StoreSteps(dir, outcome, t, ino);
    }
  }

  lemma StoreSteps(dir: Dir, outcome: Outcome, t: nat, ino: nat)
    requires Claim !in dir && Temp(t) !in dir
    ensures Steps(Stand(dir, CompleteWrite(outcome)), 6, t, ino)
         == Stand(Stored(dir, outcome, t, ino), Ended(Returned(Completed(outcome))))
  {
    var d1 := dir[Temp(t) := File(ino, Terminal(outcome))];
    LinkSteps(dir, outcome, t, ino);
    PromoteSteps(d1[Claim := d1[Temp(t)]], outcome, t, ino);
  }

  lemma LinkSteps(dir: Dir, outcome: Outcome, t: nat, ino: nat)
    requires Claim !in dir && Temp(t) !in dir
    ensures var d1 := dir[Temp(t) := File(ino, Terminal(outcome))];
            Steps(Stand(dir, CompleteWrite(outcome)), 6, t, ino)
            == Steps(Stand(d1[Claim := d1[Temp(t)]], CompleteSyncClaim(outcome, t)), 4, t, ino)
  {
  }

  lemma PromoteSteps(dir: Dir, outcome: Outcome, t: nat, ino: nat)
    requires Temp(t) in dir
    ensures Steps(Stand(dir, CompleteSyncClaim(outcome, t)), 4, t, ino)
         == Stand(Remove(Remove(dir[Main := dir[Temp(t)]], Temp(t)), Temp(t)), Ended(Returned(Completed(outcome))))
  {
  }

  /** What the operations make of the directory: the temporary file comes, is linked, is renamed, and is gone. */
  function Stored(dir: Dir, outcome: Outcome, t: nat, ino: nat): (to: Dir)
    requires Temp(t) !in dir
    ensures var file := File(ino, Terminal(outcome)); to == dir[Claim := file][Main := file]
  {
    var d1 := dir[Temp(t) := File(ino, Terminal(outcome))];
    var d2 := d1[Claim := d1[Temp(t)]];
    Remove(Remove(d2[Main := d2[Temp(t)]], Temp(t)), Temp(t))
  }

  lemma AcknowledgeSteps(dir: Dir, outcome: Outcome, t: nat, ino: nat)
    ensures var (to, ending) := Acknowledging(dir, outcome);
            Steps(Stand(dir, Start(Acknowledge(outcome))), 9, t, ino) == Stand(to, Ended(ending))
  {
    if Main !in dir && Claim !in dir {
      NothingSteps(dir, outcome, 9, t, ino);
    } else {
      LookSteps(dir, outcome, 9, t, ino);
      AcknowledgeFound(dir, outcome, t, ino);
    }
  }

  lemma NothingSteps(dir: Dir, outcome: Outcome, n: nat, t: nat, ino: nat)
    requires Main !in dir && Claim !in dir && n >= 2
    ensures Steps(Stand(dir, AckSeeMain(outcome)), n, t, ino) == Stand(dir, Ended(Returned(Done)))
  {
    assert Steps(Stand(dir, AckSeeMain(outcome)), n, t, ino)
        == Steps(Stand(dir, AckSeeClaim(outcome, false)), n - 1, t, ino);
    EndedStays(dir, Returned(Done), n - 2, t, ino);
  }

  lemma LookSteps(dir: Dir, outcome: Outcome, n: nat, t: nat, ino: nat)
    requires n >= 2 && (Main in dir || Claim in dir)
    ensures Steps(Stand(dir, AckSeeMain(outcome)), n, t, ino)
         == Steps(Stand(dir, SeeClaim(ForAcknowledge(outcome, Main in dir, Claim in dir))), n - 2, t, ino)
  {
    assert Steps(Stand(dir, AckSeeMain(outcome)), n, t, ino)
        == Steps(Stand(dir, AckSeeClaim(outcome, Main in dir)), n - 1, t, ino);
  }

  lemma AcknowledgeFound(dir: Dir, outcome: Outcome, t: nat, ino: nat)
    requires Main in dir || Claim in dir
    ensures var (to, ending) := Acknowledging(dir, outcome);
            Steps(Stand(dir, SeeClaim(ForAcknowledge(outcome, Main in dir, Claim in dir))), 7, t, ino)
            == Stand(to, Ended(ending))
  {
    ReadSteps(dir, ForAcknowledge(outcome, Main in dir, Claim in dir), 7, t, ino);
    if !Readable(dir) || Reading(dir) != Some(Terminal(outcome)) {
      EndedStays(dir, Threw, 7 - ReadCost(dir), t, ino);
    } else if Main !in dir {
      assert Remove(dir, Main) == dir;
      DropClaimSteps(dir, outcome, t, ino);
    } else if Claim !in dir {
      assert Remove(Remove(dir, Main), Claim) == Remove(dir, Main);
      DropOnlyMainSteps(dir, outcome, t, ino);
    } else {
      DropMainSteps(dir, outcome, t, ino);
      DropClaimSteps(Remove(dir, Main), outcome, t, ino);
    }
  }

  lemma DropMainSteps(dir: Dir, outcome: Outcome, t: nat, ino: nat)
    ensures Steps(Stand(dir, AckDropMain(outcome, true)), 5, t, ino)
         == Steps(Stand(Remove(dir, Main), AckDropClaim(outcome)), 3, t, ino)
  {
  }

  lemma DropOnlyMainSteps(dir: Dir, outcome: Outcome, t: nat, ino: nat)
    ensures Steps(Stand(dir, AckDropMain(outcome, false)), 4, t, ino)
         == Stand(Remove(dir, Main), Ended(Returned(Done)))
  {
  }

  lemma DropClaimSteps(dir: Dir, outcome: Outcome, t: nat, ino: nat)
    ensures Steps(Stand(dir, AckDropClaim(outcome)), 3, t, ino) == Stand(Remove(dir, Claim), Ended(Returned(Done)))
    ensures Steps(Stand(dir, AckDropClaim(outcome)), 5, t, ino) == Stand(Remove(dir, Claim), Ended(Returned(Done)))
  {
  }

  /**
   The life of one request, alone: owned once, completed, read back, acknowledged; then the directory is what it was
   before, and nothing else in it has changed.
   */
  lemma LifeLeavesNothing(dir: Dir, outcome: Outcome, t: nat, u: nat, ino: nat)
    requires Main !in dir && Claim !in dir && Temp(t) !in dir && Temp(u) !in dir
    ensures var (owned, first) := Beginning(dir, outcome.id, t, ino);
            var (completed, second) := Completing(owned, outcome, u, ino);
            && first == Returned(Owner(outcome.id))
            && Beginning(owned, outcome.id, u, ino) == (owned, Returned(Observer(outcome.id)))
            && second == Returned(Completed(outcome))
            && Reading(completed) == Some(Terminal(outcome))
            && Completing(completed, outcome, t, ino) == (completed, second)
            && Beginning(completed, outcome.id, t, ino) == (completed, Threw)
            && Acknowledging(completed, outcome) == (dir, Returned(Done))
  {
    var owned := Beginning(dir, outcome.id, t, ino).0;
    var completed := Completing(owned, outcome, u, ino).0;
    assert Remove(Remove(completed, Main), Claim) == dir;
  }

  // ---- the register behind the files ----

  /** How a request stands, as a reader finds it: two files and what may be left of them come down to three cases. */
  datatype Standing = Absent | Begun(id: Identity) | Settled(outcome: Outcome)

  function StandingOf(dir: Dir): Standing {
    match Reading(dir)
    case None => Absent
    case Some(Provisioning(id)) => Begun(id)
    case Some(Terminal(outcome)) => Settled(outcome)
  }

  /** What a call makes of a request that stands so, and what it answers: anything out of turn is refused. */
  function Called(standing: Standing, call: Call): (Standing, Ending)
    requires !call.Open?
  {
    match call
    case Read => (standing, Returned(Found(RecordOf(standing))))
    case Begin(id) =>
      if standing == Absent then (Begun(id), Returned(Owner(id)))
      else (standing, if standing == Begun(id) then Returned(Observer(id)) else Threw)
    case Complete(outcome) =>
      if standing == Begun(outcome.id) || standing == Settled(outcome) then
        (Settled(outcome), Returned(Completed(outcome)))
      else (standing, Threw)
    case Acknowledge(outcome) =>
      if standing == Absent || standing == Settled(outcome) then (Absent, Returned(Done)) else (standing, Threw)
  }

  function RecordOf(standing: Standing): Option<Record> {
    match standing
    case Absent => None
    case Begun(id) => Some(Provisioning(id))
    case Settled(outcome) => Some(Terminal(outcome))
  }

  /** A call's operations, up to its end. */
  function CallAlone(dir: Dir, call: Call, t: nat, ino: nat): Stand {
    Steps(Stand(dir, Start(call)), if call.Begin? then 7 else if call.Read? then 3 else 9, t, ino)
  }

  /** Where a call left the directory and how it ended, as the register has it; no other name is touched. */
  ghost predicate Follows(dir: Dir, call: Call, after: Dir, ending: Ending)
    requires !call.Open?
  {
    && Called(StandingOf(dir), call) == (StandingOf(after), ending) && Readable(after)
    && forall n: nat :: Lookup(after, Temp(n)) == Lookup(dir, Temp(n))
  }

  lemma BeginFollows(dir: Dir, id: Identity, t: nat, ino: nat)
    requires Readable(dir) && Temp(t) !in dir
    ensures var (to, ending) := Beginning(dir, id, t, ino); Follows(dir, Begin(id), to, ending)
  {
  }

  lemma CompleteFollows(dir: Dir, outcome: Outcome, t: nat, ino: nat)
    requires Readable(dir) && Temp(t) !in dir
    ensures var (to, ending) := Completing(dir, outcome, t, ino); Follows(dir, Complete(outcome), to, ending)
  {
  }

  lemma AcknowledgeFollows(dir: Dir, outcome: Outcome)
    requires Readable(dir)
    ensures var (to, ending) := Acknowledging(dir, outcome); Follows(dir, Acknowledge(outcome), to, ending)
  {
  }

  lemma ReadEnds(dir: Dir, t: nat, ino: nat)
    requires Readable(dir)
    ensures Steps(Stand(dir, Start(Read)), 3, t, ino) == Stand(dir, Ended(Returned(Found(Reading(dir)))))
  {
    ReadSteps(dir, ForRead, 3, t, ino);
    EndedStays(dir, Returned(Found(Reading(dir))), 3 - ReadCost(dir), t, ino);
  }

  /**
   Whatever files a request has, even those of an acknowledgement cut off half way, its calls treat them as a register
   of three states.
   */
  lemma CallsFollowTheStanding(dir: Dir, call: Call, t: nat, ino: nat)
    requires !call.Open? && Readable(dir) && Temp(t) !in dir
    ensures var after := CallAlone(dir, call, t, ino);
            after.pc.Ended? && Follows(dir, call, after.dir, after.pc.ending)
  {
    match call
    case Read =>
      ReadEnds(dir, t, ino);
    case Begin(id) =>
      BeginSteps(dir, id, t, ino);
      BeginFollows(dir, id, t, ino);
    case Complete(outcome) =>
      CompleteSteps(dir, outcome, t, ino);
      CompleteFollows(dir, outcome, t, ino);
    case Acknowledge(outcome) =>
      AcknowledgeSteps(dir, outcome, t, ino);
      AcknowledgeFollows(dir, outcome);
  }
}
