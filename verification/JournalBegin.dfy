/**
 What a returned `begin` is worth on a machine that may lose power: an owner's provisioning record is on disk for
 certain; an observer is told of a record that may not be, because it returns without a fsync.
 */
module JournalBegin {
  import opened Wrappers
  import opened Journal
  import opened JournalPower

  predicate Standing(m: Machine, id: Identity) {
    m.history != [] && Stands(Now(m), id)
  }

  /** A fsync has succeeded, or the disk was read again, since the request came to be provisioning; it has been since. */
  ghost predicate FsyncedStanding(machines: seq<Machine>, events: seq<Event>, i: nat, id: Identity)
    requires IsRun(machines, events) && i <= |events|
  {
    exists s: nat :: s <= i && Hard(machines, events, s) && forall r :: s <= r <= i ==> Standing(machines[r], id)
  }

  predicate IsComplete(e: Event) { e.Invoke? && e.call.Complete? }

  /** Nobody has called `complete` or `acknowledge`. */
  predicate Untouched(events: seq<Event>, i: nat, j: nat)
    requires i <= j <= |events|
  {
    Unacknowledged(events, i, j) && forall k :: i <= k < j ==> !IsComplete(events[k])
  }

  /** Whatever survives a power loss, from moment `i` on until somebody goes on with the request, is provisioning. */
  ghost predicate Remembered(machines: seq<Machine>, events: seq<Event>, i: nat, id: Identity)
    requires IsRun(machines, events) && i <= |events|
  {
    forall j: nat, dir :: i <= j <= |events| && Untouched(events, i, j) && Survives(machines[j].history, dir) ==>
      Stands(dir, id)
  }

  ghost predicate Begun(m: Machine, id: Identity) {
    Answered(m, Owner(id)) || Answered(m, Observer(id))
  }

  // ---- provisioning stays until somebody goes on ----

  ghost predicate StandsThroughout(history: seq<Dir>, id: Identity) {
    history != [] && forall v :: v in history ==> Stands(v, id)
  }

  lemma MixedStands(history: seq<Dir>, dir: Dir, id: Identity)
    requires StandsThroughout(history, id) && Survives(history, dir)
    ensures Stands(dir, id)
  {
    assert KeptBySome(history, dir, Claim) && KeptBySome(history, dir, Main);
  }

  predicate Completing(pc: Pc) {
    match pc
    case SeeClaim(reader) => reader.ForComplete?
    case SeeMain(reader) => reader.ForComplete?
    case LoadClaim(reader) => reader.ForComplete?
    case LoadMain(reader) => reader.ForComplete?
    case CompleteWrite(_) => true
    case CompleteLink(_, _) => true
    case CompleteSyncClaim(_, _) => true
    case CompleteCompare(_, _) => true
    case CompletePromote(_, _) => true
    case CompleteSyncPromotion(_, _) => true
    case _ => false
  }

  /** Provisioning whatever survives, and nobody is going on with it. */
  ghost predicate Resting(m: Machine, id: Identity) {
    StandsThroughout(m.history, id) && (m.pc.Some? ==> !Acknowledging(m.pc.value) && !Completing(m.pc.value))
  }

  lemma StepStands(dir: Dir, pc: Pc, t: nat, ino: nat, id: Identity)
    requires Knows(dir, pc) && Stands(dir, id) && !Acknowledging(pc) && !Completing(pc)
    ensures var next := Next(dir, pc, t, ino);
            Stands(next.dir, id) && !Acknowledging(next.pc) && !Completing(next.pc)
  {
  }

  lemma ApplyKeepsResting(m: Machine, e: Event, id: Identity)
    requires Inv(m) && Enabled(m, e) && Resting(m, id) && !IsAcknowledge(e) && !IsComplete(e)
    ensures Resting(Apply(m, e), id)
  {
    assert Now(m) in m.history;
    match e
    case Step(t, ino) =>
      StepStands(Now(m), m.pc.value, t, ino, id);
    case PowerLoss(dir) =>
      MixedStands(m.history, dir, id);
    case _ =>
  }

  lemma {:induction false} RunKeepsResting(machines: seq<Machine>, events: seq<Event>, i: nat, j: nat, id: Identity)
    requires IsRun(machines, events) && i <= j <= |events|
    requires Resting(machines[i], id) && Untouched(events, i, j)
    ensures Resting(machines[j], id)
  {
    if i < j {
      RunKeepsResting(machines, events, i, j - 1, id);
      RunKeepsInv(machines, events, j - 1);
      ApplyKeepsResting(machines[j - 1], events[j - 1], id);
    }
  }

  lemma FsyncedStandsThroughout(machines: seq<Machine>, events: seq<Event>, i: nat, id: Identity)
    requires IsRun(machines, events) && i <= |events| && FsyncedStanding(machines, events, i, id)
    ensures StandsThroughout(machines[i].history, id)
  {
    RunKeepsInv(machines, events, i);
    var s: nat :| s <= i && Hard(machines, events, s) && forall r :: s <= r <= i ==> Standing(machines[r], id);
    forall v | v in machines[i].history ensures Stands(v, id) {
      OnlySeenSince(machines, events, s, i, v);
      var r :| s <= r <= i && Shows(machines[r], v);
      assert Standing(machines[r], id);
    }
  }

  /**
   When the provisioning record a `begin` returned is durable, to an owner or an observer: exactly when a fsync has
   succeeded, or the disk was read again, between the moment the request came to be provisioning and the return.
   */
  lemma {:induction false} BegunOutlastsIff(machines: seq<Machine>, events: seq<Event>, i: nat, id: Identity)
    requires IsRun(machines, events) && i <= |events| && Begun(machines[i], id)
    ensures Remembered(machines, events, i, id) <==> FsyncedStanding(machines, events, i, id)
  {
    if FsyncedStanding(machines, events, i, id) {
      FsyncedStandsThroughout(machines, events, i, id);
      forall j: nat, dir | i <= j <= |events| && Untouched(events, i, j) && Survives(machines[j].history, dir)
        ensures Stands(dir, id)
      {
        RunKeepsResting(machines, events, i, j, id);
        MixedStands(machines[j].history, dir, id);
      }
    }
    if Remembered(machines, events, i, id) {
      var s := LastHard(machines, events, i);
      assert Untouched(events, i, i);
      forall r | s <= r <= i ensures Standing(machines[r], id) {
        SeenSince(machines, events, r, i);
        SurvivesItself(machines[i].history, Now(machines[r]));
      }
    }
  }

  // ---- an owner ----

  /** Past the fsync of the main record it linked. */
  predicate OwnerBy(pc: Pc, id: Identity) {
    match pc
    case BeginDropTemp(mine, _) => mine == id
    case BeginSyncDrop(mine, _) => mine == id
    case Cleanup(_, ending) => ending == Returned(Owner(id))
    case Ended(ending) => ending == Returned(Owner(id))
    case _ => false
  }

  lemma BecomesOwner(dir: Dir, pc: Pc, t: nat, ino: nat, id: Identity)
    requires !pc.Ended? && OwnerBy(Next(dir, pc, t, ino).pc, id)
    ensures OwnerBy(pc, id) || Next(dir, pc, t, ino).synced
  {
  }

  lemma OwnerIsStanding(m: Machine, id: Identity)
    requires Inv(m) && m.pc.Some? && OwnerBy(m.pc.value, id)
    ensures Standing(m, id)
  {
  }

  lemma {:induction false} OwnerIsFsynced(machines: seq<Machine>, events: seq<Event>, i: nat, id: Identity)
    requires IsRun(machines, events) && i <= |events|
    requires machines[i].pc.Some? && OwnerBy(machines[i].pc.value, id)
    ensures FsyncedStanding(machines, events, i, id)
  {
    RunKeepsInv(machines, events, i);
    OwnerIsStanding(machines[i], id);
    if !Hard(machines, events, i) {
      var m, e := machines[i - 1], events[i - 1];
      assert Enabled(m, e) && machines[i] == Apply(m, e);
      if e.Step? {
        BecomesOwner(Now(m), m.pc.value, e.t, e.ino, id);
      }
      OwnerIsFsynced(machines, events, i - 1, id);
    }
  }

  /** Once `begin` has told an owner so, every power loss leaves the provisioning record, whatever threw before or since. */
  lemma {:induction false} OwnerIsRemembered(machines: seq<Machine>, events: seq<Event>, i: nat, id: Identity)
    requires IsRun(machines, events) && i <= |events| && Answered(machines[i], Owner(id))
    ensures Remembered(machines, events, i, id)
  {
    OwnerIsFsynced(machines, events, i, id);
    BegunOutlastsIff(machines, events, i, id);
  }

  // ---- an observer ----

  /** The fsync of a freshly linked main record throws, and the daemon lives on. */
  predicate MainClaimFsyncThrows(m: Machine, e: Event) {
    e.Throw? && m.pc.Some? && m.pc.value.BeginSync?
  }

  /** Outside the fsync that is to harden it, what is provisioning is so in every version. */
  ghost predicate StandingHard(m: Machine) {
    m.pc.Some? && !m.pc.value.OpenSync? && !m.pc.value.BeginSync? ==>
      forall id :: Standing(m, id) ==> StandsThroughout(m.history, id)
  }

  lemma ComesToStand(dir: Dir, pc: Pc, t: nat, ino: nat, id: Identity)
    requires Knows(dir, pc) && !Stands(dir, id)
    ensures Stands(Next(dir, pc, t, ino).dir, id) ==> Next(dir, pc, t, ino).pc.BeginSync?
  {
  }

  lemma ApplyKeepsStandingHard(m: Machine, e: Event)
    requires Inv(m) && Enabled(m, e) && StandingHard(m) && !MainClaimFsyncThrows(m, e)
    ensures StandingHard(Apply(m, e))
  {
    var m' := Apply(m, e);
    if e.Step? && m'.pc.Some? && !m'.pc.value.OpenSync? && !m'.pc.value.BeginSync? && |m'.history| > 1 {
      forall id | Standing(m', id) ensures StandsThroughout(m'.history, id) {
        if !Standing(m, id) {
          ComesToStand(Now(m), m.pc.value, e.t, e.ino, id);
        }
      }
    }
  }

  lemma {:induction false} RunKeepsStandingHard(machines: seq<Machine>, events: seq<Event>, i: nat)
    requires IsRun(machines, events) && i <= |events|
    requires forall k :: 0 <= k < i ==> !MainClaimFsyncThrows(machines[k], events[k])
    ensures StandingHard(machines[i])
  {
    if i > 0 {
      RunKeepsStandingHard(machines, events, i - 1);
      RunKeepsInv(machines, events, i - 1);
      ApplyKeepsStandingHard(machines[i - 1], events[i - 1]);
    }
  }

  /** So is an observer's, as long as the fsync of a fresh main record has not thrown before, whatever else did. */
  lemma {:induction false} ObserverIsRemembered(machines: seq<Machine>, events: seq<Event>, i: nat, id: Identity)
    requires IsRun(machines, events) && i <= |events| && Answered(machines[i], Observer(id))
    requires forall k :: 0 <= k < i ==> !MainClaimFsyncThrows(machines[k], events[k])
    ensures Remembered(machines, events, i, id)
  {
    RunKeepsInv(machines, events, i);
    RunKeepsStandingHard(machines, events, i);
    assert Standing(machines[i], id);
    forall j: nat, dir | i <= j <= |events| && Untouched(events, i, j) && Survives(machines[j].history, dir)
      ensures Stands(dir, id)
    {
      RunKeepsResting(machines, events, i, j, id);
      MixedStands(machines[j].history, dir, id);
    }
  }

  // ---- through completion ----

  /** A main record of this identity, and no claim but an outcome of it. */
  predicate Of(dir: Dir, id: Identity) {
    && Main in dir && IdentityOf(dir[Main].record) == id
    && (Claim in dir ==> dir[Claim].record.Terminal? && IdentityOf(dir[Claim].record) == id)
  }

  ghost predicate Remaining(m: Machine, id: Identity) {
    (forall v :: v in m.history ==> Of(v, id)) && (m.pc.Some? ==> !Acknowledging(m.pc.value))
  }

  lemma MixedIsOf(history: seq<Dir>, dir: Dir, id: Identity)
    requires (forall v :: v in history ==> Of(v, id)) && Survives(history, dir)
    ensures Of(dir, id)
  {
    assert KeptBySome(history, dir, Claim) && KeptBySome(history, dir, Main);
  }

  lemma StepRemains(dir: Dir, pc: Pc, t: nat, ino: nat, id: Identity)
    requires Knows(dir, pc) && Of(dir, id) && !Acknowledging(pc)
    ensures Of(Next(dir, pc, t, ino).dir, id) && !Acknowledging(Next(dir, pc, t, ino).pc)
  {
  }

  lemma ApplyKeepsRemaining(m: Machine, e: Event, id: Identity)
    requires Inv(m) && Enabled(m, e) && Remaining(m, id) && !IsAcknowledge(e)
    ensures Remaining(Apply(m, e), id)
  {
    assert Now(m) in m.history;
    match e
    case Step(t, ino) =>
      StepRemains(Now(m), m.pc.value, t, ino, id);
    case PowerLoss(dir) =>
      MixedIsOf(m.history, dir, id);
    case _ =>
  }

  lemma {:induction false} RunKeepsRemaining(machines: seq<Machine>, events: seq<Event>, i: nat, j: nat, id: Identity)
    requires IsRun(machines, events) && i <= j <= |events|
    requires Remaining(machines[i], id) && Unacknowledged(events, i, j)
    ensures Remaining(machines[j], id)
  {
    if i < j {
      RunKeepsRemaining(machines, events, i, j - 1, id);
      RunKeepsInv(machines, events, j - 1);
      ApplyKeepsRemaining(machines[j - 1], events[j - 1], id);
    }
  }

  /**
   However far completing it has come, with which outcomes and with which throws: until somebody calls `acknowledge`,
   every power loss leaves an owned request provisioning or with an outcome of its own identity, never with nothing.
   */
  lemma {:induction false} OwnedIsNeverForgotten(machines: seq<Machine>, events: seq<Event>, i: nat, j: nat,
                                                 id: Identity, dir: Dir)
    requires IsRun(machines, events) && i <= j <= |events| && Answered(machines[i], Owner(id))
    requires Unacknowledged(events, i, j) && Survives(machines[j].history, dir)
    ensures Reading(dir).Some? && IdentityOf(Reading(dir).value) == id
  {
    OwnerIsFsynced(machines, events, i, id);
    FsyncedStandsThroughout(machines, events, i, id);
    RunKeepsRemaining(machines, events, i, j, id);
    MixedIsOf(machines[j].history, dir, id);
  }
}
