/**
 What an acknowledge leaves on a machine that may lose power, however often it is cut off, throws and is called again:
 the outcome or nothing, exactly when the main record's removal was hardened before the claim's.
 */
module JournalAcknowledge {
  import opened Wrappers
  import opened Journal
  import opened JournalPower

  /** Nothing stands under the main name but, perhaps, the outcome itself. */
  predicate MainSpent(m: Machine, o: Outcome) {
    m.history != [] && (Main !in Now(m) || Lookup(Now(m), Main) == Some(Terminal(o)))
  }

  /** The operation that removes the claim. */
  predicate DropsClaim(m: Machine, e: Event, o: Outcome) {
    e.Step? && m.pc == Some(AckDropClaim(o))
  }

  /** A fsync has succeeded, or the disk was read again, since the main record was last anything but the outcome. */
  ghost predicate MainHardenedFirst(machines: seq<Machine>, events: seq<Event>, k: nat, o: Outcome)
    requires IsRun(machines, events) && k <= |events|
  {
    exists s: nat :: s <= k && Hard(machines, events, s) && forall r :: s <= r <= k ==> MainSpent(machines[r], o)
  }

  predicate IsOutcomeOrNothing(record: Option<Record>, o: Outcome) {
    record == None || record == Some(Terminal(o))
  }

  /** Whatever survives a power loss now reads the outcome or nothing. */
  ghost predicate LeavesOutcomeOrNothing(m: Machine, o: Outcome) {
    forall dir :: Survives(m.history, dir) ==> IsOutcomeOrNothing(Reading(dir), o)
  }

  // ---- the moment the claim goes ----

  lemma ClaimStays(dir: Dir, pc: Pc, t: nat, ino: nat, o: Outcome)
    requires Knows(dir, pc) && (Main in dir ==> Lookup(dir, Main) == Some(Terminal(o)))
    requires Lookup(Next(dir, pc, t, ino).dir, Claim) == Some(Terminal(o))
    ensures Lookup(dir, Claim) == Some(Terminal(o))
  {
  }

  lemma ClaimStoodOneBefore(m: Machine, e: Event, o: Outcome)
    requires Inv(m) && Enabled(m, e) && !Hardens(m, e) && MainSpent(m, o)
    requires Lookup(Now(Apply(m, e)), Claim) == Some(Terminal(o))
    ensures Lookup(Now(m), Claim) == Some(Terminal(o))
  {
    if e.Step? {
      ClaimStays(Now(m), m.pc.value, e.t, e.ino, o);
    }
  }

  /** A claim is only linked over provisioning, so while there is none the claim that stands has stood all along. */
  lemma {:induction false} ClaimStoodBefore(machines: seq<Machine>, events: seq<Event>, r: nat, k: nat, o: Outcome)
    requires IsRun(machines, events) && r <= k <= |events|
    requires forall q :: r <= q <= k ==> MainSpent(machines[q], o)
    requires forall q :: r < q <= k ==> !Hard(machines, events, q)
    requires MainSpent(machines[k], o) && Lookup(Now(machines[k]), Claim) == Some(Terminal(o))
    ensures MainSpent(machines[r], o) && Lookup(Now(machines[r]), Claim) == Some(Terminal(o))
  {
    if r < k {
      assert !Hard(machines, events, k) && MainSpent(machines[k - 1], o);
      RunKeepsInv(machines, events, k - 1);
      ClaimStoodOneBefore(machines[k - 1], events[k - 1], o);
      ClaimStoodBefore(machines, events, r, k - 1, o);
    }
  }

  /** Every version the claim's removal joins has the claim, and under the main name the outcome or nothing. */
  lemma HardenedFirstMeansSpent(machines: seq<Machine>, events: seq<Event>, k: nat, o: Outcome, v: Dir)
    requires IsRun(machines, events) && k <= |events| && MainHardenedFirst(machines, events, k, o)
    requires machines[k].pc == Some(AckDropClaim(o)) && v in machines[k].history
    ensures Lookup(v, Claim) == Some(Terminal(o)) && IsOutcomeOrNothing(Lookup(v, Main), o)
  {
    var s: nat :| s <= k && Hard(machines, events, s) && forall r :: s <= r <= k ==> MainSpent(machines[r], o);
    var last := LastHard(machines, events, k);
    assert s <= last;
    OnlySeenSince(machines, events, last, k, v);
    var r :| last <= r <= k && Shows(machines[r], v);
    RunKeepsInv(machines, events, k);
    ClaimStoodBefore(machines, events, r, k, o);
  }

  /** The directory after the claim's removal, with the main record as an earlier version had it. */
  function WithMainOf(dir: Dir, v: Dir): Dir {
    if Main in v then dir[Main := v[Main]] else Remove(dir, Main)
  }

  lemma MainComesBack(history: seq<Dir>, dir: Dir, v: Dir)
    requires dir in history && v in history
    ensures Survives(history, WithMainOf(dir, v))
  {
    var mixed := WithMainOf(dir, v);
    forall n: Name ensures KeptBySome(history, mixed, n) {
      assert Kept(if n == Main then v else dir, mixed, n);
    }
  }

  /** At the moment the claim is removed, a power loss leaves the outcome or nothing exactly if main was hardened first. */
  lemma DropLeavesOutcomeOrNothingIff(machines: seq<Machine>, events: seq<Event>, k: nat, o: Outcome)
    requires IsRun(machines, events) && k < |events| && DropsClaim(machines[k], events[k], o)
    ensures LeavesOutcomeOrNothing(machines[k + 1], o) <==> MainHardenedFirst(machines, events, k, o)
  {
    RunKeepsInv(machines, events, k);
    var history, dropped := machines[k].history, Remove(Now(machines[k]), Claim);
    assert machines[k + 1].history == history + [dropped];
    if LeavesOutcomeOrNothing(machines[k + 1], o) {
      var s := LastHard(machines, events, k);
      forall r | s <= r <= k ensures MainSpent(machines[r], o) {
        SeenSince(machines, events, r, k);
        var mixed := WithMainOf(dropped, Now(machines[r]));
        MainComesBack(history + [dropped], dropped, Now(machines[r]));
        assert Reading(mixed) == Lookup(Now(machines[r]), Main);
      }
    }
    if MainHardenedFirst(machines, events, k, o) {
      forall dir | Survives(history + [dropped], dir) ensures IsOutcomeOrNothing(Reading(dir), o) {
        assert KeptBySome(history + [dropped], dir, Claim) && KeptBySome(history + [dropped], dir, Main);
        forall v | v in history
          ensures Lookup(v, Claim) == Some(Terminal(o)) && IsOutcomeOrNothing(Lookup(v, Main), o)
        {
          HardenedFirstMeansSpent(machines, events, k, o, v);
        }
      }
    }
  }

  // ---- a whole run ----

  predicate MayBegin(pc: Pc) {
    pc.BeginSeeClaim? || pc.BeginWrite? || pc.BeginLink?
  }

  /** However the versions are mixed, the outcome is read or nothing is; and nobody is about to begin again. */
  ghost predicate Leaving(m: Machine, o: Outcome) {
    && (forall v, w :: v in m.history && w in m.history ==> Mixes(v, w, o))
    && (m.pc.Some? ==> !MayBegin(m.pc.value))
  }

  predicate Mixes(mainFrom: Dir, claimFrom: Dir, o: Outcome) {
    || Lookup(claimFrom, Claim) == Some(Terminal(o))
    || (Lookup(claimFrom, Claim) == None && IsOutcomeOrNothing(Lookup(mainFrom, Main), o))
  }

  lemma LeavingLeaves(m: Machine, o: Outcome)
    requires Leaving(m, o)
    ensures LeavesOutcomeOrNothing(m, o)
  {
    forall dir | Survives(m.history, dir) ensures IsOutcomeOrNothing(Reading(dir), o) {
      assert KeptBySome(m.history, dir, Claim) && KeptBySome(m.history, dir, Main);
    }
  }

  /** Every operation but the claim's removal mixes with what mixed before. */
  lemma StepMixes(dir: Dir, pc: Pc, t: nat, ino: nat, o: Outcome)
    requires Knows(dir, pc) && !MayBegin(pc) && Mixes(dir, dir, o) && !pc.AckDropClaim?
    ensures var next := Next(dir, pc, t, ino);
            && !MayBegin(next.pc)
            && Lookup(next.dir, Claim) == Lookup(dir, Claim)
            && (Lookup(next.dir, Main) == Lookup(dir, Main) || IsOutcomeOrNothing(Lookup(next.dir, Main), o))
  {
  }

  lemma StepKeepsLeaving(m: Machine, e: Event, o: Outcome)
    requires Inv(m) && Enabled(m, e) && Leaving(m, o) && e.Step? && !m.pc.value.AckDropClaim?
    ensures Leaving(Apply(m, e), o)
  {
    var next := Next(Now(m), m.pc.value, e.t, e.ino);
    assert Mixes(Now(m), Now(m), o);
    StepMixes(Now(m), m.pc.value, e.t, e.ino, o);
    forall v, w | v in Apply(m, e).history && w in Apply(m, e).history ensures Mixes(v, w, o) {
      assert v == next.dir || Mixes(v, Now(m), o);
      assert w == next.dir || Mixes(Now(m), w, o);
    }
  }

  lemma OthersKeepLeaving(m: Machine, e: Event, o: Outcome)
    requires Inv(m) && Enabled(m, e) && Leaving(m, o) && !e.Step? && !IsBegin(e)
    ensures Leaving(Apply(m, e), o)
  {
    if e.PowerLoss? {
      assert KeptBySome(m.history, e.dir, Claim) && KeptBySome(m.history, e.dir, Main);
    }
  }

  lemma DropKeepsLeaving(machines: seq<Machine>, events: seq<Event>, k: nat, o: Outcome)
    requires IsRun(machines, events) && k < |events| && Leaving(machines[k], o)
    requires machines[k].pc.Some? && machines[k].pc.value.AckDropClaim? && events[k].Step?
    requires DropsClaim(machines[k], events[k], o) ==> MainHardenedFirst(machines, events, k, o)
    ensures Leaving(machines[k + 1], o)
  {
    RunKeepsInv(machines, events, k);
    assert Mixes(Now(machines[k]), Now(machines[k]), o);
    var dropped := Remove(Now(machines[k]), Claim);
    assert machines[k + 1].history == machines[k].history + [dropped];
    forall v, w | v in machines[k + 1].history && w in machines[k + 1].history ensures Mixes(v, w, o) {
      if v != dropped {
        HardenedFirstMeansSpent(machines, events, k, o, v);
      }
      if w != dropped {
        HardenedFirstMeansSpent(machines, events, k, o, w);
      }
    }
  }

  predicate NoneBegins(events: seq<Event>, i: nat, j: nat)
    requires i <= j <= |events|
  {
    forall k :: i <= k < j ==> !IsBegin(events[k])
  }

  ghost predicate EveryDropHardened(machines: seq<Machine>, events: seq<Event>, i: nat, j: nat, o: Outcome)
    requires IsRun(machines, events) && i <= j <= |events|
  {
    forall k :: i <= k < j && DropsClaim(machines[k], events[k], o) ==> MainHardenedFirst(machines, events, k, o)
  }

  lemma {:induction false} RunKeepsLeaving(machines: seq<Machine>, events: seq<Event>, i: nat, j: nat, o: Outcome)
    requires IsRun(machines, events) && i <= j <= |events| && NoneBegins(events, i, j)
    requires Leaving(machines[i], o) && EveryDropHardened(machines, events, i, j, o)
    ensures Leaving(machines[j], o)
  {
    if i < j {
      RunKeepsLeaving(machines, events, i, j - 1, o);
      OneKeepsLeaving(machines, events, j - 1, o);
    }
  }

  lemma OneKeepsLeaving(machines: seq<Machine>, events: seq<Event>, k: nat, o: Outcome)
    requires IsRun(machines, events) && k < |events| && Leaving(machines[k], o) && !IsBegin(events[k])
    requires DropsClaim(machines[k], events[k], o) ==> MainHardenedFirst(machines, events, k, o)
    ensures Leaving(machines[k + 1], o)
  {
    RunKeepsInv(machines, events, k);
    var m, e := machines[k], events[k];
    assert Enabled(m, e) && machines[k + 1] == Apply(m, e);
    if !e.Step? {
      OthersKeepLeaving(m, e, o);
    } else if m.pc.value.AckDropClaim? {
      DropKeepsLeaving(machines, events, k, o);
    } else {
      StepKeepsLeaving(m, e, o);
    }
  }

  lemma SteadyIsLeaving(m: Machine, o: Outcome)
    requires Steady(m.history, o) && m.pc.Some? && m.pc.value.Ended?
    ensures Leaving(m, o)
  {
  }

  /**
   From a durably returned outcome until a new `begin`, however many acknowledges are called, cut off, throw and are
   called again: at every moment a power loss leaves the outcome or no record, never provisioning, exactly when every
   removal of the claim came after a successful fsync of the main record's removal.
   */
  lemma {:induction false} AcknowledgeLeavesOutcomeOrNothingIff(machines: seq<Machine>, events: seq<Event>, i: nat,
                                                                j: nat, o: Outcome)
    requires IsRun(machines, events) && i <= j <= |events| && NoneBegins(events, i, j)
    requires Answered(machines[i], Completed(o)) && FsyncedInView(machines, events, i, o)
    ensures (forall l :: i <= l <= j ==> LeavesOutcomeOrNothing(machines[l], o))
            <==> EveryDropHardened(machines, events, i, j, o)
  {
    var s: nat :| s <= i && Hard(machines, events, s) && forall r :: s <= r <= i ==> Visible(machines[r], o);
    InViewIsSteady(machines, events, s, i, o);
    SteadyIsLeaving(machines[i], o);
    if EveryDropHardened(machines, events, i, j, o) {
      forall l | i <= l <= j ensures LeavesOutcomeOrNothing(machines[l], o) {
        RunKeepsLeaving(machines, events, i, l, o);
        LeavingLeaves(machines[l], o);
      }
    }
    if forall l :: i <= l <= j ==> LeavesOutcomeOrNothing(machines[l], o) {
      forall k | i <= k < j && DropsClaim(machines[k], events[k], o)
        ensures MainHardenedFirst(machines, events, k, o)
      {
        assert LeavesOutcomeOrNothing(machines[k + 1], o);
        DropLeavesOutcomeOrNothingIff(machines, events, k, o);
      }
    }
  }

  // ---- the one throw that matters to `acknowledge` ----

  /** The fsync of the main record's removal throws, and the daemon lives on. */
  predicate MainFsyncThrows(m: Machine, e: Event) {
    e.Throw? && m.pc.Some? && m.pc.value.AckSyncMain?
  }

  /** Outside the fsync that is to harden it, an absent main record is absent for good. */
  ghost predicate AbsentForGood(m: Machine) {
    m.history != [] && m.pc.Some? && !m.pc.value.OpenSync? && !m.pc.value.AckSyncMain? && Main !in Now(m) ==>
      forall v :: v in m.history ==> Main !in v
  }

  lemma GoesAbsent(dir: Dir, pc: Pc, t: nat, ino: nat)
    requires Knows(dir, pc) && Main in dir
    ensures Main !in Next(dir, pc, t, ino).dir ==> Next(dir, pc, t, ino).pc.AckSyncMain?
  {
  }

  lemma ApplyKeepsAbsence(m: Machine, e: Event)
    requires Inv(m) && Enabled(m, e) && AbsentForGood(m) && !MainFsyncThrows(m, e)
    ensures AbsentForGood(Apply(m, e))
  {
    if e.Step? && Main in Now(m) {
      GoesAbsent(Now(m), m.pc.value, e.t, e.ino);
    }
  }

  lemma {:induction false} RunKeepsAbsence(machines: seq<Machine>, events: seq<Event>, k: nat)
    requires IsRun(machines, events) && k <= |events|
    requires forall l :: 0 <= l < k ==> !MainFsyncThrows(machines[l], events[l])
    ensures AbsentForGood(machines[k])
  {
    if k > 0 {
      RunKeepsAbsence(machines, events, k - 1);
      RunKeepsInv(machines, events, k - 1);
      ApplyKeepsAbsence(machines[k - 1], events[k - 1]);
    }
  }

  lemma AbsentIsHardened(machines: seq<Machine>, events: seq<Event>, k: nat, o: Outcome)
    requires IsRun(machines, events) && k < |events| && DropsClaim(machines[k], events[k], o)
    requires forall l :: 0 <= l < k ==> !MainFsyncThrows(machines[l], events[l])
    ensures MainHardenedFirst(machines, events, k, o)
  {
    RunKeepsAbsence(machines, events, k);
    RunKeepsInv(machines, events, k);
    var s := LastHard(machines, events, k);
    forall r | s <= r <= k ensures MainSpent(machines[r], o) {
      SeenSince(machines, events, r, k);
    }
  }

  /**
   So as long as neither of those two fsyncs has thrown, whatever else did: after `complete` has returned `o`, an
   acknowledge cut off anywhere leaves `o` or no record until a new `begin`, never provisioning.
   */
  lemma {:induction false} AcknowledgeLeavesOutcomeOrNothing(machines: seq<Machine>, events: seq<Event>, i: nat, j: nat,
                                                             o: Outcome)
    requires IsRun(machines, events) && i <= j <= |events| && NoneBegins(events, i, j)
    requires Answered(machines[i], Completed(o))
    requires forall k :: 0 <= k < i ==> !ClaimFsyncThrows(machines[k], events[k])
    requires forall k :: 0 <= k < j ==> !MainFsyncThrows(machines[k], events[k])
    ensures LeavesOutcomeOrNothing(machines[j], o)
    ensures forall record :: Answered(machines[j], Found(record)) ==> IsOutcomeOrNothing(record, o)
  {
    RunKeepsInv(machines, events, i);
    RunKeepsInViewSteady(machines, events, i);
    assert Visible(machines[i], o);
    SteadyIsLeaving(machines[i], o);
    forall k | i <= k < j && DropsClaim(machines[k], events[k], o) ensures MainHardenedFirst(machines, events, k, o) {
      AbsentIsHardened(machines, events, k, o);
    }
    RunKeepsLeaving(machines, events, i, j, o);
    LeavingLeaves(machines[j], o);
    RunKeepsInv(machines, events, j);
    SurvivesItself(machines[j].history, Now(machines[j]));
  }
}
