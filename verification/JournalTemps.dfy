/**
 Temporary files while calls race. Each belongs to a call that may still remove it: one that has ended, however it
 ended, leaves none behind, unless the removal itself threw or its process died.
 */
module JournalTemps {
  import opened Wrappers
  import opened Journal
  import opened JournalRace
  import opened JournalAnswers

  /** The removal of this temporary file threw. */
  predicate RemovalThrew(w: World, e: Event, t: nat) {
    e.Throw? && e.p in w.procs && w.procs[e.p].Cleanup? && w.procs[e.p].t == t
  }

  ghost predicate RemovalFailed(worlds: seq<World>, events: seq<Event>, i: nat, t: nat)
    requires i <= |events| < |worlds|
  {
    exists k :: 0 <= k < i && RemovalThrew(worlds[k], events[k], t)
  }

  ghost predicate InUse(w: World, t: nat) {
    exists p :: p in w.procs && Uses(w.procs[p]) == Some(t)
  }

  /** A temporary file comes of the operation that notes it, and its call lets go of it only by removing it. */
  lemma StepAccounts(dir: Dir, pc: Pc, t: nat, ino: nat, temp: nat)
    requires !Opening(pc) && Temp(temp) in Next(dir, pc, t, ino).dir
    ensures Temp(temp) in dir || Uses(Next(dir, pc, t, ino).pc) == Some(temp)
    ensures Uses(pc) == Some(temp) ==> Uses(Next(dir, pc, t, ino).pc) == Some(temp)
  {
  }

  lemma UnwindAccounts(pc: Pc, temp: nat)
    requires !Opening(pc) && Uses(pc) == Some(temp)
    ensures Uses(Unwind(pc)) == Some(temp) || (pc.Cleanup? && pc.t == temp)
  {
  }

  lemma ApplyAccounts(w: World, e: Event, temp: nat)
    requires Enabled(w, e) && (forall p :: p in w.procs ==> !Opening(w.procs[p])) && Temp(temp) in Apply(w, e).dir
    requires Temp(temp) in w.dir ==> InUse(w, temp)
    ensures InUse(Apply(w, e), temp) || RemovalThrew(w, e, temp)
  {
    var w' := Apply(w, e);
    if e.Step? {
      StepAccounts(w.dir, w.procs[e.p], e.t, e.ino, temp);
    }
    if Temp(temp) in w.dir {
      var p :| p in w.procs && Uses(w.procs[p]) == Some(temp);
      if e.Throw? && e.p == p {
        UnwindAccounts(w.procs[p], temp);
      }
      assert Uses(w'.procs[p]) == Some(temp) || RemovalThrew(w, e, temp);
    } else {
      assert Uses(w'.procs[e.p]) == Some(temp);
    }
  }

  /**
   Every temporary file was there to begin with, or belongs to a call that has not ended, or is one whose removal threw.
   */
  lemma {:induction false} TempsAreInUse(worlds: seq<World>, events: seq<Event>, i: nat, t: nat)
    requires IsRun(worlds, events) && NoneOpens(events) && i <= |events| && Temp(t) in worlds[i].dir
    ensures || Temp(t) in worlds[0].dir
            || RemovalFailed(worlds, events, i, t)
            || exists p :: p in worlds[i].procs && !worlds[i].procs[p].Ended? && Uses(worlds[i].procs[p]) == Some(t)
  {
    TempsAreAccounted(worlds, events, i, t);
    if InUse(worlds[i], t) {
      var p :| p in worlds[i].procs && Uses(worlds[i].procs[p]) == Some(t);
      assert !worlds[i].procs[p].Ended?;
    }
  }

  lemma {:induction false} TempsAreAccounted(worlds: seq<World>, events: seq<Event>, i: nat, t: nat)
    requires IsRun(worlds, events) && NoneOpens(events) && i <= |events| && Temp(t) in worlds[i].dir
    ensures Temp(t) in worlds[0].dir || RemovalFailed(worlds, events, i, t) || InUse(worlds[i], t)
  {
    if i > 0 && Temp(t) !in worlds[0].dir {
      var w, e := worlds[i - 1], events[i - 1];
      assert Enabled(w, e) && worlds[i] == Apply(w, e);
      if Temp(t) in w.dir {
        TempsAreAccounted(worlds, events, i - 1, t);
      }
      if !RemovalFailed(worlds, events, i - 1, t) {
        RunKeepsOwnFiles(worlds, events, i - 1);
        ApplyAccounts(w, e, t);
      }
    }
  }
}
