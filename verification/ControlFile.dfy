/**
 Claiming a data directory as straight-line code, by one daemon with nobody else about. What it does to the directory is
 a function, the method computes that function, and so do the steps of module DirectoryClaim when they run alone.
 */
module ControlFile {
  import opened Wrappers
  import opened DirectoryClaim

  /**
   What the daemon is told: the answers to its two probes, whether a reclaim lock may be broken, and how many times it
   may wait for one before its deadline.
   */
  datatype Told = Told(first: ClaimState, second: ClaimState, breakable: bool, patience: nat)

  datatype Outcome = Acquired | Held(claim: Control, state: ClaimState) | TimedOut

  datatype Taking = Taking(file: Option<Control>, lock: Option<Lock>, outcome: Outcome)

  predicate ShutBy(read: Control, state: ClaimState) {
    read.ClaimBy? && state != Gone
  }

  /**
   An empty directory is taken at once. A claim is taken over only when both probes find its owner gone, the second one
   under the reclaim lock; bytes that are no claim are simply replaced.
   */
  function Taken(file: Option<Control>, lock: Option<Lock>, me: nat, told: Told): Taking {
    if file == None then Taking(Some(ClaimBy(me)), lock, Acquired)
    else if ShutBy(file.value, told.first) then Taking(file, lock, Held(file.value, told.first))
    else if lock.Some? && !(told.breakable && told.patience > 0) then Taking(file, lock, TimedOut)
    else if ShutBy(file.value, told.second) then Taking(file, None, Held(file.value, told.second))
    else Taking(Some(ClaimBy(me)), None, Acquired)
  }

  class Directory {
    var file: Option<Control>
    var lock: Option<Lock>

    constructor (file: Option<Control>, lock: Option<Lock>)
      ensures this.file == file && this.lock == lock
    {
      this.file, this.lock := file, lock;
    }

    /** `createExclusive` on the control file */
    method PublishClaim(me: nat) returns (won: bool)
      modifies this`file
      ensures won == (old(file) == None)
      ensures file == if won then Some(ClaimBy(me)) else old(file)
    {
      won := file == None;
      if won {
        file := Some(ClaimBy(me));
      }
    }

    /** `createExclusive` on the reclaim lock */
    method TakeReclaimLock(me: nat) returns (won: bool)
      modifies this`lock
      ensures won == (old(lock) == None)
      ensures lock == if won then Some(HeldBy(me)) else old(lock)
    {
      won := lock == None;
      if won {
        lock := Some(HeldBy(me));
      }
    }

    /** `removeFileIfUnchanged` on the control file */
    method RemoveClaimIfUnchanged(read: Control)
      modifies this`file
      ensures file == if old(file) == Some(read) then None else old(file)
    {
      if file == Some(read) {
        file := None;
      }
    }

    /** `removeFileIfUnchanged` on the reclaim lock */
    method RemoveLockIfUnchanged(seen: Lock)
      modifies this`lock
      ensures lock == if old(lock) == Some(seen) then None else old(lock)
    {
      if lock == Some(seen) {
        lock := None;
      }
    }

    /** `withReclaimLock`, up to where the lock is held or the deadline has passed */
    method WaitForLock(me: nat, told: Told) returns (won: bool)
      modifies this`lock
      ensures won == (old(lock) == None || (told.breakable && told.patience > 0))
      ensures lock == if won then Some(HeldBy(me)) else old(lock)
    {
      var left: nat := told.patience;
      while true
        invariant left <= told.patience
        invariant lock == if left < told.patience && told.breakable then None else old(lock)
        invariant left < told.patience ==> old(lock).Some?
        decreases left
      {
        won := TakeReclaimLock(me);
        if won || left == 0 {
          return;
        }
        if told.breakable {
          RemoveLockIfUnchanged(lock.value);
        }
        left := left - 1;
      }
    }

    method AcquireControl(me: nat, told: Told) returns (outcome: Outcome)
      modifies this
      ensures Taking(file, lock, outcome) == Taken(old(file), old(lock), me, told)
    {
      var won := PublishClaim(me);
      if won {
        return Acquired;
      }
      if ShutBy(file.value, told.first) {
        return Held(file.value, told.first);
      }
      var mine := WaitForLock(me, told);
      if !mine {
        return TimedOut;
      }
      outcome := Reclaim(me, told);
      RemoveLockIfUnchanged(HeldBy(me));
    }

    /** What is done under the reclaim lock. */
    method Reclaim(me: nat, told: Told) returns (outcome: Outcome)
      requires file.Some?
      modifies this`file
      ensures if ShutBy(old(file).value, told.second)
              then file == old(file) && outcome == Held(old(file).value, told.second)
              else file == Some(ClaimBy(me)) && outcome == Acquired
    {
      var stale := file.value;
      if ShutBy(stale, told.second) {
        return Held(stale, told.second);
      }
      RemoveClaimIfUnchanged(stale);
      var won := PublishClaim(me);
      outcome := Acquired;
    }

    /** `removeControlFileIf` on the way out */
    method LetGo(me: nat)
      modifies this`file
      ensures file == if old(file) == Some(ClaimBy(me)) then None else old(file)
    {
      if file == Some(ClaimBy(me)) {
        file := None;
      }
    }
  }

  // ---- the steps alone ----

  /** How far a process still is from the end, apart from its turns at the lock. */
  function Left(pc: Pc): nat {
    match pc
    case FastPublish => 14
    case Inspect => 13
    case FirstProbe(_) => 12
    case TakeLock => 11
    case ReadLock => 10
    case JudgeLock(_) => 9
    case ReadAgain => 8
    case ProbeAgain(_) => 7
    case Compare(_) => 6
    case RemoveStale(_) => 5
    case Publish => 4
    case CompareLock(_) => 3
    case ReleaseLock(_) => 2
    case _ => 0
  }

  /** The steps of one daemon from `pc` on, nobody else taking any, until it serves or is out. */
  function Alone(p: nat, pc: Pc, file: Option<Control>, lock: Option<Lock>, told: Told): Effect
    decreases told.patience, Left(pc)
  {
    if Left(pc) == 0 then Effect(pc, file, lock)
    else if Probing(pc) && Probes(pc).ClaimBy? then
      Alone(p, Answered(pc, if pc.FirstProbe? then told.first else told.second), file, lock, told)
    else if pc.JudgeLock? then
      if told.patience == 0 then Effect(Out, file, lock)
      else
        Alone(p, TakeLock, file, if told.breakable && lock == Some(pc.seen) then None else lock,
              told.(patience := told.patience - 1))
    else
      var done := Operate(p, pc, file, lock);
      if done.pc == TakeLock && pc == ReadLock then Effect(Out, file, lock)
      else Alone(p, done.pc, done.file, done.lock, told)
  }

  lemma ReadsAgain(p: nat, file: Control, told: Told)
    ensures Alone(p, ReadAgain, Some(file), Some(HeldBy(p)), told)
         == if ShutBy(file, told.second) then Effect(Out, Some(file), None)
            else Effect(Serving, Some(ClaimBy(p)), None)
  {
    var lock := Some(HeldBy(p));
    assert Alone(p, ReadAgain, Some(file), lock, told) == Alone(p, ProbeAgain(file), Some(file), lock, told);
    if ShutBy(file, told.second) {
      LetsGo(p, false, Some(file), told);
    } else {
      assert Alone(p, ProbeAgain(file), Some(file), lock, told) == Alone(p, Compare(file), Some(file), lock, told);
      Replaces(p, file, told);
    }
  }

  lemma Replaces(p: nat, file: Control, told: Told)
    ensures Alone(p, Compare(file), Some(file), Some(HeldBy(p)), told) == Effect(Serving, Some(ClaimBy(p)), None)
  {
    var lock := Some(HeldBy(p));
    LetsGo(p, true, Some(ClaimBy(p)), told);
    assert Alone(p, Publish, None, lock, told) == Alone(p, CompareLock(true), Some(ClaimBy(p)), lock, told);
    assert Alone(p, RemoveStale(file), Some(file), lock, told) == Alone(p, Publish, None, lock, told);
  }

  lemma LetsGo(p: nat, won: bool, file: Option<Control>, told: Told)
    ensures Alone(p, CompareLock(won), file, Some(HeldBy(p)), told) == Effect(if won then Serving else Out, file, None)
  {
    assert Alone(p, ReleaseLock(won), file, Some(HeldBy(p)), told) == Effect(if won then Serving else Out, file, None);
  }

  lemma {:induction false} TakesLock(p: nat, file: Control, lock: Option<Lock>, told: Told)
    ensures Alone(p, TakeLock, Some(file), lock, told)
         == if lock.Some? && !(told.breakable && told.patience > 0) then Effect(Out, Some(file), lock)
            else Alone(p, ReadAgain, Some(file), Some(HeldBy(p)), told)
    decreases told.patience
  {
    if lock.Some? {
      assert Alone(p, TakeLock, Some(file), lock, told) == Alone(p, JudgeLock(lock.value), Some(file), lock, told);
      if told.patience > 0 {
        var later := told.(patience := told.patience - 1);
        TakesLock(p, file, if told.breakable then None else lock, later);
        ReadsAgain(p, file, told);
        ReadsAgain(p, file, later);
      }
    }
  }

  lemma InspectsFirst(p: nat, read: Control, lock: Option<Lock>, told: Told)
    ensures Alone(p, FastPublish, Some(read), lock, told)
         == if ShutBy(read, told.first) then Effect(Out, Some(read), lock) else Alone(p, TakeLock, Some(read), lock, told)
  {
    assert Alone(p, FastPublish, Some(read), lock, told) == Alone(p, Inspect, Some(read), lock, told);
    assert Alone(p, Inspect, Some(read), lock, told) == Alone(p, FirstProbe(read), Some(read), lock, told);
    var next := if ShutBy(read, told.first) then Out else TakeLock;
    assert read.ClaimBy? ==> Answered(FirstProbe(read), told.first) == next;
    assert Alone(p, FirstProbe(read), Some(read), lock, told) == Alone(p, next, Some(read), lock, told);
  }

  /** Left alone, the interleaved steps come to what the straight-line code comes to. */
  lemma StepsAreTheMethod(p: nat, file: Option<Control>, lock: Option<Lock>, told: Told)
    ensures var taken := Taken(file, lock, p, told);
            Alone(p, FastPublish, file, lock, told)
            == Effect(if taken.outcome == Acquired then Serving else Out, taken.file, taken.lock)
  {
    if file == None {
      assert Operate(p, FastPublish, file, lock) == Effect(Serving, Some(ClaimBy(p)), lock);
      assert Alone(p, FastPublish, file, lock, told) == Alone(p, Serving, Some(ClaimBy(p)), lock, told);
    } else {
      InspectsFirst(p, file.value, lock, told);
      TakesLock(p, file.value, lock, told);
      ReadsAgain(p, file.value, told);
    }
  }

  /**
   A claim is replaced only where both probes found its owner gone; short of that the control file stays as it was, and
   the refusal says why: with a claim that is there and what a probe of it answered, or that the lock could not be had.
   */
  lemma OnlyGoneClaimsAreReplaced(file: Option<Control>, lock: Option<Lock>, me: nat, told: Told)
    ensures var taken := Taken(file, lock, me, told);
            match taken.outcome
            case Acquired =>
              && taken.file == Some(ClaimBy(me))
              && (file.Some? && file.value.ClaimBy? ==> told.first == Gone && told.second == Gone)
            case Held(claim, state) =>
              && taken.file == file == Some(claim) && claim.ClaimBy? && state != Gone
              && (state == told.first || (told.first == Gone && state == told.second && taken.lock == None))
            case TimedOut =>
              && taken.file == file && file.Some? && taken.lock == lock && lock.Some?
              && (file.value.ClaimBy? ==> told.first == Gone) && !(told.breakable && told.patience > 0)
  {
  }
}
