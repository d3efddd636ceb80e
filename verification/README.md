# Lykeion: what the protocols keep

A Dafny model of the parts of the lab and its per-machine daemon that have to stay correct under crashes, races,
re-entrant callbacks and arbitrary chunking, with proofs of what they keep. `dafny verify dfyconfig.toml` checks it.

## What is modelled

**The environment-setup outcome journal** (`Journal`, `JournalRace`, `JournalAnswers`, `JournalTemps`, `JournalPower`,
`JournalBegin`, `JournalAcknowledge`, `JournalFailures`, `JournalSpool`, `JournalLoad`). `Journal` gives every call of
the spool as a program of single file operations on one request's names: main record, terminal claim, temporary files.
Two environments run these programs. `JournalRace` interleaves any number of processes operation by operation, any of
which may stop for good, with no acknowledge; `JournalAnswers` says what each racing call answers, and `JournalTemps`
what it leaves. `JournalPower`, `JournalBegin` and `JournalAcknowledge` have one daemon and a directory whose versions
since the last fsync may be mixed name by name when power is lost; any operation may throw, a fsync included, with the
daemon living on. `JournalFailures` has the three runs in which that matters. `JournalSpool` is the same calls as
straight-line code in a class, shows the steps alone come to the same, and that they treat a request's files as a
register of three states. `JournalLoad` reads a whole quiet directory, with real names and entries that need not be
regular files. SHA-256 is an injective function, an outcome is its canonical form, and a temporary suffix is never drawn
twice.

**The data-directory claim** (`DirectoryClaim`, `ControlFile`). Publishing by link, the probe, the reclaim lock and the
daemon's exit are single steps of any number of processes, reading and removing the control file being two. Three
assumptions are stated in `DirectoryClaim.Enabled`: "gone" is answered only for an owner that takes no more steps on the
directory, a stale reclaim lock is broken by one compare-and-remove, and no live hold of that lock is broken for its
age. `ControlFile` is `acquireControl` as straight-line code, and shows the steps alone come to the same.

**Run streaming and resumption** (`RunHandles`, `RunLog`, `ResumedRuns`, `SimulatedRuns`, `ClosedRuns`, `FollowedRuns`,
`FollowedCalls`, `TurnSequence`, `TurnHistory`). The HTTP run handle with its stream generations, under every nesting of
calls inside synchronous deliveries; the frame log, the snapshot folded from it, and the handles that resume from that
snapshot; the simulated run's driver, its decision queue and its completion; and all of these together, a client
following an actual run. The turn numbers are reserved when runs start and settled in any order; `TurnHistory` tells the
store from what was done to it. A plan is an opaque identity, since plans are shared by reference and changed after they
are emitted.

**Codecs** (`Text`, `Json`, `JsonRoundTrip`, `JsonPrinted`, `JsonGrammar`, `JsonTexts`, `JsonObjects`, `CanonicalJson`,
`CanonicalKeys`, `Utf8`, `Base64Url`, `EncodedBits`, `PairCode`, `PairLayout`). Text is UTF-16 code units, with
surrogates alone allowed. A JSON printer and parser (RFC 8259) as JavaScript has them, object members in the order
JavaScript lists them; UTF-8 (section 3 of RFC 3629) with a fatal decoder; base64url without padding (sections 5 and 3.2
of RFC 4648) through the forgiving `atob`; canonical JSON and the pairing blob on top. What is printed is stated unit by
unit, what is parsed by the grammar, and where the bits go bit by bit.

**Framing and calls** (`Framing`, `KernelHost`, `KernelAnswers`, `KernelStream`, `CommandStream`, `CommandBlocks`). One
splitter for both streams, with the proof that chunks make no difference; the kernel host's table of calls and asks, by
itself and read off its pipe while everything else goes on; the command stream with its lookahead limit.

**Smaller algorithms** (`CommandLine`, `BoundedText`, `TaskTitle`, `TitleAnswers`). The command-line scanner,
byte-bounded text with its redaction marker, and titles.

An object whose methods update its fields is a class here; its methods are proved against functions on values, and the
results about whole runs are proved of those functions. Loops of the source are loops here.

## Where the code does less than it seems to

Each of these is stated as a lemma: a concrete case, exactly when the code does meet the property, or both.

- `begin` observes a main record it finds without an fsync. If the fsync of that record threw before and the daemon lived
  on, a power loss can leave nothing of it (`JournalFailures.FailedMainClaimFsyncForgetsObserved`; exactly when,
  `JournalBegin.BegunOutlastsIff`).
- `complete` returns a claim it finds without an fsync. If the fsync of that claim threw before and the daemon lived on,
  a power loss can still bring provisioning back (`JournalFailures.FailedClaimFsyncLosesOutcome`;
  `JournalPower.ReturnedOutcomeOutlastsIff` says exactly when a returned outcome lasts).
- `acknowledge` fsyncs the main record's removal only if it removed one. If that fsync threw before, the next acknowledge
  skips it and removes the claim, and a power loss can bring provisioning back
  (`JournalFailures.FailedMainFsyncBringsProvisioningBack`; exactly when,
  `JournalAcknowledge.AcknowledgeLeavesOutcomeOrNothingIff`).
- `stop` and `url` remove an abandoned claim without the reclaim lock. One such command, a daemon reclaiming and a daemon
  starting are enough for two daemons (`DirectoryClaim.OneStopLetsTwoDaemonsIn`; exactly when,
  `DirectoryClaim.StopLetsTwoInIff`).
- `sorted` loses members named `__proto__`, because assigning to that name on a plain object sets its prototype
  (`CanonicalJson.ProtoIsLost`, `CanonicalJson.SameTextIffEquivalent`).
- `load` skips what is no regular file, `readExact` follows it (`JournalLoad.LinkedClaimDisagrees`,
  `JournalLoad.LoadAgreesIff`).
- A kernel-host reply whose `error` is null is taken off the table and then throws, ending the process with that
  call untold (`KernelHost.NullErrorLosesCall`; exactly when, `KernelHost.EveryCallIsAccountedFor`).
- The scripted run's own `close`, which delegated runs hand out as it is, submits nothing. Called between two frames with
  no decision queued it leaves the run waiting and registered (`ClosedRuns.ClosedWhileSpeakingWaits`; exactly when,
  `ClosedRuns.ClosedRunEndsIff`); the handles of other runs submit a cancel instead, which always ends them.
- `boundedRedactedUtf8` can exceed a limit shorter than its marker (`BoundedText.SmallLimitIsExceeded`,
  `BoundedText.WithinLimitIff`).
- The comment above `scan` says the two forms of a value flag mean the same. They also differ on an empty value given as
  an argument of its own, which is accepted, while an empty value after the sign is refused
  (`CommandLine.FormsScanAlikeIff`).

## Model

| member | source | states |
|---|---|---|
| `JournalRace.AtMostOneOwner` | packages/daemon/src/environment-setup-outcomes.ts:294-323 | In every interleaving of single file operations by any number of processes, any of which may stop for good at any point, two `begin` calls told they own the setup are the same call. |
| `JournalRace.ClaimNeverChanges` | packages/daemon/src/environment-setup-outcomes.ts:347-362 | A terminal claim that stands at one moment stands with the same outcome at every later one, and so does the identity on record. |
| `JournalRace.TerminalMainIsTheClaim` | packages/daemon/src/environment-setup-outcomes.ts:362-378 | A main record that says terminal carries exactly the outcome the claim carries. |
| `JournalRace.CompleteReturnsTheClaim` | packages/daemon/src/environment-setup-outcomes.ts:325-378 | The outcome a `complete` returned is the claim from then on, and what every reading of a terminal record gives. |
| `JournalRace.OneOutcome` | packages/daemon/src/environment-setup-outcomes.ts:325-378 | Two `complete` calls, by any processes at any two moments, never return different outcomes. |
| `JournalRace.OutcomeAnswersTheOwner` | packages/daemon/src/environment-setup-outcomes.ts:294-378 | The outcome returned is one of the very setup, by identity, that the owner began. |
| `JournalRace.RunKeepsInv` | packages/daemon/src/environment-setup-outcomes.ts:294-378 | The invariant behind these: the directory is coherent, each call knows what its next step relies on, and at most one call owns the main record, at every step of every run. |
| `JournalAnswers.CompleteAnswersIff` | packages/daemon/src/environment-setup-outcomes.ts:325-378 | However many others race it and whatever throws in them: called while a record of its identity stands, a `complete` that no throw hits and whose drawn name is free, once it has ended, has returned its outcome exactly when that is what is claimed, whoever claimed it, and has thrown exactly when another is. |
| `JournalAnswers.BeginAnswers` | packages/daemon/src/environment-setup-outcomes.ts:294-323 | Likewise a `begin` that has ended has owned or observed its setup unless the request is claimed or another's, and where it is another's it has thrown. |
| `JournalAnswers.ReadAnswers` | packages/daemon/src/environment-setup-outcomes.ts:243-249 | Likewise a read always answers, whatever happens meanwhile, and finds a record where one stood when it was called. |
| `JournalTemps.TempsAreInUse` | packages/daemon/src/environment-setup-outcomes.ts:251-378 | At every moment of such a run, throws and deaths included, a temporary file that was not there to begin with belongs to a call that has not ended, or is one whose own removal threw. |
| `JournalBegin.BegunOutlastsIff` | packages/daemon/src/environment-setup-outcomes.ts:294-323 | For the same daemon: a provisioning record `begin` returned, to an owner or an observer, is there after every power loss until somebody completes or acknowledges exactly when a directory fsync has succeeded, or the disk was read again, since the request came to be provisioning. |
| `JournalBegin.OwnerIsRemembered` | packages/daemon/src/environment-setup-outcomes.ts:307-311 | An owner's always is, whatever threw before or since. |
| `JournalBegin.ObserverIsRemembered` | packages/daemon/src/environment-setup-outcomes.ts:312-317 | An observer's is if no fsync of a freshly linked main record has thrown before, whatever else did. |
| `JournalBegin.OwnedIsNeverForgotten` | packages/daemon/src/environment-setup-outcomes.ts:294-378 | However far completing it has come, with whichever outcomes and throws: until somebody acknowledges, every power loss leaves an owned request provisioning or with an outcome of its own identity. |
| `JournalPower.ReturnedOutcomeOutlastsIff` | packages/daemon/src/environment-setup-outcomes.ts:177-182 | For one daemon that dies, throws and is reopened at any file operation, on a directory that on power loss keeps for each name any version since its last fsync: an outcome `complete` returned is read after every power loss until somebody acknowledges exactly when a directory fsync has succeeded, or the disk was read again, since that outcome came into view. |
| `JournalPower.CompletedOutcomeSurvives` | packages/daemon/src/environment-setup-outcomes.ts:352-378 | So if no fsync of a freshly linked claim has thrown before, whatever else did, the returned outcome survives every power loss until it is acknowledged, and every later reading gives it. |
| `JournalPower.RunKeepsInv` | packages/daemon/src/environment-setup-outcomes.ts:177-414 | The invariant behind these, for every run: any operation may throw, a fsync included, and the daemon may live on. |
| `JournalAcknowledge.AcknowledgeLeavesOutcomeOrNothingIff` | packages/daemon/src/environment-setup-outcomes.ts:387-414 | From a durably returned outcome until a new `begin`, however many acknowledges are called, cut off, throw and are called again: every power loss leaves the outcome or no record exactly when each removal of the claim came after a successful fsync of the main record being gone. |
| `JournalAcknowledge.DropLeavesOutcomeOrNothingIff` | packages/daemon/src/environment-setup-outcomes.ts:405-411 | The same of the one moment at which the claim is removed. |
| `JournalAcknowledge.AcknowledgeLeavesOutcomeOrNothing` | packages/daemon/src/environment-setup-outcomes.ts:387-414 | So if neither the fsync of a fresh claim nor that of the main record's removal has thrown before, an acknowledge cut off anywhere leaves the outcome or no record at all, never a provisioning record again. |
| `JournalFailures.FailedMainClaimFsyncForgetsObserved` | packages/daemon/src/environment-setup-outcomes.ts:307-317 | The limit of an observer, as a run from an empty directory: the fsync of the main record throws, `begin` called again observes that record without a fsync, and a power loss can leave nothing. |
| `JournalFailures.FailedClaimFsyncLosesOutcome` | packages/daemon/src/environment-setup-outcomes.ts:329-355 | The limit of `complete`, as a run from an empty directory: the fsync of the claim throws, `complete` called again returns that claim without a fsync, and a power loss can leave the provisioning record. |
| `JournalFailures.FailedMainFsyncBringsProvisioningBack` | packages/daemon/src/environment-setup-outcomes.ts:390-413 | The limit of `acknowledge`, as a run from an empty directory: after an outcome was returned durably, the fsync of the main record's removal throws, the acknowledge called again sees no main record, skips that fsync and removes the claim, and a power loss can leave the provisioning record. |
| `JournalSpool.Spool.Begin` | packages/daemon/src/environment-setup-outcomes.ts:294-323 | Alone on the directory, `begin` claims an empty request, observes a matching provisioning, and refuses everything else with the directory as it was. |
| `JournalSpool.Spool.Complete` | packages/daemon/src/environment-setup-outcomes.ts:325-378 | Alone, `complete` stores the outcome under both names over a matching provisioning, returns an outcome already on record, and refuses everything else. |
| `JournalSpool.Spool.Acknowledge` | packages/daemon/src/environment-setup-outcomes.ts:387-414 | Alone, `acknowledge` removes both names of exactly the outcome on record, accepts an empty request, and refuses everything else. |
| `JournalSpool.Spool.ReadExact` | packages/daemon/src/environment-setup-outcomes.ts:243-249 | The claim overrides the main record, and a claim that is not terminal throws. |
| `JournalSpool.BeginSteps` | packages/daemon/src/environment-setup-outcomes.ts:294-323 | The interleaved steps of `begin`, when nobody else takes any, come to the same directory and the same ending as the straight-line code. |
| `JournalSpool.CompleteSteps` | packages/daemon/src/environment-setup-outcomes.ts:325-378 | The same for `complete`. |
| `JournalSpool.AcknowledgeSteps` | packages/daemon/src/environment-setup-outcomes.ts:387-414 | The same for `acknowledge`. |
| `JournalSpool.OpenSteps` | packages/daemon/src/environment-setup-outcomes.ts:184-216 | The same for the scavenging with which the spool is opened. |
| `JournalSpool.ClearedDropsRepresented` | packages/daemon/src/environment-setup-outcomes.ts:184-214 | That removes exactly the listed temporary links whose inode a record also has, in whatever order, and changes nothing else. |
| `JournalSpool.LifeLeavesNothing` | packages/daemon/src/environment-setup-outcomes.ts:294-414 | Begin, complete and acknowledge in a row on an empty request: owner, outcome, and a directory as it was before, temporary files included. |
| `JournalSpool.CallsFollowTheStanding` | packages/daemon/src/environment-setup-outcomes.ts:243-414 | The steps of any call, alone on whatever files a request has, even those of an acknowledgement cut off half way, treat them as a register of three states, absent, begun and settled: what the call answers, refusals out of turn included, the state it leaves, and no other name touched. |
| `JournalLoad.Spool.Load` | packages/daemon/src/environment-setup-outcomes.ts:265-292 | The loop over the directory fills a map with exactly the requests whose claim, or else main record, is a valid regular file, each under its own id, in whatever order the entries come; and where no link is followed that map holds, request by request, what `readExact` finds. |
| `JournalLoad.Spool.ReadEntry` | packages/daemon/src/environment-setup-outcomes.ts:274-290 | One entry contributes the record it holds or nothing: wrong suffix, unreadable text, foreign digest and hidden main record are all nothing. |
| `JournalLoad.ReadTellsIff` | packages/daemon/src/environment-setup-outcomes.ts:216-249 | Reading tells a record exactly when it is the request's own and what the claim says, then being terminal, or where nothing has the claim's name what the main record says; it tells that there is none exactly when neither name exists. |
| `JournalLoad.LoadTellsIff` | packages/daemon/src/environment-setup-outcomes.ts:265-292 | Loading likewise, where only regular files count. |
| `JournalLoad.LoadAgreesIff` | packages/daemon/src/environment-setup-outcomes.ts:243-292 | For everything that can be written in a directory of this shape and every way of parsing it, `load` and `readExact` tell the same of a request exactly when no link is followed under its claim's name, nor under its main name without a regular claim. |
| `JournalLoad.LoadIsEveryReadIff` | packages/daemon/src/environment-setup-outcomes.ts:243-292 | The map `load` returns is the map of what `readExact` finds, for everything that can be written, exactly when that holds of every request. |
| `JournalLoad.CorruptClaimHidesMain` | packages/daemon/src/environment-setup-outcomes.ts:274-288 | A corrupt regular claim is not fallen back from: whatever is put under the main name, the map `load` returns tells nothing of the request, and reading it throws. |
| `JournalLoad.LinkedClaimDisagrees` | packages/daemon/src/environment-setup-outcomes.ts:243-288 | The limit: behind a claim that is a link with nothing readable, reading throws while loading tells the main record. |
| `JournalLoad.Spool.Scavenge` | packages/daemon/src/environment-setup-outcomes.ts:184-214 | Opening removes exactly the private temporary links whose inode the main name or the claim also leads to. |
| `JournalLoad.ScavengingChangesNoRecord` | packages/daemon/src/environment-setup-outcomes.ts:184-214 | No request reads or loads differently after it. |
| `JournalLoad.TempNamesAreThoseWritten` | packages/daemon/src/environment-setup-outcomes.ts:184-189 | The names taken for temporary ones are exactly those the spool writes: a main name, a process number, twelve hex digits. |
| `DirectoryClaim.AtMostOneDaemon` | packages/daemon/src/control.ts:368-448 | For any number of daemons starting, reclaiming, dying and leaving, their file operations interleaved, any two live ones that take the directory for their own are the same, and the published claim is its own. |
| `DirectoryClaim.OnlyGoneClaimsGo` | packages/daemon/src/control.ts:139-157 | In every interleaving, with `stop` commands about as in the next row, a published claim goes only by its own daemon's removal on the way out, or once that daemon has stopped for good. |
| `DirectoryClaim.AtMostOneDaemonWithStops` | packages/daemon/src/control.ts:152-157 | The same with `stop` commands about, as long as at each of their removals no live daemon takes the directory for its own or is about to remove a stale claim. |
| `DirectoryClaim.StopLetsTwoInIff` | packages/daemon/src/main.ts:1205-1213 | That condition is exact: after any such run, the removal by a `stop`, which takes no lock, can be followed without any further removal of the kind by two daemons holding the directory exactly when some live daemon holds it or is about to remove a stale claim. |
| `DirectoryClaim.OneStopLetsTwoDaemonsIn` | packages/daemon/src/main.ts:1221-1231 | The limit: one `stop` that found an abandoned claim, a daemon that reclaims that claim before the `stop` removes it, and a daemon that starts afterwards leave two daemons serving. |
| `DirectoryClaim.StopKeepsInvIff` | packages/daemon/src/main.ts:1205-1213 | The removal by a `stop` keeps the invariant below exactly when no live daemon holds the claim or is about to remove a stale one. |
| `DirectoryClaim.TwoStopsLetTwoDaemonsIn` | packages/daemon/src/main.ts:1221-1231 | The same limit with two `stop` commands and no reclaiming: two daemons start between their removals, and both serve. |
| `DirectoryClaim.AbandonedCanBeTaken` | packages/daemon/src/control.ts:414-448 | Whatever control file and lock crashed daemons leave behind, a daemon that starts alone gets to serve. |
| `DirectoryClaim.GivesUpOnlyForReason` | packages/daemon/src/control.ts:414-448 | In every interleaving a daemon that started is on its way out only after it read a claim whose probe did not answer gone, ran into the deadline of the lock, lost the publish, or was told to leave; a claim that vanished meanwhile is no reason. |
| `DirectoryClaim.ReasonIsHeeded` | packages/daemon/src/control.ts:423-446 | And each of these is heeded: from there on the daemon neither reclaims nor serves. |
| `DirectoryClaim.OutLeavesNothing` | packages/daemon/src/control.ts:139-157 | A daemon that has gone out, having served or not, leaves neither its claim nor its lock behind. |
| `DirectoryClaim.RunKeepsInv` | packages/daemon/src/control.ts:255-448 | The invariant behind these: whoever acts under the reclaim lock has it, whoever is about to remove a claim knows its owner gone, whoever holds the directory has its claim published. |
| `ControlFile.Directory.AcquireControl` | packages/daemon/src/control.ts:414-448 | Alone on the directory: an empty one is taken, a claim only after two probes found its owner gone, the second under the lock, and short of that the control file stays as it was. |
| `ControlFile.Directory.WaitForLock` | packages/daemon/src/control.ts:368-401 | The lock loop wins when the lock is free or may be broken before the deadline, and otherwise leaves the lock as it was. |
| `ControlFile.Directory.RemoveClaimIfUnchanged` | packages/daemon/src/control.ts:139-142 | A file is removed only while it still says what was read. |
| `ControlFile.Directory.LetGo` | packages/daemon/src/control.ts:152-157 | On the way out a daemon removes its own claim and nobody else's. |
| `ControlFile.StepsAreTheMethod` | packages/daemon/src/control.ts:368-448 | The interleaved steps, when nobody else takes any, end serving or out with the same control file and lock as the straight-line code. |
| `ControlFile.OnlyGoneClaimsAreReplaced` | packages/daemon/src/control.ts:414-448 | Acquired means the daemon's own claim published over nothing, over what is no claim, or over one both probes found gone; any refusal leaves the control file, and names the claim there with what a probe answered, or that the lock could not be had. |
| `RunHandles.AtMostOneOpenStream` | packages/api/src/http.ts:70-142 | Over any sequence of subscribe, detach, stream end, delivery and close, nested inside deliveries as they like, when the outermost call has returned at most one stream is open, and it is the attached one of the newest generation. |
| `RunHandles.OpenStreamsAreAccountedFor` | packages/api/src/http.ts:77-115 | Even in between, an open stream is the attached one or one whose opening has not returned. |
| `RunHandles.AcceptedOnceInOrder` | packages/api/src/http.ts:84-97 | Over the handle's whole life the frames it accepts are those after its first cursor, each once, in order, without gaps. |
| `RunHandles.CloseCancelsOnce` | packages/api/src/http.ts:128-141 | One cancel exactly when the handle was closed before it accepted a frame that ends the run; a run seen to finish is never cancelled, and nothing else cancels. |
| `RunHandles.FlagsAreEvents` | packages/api/src/http.ts:84-98 | The handle holds the run for finished exactly when it has accepted a frame that ends it, and itself for closed exactly when it was closed. |
| `RunHandles.SubscribersAreServed` | packages/api/src/http.ts:70-127 | Whoever subscribed to the open handle, and neither left nor was detached since, is served whenever the outermost call has returned: the newest stream is open, unless it has ended by itself. |
| `RunHandles.RunHandle.OnEvent` | packages/api/src/http.ts:70-81 | The first half of subscribing, up to the call of the transport: which stream is opened, under which generation and cursor. |
| `RunHandles.RunHandle.OpenReturned` | packages/api/src/http.ts:104-115 | The second half: the stream is kept only if it is still wanted, and released at once otherwise. |
| `RunHandles.RunHandle.OnFrame` | packages/api/src/http.ts:84-97 | A frame of a superseded stream or a closed handle changes nothing; any other moves the cursor, is delivered, and marks the run finished if it ends it. |
| `RunHandles.RunHandle.DetachAll` | packages/api/src/http.ts:122-127 | Detaching supersedes whatever is open and releases the attached stream. |
| `RunHandles.RunHandle.End` | packages/api/src/http.ts:128-141 | Closing does so once and for all. |
| `RunLog.ActiveRun.Emit` | packages/api/src/memory.ts:1799-1876 | Emitting appends one frame and keeps the stored snapshot equal to the fold of the update over the whole log. |
| `RunLog.FoldInParts` | packages/api/src/memory.ts:1954-1961 | Whoever starts from the snapshot after n frames and folds the rest has the snapshot of the whole log. |
| `RunLog.OneStepPerToolUse` | packages/api/src/memory.ts:1844-1854 | However often a tool use is logged, the transcript holds one step for it. |
| `RunLog.StepIsLastLogged` | packages/api/src/memory.ts:1844-1854 | That step is the last one logged, and it is there exactly when one was logged. |
| `RunLog.ProseIsEverythingSpoken` | packages/api/src/memory.ts:1820-1826 | The transcript's text, read through, is everything the assistant said, in order. |
| `RunLog.SnapshotIsLastTold` | packages/api/src/memory.ts:1799-1876 | The stored state is the last the log told, by a state, a card, a question or the completion; the plan is the last plan told; the in-flight payload the last one, and none after a completion; and the turn is under review from being told so to the completion. |
| `RunLog.TranscriptIsOutlined` | packages/api/src/memory.ts:1820-1854 | Messages and tool uses stand in the transcript in the order the log first tells them; a fragment goes on with the message just being said, and nothing else is run together. |
| `RunLog.FindIndex` | packages/api/src/memory.ts:1844-1851 | The loop finds the first step of a tool use. |
| `ResumedRuns.ResumedFramesOnceInOrder` | packages/api/src/memory.ts:1954-1998 | Resumed from the stored snapshot's own `lastEventSeq`: across any detach and reattach, also out of the middle of a replay, a handle is handed exactly the frames after its snapshot, each once, in order, up to its cursor. |
| `ResumedRuns.ResumedClientAgrees` | packages/api/src/memory.ts:1958-1998 | While attached, a client that folds what it is handed into its snapshot has the snapshot the run stores. |
| `ResumedRuns.ComingBackCatchesUp` | packages/api/src/memory.ts:2697-2702 | Whenever it comes back and stays, a handle not closed is brought up to the end of the log. |
| `ResumedRuns.ReplayIsGapless` | packages/api/src/memory.ts:2697-2702 | A replay hands over a run of frames without a gap, up to where the callback left or to the end. |
| `ResumedRuns.ResumedRun.OnEvent` | packages/api/src/memory.ts:1971-2001 | The replay loop with its wrapped callback comes to that, and keeps the observer only if it still stands. |
| `ResumedRuns.ResumedRun.OnFrame` | packages/api/src/memory.ts:1986-1991 | The wrapped callback takes a frame only while its subscription stands. |
| `TurnSequence.EveryReachableStoreIsValid` | packages/api/src/memory.ts:1055-1065 | Whatever runs start, finish, are delegated, and whatever Tasks are created and deleted, in any order, the invariant on numbers, transcripts and roll-ups holds. |
| `TurnSequence.NumbersAreDistinct` | packages/api/src/memory.ts:1055-1065 | In every reachable state two runs of one Task, settled, active or delegated, never hold one number. |
| `TurnSequence.TranscriptInStartOrder` | packages/api/src/memory.ts:1180-1183 | In every reachable state a turn that stands earlier in a transcript has the lower number and was started earlier, whichever finished first. |
| `TurnSequence.TaskFollowsNewestTurn` | packages/api/src/memory.ts:1183-1199 | In every reachable state a Task counts the turns of its transcript, and its last status and agent are those of the turn with the highest number. |
| `TurnHistory.TranscriptIsItsHistory` | packages/api/src/memory.ts:1156-1200 | After any run of the store a transcript holds exactly the turns of the runs completed in the Task while it stood, each with the number and agent the run was started with and the status it was completed with, until the Task is deleted. |
| `TurnHistory.RunsAreTheirHistory` | packages/api/src/memory.ts:1763-1790 | A run is under way, active or delegated, exactly from its start to its completion, with the number it was started with. |
| `TurnHistory.TasksAreTheirHistory` | packages/api/src/memory.ts:1430-1440 | A Task is there exactly from its creation to its deletion. |
| `TurnSequence.FinishKeepsValid` | packages/api/src/memory.ts:1156-1200 | A finished run lands under the number it reserved; the transcript stays strictly increasing and run count, last status and agent follow its newest turn. |
| `TurnSequence.BeginKeepsValid` | packages/api/src/memory.ts:1763-1951 | Reserving a number above all held ones keeps the store valid. |
| `TurnSequence.InsertKeepsOrder` | packages/api/src/memory.ts:1180-1182 | A turn with a number of its own goes into its place. |
| `TurnSequence.Core.NextTurnSequence` | packages/api/src/memory.ts:1055-1065 | The next number is one more than the highest any run of the Task holds, or one. |
| `TurnSequence.Core.StartRun` | packages/api/src/memory.ts:1740-1953 | A run past the bound is refused with nothing changed; any other reserves the next number. |
| `TurnSequence.Core.DelegateSubagent` | packages/api/src/memory.ts:2064-2095 | A delegated run reserves its number too. |
| `TurnSequence.Core.AppendTurn` | packages/api/src/memory.ts:1156-1200 | The turn is inserted by number and the Task rolled up from the newest turn; a Task that is gone gets nothing. |
| `TurnSequence.Core.CompleteRun` | packages/api/src/memory.ts:1769-1790 | Completing settles the run's turn and takes it off the active ones. |
| `TurnSequence.Core.CompleteDelegated` | packages/api/src/memory.ts:2073-2089 | The same for a delegated run. |
| `SimulatedRuns.NoDecisionLost` | packages/api/src/memory.ts:2382-2391 | Decisions taken followed by decisions queued are the decisions submitted, and a waiting driver means an empty queue. |
| `SimulatedRuns.CompletesOnceAndLast` | packages/api/src/memory.ts:2463-2683 | In every trace at most one frame completes, and nothing follows it. |
| `SimulatedRuns.RegisteredUntilCompleted` | packages/api/src/memory.ts:1789-1951 | The completion is reported at most once; the run is registered exactly until then, and by then its log ends with a completion. |
| `SimulatedRuns.NothingRunsUnapproved` | packages/api/src/memory.ts:2476-2660 | Nothing is written before an allow was taken, and no proposed plan runs before it was approved. |
| `SimulatedRuns.DecisionIsHeeded` | packages/api/src/memory.ts:2463-2683 | And conversely, in every run: by the time the driver next waits or has ended after taking a decision, it has said what the decision asks for: an approved plan executes, an allowed write is logged as allowed and a denied one as denied, an answer is taken up; a stop ends cancelled, a rejected plan ends failed with its reason, and where the decision ends the run the log ends there and is reported so. |
| `SimulatedRuns.AllowedIsWritten` | packages/api/src/memory.ts:2578-2683 | So an allow taken at the permission gate of a run not closed leads to the `allowed-once` entry and to an end in completed, reported as a success. |
| `SimulatedRuns.SnapshotIsCurrent` | packages/api/src/memory.ts:1799-1876 | At every moment of every run the stored snapshot carries the number of the last frame, no frame being a snapshot. |
| `SimulatedRuns.CancelledRunCompletes` | packages/api/src/memory.ts:2382-2683 | From any moment of any run, once a cancel was submitted, the driver's own steps lead to the completing frame, which is last. |
| `SimulatedRuns.NothingHoldsUpCancelled` | packages/api/src/memory.ts:2382-2683 | Nor can anything submitted or closed in between hold it up: no run has more than 80 steps of the driver, and after a cancel it always has a next one until it has ended. |
| `ClosedRuns.ClosedRunIsCancelled` | packages/api/src/memory.ts:2712-2718 | Closed before its first step, while it waits, or before it has gone on with a decision, a run never waits again, has a step of its own until it has ended, and ends cancelled and reported as no success, whatever is submitted meanwhile. |
| `ClosedRuns.ClosedRunEndsIff` | packages/api/src/memory.ts:2386-2718 | In every reachable state a closed run comes to its end by its own steps exactly when it is not waiting, and not speaking on the way to a question, with no decision queued. |
| `ClosedRuns.ClosedWhileSpeakingWaits` | packages/api/src/memory.ts:2712-2718 | The limit: any run closed between two frames after its first step, with nothing submitted, ends up waiting for a decision, still registered. |
| `SimulatedRuns.SimulatedRun.SubmitDecision` | packages/api/src/memory.ts:2703-2708 | A decision goes to the one waiter or to the end of the queue. |
| `SimulatedRuns.SimulatedRun.WaitDecision` | packages/api/src/memory.ts:2386-2391 | The driver takes the oldest queued decision or waits. |
| `SimulatedRuns.SimulatedRun.CloseRun` | packages/api/src/memory.ts:2712-2718 | Closing hands a waiting driver a cancel and submits nothing otherwise. |
| `FollowedRuns.FollowerAgrees` | packages/api/src/memory.ts:1954-2013 | Driver, log, stored snapshot and resumed client in one run: whenever the client resumed and however often it left and came back, it has been handed exactly the frames after its snapshot up to its cursor, once each, in order, and while attached folding them into that snapshot yields the snapshot stored now. |
| `FollowedRuns.SnapshotTellsTheRun` | packages/api/src/memory.ts:1799-1876 | At every moment of that run the stored snapshot carries the number of the last frame; its transcript is the log's, in order, with the last entry logged for each tool use; its state, plan and in-flight payload are those last told, and it is under review as told. |
| `FollowedRuns.SnapshotShowsWhereItStands` | packages/api/src/memory.ts:1811-1876 | A run that waits for a decision stores the state that asks for it, so at the permission gate it awaits permission; a run that has ended stores the state its last frame completed in, nothing in flight, no review, and was reported as a success exactly if that state is completed. |
| `FollowedRuns.FollowerSeesTheEnd` | packages/api/src/memory.ts:1986-1991 | A client attached when the completion has been reported, and resumed before the completing frame, was handed that frame once, and last. |
| `FollowedRuns.ClosingEarlyCancels` | packages/api/src/memory.ts:2007-2012 | A client that closed without having been handed the completion has submitted a cancel. |
| `FollowedRuns.ClosedRunCompletes` | packages/api/src/memory.ts:2007-2012 | From any reachable world with a closed client the driver's own steps lead to the completing frame, which is last. |
| `FollowedCalls.ClosingCancelsIff` | packages/api/src/memory.ts:2007-2012 | Wherever in the run the client closes, by a call or from inside a delivery or a replay, one cancel goes to the run exactly if the completion was not among what it has been handed. |
| `FollowedCalls.DecisionPassesIff` | packages/api/src/memory.ts:2002-2005 | A decision is passed on exactly while the handle is open and has not been handed the completion. |
| `FollowedCalls.LeavingIsHeeded` | packages/api/src/memory.ts:1971-2012 | A client that has detached is handed nothing until it subscribes again, and one that has closed nothing ever again. |
| `JsonRoundTrip.ParseUndoesPrint` | packages/api/src/provenance.ts:124-126 | Parsing the text printed for any value gives the value back, objects with their members in order. |
| `JsonRoundTrip.PrintIsInjective` | packages/api/src/provenance.ts:124-126 | Different values have different texts. |
| `JsonRoundTrip.ReprintedTextParsesAlike` | packages/api/src/provenance.ts:124-126 | Whatever text was parsed, white space, escapes and repeated keys and all, printing the result and parsing again gives it again. |
| `JsonRoundTrip.PrintIsWellFormed` | packages/api/src/pair-code.ts:104-116 | The text printed holds no surrogate outside a pair, whatever the strings inside hold. |
| `JsonPrinted.PlainPrintsAsItself` | packages/api/src/provenance.ts:116-126 | A string of units from 0x20 on, without quote, backslash or lone surrogate, prints as itself between quotes: in particular nothing outside ASCII is escaped. |
| `JsonPrinted.UnitIsSpelled` | packages/api/src/provenance.ts:116-126 | A unit by itself prints as its two-unit escape for the seven that have one, as a backslash, a `u` and its four hexadecimal digits in lower case for the other controls and a lone surrogate, and as itself otherwise. |
| `JsonPrinted.TextsJoin` | packages/api/src/provenance.ts:116-126 | Strings print unit by unit, surrogate pairs kept whole, so that settles how every string prints. |
| `JsonPrinted.PrintIsLaidOut` | packages/api/src/provenance.ts:124-126 | Arrays and objects print as their parts between brackets and braces, with one comma between members and one colon behind a key. |
| `JsonPrinted.PrintIsTight` | packages/api/src/provenance.ts:124-126 | No white space stands outside a string. |
| `JsonGrammar.NumeralIff` | packages/api/src/pair-code.ts:135-140 | A number is read in exactly the forms of section 6 of RFC 8259: a minus or none, a whole part without leading zeros, a fraction or none, an exponent or none. |
| `JsonTexts.ReadIffWritten` | packages/api/src/pair-code.ts:135-140 | A text is read as a value exactly when the grammar of RFC 8259 lets that value be written so: white space between any tokens, strings with or without escapes, repeated keys. |
| `JsonObjects.ObjectAsRead` | packages/api/src/pair-code.ts:135-145 | Of an object's members as written the last value of each key counts; indices come first and ascend, and the other keys stand in the order in which each was first written. |
| `CanonicalJson.SameTextIffEquivalent` | packages/api/src/provenance.ts:124-136 | Two values get one canonical text exactly when, without their members named `__proto__`, they are equal up to key order at every depth, items in order. |
| `CanonicalJson.SameTextIffEqual` | packages/api/src/provenance.ts:112-126 | Where neither has such a member, exactly when they are equal up to key order. |
| `CanonicalJson.ProtoIsLost` | packages/api/src/provenance.ts:131-134 | The limit: an object whose one member is named `__proto__` shares its text with the empty object, since the assignment sets a prototype. |
| `CanonicalJson.CanonicalIsStable` | packages/api/src/provenance.ts:124-136 | Parsing the canonical text and printing it again, or making it canonical again, gives the same text, keys that look like integers included. |
| `CanonicalJson.Sorted` | packages/api/src/provenance.ts:128-136 | The recursion with its key loop builds the value whose members stand indices first and then by code units, each depth. |
| `CanonicalJson.CanonicalText` | packages/api/src/provenance.ts:124-126 | The canonical text is what the sorted value prints as; how that is laid out is in the next rows. |
| `CanonicalJson.SortedIsUnique` | packages/api/src/provenance.ts:128-136 | An object listed in key order is settled by what its keys are mapped to. |
| `CanonicalKeys.KeyLessIff` | packages/api/src/provenance.ts:112-136 | The order of keys: array indices, the numbers below 2^32 - 1 in plain decimal, come first and ascend as numbers; the others ascend by code units. |
| `CanonicalKeys.CanonicalIsLaidOut` | packages/api/src/provenance.ts:112-136 | The canonical text has no white space outside strings and no surrogate alone, and at every depth its keys ascend in that order. |
| `Utf8.DecodeUndoesEncode` | packages/api/src/pair-code.ts:71-104 | Decoding what was encoded gives the text with each lone surrogate replaced. |
| `Utf8.TextComesBackIff` | packages/api/src/pair-code.ts:71-104 | It gives the very text exactly when the text is well formed and starts with no byte order mark. |
| `Utf8.EncodeUndoesDecode` | packages/api/src/pair-code.ts:94-101 | Only the shortest form is accepted: bytes that decode are the encoding of their text. |
| `EncodedBits.CharacterIsInTheTable` | packages/api/src/pair-code.ts:72 | A character takes as many bytes as the table of RFC 3629 says, marked as it says, with the character's bits in them. |
| `EncodedBits.BytesKeepTheOrder` | packages/api/src/pair-code.ts:72 | Bytes compare as the characters do. |
| `Base64Url.ToBase64Url` | packages/api/src/pair-code.ts:71-79 | The byte loop, `btoa` and the three replacements give the unpadded URL form. |
| `Base64Url.OctetsUndoSextets` | packages/api/src/pair-code.ts:71-92 | Bytes come back from their six-bit digits for every length modulo three. |
| `Base64Url.UrlTextIsSymbols` | packages/api/src/pair-code.ts:79 | The text is symbols of the URL alphabet and nothing else. |
| `Base64Url.FromUndoesTo` | packages/api/src/pair-code.ts:81-102 | Reading back what was written decodes exactly the bytes written. |
| `EncodedBits.SymbolsSpellTheBits` | packages/api/src/pair-code.ts:71-79 | The symbols spell the bits of the bytes in their order, six to a symbol, and after them zeros to the end of the last symbol. |
| `EncodedBits.SymbolsOfTheAlphabet` | packages/api/src/pair-code.ts:78-86 | The symbols are those of the URL alphabet, letter by letter. |
| `PairCode.RequestComesBackIffComplete` | packages/api/src/pair-code.ts:104-153 | A blob decodes to its request exactly when all six fields are non-empty, and to nothing when one is empty. |
| `PairCode.WrappedLineReadsAlike` | packages/api/src/pair-code.ts:127-131 | Any line that is the blob once its white space is gone carries the same request. |
| `PairCode.SpaceChangesNothing` | packages/api/src/pair-code.ts:127-131 | White space put in anywhere, in any line at all, changes nothing. |
| `PairCode.AcceptedRequestIsComplete` | packages/api/src/pair-code.ts:143-152 | Every request accepted has all fields, and its own blob is accepted as it. |
| `PairLayout.BlobIsLaidOut` | packages/api/src/pair-code.ts:51-115 | The line is `LYK1.` and the symbols of the UTF-8 of `{"n":…,"p":…,"v":…,"c":…,"s":…,"r":…}`, each text as JSON writes it. |
| `PairLayout.OnlyTaggedLinesAreRead` | packages/api/src/pair-code.ts:131-133 | Nothing is read as a request but what, without its white space, is that tag and symbols of the alphabet. |
| `PairLayout.ObjectReadsIff` | packages/api/src/pair-code.ts:141-152 | Any object sent so is read as a request exactly when it has its six texts, none empty: in whatever order, beside whatever else. |
| `PairCode.EncodeRequest` | packages/api/src/pair-code.ts:104-117 | The loop over the field table builds the six-member object and the tagged blob around it. |
| `PairCode.DecodeRequest` | packages/api/src/pair-code.ts:126-153 | The loop refuses at the first field that is missing, no text or empty, and otherwise gives the request. |
| `Framing.ChunksDoNotMatter` | packages/daemon/src/kernel-host.ts:86-95 | A reader that cuts each chunk with what was left of the last has the blocks and the tail of the whole text, however it was cut, for any delimiter. |
| `Framing.SplitGoesOn` | packages/daemon/src/kernel-host.ts:86-95 | Splitting what has come, keeping the tail and going on is splitting it all at once. |
| `Framing.SplitJoins` | packages/daemon/src/kernel-host.ts:86-95 | Blocks joined with the delimiter and the tail are the text, and no delimiter is left in the tail. |
| `Framing.SplitsIntoBlocks` | packages/daemon/src/kernel-host.ts:86-95 | In every block the delimiter first shows up at the block's own end. |
| `Framing.SplitIsUnique` | packages/daemon/src/kernel-host.ts:86-95 | There is only one way to read a text as such blocks and a tail. |
| `KernelHost.EveryCallIsAccountedFor` | packages/daemon/src/kernel-host.ts:103-251 | In every run a call made is waiting or has been told once, never both, except exactly when a reply to it with a null error arrived while the process was up and the call was waiting: then it is neither, and the process has ended. |
| `KernelHost.NoNullErrorNoCallLost` | packages/daemon/src/kernel-host.ts:112-119 | So with a host that never sends a null error every call is waiting or has been told once. |
| `KernelHost.NullErrorLosesCall` | packages/daemon/src/kernel-host.ts:112-119 | The limit: one call, and one reply to it with a null error. |
| `KernelHost.ToldByItsOwnReplyOrDeath` | packages/daemon/src/kernel-host.ts:112-119 | A promise is told by the reply to its own id, by the host's end, or at once when nothing was sent for it. |
| `KernelHost.NothingWaitsAfterDeath` | packages/daemon/src/kernel-host.ts:203-219 | Once the host is gone nothing is outstanding, and every call made before or after has been told once. |
| `KernelHost.EveryAskIsAnsweredOnce` | packages/daemon/src/kernel-host.ts:154-177 | An ask of the host is answered in one line or still being answered, never in two, while the host is there. |
| `KernelAnswers.ReplyTellsItsCall` | packages/daemon/src/kernel-host.ts:112-119 | After any events: a reply tells the call waiting under its id, once, with its own result, which then no longer waits; every other call stands as it did. |
| `KernelAnswers.StraysChangeNothing` | packages/daemon/src/kernel-host.ts:103-143 | A reply no call waits for, a line that cannot be read, a notice and what is neither change nothing. |
| `KernelAnswers.RepliesArrived` | packages/daemon/src/kernel-host.ts:112-119 | What was told by a reply was told by one that arrived, with that id and that result. |
| `KernelAnswers.GoneTellsAll` | packages/daemon/src/kernel-host.ts:203-219 | When the host goes, every call that waits is told so once, and every other stands as it did. |
| `KernelAnswers.CallGoesOut` | packages/daemon/src/kernel-host.ts:242-252 | A call to a host that is there, open and writable puts exactly one request of a fresh id on the pipe and waits under it; with the input gone it finds the host dead; to a host dead or stopping nothing is sent and the call is told at once. |
| `KernelAnswers.RequestsGoOutOnce` | packages/daemon/src/kernel-host.ts:242-252 | No request goes out twice, and none without a call. |
| `KernelAnswers.AskIsTaken` | packages/daemon/src/kernel-host.ts:154-164 | An ask nothing serves is answered in one line as it arrives; one that is served goes to its handler. |
| `KernelAnswers.HandledIsAnswered` | packages/daemon/src/kernel-host.ts:169-176 | And is answered in one line when the handler is done. |
| `KernelAnswers.FlagsAreEvents` | packages/daemon/src/kernel-host.ts:195-260 | The process is down, the host dead, stopping or deaf exactly after an event that makes it so. |
| `KernelStream.HeardAreTheLines` | packages/daemon/src/kernel-host.ts:86-95 | Chunks arriving, lines taken off one by one, and calls, handled asks and exits anywhere in between: the lines delivered, followed by those waiting to be, are the non-empty trimmed lines of all the text received, in order. |
| `KernelStream.HostFollowsTheLines` | packages/daemon/src/kernel-host.ts:86-143 | In such a run the host stands where its events lead, and the messages among them are the lines delivered; so what is stated of the host holds of it. |
| `KernelStream.DrainedIsDeliverAll` | packages/daemon/src/kernel-host.ts:89-94 | Taking lines until none is complete, with nothing between, is what the newline loop does with a chunk. |
| `KernelHost.RunKeepsInv` | packages/daemon/src/kernel-host.ts:103-251 | The invariant behind these, a conservation of calls among told, waiting and lost. |
| `KernelHost.Process.OnData` | packages/daemon/src/kernel-host.ts:86-95 | The newline loop delivers exactly the lines now complete and carries the rest. |
| `KernelHost.Process.DeliverLine` | packages/daemon/src/kernel-host.ts:103-143 | One message: a reply settles its own call, an ask is answered or handed on, everything else is dropped. |
| `KernelHost.Process.SendLine` | packages/daemon/src/kernel-host.ts:195-201 | A line is written, or a stream that is gone is the host's death. |
| `KernelHost.Process.OnGone` | packages/daemon/src/kernel-host.ts:203-219 | Death rejects every waiting call once and leaves none. |
| `KernelHost.Process.MakeCall` | packages/daemon/src/kernel-host.ts:242-252 | A call to a host dead or stopping is rejected at once; any other is registered before it is sent. |
| `CommandStream.OpenCommands` | packages/daemon/src/lab.ts:407-458 | The loop hands over the parseable complete blocks of the text received, in order, cut right after the first refused, and stops at a lookahead that waits too long; the outcome says which. |
| `CommandStream.HandOver` | packages/daemon/src/lab.ts:436-451 | The inner loop does so for the blocks now complete. |
| `CommandStream.PromptReadingIsOfTheWholeText` | packages/daemon/src/lab.ts:407-458 | Where no wait is cut short, what is handed over is that cut of the whole text. |
| `CommandStream.ChunkingDoesNotMatter` | packages/daemon/src/lab.ts:407-458 | Two chunkings of one text then hand over the same commands and end the same way. |
| `CommandStream.ReadingIsDetermined` | packages/daemon/src/lab.ts:407-458 | Late or not, what is handed over and how it ends is settled by the stream. |
| `CommandStream.CutIsUnique` | packages/daemon/src/lab.ts:441-449 | There is one cut only. |
| `CommandStream.PayloadComesBack` | packages/daemon/src/lab.ts:348-359 | A payload of any lines, written as `data:` lines, is read out of its block as it was. |
| `CommandBlocks.CommandComesBack` | packages/daemon/src/lab.ts:348-359 | A command written over any number of `data:` lines reads as what its payload is parsed to. |
| `CommandBlocks.OtherLinesChangeNothing` | packages/daemon/src/lab.ts:348-359 | Any other line may stand anywhere in the block and changes nothing. |
| `CommandBlocks.NoDataNoCommand` | packages/daemon/src/lab.ts:348-359 | A block without a `data:` line is no command, whatever the parser makes of it. |
| `CommandBlocks.WhatIsSentIsHandedOver` | packages/daemon/src/lab.ts:407-458 | End to end, waits aside: a reader that takes everything is handed exactly the commands sent, in order, however the stream was cut, and an unfinished block is none. |
| `CommandBlocks.BackpressureIff` | packages/daemon/src/lab.ts:407-458 | A reading ends with backpressure exactly when the last command handed over was refused, or was taken with a lookahead and the wait after it ran late. |
| `CommandLine.Scan` | packages/daemon/src/config.ts:269-313 | The index loop comes to the units of the line collected one after another, or to the first refusal. |
| `CommandLine.ScanUnit` | packages/daemon/src/config.ts:274-309 | One turn of it takes one unit: a word, a value flag in either form, or a bare flag, or refuses. |
| `CommandLine.ScannedHolds` | packages/daemon/src/config.ts:301-302 | The line holds the words in order, for each flag the first value it was given, and the bare flags present. |
| `CommandLine.AcceptedIffProperUnits` | packages/daemon/src/config.ts:269-313 | A line is accepted exactly when it is a row of complete units. |
| `CommandLine.RefusedIffFault` | packages/daemon/src/config.ts:269-313 | It is refused, for one of the five reasons, exactly when after complete units no unit starts, for that reason: nothing follows a value flag, another flag follows it, nothing follows its sign, a bare flag has a sign, or the name is none of the flags. |
| `CommandLine.PlaceDoesNotMatter` | packages/daemon/src/config.ts:265-268 | After a complete beginning, a unit may be moved across any number of units it is independent of, whatever follows, refusals included. |
| `CommandLine.NeighboursCommute` | packages/daemon/src/config.ts:265-268 | Two neighbouring units that are not both words and not the same value flag may change places. |
| `CommandLine.FormsScanAlike` | packages/daemon/src/config.ts:253-263 | A value that is not empty and does not start with a dash may be given as `--flag v` or `--flag=v`, whatever follows, refusals included. |
| `CommandLine.FormsScanAlikeIff` | packages/daemon/src/config.ts:253-263 | Before a complete rest of the line `--flag v` and `--flag=v` come to the same exactly when v is not empty and does not start with a dash. |
| `CommandLine.DaemonFlagsAreSound` | packages/daemon/src/config.ts:46-57 | The daemon's own flags start with a dash, hold no equals sign, and none is of both kinds. |
| `BoundedText.BoundedUtf8` | packages/api/src/environment-setup-outcome.ts:33-43 | The loop gives the cut text. |
| `BoundedText.BoundedIsLongest` | packages/api/src/environment-setup-outcome.ts:33-43 | The cut text is a prefix up to a character boundary, within the byte limit, and no longer such prefix is. |
| `BoundedText.BoundedRedactedUtf8` | packages/api/src/environment-setup-outcome.ts:95-111 | The marker repair, for any redaction. |
| `BoundedText.PrefixOrPrefixAndMarker` | packages/api/src/environment-setup-outcome.ts:95-111 | The result is a prefix of the redacted text, or such a prefix followed by the whole marker. |
| `BoundedText.RepairIsLongest` | packages/api/src/environment-setup-outcome.ts:95-111 | The longest beginning that fits is the result, unless it ends in a beginning of the marker; then that is dropped and the marker put after the longest beginning of what is left that leaves room for it. |
| `BoundedText.CutMarkerIffPart` | packages/api/src/environment-setup-outcome.ts:102-107 | The guard of the repair holds exactly of a text whose last units are a proper, non-empty beginning of the marker. |
| `BoundedText.NeverEndsInCutMarker` | packages/api/src/environment-setup-outcome.ts:98-109 | The result never ends in a beginning of the marker that is not the whole of it. |
| `BoundedText.WithinLimitIff` | packages/api/src/environment-setup-outcome.ts:98-110 | It is within the limit exactly when the limit leaves room for the marker or no marker had to be put in. |
| `BoundedText.SmallLimitIsExceeded` | packages/api/src/environment-setup-outcome.ts:98-110 | The limit: one opening bracket under a limit of one byte becomes ten bytes. |
| `TaskTitle.PromptTitleIsStable` | packages/api/src/task-title.ts:82-84 | The name cut from a prompt is at most 80 long and trimmed, and naming by that name gives it again. |
| `TitleAnswers.PromptTitleIsPrefix` | packages/api/src/task-title.ts:82-84 | It is a beginning of the trimmed prompt, all of it where that is at most 80 long, short of 80 only by white space where it is longer, and never empty where the prompt says something. |
| `TaskTitle.Unwrap` | packages/api/src/task-title.ts:137-158 | The peeling loop ends, with what repeated peeling comes to. |
| `TaskTitle.WrappersAreNotEmpty` | packages/api/src/task-title.ts:49-58 | The listed pairs leave nothing to peel forever: none has an empty side. |
| `TaskTitle.UnwrappedIsBare` | packages/api/src/task-title.ts:137-158 | What is left is wrapped by no listed pair. |
| `TaskTitle.UnwrappedIsWithin` | packages/api/src/task-title.ts:137-158 | It is a stretch of the text, and trimmed if the text was. |
| `TaskTitle.UnwrappingTwice` | packages/api/src/task-title.ts:137-158 | Unwrapping what was unwrapped changes nothing. |
| `TaskTitle.FittedIsTitle` | packages/api/src/task-title.ts:181-194 | A tidied text becomes itself, or its prefix ending no later than the last blank that fits, 1 to 60 long, trimmed, single-spaced, one line. |
| `TaskTitle.CleanTitleIsTitle` | packages/api/src/task-title.ts:172-195 | So does every title an answer gives, of the answer's tidied first line. |
| `TitleAnswers.CleanTitleIff` | packages/api/src/task-title.ts:172-195 | An answer gives no title exactly when it says nothing, or when its first line that says something, tidied, is empty, is prose, or has only closing punctuation where a title would be cut from. |
| `TitleAnswers.ProperTitleComesBack` | packages/api/src/task-title.ts:172-195 | A proper title comes back from every answer whose first line unwraps to it, to a label in front of it, or to one in front of it wrapped. |
| `TitleAnswers.LabelGoes` | packages/api/src/task-title.ts:64 | A label goes, with its emphasis and its mark, and what it stands in front of stays. |
| `TitleAnswers.OnlyLabelsGo` | packages/api/src/task-title.ts:64 | Where there is no label nothing goes, and what went was one. |

## Left out

- Steps that interleave with other processes (journal, directory claim) and the reactions of a run handle inside nested
  calls are functions on values; the classes beside them are the same code with nobody else about.
- JournalRace.AtMostOneOwner: without acknowledge, as are its neighbours; across an acknowledge that races a straggling
  `complete` of another process the journal promises no single outcome.
- JournalPower.CompletedOutcomeSurvives: a fsync of the directory that succeeds is taken to make all of it durable, also
  what an earlier fsync that threw had been asked to; JournalPower.ReturnedOutcomeOutlastsIff and
  JournalBegin.BegunOutlastsIff rest on the same.
- File modes, ownership, link counts and `chmod`, apart from the privacy check before a temporary link is removed.
- Version-1 records, the size bounds on stored records, and identities the bounds refuse.
- Two directory entries that differ only in case, and file systems that are not POSIX.
- DirectoryClaim.AtMostOneDaemon: under the three assumptions named above; clocks, process ids that are used again and
  the control port appear only through them.
- RunHandles.AtMostOneOpenStream: a transport that does not call back from inside its own unsubscribe; the order in
  which a set of subscribers is walked is left open, callbacks may do anything between two frames.
- ResumedRuns.ResumedFramesOnceInOrder: one callback at a time, none subscribing from inside a callback, as the
  handle's use has it; two observers of one resumed handle share its cursor. A handle subscribed from inside another
  observer's delivery of a frame would be handed that frame by its replay and again by that delivery.
- FollowedRuns.FollowerAgrees: one resumed client, and that of the simulated run; the handle that started the run and its
  snapshot events are not in it.
- RunLog.ActiveRun.Emit: a plan is an identity; what is changed in a plan after it was emitted is not followed.
- TurnSequence.Core.StartRun: the Task's status and timestamps, seeds of the store, and `revertTurn`, which refuses
  every turn recorded here.
- SimulatedRuns.SimulatedRun.SubmitDecision: wording of the script, run records and plan step marks; frames are
  events of the right kind in the right order.
- JsonRoundTrip.ReprintedTextParsesAlike: JSON numbers as binary64. A number is carried as the numeral it is written with,
  so of `-0` or `1e999`, which JavaScript prints as `0` and `null`, the lemma speaks of the numeral.
- Values that are no JSON, such as `undefined` properties, in `canonicalJson`; hashing of the canonical text.
- PairCode.EncodeRequest: fields that are no strings, which the type rules out and the code would skip.
- KernelHost.Process.OnData: what listeners do is a further event between lines; parsing a line is a function given to
  the host; the promise of `stop`, signals and `stderr` are not modelled.
- KernelHost.Process.MakeCall: parameters and answers that `JSON.stringify` can write. Where it throws, a call is rejected
  at once while its entry stays on the table until the host dies, and an ask is left unanswered.
- CommandStream.OpenCommands: text already decoded. Each chunk is decoded on its own, so a character cut by a chunk
  becomes replacement characters; opening the stream and its refusals come before.
- CommandLine.Scan: `readCommand` and the settings read from the environment, which only look up what was scanned.
- BoundedText.BoundedRedactedUtf8: the redacting regular expressions are any function; whether redacting twice is
  redacting once is not claimed.
- `promptNeedsSummary`, which looks at a prompt's length, its line breaks and the case of its first letter; and `submit` of
  the HTTP handle, which passes a decision on while the handle is open.
- Referential integrity of Conversations and Tasks, Task numbers and `updateTask`, which moving and filing break on
  purpose.
- `acp.ts` and `bridge.ts`, the same shapes as the kernel host with weaker framing; `retry.ts`, `bounded-set.ts`,
  `agent-demotions.ts`, `ready-adapters.ts`, `adapter-consent.ts` and `agent-options.ts`, which hold no protocol and no loop
  of interest.
- Processes, sockets, HTTP, the sandbox, environment building, pages and agent catalogues.
