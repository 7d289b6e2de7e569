# ModelKeep, modelled and proved

ModelKeep is a durable mirror of model and dataset repositories. This project models its hard core
in Dafny and proves what the core is for. Every `.dfy` file is one module; `dafny verify
dfyconfig.toml` checks them all.

| part | modules |
|---|---|
| shared vocabulary | `Common`, `Text`, `Paths`, `Manifests`, `FileTree`, `Placing` |
| fetch staging: leases, claims, recovery, size | `StagingRules`, `StagingArea`, `StagingProtocol`, `StagingProof`, `StagingTheorems`, `StagingCare`, `StagingRaces`, `StagingUsage` |
| revision extension | `Extension`, `ExtensionRerun`, `ExtensionBlocks`, `ExtensionNames`, `ExtensionReports`, `RevisionExtension` |
| publication and its readers | `Cleanup`, `Readers`, `PublishedTree`, `Publication`, `ReusePublication`, `SelfCheck`, `SelfCheckRefs` |
| the manifest's text | `Json`, `ManifestText`, `PublishedText` |
| single-flight acquisition | `Flight`, `SingleFlight`, `SingleFlightProof` |
| the management job store | `JobStore`, `JobRuns`, `JobTheorems`, `JobOpening`, `RequestHash` |
| job history | `HistoryKeys`, `HistoryPaging`, `HistoryWalk` |
| the upstream helper | `Cancellation`, `HelperProtocol`, `Selection` |

## How it is modelled

Protocols whose steps interleave are state machines: a state, an event for every observable step,
`Enabled`, `Apply`, and runs as sequences of events. A process may stop for good between any two
steps. Main results hold in every state of every run. Loops and objects whose methods change fields
are classes and methods, each proved against a specification function or predicate about which the
lemmas speak; the machines take their atomic steps from the same functions.

- **Files.** The file system is a map from the directory entries leading to a node to that node: a
  regular file, a directory or a symbolic link. Names are compared as they are. Lookups follow links
  as the operating system does, up to forty. A directory is read in any order.
- **Crashes.** A stop loses no step already taken. `FileSystem.outcomes` says of every effect whether
  it takes place, so every theorem about publication covers any pattern of failing effects, the
  clean-up after them included, and a stop anywhere; `AllWent` says that none has failed. Renaming and
  removing a whole directory are one effect each.
- **SHA-256** is an injective constructor; **operation ids** are fresh names.
- **Time** in the staging protocol is a clock that cannot pass the expiry of a lease whose holder is
  alive, or of a lease file computed and not yet in place: a live holder refreshes within the
  120 seconds of `STAGING_LEASE_SECONDS`. Reading a lease and reading the clock are separate steps,
  in the order of the code: recovery reads the lease first, a claim the clock.
- **Job ids** embed the second they were drawn in, and a failing record write leaves the record as
  it was.
- A file carries what JSON makes of its bytes, and its trimmed text; `Json` and `ManifestText` treat
  the manifest's actual text, and `PublishedText` publishes it.
- **A published revision** is extended as a tree of files and directories without links, which
  publication leaves. ModelKeep's own files are in the trees like any other: the manifest under its
  name in the revision, the lease under its name in the staging directory. Any file requested may
  hold bytes that read as a manifest.

## Conditions found on the way

- Recovery reads a lease, then the clock (src/lib.rs:893-905), and never looks again. An owner that
  renews in time between the two, or drops its lease to publish, loses its directory
  (`StagingRaces.LiveOwnerLosesDirectory`), and a commit recorded after the metadata was read is
  lost with it (`StagingRaces.RecordedCommitIsDeleted`). Owners are left alone exactly on the runs
  where no such reading succeeds on an owned name (`StagingRaces.DisturbedExactlyByLateReads`); a
  second look at the lease would be enough exactly if it lets only an expired lease or a missing
  name pass (`StagingRaces.SecondLookRulesOutOwnersIff`). What holds with that guard is in
  `StagingCare`; what `StagingTheorems` states holds without it.
- Rerunning an interrupted extension does not always list what was requested. A file where a
  directory is needed, or a directory left where a file goes, blocks a request for good and leaves
  its other files moved and unlisted (`ExtensionBlocks.FileWhereDirectoryIsNeeded`,
  `ExtensionBlocks.DirectoryWhereFileGoes`), and a path that leads to the staging lease can never be
  staged (`ExtensionNames.LeaseNameIsNeverListed`). The exact condition is
  `ExtensionRerun.RerunListsEverythingIff`; with paths in normal form throughout it is
  `ExtensionRerun.NormalRerunIff`.
- Validation accepts paths with empty and `.` components. Two such spellings can name one file, and
  `./` before the name of one of ModelKeep's own files leads to that file. An extension can so
  overwrite a listed file (`ExtensionNames.AliasOverwritesListed`) or replace the manifest: run to
  its end it lists bytes that are not there (`ExtensionNames.ManifestNameIsNotAsListed`), and stopped
  before its swap it leaves a revision nobody can read or extend again
  (`ExtensionNames.ManifestNameEndsRevision`), or one that lists what the file says
  (`ExtensionNames.ManifestNameReplacesManifest`). `ExtensionNames.NewPathBreaksIff` is the exact
  condition for one new path, and normal form rules it out (`ExtensionNames.CleanNeverCollides`); the
  theorems about what is listed and served in every run therefore require normal form. A publication
  of other paths leaves a revision that does not verify: there normal form is the exact condition
  (`Publication.PublishRevision`).
- Publication by reuse accepts a listed path that is, or runs through, a symbolic link, and then
  removes it. The exact condition is that every listed path was a regular file reached through real
  directories (`ReusePublication.PublishDirectory`). A symbolic link under the manifest's own name
  is spared by the cleanup and followed by the write: the revision is then never complete.
- The self-check confines only a path's last component (`SelfCheck.LinkedDirectoryEscapes`). A clean
  path resolves exactly when its real place is inside the revision.
- The self-check passes over refs whose names begin with a dot and over refs that are symbolic
  links, and both resolve (`SelfCheck.HiddenRefsAreUnchecked`,
  `SelfCheckRefs.LinkedRefsAreUnchecked`). A clean self-check vouches exactly for the regular files
  without a leading dot (`SelfCheckRefs.TrustedExactlyWhenChecked`).
- The manifest writer escapes no control characters; absence of control characters is the exact
  condition for the round trip, and path validation guarantees it.
- A result event is compared with the commit to resume, not with the resolved event of a fresh fetch
  (`HelperProtocol.FreshResultIsNotCompared`); it is the recorded commit exactly when some resolved
  event names it (`HelperProtocol.FreshResultIsRecordedIff`).
- Waiting for the helper may fail, and the fetch then returns without reaping it: the exact
  exception to its being reaped (`Cancellation.HelperIsReapedOnce`).
- Creating a job may report a storage error after its record was written. The record is then live
  and not active until the next restart, cancelling it answers that it has ended
  (`JobStore.JobManager.CancelJob`), and a retry under the same key returns it
  (`JobTheorems.StorageErrorStrays`). Those are exactly the live records that are not active
  (`JobTheorems.LiveExactlyWhenActive`).

## Model

| member | source | states |
|---|---|---|
| `StagingRules.DiscardsExactlyUnadoptable` | src/lib.rs:879-957 | Recovery deletes a directory if and only if its lease is readable and expired and no later acquisition could adopt it. |
| `StagingRules.AdoptableSurvivesRecovery` | src/lib.rs:912-957 | Whatever a listing calls adoptable is still there, and still adoptable, after recovery at any later time, and exactly the same requests claim it. |
| `StagingRules.ListedExactlyWhenSomeRequestClaims` | src/lib.rs:1890-1904 | A directory alone in the temporary area is listed adoptable if and only if some request would claim it. |
| `StagingRules.InFlightIff` | src/lib.rs:2127-2233 | An acquisition is refused as in flight if and only if a directory with readable metadata of the same identity has a live lease, and the request asks for the recorded selection of an active one or could claim an abandoned one. |
| `StagingRules.LeaseErrorIff` | src/lib.rs:2127-2215 | It fails on an unreadable lease if and only if the directory has the same identity and is active, or abandoned and claimable. |
| `StagingRules.ClaimIff` | src/lib.rs:2127-2251 | It claims a directory if and only if the identity is the same, the selection adoptable, a commit recorded and the lease expired; in all other cases it starts fresh. |
| `StagingRules.FormsOfNames` | src/lib.rs:2140-2195 | Which names are active markers, which abandoned ones, and which neither, whatever follows the prefix. |
| `StagingRules.PreservesExactlyActive` | src/lib.rs:912-957 | Recovery renames for resuming exactly the expired active directories that record a commit, so that whatever it leaves of the expired ones is abandoned by name and adoptable. |
| `StagingRules.ListingAgrees` | src/lib.rs:3250-3270 | What a listing calls a directory and what becomes of it agree: resumable if and only if some request would claim it, stale if and only if recovery would delete it, active if and only if its lease is live, apart from the ones recovery has failed on. |
| `StagingArea.TemporaryArea.RecoverIncomplete` | src/lib.rs:823-877 | The recovery loop leaves the area exactly as recovering each entry on its own would, and returns how many it discarded. |
| `StagingArea.RecoversInAnyOrder` | src/lib.rs:823-877 | The result of recovery does not depend on the order the directory is read in. |
| `StagingArea.CountsDiscards` | src/lib.rs:823-877 | The count recovery reports is the number of entries that are gone. |
| `StagingArea.RecoveryIsExact` | src/lib.rs:823-957 | In any reading order, and with faults at other entries, an entry is gone if and only if its lease was readable and expired and nothing could adopt it, and an adoptable one is there and stays adoptable. |
| `StagingArea.NothingStaleAfterRecovery` | src/lib.rs:3250-3281 | What recovery leaves is listed as active, unreadable or resumable, never as stale. |
| `StagingTheorems.NoDirectoryHasTwoOwners` | src/lib.rs:2127-2347 | Over every interleaving of acquisitions, claims, heartbeats, preservations, recoveries and stops, also where recovery takes directories away: two attempts own one directory only if they are the same attempt, whatever renames it has been through. |
| `StagingTheorems.WorkIsInFlight` | src/lib.rs:2182-2233 | In every run, while an attempt works in an active directory that is in place, a second acquisition of the same thing at that moment is refused as in flight. |
| `StagingTheorems.LeasesRunOut` | src/lib.rs:3440-3462 | In every run from leases that reach at most 120 seconds ahead of the clock, every lease and every expiry about to be written does so at every point: an owner that is gone blocks nobody for longer. |
| `StagingTheorems.LeasesLast` | src/lib.rs:3608-3627 | Every expiry is computed exactly 120 seconds ahead, and each lease write, of a claim, a fresh directory or a heartbeat, puts the computed one in place. |
| `StagingTheorems.FinishedLeavesNothing` | src/lib.rs:751-761 | Publishing or giving up takes exactly the attempt's own directory away. |
| `StagingTheorems.PreservedIsAdoptable` | src/lib.rs:2333-2347 | Recording a commit and preserving the directory leaves it, with all it recorded and that commit, for the same request to claim at once. |
| `StagingTheorems.ExpiredMeansNoOwner` | src/lib.rs:3440-3462 | In every run a directory whose lease reads as expired has no live owner. |
| `StagingTheorems.EachNameIsClaimedOnce` | src/lib.rs:2287-2331 | In every run each directory name is claimed at most once: at most one retry resumes an abandoned directory. |
| `StagingRaces.DisturbedExactlyByLateReads` | src/lib.rs:893-905 | A run leaves every owner's directory in place at every point, and has recovery after none of them, if and only if no recovery's clock reading reaches the expiry it read earlier while the name is owned. |
| `StagingRaces.SecondLookRulesOutOwnersIff` | src/lib.rs:893-905 | The guard the code lacks, exactly: a second look at the lease after the clock rules an owner out if and only if it finds the name gone or an expiry the clock has reached; a later expiry and a missing lease do not. |
| `StagingRaces.TakesExactlyOwned` | src/lib.rs:902-957 | From a clock reading that succeeds, some continuation has recovery about to act on an owned name if and only if the name is owned at that reading. |
| `StagingRaces.OwnedIsTaken` | src/lib.rs:912-957 | And then the owner's directory goes from under its name: renamed to abandoned if it had recorded a commit, deleted if not. |
| `StagingRaces.LiveOwnerLosesDirectory` | src/lib.rs:893-905 | From every start a run in which a live owner that renews its lease in time, or drops it to publish, loses its directory to a recovery that read the lease before. |
| `StagingRaces.RecordedCommitIsDeleted` | src/lib.rs:907-957 | From every start a run in which a commit recorded after recovery read the metadata is deleted with its directory. |
| `StagingCare.OwnersKeepTheirDirectories` | src/lib.rs:2127-2347 | On runs in which the lease in place at every successful clock reading had expired too, every owner's directory is in place. |
| `StagingCare.RecoverySparesOwned` | src/lib.rs:879-957 | On those runs recovery beside any attempts leaves every owned directory untouched. |
| `StagingCare.RecoveryLosesNothingResumable` | src/lib.rs:912-957 | On those runs recovery beside any attempts loses no directory a resume could use; it survives under a name that is still adoptable. |
| `StagingTheorems.RecordsAreWrittenOnce` | src/lib.rs:3153-3183 | Over any chain of interruption, preservation, recovery, adoption and resume, a directory's commit is written once, its identity never changes, and its selection changes only from unrestricted. |
| `StagingTheorems.ResumedWorkIsPinned` | src/lib.rs:2287-2347 | In every run a resumed attempt's directory, if it is in place, records the attempt's own identity, its own selection and exactly the commit it was told to resume. |
| `StagingTheorems.ClaimGoesThrough` | src/lib.rs:2287-2331 | An attempt that read an expired lease, and whose target has not been renamed away, can finish its claim and work on that very directory with its recorded commit. |
| `StagingTheorems.AdoptableIsResumed` | src/lib.rs:2127-2251 | An adoptable directory with an expired lease is resumed by some run of any request that may claim it. |
| `StagingTheorems.RunKeepsInv` | src/lib.rs:2127-2347 | The protocol's invariant holds in every state of every run. |
| `StagingProof.StepGuarantees` | src/lib.rs:3599-3627 | What one step of one attempt may do to the directories, the bound every other attempt relies on. |
| `StagingProof.OthersRely` | src/lib.rs:2287-2347 | Every other attempt's own invariant survives any step within that bound. |
| `Extension.ExtensionsAreMonotonic` | src/lib.rs:2694-2805 | With paths in normal form, over every interleaving of extensions and readers with a stop at any step: the manifest only grows at its end, every listed file is on disk with its recorded size and digest, every reported path stays listed, and every reader got the recorded bytes. |
| `Extension.ReadersAreServed` | src/lib.rs:2393-2425 | With paths in normal form a reader that found its entry can always open it, whatever extensions did in between. |
| `ExtensionRerun.RerunListsEverythingIff` | src/lib.rs:2694-2805 | After an extension that stopped anywhere, once the lock is free: a request can be run to its end with every requested path listed if and only if the manifest can be read, every new path ends in a name and leads neither to the staging lease nor below it, no new path is or is on the way to another, no file stands where one needs a directory and no directory where one goes. |
| `ExtensionRerun.RerunListsEverything` | src/lib.rs:2694-2805 | That run, with what it lists and reports: every requested path is listed, with the requested bytes of each that was new; the new ones are reported as added, ascending, and the others as skipped. |
| `ExtensionRerun.NormalRerunIff` | src/lib.rs:2694-2805 | When all paths have been in normal form from the start, the condition is only that no new path is on the way to another and nothing in the revision stands in the way of one. |
| `ExtensionRerun.StepsMatch` | src/lib.rs:2758-2805 | The protocol's own steps through the part under the lock, directory by directory, end in the same tree, entries and report as the functions the methods below are proved against, whenever nothing stands in the way. |
| `ExtensionBlocks.ListedWasAccepted` | src/lib.rs:2772-2786 | Whoever extends, however often, as long as no file is put where the manifest is whose bytes read as one: a path that is ever listed had nothing standing in its way from the start, and was listed then or can be staged; so what is in the way stays in the way. |
| `ExtensionBlocks.BlockedAfterFirst` | src/lib.rs:2772-2786 | From any readable state with the lock free: of two new files the second of which is blocked, the first, unless it goes where the manifest is, is moved, then nothing is left to do but to stop, and the first stays unlisted. |
| `ExtensionBlocks.FileWhereDirectoryIsNeeded` | src/lib.rs:2779-2783 | With `a` listed, a request for `x` and `a/b` moves `x`, can then only stop, and leaves `x` unlisted; `a/b` is never listed, as long as no file put where the manifest is reads as one. |
| `ExtensionBlocks.DirectoryWhereFileGoes` | src/lib.rs:2779-2783 | An extension that stopped after creating the directory `a` leaves a revision in which the file `a` is never listed, as long as no file put where the manifest is reads as one. |
| `Placing.CanStageIff` | src/lib.rs:2829-2887 | Files can be created one after another in a new staging directory, which holds its lease, if and only if each path ends in a name and none leads to, below or towards another or the lease. |
| `Placing.CanMoveIff` | src/lib.rs:2772-2786 | Files apart from each other can be moved in one after another if and only if each could be moved in first. |
| `ExtensionNames.CurrentIsRead` | src/lib.rs:2808-2826 | What an extension takes for the revision's listing is what every reader's reading of the manifest gives, if that is complete. |
| `ExtensionNames.LeaseNameIsNeverListed` | src/lib.rs:2847-2855 | Validation accepts `./.modelkeep-staging-lease`; from any start that does not list it, it is never listed, as long as no file put where the manifest is reads as one. |
| `ExtensionNames.ManifestNameReplacesManifest` | src/lib.rs:2777-2783 | From any readable state with the lock free, a new path that is another spelling of the manifest's name replaces the manifest: an extension that stops there leaves a revision that lists what the file's bytes read as, or nothing. |
| `ExtensionNames.ManifestNameEndsRevision` | src/lib.rs:2758-2783 | Validation accepts `./.modelkeep-manifest.json`; if an extension for it stops after its rename and its bytes do not read as a complete manifest, the revision never changes again and no extension or reader gets past its first look. |
| `ExtensionNames.ManifestNameIsNotAsListed` | src/lib.rs:2772-2798 | Run to its end, that extension lists the path with the requested bytes while the file it leads to is the new manifest. |
| `Extension.RenameKeepsListedIff` | src/lib.rs:2777-2785 | Renaming a new file into place leaves every listed file as recorded if and only if no listed entry names the same file under another spelling with other bytes. |
| `ExtensionNames.AliasOverwritesListed` | src/lib.rs:2772-2786 | From any whole revision with the lock free, a new path that is another spelling of a listed file, with other bytes, is accepted and overwrites that file. |
| `ExtensionNames.NewPathBreaksIff` | src/lib.rs:2694-2805 | In a whole revision with the lock free whose listed paths do not lead to the manifest: some extension by one new path leaves the manifest unreadable or a listed file not as recorded if and only if the path can be staged and put where it goes, and leads to the manifest or to a listed file of other bytes. |
| `ExtensionNames.CleanNeverCollides` | src/lib.rs:3682-3708 | Among paths in normal form a new one leads neither to the manifest nor to a listed file, and can be staged: normal form shuts out the whole family. |
| `ExtensionNames.DoubleSlashOverwritesListed` | src/lib.rs:3682-3700 | A run in which a path with an empty component, which validation accepts, overwrites a listed file. |
| `RevisionExtension.PublishedRevision.Select` | src/lib.rs:2715-2745 | A request is split into what the manifest lists already and what is new; a manifest that cannot be read, or an invalid or repeated path, refuses it, and nothing else does. |
| `RevisionExtension.PublishedRevision.PlaceFile` | src/lib.rs:2778-2783 | One file is put in place with the directories on the way, or some of those directories are all that is left; it fails only where an effect fails or something stands in the way. |
| `RevisionExtension.PublishedRevision.PublishStaged` | src/lib.rs:2758-2805 | The part under the lock, on the tree that holds the manifest too: wherever it ends, the files moved so far are a beginning of the new ones, or all are there and the manifest read at first with them at its end is in place; it fails only where the manifest cannot be read, an effect fails or something stands in the way; the report is exact, added paths ascending. |
| `ExtensionReports.ReportsWhatWasAsked` | src/lib.rs:2738-2805 | Whatever others do meanwhile, an extension that gets to its end, at once or after its swap, reports exactly the requested paths, each as added or as skipped. |
| `ExtensionReports.ReaderGetsItsPath` | src/lib.rs:2408-2425 | Whatever others do meanwhile, a reader is given the path it asked for, with the digest listed when it looked and the bytes there when it opens. |
| `Extension.RunKeepsInv` | src/lib.rs:3513-3575 | The invariant of the extension protocol, lock discipline included, holds in every state of every run with paths in normal form. |
| `Paths.ValidMeans` | src/lib.rs:3682-3708 | Which paths validation accepts, read off the text instead of its components: not empty, not absolute, no control character, nothing that says `..` or `.cache` between slashes, and not beginning like ModelKeep's own names. |
| `Paths.NormalIsUnambiguous` | src/lib.rs:3682-3700 | Two paths in normal form name one file only if they are one spelling. |
| `Flight.SharedFlight.Publish` | src/singleflight.rs:76-86 | Publishing appends an event with the next number and keeps the newest sixty-four. |
| `Flight.SharedFlight.Finish` | src/singleflight.rs:88-101 | Finishing records a result or that the acquisition was abandoned. |
| `Flight.SharedFlight.Look` | src/singleflight.rs:103-159 | One locked look hands over the retained events after the cursor, in order, and moves the cursor past them. |
| `SingleFlightProof.FetchesNeverOverlap` | src/singleflight.rs:200-254 | In every run two fetches running for one key are the same flight. |
| `SingleFlightProof.NobodyJoinsAFinishedFlight` | src/singleflight.rs:200-254 | Whoever joins shares a flight whose result is not out yet, and starts a fresh one exactly if every earlier flight for the key is over. |
| `SingleFlightProof.ProgressIsOrderedAndBounded` | src/singleflight.rs:103-159 | A waiter sees progress in strictly increasing order without repeats, and misses an event after its start only if sixty-four newer ones were published before it looked. |
| `SingleFlightProof.EndedWaitersSawTheLastEvent` | src/singleflight.rs:103-159 | A waiter that returns Completed or Abandoned was given the flight's own outcome and has seen the last event ever published. |
| `SingleFlightProof.PendingMeansStillRunning` | src/singleflight.rs:103-159 | Pending is returned only with a deadline that has passed, and only if the flight was still running at the last locked look. |
| `SingleFlightProof.LookDecides` | src/singleflight.rs:115-150 | In every run a look hands over what is new or the ending if there is either; otherwise the waiter leaves with Pending if and only if its deadline has passed, and sleeps if and only if not. |
| `SingleFlightProof.RelayDecides` | src/singleflight.rs:103-159 | In every run a waiter begins one event behind, is given what it collected in order, and then leaves with the ending it read, or looks again if it read none. |
| `SingleFlightProof.OutcomeIsReturned` | src/singleflight.rs:88-101 | In every run a flight ends with exactly the result its fetch returned, and as abandoned only if its fetch came to none. |
| `SingleFlightProof.EventsArePublished` | src/singleflight.rs:76-86 | In every run the events of a flight are exactly what was published on it, in order. |
| `SingleFlightProof.NobodySleepsThroughAChange` | src/singleflight.rs:103-159 | A waiter that sleeps although its flight has ended or has an event for it has been woken, or a notification is still owed. |
| `JobStore.JobManager.Update` | src/admin.rs:1166-1184 | One transition under the lock: if its record is written, exactly that record is the changed job, and the job stays active if and only if it is live; a failed write changes nothing, in memory or on disk. |
| `JobStore.JobManager.Submit` | src/admin.rs:782-884 | A submission answers from its key's entry, merges into the one equivalent active job, or creates a job; a stale entry is dropped first. |
| `JobStore.JobManager.CancelJob` | src/admin.rs:1024-1095 | Cancelling writes the terminal record and drops the job from memory, or changes nothing and says why; a job reported as ended has ended unless its record is live and belongs to no active job. |
| `JobStore.JobManager.FirstFree` | src/admin.rs:832-870 | The first drawn id that no active job, reservation or record uses. |
| `JobStore.OnlyOneEquivalent` | src/admin.rs:825-831 | The active job a submission is merged into is unique, so the order of the map does not matter. |
| `JobTheorems.SubmissionMeans` | src/admin.rs:782-884 | Each answer of a submission, case by case and in both directions: a key whose record exists decides alone, by this or the older digest; otherwise the equivalent active job; otherwise a new queued job with exactly what was submitted, under the first of the drawn ids nothing uses; and a storage error in exactly the other cases. |
| `JobTheorems.FirstOfSixteen` | src/admin.rs:832-870 | That id is the first unused one among the first sixteen drawn. |
| `JobTheorems.CreationReserves` | src/admin.rs:1391-1418 | Creating a job holds a reservation for exactly its own id from the first disk step until the record is in place or the id is given back. |
| `JobRuns.ProgressIsClamped` | src/admin.rs:1105-1145 | A progress report moves a meter forward only, keeps the first total, and never passes it unless the meter already had. |
| `JobRuns.LateTotalIsExceeded` | src/admin.rs:1117-1125 | A total that first arrives after more progress was recorded is exceeded. |
| `JobRuns.ChangedIsQueuedWhileWaiting` | src/admin.rs:1105-1115 | A job is queued only while it waits, leaves the queue with its first report of anything else, and becomes terminal only by completing, failing or being cancelled. |
| `JobRuns.ChangedMeans` | src/admin.rs:1105-1145 | What each change does, field by field: a report moves the meter of its unit and no other, and only with a figure; completing, failing and cancelling set their own state and phase. |
| `JobRuns.PersistedIndexes` | src/admin.rs:1360-1389 | Each index update that takes effect leaves its index right for the record written, and one that fails leaves it alone. |
| `JobRuns.MarkerIsCleared` | src/admin.rs:665-700 | Opening clears each marker it goes through unless it wrote the interrupted record and only then failed to, and touches no other. |
| `JobRuns.PersistedKeeps` | src/admin.rs:1360-1389 | A write with any subset of its index updates failing keeps every record, every remembered key and the indexes. |
| `JobTheorems.CreationKeeps` | src/admin.rs:1391-1418 | Creating a job keeps the store whole wherever it stops: the record appears only after all its indexes. |
| `JobTheorems.MigrationKeeps` | src/admin.rs:1188-1243 | Building one record's indexes completes them for it and disturbs no other, wherever it stops. |
| `JobTheorems.RunKeeps` | src/admin.rs:645-701 | The store's invariant holds over every run of submissions, transitions, write faults, crashes, migrations and reopenings. |
| `JobTheorems.RecordsOnlyDevelop` | src/admin.rs:1166-1184 | Over every run no record is lost, no terminal record changes and no progress goes back; whenever the store serves, the active jobs are live, equal to their records and pairwise inequivalent. |
| `JobTheorems.EndedByItsOwnEvent` | src/admin.rs:1105-1184 | Over every run: a record becomes completed only by completing its job, cancelled only by a cancellation, and failed only by its job's failure or by an opening that found it live. |
| `JobTheorems.LiveExactlyWhenActive` | src/admin.rs:672-699 | Over every run of any store: when opening ends no record is queued or running; while the store serves, a record is live if and only if its job is active, except for exactly the records whose creation since that opening wrote the record, went on and reported a storage error, and those are live and not active. |
| `JobTheorems.StorageErrorStrays` | src/admin.rs:1391-1418 | Whenever a job would be created and storage fails after its record was written: the caller gets an error, the record is live and not active, and a retry under its key returns it. |
| `JobTheorems.LiveRecordMayStray` | src/admin.rs:866-873 | Such a run from an empty store. |
| `JobTheorems.KeyAnswersForever` | src/admin.rs:796-824 | Once a record has been written under a key, every later submission with the key, after any run of faults, crashes and restarts, returns that job for the same request, selection and principal, conflicts for any other, and changes nothing. |
| `JobTheorems.StaleKeyNeverBlocks` | src/admin.rs:816-820 | An entry left by a crash before its record was written never keeps a job from being created and remembered. |
| `JobTheorems.OneJobPerKey` | src/admin.rs:1281-1315 | In every state of every run at most one record carries a key. |
| `JobOpening.MigrateIndexes` | src/admin.rs:1188-1243 | In any reading order: a store opened for the first time gets complete indexes and keeps its records if and only if no two records share a key, no entry disagrees with a record that has its key, and every index, and at the end the sentinel that marks them as built, can be written. |
| `JobOpening.RecoverMarkers` | src/admin.rs:665-700 | In any reading order, exactly the marked records that were queued or running become failed with the phase interrupted and are otherwise as found, and every other record is as found; it succeeds if and only if each marker's own necessary write does. |
| `JobOpening.OpenStore` | src/admin.rs:645-701 | A store opens if and only if its keys are undisputed and the writes it cannot do without succeed; then each record that was queued or running is failed with the phase interrupted and otherwise as found, every other is as it was found, and all indexes are complete. |
| `RequestHash.DigestIdentifiesSubmission` | src/admin.rs:2128-2152 | Equal digests if and only if equal request, selection and principal. |
| `RequestHash.LegacyNeverEqualsCurrent` | src/admin.rs:2154-2167 | No digest of the old form equals one of the new form. |
| `HistoryKeys.KeyOrderIsHistoryOrder` | src/admin.rs:97-99 | For all 64-bit times and valid ids, keys compare exactly as the pairs of creation second and id. |
| `HistoryKeys.JobIdInvertsHistoryKey` | src/admin.rs:101-109 | The id is read back from its history key. |
| `HistoryKeys.OnlyHistoryKeysHaveIds` | src/admin.rs:101-109 | A file name yields an id only if, up to the case of its hexadecimal digits, it is twenty digits, a dash and the encoding of that id. |
| `HistoryKeys.DecodeInvertsEncode` | src/admin.rs:78-95 | Hexadecimal decoding inverts encoding. |
| `HistoryKeys.EncodeInvertsDecode` | src/admin.rs:86-95 | Whatever decodes encodes back to itself, up to the case of its digits. |
| `HistoryKeys.KeysAreDistinct` | src/admin.rs:97-99 | Different jobs never share a key. |
| `HistoryPaging.SelectTop` | src/admin.rs:718-741 | The heap loop keeps exactly the limit plus one greatest keys below the cursor, for every reading order. |
| `HistoryPaging.SortedTop` | src/admin.rs:742-746 | The heap sorted downwards is the list of the greatest keys, greatest first. |
| `HistoryPaging.ListPage` | src/admin.rs:703-766 | One page is the newest jobs below the cursor's, with a cursor exactly if more follow; an unknown cursor gives an empty page and a mismatched index entry an error. |
| `HistoryWalk.PageMeans` | src/admin.rs:703-766 | One page, in terms of the jobs: at most the limit of recorded jobs older than the cursor's, newest first, with none left out that is newer than one of them; a cursor, the last of them, if and only if older ones are left; an empty page for an unknown cursor and an error for an invalid one. |
| `HistoryWalk.MismatchIff` | src/admin.rs:742-758 | Whatever the index holds, a page fails if and only if one of the keys it has to look at is not its job's own. |
| `HistoryWalk.WalkListsEveryJobOnce` | src/admin.rs:703-766 | Following the cursors to the end while jobs keep being created lists every job present from the start exactly once, strictly newest first, and nothing but recorded jobs. |
| `HistoryWalk.StoreIndexIsFaithful` | src/admin.rs:1270-1279 | The index kept through every run of the job store is one that paging may rely on. |
| `FileTree.StatAndLstat` | src/lib.rs:1614-1684 | What resolves exists, and a path that does not end in a link leads to what its directory holds. |
| `Cleanup.RemoveUnlisted` | src/lib.rs:3464-3496 | In any reading order the recursive cleanup leaves exactly the listed regular files, the directories leading to them and the top-level lease and manifest; it fails if and only if a removal does, and touches nothing outside even then. |
| `Readers.CollectFiles` | src/lib.rs:3757-3794 | In any reading order the recursive walk collects exactly the regular files that are not ModelKeep's own, and fails exactly if it meets anything but directories and files with valid names. |
| `Readers.VerifyRevision` | src/lib.rs:2459-2499 | Verification succeeds if and only if the manifest is complete, every entry resolves with its recorded size and digest, and the files found are the files listed; it returns the number of entries. |
| `Readers.ResolvedMeans` | src/lib.rs:2393-2425 | A path is served if and only if it is valid, ends in a name, is listed by a complete manifest and leads to a regular file inside the revision; it is that file, under the digest of the first entry with the path; and each error has exactly its own cases. |
| `PublishedTree.VerifiesIffInPlace` | src/lib.rs:2459-2499 | A published revision verifies if and only if every listed path is in normal form and names a regular file that is there. |
| `PublishedTree.InPlaceResolves` | src/lib.rs:2393-2425 | A published file that is in place is served from its own place with the size and digest its entry records. |
| `PublishedTree.ManifestReads` | src/lib.rs:2501-2512 | A published revision's manifest reads back with exactly the entries that were published. |
| `Publication.PublishRevision` | src/lib.rs:720-761 | Publication succeeds if and only if every effect takes place, there are files and they can be published, nothing but directories is on the way and the revision is not there yet. Whichever effects fail and wherever it stops, the revision directory does not exist or is the complete revision with the given manifest file; an existing one is untouched; and the new one verifies if and only if the given paths are in normal form. |
| `Publication.PublishByCopy` | src/lib.rs:738-761 | The same from the moment the revisions directory exists, with nothing changed outside the staging and revision directories. |
| `Publication.PublishableIff` | src/lib.rs:2899-2935 | Files can be published if and only if every path is valid and none leads below the manifest's name, and a new staging directory with its lease accepts them one after another. |
| `Publication.WriteRevision` | src/lib.rs:2899-2938 | Filling a staging directory succeeds if and only if every effect takes place and the files can be published; it then holds the given files under their paths, nothing else but the lease, and a manifest that lists them. |
| `Publication.Finish` | src/lib.rs:751-761 | Removing the lease and renaming succeeds if and only if every effect does and the lease's name is no directory, and turns a complete staging directory into a complete revision with the same files and the same manifest file in place. |
| `ReusePublication.CheckSources` | src/lib.rs:2948-2984 | The files are accepted if and only if paths are valid, end in a name and are distinct, and every source is a regular file, inside the directory, that its archive path leads to as well; each entry then records its size and digest. |
| `ReusePublication.WriteSourceManifest` | src/lib.rs:2939-2997 | Turning an acquisition's directory into a revision keeps exactly the listed paths that were regular files reached through real directories, and completes it if and only if the manifest's name was not a symbolic link; if it was, the manifest lies at the one place the link leads to. |
| `ReusePublication.PublishDirectory` | src/lib.rs:2609-2667 | Publication by reuse is all or nothing at every stop: a revision that appears is complete if and only if the manifest's name was not a symbolic link, and then publication succeeds if and only if every effect takes place, nothing but directories is on the way, the revision is not there yet and the directory is reusable; a complete one verifies if and only if every listed path was in normal form and a regular file reached through real directories. |
| `ReusePublication.PublishByReuse` | src/lib.rs:2646-2667 | The same from the moment the revisions directory exists, with nothing changed outside the two directories but at the one place a linked manifest name leads to. |
| `ReusePublication.LinkedPathIsAccepted` | src/lib.rs:2956-2964 | A listed path that is a symbolic link to an acquired file passes every check of the publication and is then lost: the family the condition above shuts out. |
| `SelfCheck.Report.CheckRevision` | src/lib.rs:1567-1718 | One revision adds exactly one finding per inconsistent entry, in order, or one for an unusable manifest. |
| `SelfCheck.FindingMeans` | src/lib.rs:1618-1717 | Which finding an entry draws, kind by kind and in both directions: unsafe, missing, unreadable, of another size, or none. |
| `SelfCheck.Report.CheckRevisions` | src/lib.rs:1513-1556 | In any reading order: no finding is added if and only if every revision is clean, and the servable commits are exactly those with usable manifests. |
| `SelfCheck.Report.CheckRefs` | src/lib.rs:1720-1804 | In any reading order: no finding is added if and only if every ref is a valid name holding a servable commit. |
| `SelfCheck.Report.CheckType` | src/lib.rs:1397-1473 | In any reading order: no finding is added if and only if every directory of one repository type is clean. |
| `SelfCheck.VerifiedIsClean` | src/lib.rs:1567-1718 | A revision that verifies gives the self-check nothing to find. |
| `SelfCheck.CleanFileResolvesIffInside` | src/lib.rs:2393-2425 | In a revision without findings a listed path that is not ModelKeep's own resolves, with its recorded size, if and only if its real place is inside the revision. |
| `SelfCheck.NoLinkStaysInside` | src/lib.rs:1662-1681 | Without a link among a clean path's directories its real place is inside the revision. |
| `SelfCheck.CleanRefsResolve` | src/lib.rs:1261-1279 | In a repository without findings every ref that is a regular file not beginning with a dot resolves to a revision whose manifest is complete. |
| `SelfCheck.CleanCoversEveryRepository` | src/lib.rs:1397-1473 | No finding below a repository type means every repository reached through real directories is clean. |
| `SelfCheck.HiddenRefsAreUnchecked` | src/lib.rs:1758-1763 | A file whose name begins with a dot resolves like any ref and is never checked. |
| `SelfCheckRefs.LinkedRefsAreUnchecked` | src/lib.rs:1755-1757 | A symbolic link among the refs resolves to the text of the file it leads to and is never checked. |
| `SelfCheckRefs.TrustedExactlyWhenChecked` | src/lib.rs:1720-1804 | A clean self-check vouches for every ref of a kind, that it resolves to a revision that can be served, if and only if the kind is a regular file whose name does not begin with a dot. |
| `SelfCheckRefs.ResolvedIsServableIff` | src/lib.rs:1261-1279 | In a repository without findings a ref that resolves leads to a revision that can be served if and only if it names a commit the self-check found servable, as every ref it checked does; revisions that are links are apart, and no checked ref names one. |
| `SelfCheckRefs.ServableIsFound` | src/lib.rs:1513-1556 | The self-check finds a commit servable if and only if its revision can be served, links apart. |
| `SelfCheck.LinkedDirectoryEscapes` | src/lib.rs:1662-1700 | A file reached through a linked directory outside the revision draws no finding and does not resolve. |
| `StagingUsage.MeasureUsage` | src/lib.rs:2065-2106 | For every reading order: the walk ends, is complete if and only if everything could be read and the entry bound was not passed, is then exactly the recursive sum saturated at 64 bits and the file count, and is a lower bound otherwise. |
| `StagingUsage.TotalOfMore` | src/lib.rs:2100-2101 | The sum of lengths does not depend on the order it is taken in. |
| `Cancellation.CancellationToken.CancelFetch` | src/upstream.rs:91-104 | Cancels if and only if nobody has decided before, says which of the two came first otherwise, and reaps an owned helper exactly if this call is the one that cancels. |
| `Cancellation.CancellationToken.CommitFetch` | src/upstream.rs:108-115 | Committing succeeds if and only if nobody has decided before. |
| `Cancellation.CancellationToken.AttachHelper` | src/upstream.rs:122-131 | A helper is taken over, or reaped at once if the token is already cancelled. |
| `Cancellation.CancellationToken.ReclaimHelper` | src/upstream.rs:134-140 | The helper goes back to the fetch, or was already reaped. |
| `Cancellation.CancelExcludesCommit` | src/upstream.rs:82-141 | For every interleaving of a fetch with any number of cancels and commits: the first cancel or commit wins, once, and no other call does; every later cancel is told which of the two came first. |
| `Cancellation.CancelledEndWasCancelled` | src/upstream.rs:828-945 | A fetch that ends as cancelled was: a cancel came first and said so. |
| `Cancellation.HelperIsReapedOnce` | src/upstream.rs:828-952 | For every interleaving a spawned helper is reaped at most once, by either side, and by the time the fetch returns it has been reaped if and only if waiting for it did not fail. |
| `Cancellation.FailedWaitLeavesHelper` | src/upstream.rs:952 | A run in which waiting fails and the fetch returns with its helper unreaped and owned by nobody. |
| `Cancellation.FetchMayFinish` | src/upstream.rs:828-952 | A run in which nobody cancels, the helper exits, the fetch finishes and its commit wins. |
| `Cancellation.WinnerStays` | src/upstream.rs:91-115 | Once one side has won, no later call changes that. |
| `Cancellation.CancelledFetchNeverFinishes` | src/upstream.rs:938-954 | A cancellation that takes effect before the fetch's last look at the token is never lost. |
| `HelperProtocol.Fetcher.ReadLines` | src/upstream.rs:863-937 | The streaming loop stops at the first bad line, keeps the first reported failure and the last result, and records the first resolved commit. |
| `HelperProtocol.Fetcher.RunFetch` | src/upstream.rs:822-1005 | A run's outcome is the declarative reading of the whole output: an observed cancellation beats the first bad line, which beats the first reported failure, which beats a bad exit code. |
| `HelperProtocol.Fetcher.Record` | src/lib.rs:3153-3183 | The first resolved commit is recorded and stays; a different one is an error. |
| `HelperProtocol.SuccessMeans` | src/upstream.rs:960-990 | A run succeeds if and only if nobody cancelled, no line was bad, no failure was reported, the helper exited cleanly, and the last result event of the output has a full commit, the one to resume if there was one, and at least one file. |
| `HelperProtocol.CancelledMeans` | src/upstream.rs:828-945 | A run is cancelled if and only if one of the looks it got to saw the cancellation. |
| `HelperProtocol.StartMeans` | src/upstream.rs:840-863 | An I/O error means exactly that the helper could not be started, its pipe broke at the first bad line, or waiting for it failed after good output; a missing pipe is its own error. |
| `HelperProtocol.BadLineMeans` | src/upstream.rs:863-937 | An error only a line can give is the outcome if and only if nobody cancelled and it is the error of the first bad line, whatever follows it and however the helper exits. |
| `HelperProtocol.LineMeans` | src/upstream.rs:863-937 | When a line is good, and for each kind of error exactly which lines give it. |
| `HelperProtocol.ParsedFailure` | src/upstream.rs:1118-1136 | A failure event is read if and only if its version is known and its class has a name, and then gives that class and its own detail. |
| `HelperProtocol.ReportedMeans` | src/upstream.rs:953-962 | A reported failure is the outcome if and only if the whole output was good, waiting succeeded, and the first failure event gives it, whatever the exit code; or no failure event came and the exit code stands for it. |
| `HelperProtocol.ExitMeans` | src/upstream.rs:1138-1148 | An exit code decides only over good output without a failure event, each code its own error. |
| `HelperProtocol.ResultMeans` | src/upstream.rs:960-990 | The last result is checked, in this order, for being there, its commit, the commit to resume and its files, if and only if the output was good, no failure was reported and the helper exited cleanly. |
| `HelperProtocol.ProgressInOrder` | src/upstream.rs:863-892 | The progress passed on is that of the parsed progress events, in their order. |
| `HelperProtocol.ResumedFetchKeepsCommit` | src/upstream.rs:973-981 | A resumed fetch that succeeds returns exactly the recorded commit, which is still recorded. |
| `HelperProtocol.ResolvedAgree` | src/upstream.rs:893-916 | In output without a bad line all resolved events name one commit, the recorded one. |
| `HelperProtocol.FreshResultIsNotCompared` | src/upstream.rs:963-981 | Without a commit to resume, a result naming another commit than the resolved event succeeds. |
| `HelperProtocol.FreshResultIsRecordedIff` | src/upstream.rs:893-981 | A fresh run that succeeds returns the commit staging records if and only if some resolved event names that commit. |
| `Selection.NormalizePatterns` | src/upstream.rs:267-278 | Normalization refuses any unsafe pattern, and otherwise returns the patterns once each in ascending order. |
| `Selection.IdentityIsTheTwoSets` | src/upstream.rs:225-278 | Two selections have equal identity lists if and only if their include sets and exclude sets are equal, whatever the input order or repeats. |
| `Selection.IdentityIsInjective` | src/upstream.rs:174-185 | The identity list determines the normalized selection. |
| `Json.StringRoundTrip` | src/lib.rs:3742-3751 | A string written with only quotation marks and backslashes escaped reads back as itself if and only if it has no control character; otherwise it does not parse. |
| `Json.ValueRoundTrip` | src/lib.rs:3710-3740 | A written value parses back to itself, whatever follows it, if and only if no string in it has a control character. |
| `ManifestText.WriteManifest` | src/lib.rs:3710-3740 | The manifest writer's output is the compact JSON text of the document and a newline, entries in order. |
| `ManifestText.ManifestRoundTrip` | src/lib.rs:3710-3751 | A written manifest parses if and only if no identifier or path in it has a control character, and then reading it returns the header fields and the entries in order. |
| `ManifestText.ValidPathsComeBack` | src/lib.rs:3682-3700 | Every manifest whose paths passed validation comes back, quotation marks and backslashes included. |
| `PublishedText.Publish` | src/lib.rs:720-761 | Publication with the manifest's real text succeeds under exactly the conditions above; whenever the revision is there, its manifest file holds that text, the text parses, and the manifest every reader gets is the one and only that it describes, listing the published files. |
| `PublishedText.WrittenTextDescribes` | src/lib.rs:3710-3751 | The text written for valid paths parses to a description of exactly the manifest that was written. |

## Left out

- HistoryWalk.WalkListsEveryJobOnce: speaks of walks whose cursors come to an end; that a walk ends while jobs are created without limit below its cursor is not claimed.
- StagingTheorems.AdoptableIsResumed: says that a run exists, not that a scheduler picks it.
- Whether the sources of an extension can be read: the theorems that give a run to its end take each source as a file with its bytes, and effects that fail, names the file system refuses and full disks as extensions that stop.
- What a manifest records besides completeness, type and entries, which an extension compares with its request or carries over: the repository, the requested revision and the commit.
- Publication by copying sources from a directory differs from publication of given bytes only in how the bytes are read, and is covered by it; a source that cannot be read is a failure before the rename.
- The lease heartbeat is part of the staging protocol and not of publication and extension, where a lease being rewritten is one more of ModelKeep's own files, under a fresh name no request can foresee.
- Lease files that do not parse are in the recovery rules and not in the staging protocol, where they are an error for every reader.
- Explicit removal of staging racing with an adoption, which the code itself leaves open.
- Power loss with directory entries that were never synced, torn writes, and disk errors that are not the failure of a whole effect.
- That stopping a helper before reaping it fails: `terminate_and_reap` is one effect that takes place.
- Of a job: its outcome, commit, error class, message and the times other than its creation, which follow its state.
- Symbolic links among the directories that lead to a revisions directory, which the system follows and the model takes for something in the way.
- Damaged or unreadable job records, poisoned locks and failing thread creation.
- That a cancelled job record means nothing was published: the token's exclusion and the stability of terminal records are what holds.
- A key is not remembered for a submission that was merged into another active job.
- The self-check's list of left-behind staging directories, whose rule `StagingRules` shares with recovery.
- Moving refs and removing revisions, the transfer gate and the callers of acquisition in `src/pullthrough.rs`.
- Numbers in JSON other than natural ones, which the archive never writes.
- Inventory runs of the helper, which own no staging and no token, and the record of upstream file lists.
- HTTP routing, authentication, views, tracing, the web interface, command line and environment: plumbing.
- The importer, range parsing, capacity percentages and status codes: straight-line code.
- The helper itself, `upstream/hf_fetch.py`, which wraps libraries that cannot be seen.
