# IDEN, modelled and proved in Dafny

IDEN is an identity provider with face biometrics. It has three parts: a provider that issues tokens and whose admin API hands out permissions, an engine that judges face captures, and a kiosk at which people enrol. This project models the decisions each part makes and proves what they add up to over every run, every capture and every interleaving.

Verify it with `dafny verify dfyconfig.toml`.

## What is modelled

**Authority in the admin API** (`Directory`, `Delegation`, `Lockout`, `Requests`, `Administration`, `Recovery`, `Guards`, `Escalation`). The tables are maps and sets of pairs, with the foreign keys' cascades. Every administrative write is a transaction over them: change, ask the guards, commit or roll back. `Administration.Session` is the imperative form; `Outcome` is its specification. `Requests` says, in rows alone, what each request achieves and what speaks against it, and every request is carried out to the letter or refused for a reason that is true. Two results span whole runs. Colluding callers, whatever they request with their tokens and whatever accounts they take over, never reach a restricted scope that none of them had (`Escalation.NoEscalation`); each of the two rules is shown to be needed. And after every commit somebody active holds the recovery scope (`Recovery.NobodyIsLockedOut`).

**The bootstrap** (`Seeding`, `SeededRows`, `SeedSession`, `Bootstrap`, `Upkeep`). The seed is a fold over a catalogue that does not contradict itself. `SeededRows` says in rows alone what a run leaves. A second run changes nothing and shows no credential; a run succeeds exactly when nobody else holds what the catalogue claims; and a deployment it seeds is one that can never be locked out. No request touches what the seed owns, so through requests and further runs of the seed in any order the database goes on saying what the catalogue says (`Upkeep.SeededDeploymentsKeepUp`).

**The capture decision** (`Statistics`, `Vectors`, `Matching`, `Ranking`, `Liveness`, `Judging`, `Pipeline`). Detection, embedding, anti-spoofing and quality scores are given functions. What remains is which frames count, how results line up with frames, sorting, medians and vector arithmetic. The main result is the exact meaning of `live`, from frames to verdict, read off the frames' own coordinates.

**The guided capture** (`Steps`, `Script`, `Polling`, `Capture`, `Guidance`). Both captures are methods of a `Booth`, over an arbitrary stream of head readings, arbitrary lateness of every wait and arbitrary camera failures. What they tell is proved to be one script, or the part of it up to the frame that is missing. For the guided capture every frame is further pinned to the readings at its time: it is taken as soon as two polls in a row allow it, and a timeout comes only after a whole window of polls in vain. `Guidance` says the same of the head's yaw and pitch themselves.

**The kiosk** (`Storage`, `Device`, `Overlap`, `Heartbeats`). `Device.Kiosk` is the process with one call at a time; `Overlap` is the same answers' effects split at every `await`, with any interleaving and power cuts. `Heartbeats` has the wake, clear and wait loop both as a state machine and as a loop that follows it.

**Geometry and thresholds** (`Geometry`, `Align`, `HeadPose`, `Threshold`). The two-dimensional Umeyama fit, the pose proxies of the engine and of the browser, and the "higher" quantile, over real numbers. Singular values, square roots and trigonometry are given by contract.

## Where the code says something else

- `provider/README.md:470` names `admin:users:write` as the scope somebody must always hold. The code protects `admin:grants:write` (`provider/src/provider/admin/lockout.py:30`), and so does the model.
- `engine/eval/run.py:61` promises that at most the target share of impostor pairs match. That is not so: `Threshold.ThePlainPromiseFails` gives a case, and `Threshold.PromiseHoldsExactlyWhen` says when it holds: exactly when the score below the threshold in order is lower and floor(fmr (n - 1)) + 1 is at most fmr n. `Threshold.FewScoreAboveTheThreshold` and `Threshold.RateIsAtMostTwiceTheTarget` are what is true.
- The heartbeat loop catches every exception of a heartbeat, but reads its delay outside that `try` and hands it to a wait. Settings that are not an object, or a `heartbeatSeconds` that Python does not compare with a number (text, say; a boolean counts as one), end it: `Heartbeats.OnlyUnreadableSettingsEndTheLoop` says exactly when, and `Heartbeats.UnreadableSettingsEndIt` gives a run. A null delay waits until the next wake-up.
- The pitch proxy reads a tilt as pitch when the eyes are found in one place: `HeadPose.CoincidingEyesReadTiltAsPitch` gives a face. `HeadPose.PitchIgnoresPlacementExactlyWhen` says when a tilt does not matter: exactly when the eyes are apart, there is no tilt, or the nose lies on the line from the eyes to the mouth.
- The lockout guard is not asked when an API is deleted. That is safe because system scopes sit under system APIs; `Recovery.AnOrdinaryApiWouldTakeTheRecoveryScopeWithIt` shows what happens otherwise.
- Overlapping calls can leave an unpaired kiosk with a token, leave a newly paired one with the old pairing's token, and forget a new pairing for an old secret's refusal: `Overlap.AnUnpairedKioskMayHoldAToken`, `Overlap.ATokenMayBeAnotherPairings`, `Overlap.ANewPairingMayBeForgotten`. `Overlap.OnlyALateGrantOutlivesThePairing` and `Overlap.OnlyALateRefusalForgetsAnother` name the one step that does each, and `Overlap.OneAtATime` is what holds without overlap.

## Model

| member | source | states |
|---|---|---|
| Delegation.HoldsExactlyWhatReaches | provider/src/provider/admin/delegation.py:60-75 | A person holds a scope exactly when a path of join-table rows leads to it: direct, by role, or by a group's role |
| Delegation.PrefixEndsAtTheColon | provider/src/provider/admin/delegation.py:35-46 | A value's prefix is all that comes before its first colon, so `admin:anything` has the prefix `admin` |
| Delegation.PrefixIs | provider/src/provider/admin/delegation.py:35-46 | A value has a prefix exactly when it is that prefix, or goes on from it with a colon |
| Lockout.QueryFindsExactlyTheHolders | provider/src/provider/admin/lockout.py:64-97 | The three nested sub-queries find exactly the active users whose scopes include the one asked for |
| Lockout.CountsEachAdministratorOnce | provider/src/provider/admin/lockout.py:41-97 | The count is of distinct active holders however many paths reach each; -1 exactly when the catalogue lacks the scope, 0 exactly when it has it and nobody holds it |
| Administration.Session.AskLockoutGuard | provider/src/provider/admin/lockout.py:100-108 | Refuses exactly where the pending change leaves the recovery scope in the catalogue and no active user whose scopes include it |
| Administration.Session.Perform | provider/src/provider/core/db.py:19-25 | One request is carried out to the letter, row by row, where nothing speaks against it and nobody is locked out; otherwise it is refused, for a reason that is true, and nothing of it is applied or left pending |
| Administration.RequestsDoWhatIsAsked | provider/src/provider/admin/users/service.py:122-234 | A request that succeeds leaves exactly the rows and links asked for, with every link to a deleted row gone, and touches no other row |
| Administration.RequestsAreJustified | provider/src/provider/admin/groups/service.py:103-181 | A request is refused only for a missing scope, row or name, a name that is taken, a system row, a row in use, the caller's own account, or restricted scopes beyond the token, and the refusal lists exactly these; where none applies it succeeds |
| Administration.RequestsAreSettled | provider/src/provider/core/db.py:19-25 | The same of a whole transaction, the lockout guard included |
| Administration.MeasuredIsConferred | provider/src/provider/admin/delegation.py:60-75 | What the granting rule measures is exactly what join-table paths let the request confer |
| Recovery.RequestsKeepTheCatalogue | provider/src/provider/shared/scopes.py:3-8 | Any request, by anybody, keeps every key and reference and leaves the system scopes exactly as they were |
| Recovery.UnguardedRequestsLoseNobody | provider/src/provider/admin/users/service.py:122-168 | The operations that do not ask the lockout guard (creating, renaming, adding members, catalogue edits) keep every administrator, so the count never falls |
| Recovery.GuardedRequestsLeaveSomebody | provider/src/provider/admin/lockout.py:100-108 | Where the catalogue has the recovery scope, what a guarded request commits has an active user whose scopes include it |
| Recovery.RequestsStayRecoverable | provider/src/provider/admin/users/service.py:205-234 | One request of any kind leaves a deployment with an active holder of the recovery scope |
| Recovery.NobodyIsLockedOut | provider/src/provider/admin/lockout.py:27-30 | After any serial run of requests by any callers at least one active user holds the recovery scope |
| Recovery.AnOrdinaryApiWouldTakeTheRecoveryScopeWithIt | provider/src/provider/admin/apis/service.py:118-130 | Were the recovery scope under an ordinary API, deleting that API would cascade to it and switch the guard off |
| Guards.GuardedExactlyWhereNeeded | provider/src/provider/admin/lockout.py:100-108 | The operations that ask the lockout guard are exactly those some request of which would otherwise leave a recoverable deployment locked out |
| Escalation.GrantsOnlyWhatTheTokenCarries | provider/src/provider/admin/delegation.py:49-57 | Whatever a successful request confers, its restricted part is in the caller's token |
| Escalation.BorrowsOnlyWhatTheTokenCarries | provider/src/provider/admin/delegation.py:85-93 | An account a successful request hands over is new, or holds nothing restricted beyond the caller's token |
| Escalation.RequestsGainOnlyWhatIsConferred | provider/src/provider/admin/groups/service.py:140-170 | After a request nobody holds a scope they did not hold before, except those the delegation rule was asked about |
| Escalation.NoMoveGainsAuthority | provider/src/provider/admin/delegation.py:35-93 | No single sign-in or request adds a restricted scope to the callers' tokens and accounts together |
| Escalation.NoEscalation | provider/src/provider/admin/delegation.py:35-93 | Over any run of sign-ins, grants, membership and role edits, deletions and takeovers, colluding callers' restricted authority never exceeds the union they started with |
| Escalation.WithoutGrantingOneRequestReachesAnything | provider/src/provider/admin/delegation.py:49-57 | Without the granting rule one request reaches any restricted scope |
| Escalation.WithoutBorrowingOneResetReachesAnybody | provider/src/provider/admin/delegation.py:85-93 | Without the borrowing rule one password reset reaches whatever anybody holds |
| Escalation.GrantingRuleIsNeeded | provider/src/provider/admin/delegation.py:49-57 | For any restricted value there is a recoverable deployment in which it was out of the callers' reach and, without the granting rule, one request brings it within |
| Escalation.GrantingRuleKeepsTheRecoveryScope | provider/src/provider/admin/groups/service.py:103-118 | The recovery scope too: without the rule a manager of groups reaches it by giving a role to a group of their own |
| Escalation.BorrowingRuleIsNeeded | provider/src/provider/admin/delegation.py:85-93 | For any restricted value but the one the request itself asks of its caller there is a sound deployment in which only somebody else held it and, without the borrowing rule, one request brings it within |
| Seeding.SeedApisSucceeds | provider/scripts/seed.py:64-96 | The catalogue goes in exactly when each audience is free by its turn and each system value is free or under its own API |
| Seeding.SeedApisSeed | provider/scripts/seed.py:64-96 | Where it goes in, every API and scope of the catalogue is there as specified |
| Seeding.SeedApisSpare | provider/scripts/seed.py:64-96 | And every other API and scope, and everything outside these two tables, is as it was |
| Seeding.SeedRolesSeed | provider/scripts/seed.py:99-118 | Seeding roles that do not share names leaves every one of them seeded |
| Seeding.SeededRolesBundle | provider/scripts/seed.py:99-118 | A system role is linked to a scope exactly when the scope is in the catalogue and its value among those the role names |
| Seeding.SeedRolesSpare | provider/scripts/seed.py:99-118 | Other roles keep their fields and their scopes |
| Seeding.ClientKeepsWhatIsTheDeployments | provider/scripts/seed.py:146-180 | An existing client keeps its redirect URIs, its secret and every link the catalogue does not list; other clients are untouched |
| Seeding.SeedingSays | provider/scripts/seed.py:216-246 | After a successful run the database keeps its integrity and says all that the catalogue says |
| Seeding.SeedingTwiceIsSeedingOnce | provider/scripts/seed.py:1-8 | A second run succeeds, changes nothing, and shows no secret and no password |
| Seeding.SeedingSucceedsExactlyWhen | provider/scripts/seed.py:216-246 | A run succeeds exactly when the catalogue's audiences and values are free or its own and the administrator exists or its username is free |
| Seeding.SeedingFailsForAReason | provider/scripts/seed.py:216-246 | A run that fails names a conflict there is: an audience, a value or the username that is another's |
| SeededRows.SeedingLeaves | provider/scripts/seed.py:64-202 | What a run leaves, row by row: the catalogue's APIs, scopes and role bundles; the client, new with the catalogue's redirect URIs and a secret where it can keep one, or with its own; links to be asked for or held as listed; the administrator, where nobody had the email; and everything else as it was |
| SeedSession.Session.SeedCatalogue | provider/scripts/seed.py:64-96 | The nested loops do what the fold over the catalogue specifies, with the same failures |
| SeedSession.Session.WriteRoles | provider/scripts/seed.py:99-118 | The loop over roles does what its fold specifies, and each role ends with exactly the known scopes it names |
| SeedSession.Session.SeedClient | provider/scripts/seed.py:121-180 | The client is upserted as specified, and a secret is made exactly for a new confidential one |
| SeedSession.Session.SeedAdminUser | provider/scripts/seed.py:183-202 | The administrator is made once, by email, and a password shown exactly then |
| SeedSession.Session.Run | provider/scripts/seed.py:216-246 | One transaction: all of the run, which leaves the rows listed above, or nothing |
| Bootstrap.SeededDeploymentIsRecoverable | provider/scripts/seed.py:183-202 | Where the run creates the administrator, the deployment is one that can be administered |
| Bootstrap.NobodyIsLockedOutOfASeededDeployment | provider/src/provider/shared/scopes.py:192-222 | And stays one after any serial run of requests |
| Upkeep.RequestsKeepTheSeed | provider/src/provider/shared/scopes.py:3-8 | No request, under either delegation rule or neither, changes anything the catalogue says: its APIs, scopes, role bundles, client and client links |
| Upkeep.ReseedingOnlyAddsTheAdministrator | provider/scripts/seed.py:1-8 | Where the catalogue is said already, another run comes to no more than the administrator's account, and that only where no user has its email |
| Upkeep.DeploymentsKeepUp | provider/scripts/seed.py:216-246 | Through requests and runs of the seed in any order the deployment stays recoverable and goes on saying what the catalogue says |
| Upkeep.SeededDeploymentsKeepUp | provider/scripts/seed.py:183-202 | From the run that makes the administrator on, whatever is asked and however often the seed is run again |
| Statistics.MedianSplitsTheValues | kiosk/client/src/ui/capture-sequence.ts:89-94 | At least half the values lie on each side of the median |
| Statistics.MedianIsTheMiddle | kiosk/client/src/ui/capture-sequence.ts:89-94 | In whatever way the values are put in order, the median is halfway between the two in the middle |
| Statistics.MedianIsWithin | kiosk/client/src/ui/capture-sequence.ts:89-94 | The median lies strictly within any open interval that holds every value |
| Statistics.MedianIgnoresOrder | kiosk/client/src/ui/capture-sequence.ts:89-94 | The median does not depend on the order of the values |
| Vectors.NormalisedIsUnit | engine/src/engine/embed.py:20-21 | A normalised vector has length one, in any dimension |
| Vectors.NormalisedIgnoresScale | engine/src/engine/embed.py:20-21 | Scaling by a positive number does not change the normalised vector |
| Matching.ScoreIsBetweenBestAndOne | engine/src/engine/pipeline.py:231-235 | A unit probe's score is at least every single template's and at most one |
| Matching.ProbeAmongTemplatesScoresOne | engine/src/engine/pipeline.py:231-235 | A probe that is one of the templates, at any scale, scores one |
| Matching.ScoreIgnoresScale | engine/src/engine/pipeline.py:231-235 | Rescaling each template by its own positive factor keeps the score, and keeps whether it is a number |
| Matching.ScoreIgnoresOrder | engine/src/engine/pipeline.py:231-235 | Reordering the templates keeps the score |
| Matching.CentroidIsAtLeastTheMean | engine/src/engine/pipeline.py:231-235 | The centroid scores at least the templates' mean score where that is not negative |
| Matching.AgreementIsTheCosine | engine/src/engine/pipeline.py:231-235 | What one template scores is its product with the probe over its length |
| Matching.CentroidIsTheMeanDirection | engine/src/engine/pipeline.py:231-235 | The centroid has length one, and its product with any vector is the templates' mean agreement with it, but for one positive factor |
| Ranking.RankedInOrder | engine/src/engine/pipeline.py:189-196 | The sort is by key, largest first, and stable |
| Liveness.AntiSpoofingIsAVote | engine/src/engine/liveness.py:32-38 | Passes exactly when at least the required share of the frames reaches the live threshold |
| Liveness.AntiSpoofingScoresTheMean | engine/src/engine/liveness.py:32-38 | The score is the mean probability |
| Liveness.Actions | engine/src/engine/liveness.py:41-60 | Passes exactly when each movement has a pose whose signed change reaches its limit; the score is the least share, zero when none was asked for |
| Judging.PerformedIsWhatWasShown | engine/src/engine/pipeline.py:135-138 | The poses recorded for a movement are those of its frames with a face, no more and no fewer |
| Judging.ActionsJudgeEveryMovement | engine/src/engine/pipeline.py:95-139 | On a complete capture, judging the recorded poses is judging every movement that was asked for |
| Judging.ConsistencyJudgesEveryFace | engine/src/engine/liveness.py:63-75 | Passes exactly when the reference is a number and every frame with a face meets its own threshold against it |
| Pipeline.LiveExactly | engine/src/engine/schemas.py:28-29 | The checks pass exactly for a live capture, in the frames' own terms: two good centre frames; for each movement asked for a frame whose pose lies far enough the right way from the median yaw or pitch of the good centre frames; enough of these judged live; one person throughout |
| Judging.EveryCheckExactlyWhen | engine/src/engine/pipeline.py:130-146 | The verdicts through the baseline and the recorded poses are those in plain coordinates |
| Judging.CompleteExactlyWhen | engine/src/engine/pipeline.py:95-101 | A capture is judged exactly when it has two good centre frames and a face in some frame of each movement asked for |
| Pipeline.ActionsScoreTheLeast | engine/src/engine/liveness.py:41-60 | The movements' score is the largest share of the limit that every movement asked for reaches in some frame |
| Pipeline.ConsistencyScoresTheLeast | engine/src/engine/liveness.py:63-75 | The consistency score is that of the face least like the reference |
| Pipeline.ReferenceIsTheMeanDirection | engine/src/engine/pipeline.py:122-123 | The reference has length one, and its product with any vector is the mean product of the good centre frames' embeddings with it, but for one positive factor; there is none exactly where they cancel out |
| Pipeline.ReasonsTell | engine/src/engine/pipeline.py:83-87 | A capture is told everything that was wrong with any of its frames, and nothing else but that there is no face where it cannot be judged and nothing else was wrong |
| Pipeline.EmbedFaces | engine/src/engine/pipeline.py:112-120 | After the batch every face found carries its own embedding |
| Pipeline.Analyse | engine/src/engine/pipeline.py:104-173 | From frames to verdict: usable exactly with enough to judge, live exactly for a live capture, the checks those of its frames, the reference that of the good centre frames |
| Judging.MostCommonFirst | engine/src/engine/pipeline.py:83-87 | Each reason once, more frequent ones first, ties in the order first given |
| Judging.BestTemplatesLineUp | engine/src/engine/pipeline.py:188-199 | Two to five templates, each a good centre frame's own, best first, and every good frame left out would have come after them all |
| Judging.LinedUpSourcesDiffer | engine/src/engine/pipeline.py:197-199 | Their source frames are distinct and their qualities do not increase |
| Pipeline.Enroll | engine/src/engine/pipeline.py:176-200 | For a live capture two to five entries, each the own embedding and quality of a good centre frame and its place in the capture, the best first; none otherwise; and what the answer says of the capture is what was decided of it |
| Pipeline.EmbedStills | engine/src/engine/pipeline.py:203-228 | One entry for each photo: its own embedding, or null exactly where no single face was found |
| Pipeline.Verify | engine/src/engine/pipeline.py:238-260 | What the answer says of the capture is what was decided of it; an unusable one never matches and scores zero; otherwise a match is a score that is a number and reaches the threshold |
| Pipeline.VerifyScoresAtMostOne | engine/src/engine/pipeline.py:231-251 | A usable capture's score lies between its best single template's and one |
| Script.Groups | kiosk/client/src/ui/capture-sequence.ts:69-76 | The loop computes the runs of identical steps |
| Script.RunsExpandBack | kiosk/client/src/ui/capture-sequence.ts:68-76 | The runs expand back to the steps; none is empty and neighbours differ |
| Script.OneWayToGroup | kiosk/client/src/ui/capture-sequence.ts:68-76 | Runs with these two properties are the ones computed |
| Script.OneFrameForEachStep | kiosk/client/src/ui/capture-sequence.ts:105-188 | The script of any runs takes one frame for each step they stand for, in the phase that asks for it |
| Script.CaptureAsksForEveryStep | kiosk/client/src/ui/capture-sequence.ts:3-16 | For every list of steps, one frame each, in order, the k-th while the phase announced is that of the k-th step |
| Script.ScriptIsWellTold | kiosk/client/src/ui/capture-sequence.ts:105-128 | Every movement is counted down from two, announced, started with the tone and followed by its frames, the chime and its end, in that order and of the same step; every other phase is followed by its frames |
| Script.CutShort | kiosk/client/src/ui/capture-sequence.ts:32-37 | A capture cut short stops right before a frame of the script, and the step named is that frame's |
| Polling.OneWayToWait | kiosk/client/src/ui/capture-sequence.ts:78-87 | The readings and the clock decide a wait: where a first pair of polls is found there is no other, and no giving up |
| Polling.FewPolls | kiosk/client/src/ui/capture-sequence.ts:78-87 | At most one poll for each started 40 ms of the window |
| Capture.BaselinesAreFrontal | kiosk/client/src/ui/capture-sequence.ts:130-171 | In a guided capture every baseline a movement is measured from is frontal |
| Capture.TurnsAreGenuine | kiosk/client/src/ui/capture-sequence.ts:39-50 | In a guided capture the two readings before a turn's first frame have a yaw beyond 0.25 on the side asked for, are not frontal, and complete the opposite turn from no frontal baseline |
| Guidance.MovementsAreMade | kiosk/client/src/ui/capture-sequence.ts:96-151 | In a guided capture a movement's first frame is taken at the first two readings in a row, from the tone on, whose yaw lies 0.37 to the side asked for, or whose pitch 0.22 up or down, from the usual pose |
| Guidance.BaselineIsUsual | kiosk/client/src/ui/capture-sequence.ts:165-170 | The usual pose is the median yaw and the median pitch read at the frames of the last run ahead, and straight before there was one |
| Guidance.TimeoutsAreEarned | kiosk/client/src/ui/capture-sequence.ts:138-149 | A timeout in a movement comes after eight seconds in which no two readings in a row did |
| Guidance.FramesAheadAreStraight | kiosk/client/src/ui/capture-sequence.ts:130-160 | A frame ahead is taken at the first two readings in a row with a yaw within 0.12 |
| Guidance.MovementsArePaced | kiosk/client/src/ui/capture-sequence.ts:105-128 | A movement is announced two seconds before its tone, and its frames and the chime are at least 150 ms apart |
| Guidance.TimedFramesArePaced | kiosk/client/src/ui/capture-sequence.ts:174-188 | On a timer, frames ahead wait 1.2 seconds and then 220 ms each; a movement's first frame comes 2.5 seconds after the tone and the others 400 ms apart |
| Guidance.ProgressIsTheShare | kiosk/client/src/ui/capture-sequence.ts:138-145 | The progress shown is the share of the way made, empty until the head moves the right way and full exactly when it is enough |
| Capture.MedianIsFrontal | kiosk/client/src/ui/capture-sequence.ts:165-170 | The median of frontal poses is frontal |
| Capture.Booth.Until | kiosk/client/src/ui/capture-sequence.ts:78-87 | True as soon as two polls in a row held, within the window and at the first such pair; false only after polling the whole window without one; the progress shown is that of the polls |
| Capture.Booth.Movement | kiosk/client/src/ui/capture-sequence.ts:105-128 | One movement follows its script and lasts at least five seconds from its move phase; with a tracker its first frame is taken at the first pair of readings far enough from the baseline, and a timeout, before the first frame, comes after a whole window without such a pair; it fails for the camera exactly at the frame the camera did not deliver |
| Capture.Booth.LookAhead | kiosk/client/src/ui/capture-sequence.ts:153-164 | Each centre frame is taken at the first pair of frontal readings since the one before; the poses returned are the readings at the frames; a timeout comes after a whole window without such a pair, and a camera failure at the frame not delivered |
| Capture.Booth.GuidedCapture | kiosk/client/src/ui/capture-sequence.ts:130-172 | On return the whole script, on a timeout the script up to the missing frame, whose step is named; every frame is taken at the first pair of readings that allows it, each movement measured from the median of the poses read at the frames of the last centre run before it; a timeout only after its window in vain, a camera failure exactly at the first frame the camera did not deliver; each run begins when the one before has ended, a movement after at least five seconds from its move phase |
| Capture.Booth.TimedCapture | kiosk/client/src/ui/capture-sequence.ts:174-188 | The same script of phases, frames and cues, each frame at its fixed wait or pause, each run as soon as the one before has ended, without a timeout; a camera failure exactly at the first frame the camera did not deliver |
| Storage.NeverHalfAFile | kiosk/server/src/kiosk_server/credentials.py:1-5 | Wherever the power goes in any run of saves, what is read back is what was there or some credentials that were saved, whole |
| Storage.Disk.Load | kiosk/server/src/kiosk_server/credentials.py:18-20 | Nothing or a complete value once saved; malformed only for a file it never wrote |
| Storage.Disk.Save | kiosk/server/src/kiosk_server/credentials.py:23-30 | Old or new and nothing between, whichever step the power goes after |
| Storage.Disk.Forget | kiosk/server/src/kiosk_server/credentials.py:33-34 | Nothing is stored afterwards |
| Device.Kiosk.Pair | kiosk/server/src/kiosk_server/device.py:66-78 | By what IDEN answered to this request: an answer with credentials puts these in memory and on disk, with no old token or settings; any other leaves the pairing, the token and the settings as they were |
| Device.Kiosk.AccessToken | kiosk/server/src/kiosk_server/device.py:87-118 | A cached token handed out is one IDEN granted, and where its lifetime was given has more than 30 seconds minus its answer's latency left; only a 401 drops the pairing |
| Device.TokenAnswers | kiosk/server/src/kiosk_server/device.py:103-118 | A refusal forgets the pairing; a grant is cached until 30 seconds before its lifetime ends; any other answer leaves memory as it was, and each gives its own error |
| Device.CallsAreFew | kiosk/server/src/kiosk_server/device.py:120-133 | A call makes at most two requests as the kiosk and two for a token |
| Device.TwoTries | kiosk/server/src/kiosk_server/device.py:121-133 | After a first refusal the second attempt mints its token in the same call, and only a refusal there costs the pairing |
| Device.Kiosk.Call | kiosk/server/src/kiosk_server/device.py:120-133 | The result is what the last exchange comes to: a first refusal is followed by a fresh token and, once it is granted, by the second request, and a 401 is never returned; each request carries the cached token or one minted just before; the pairing is dropped exactly on the token endpoint's 401 or a second 401, and that ends the call |
| Device.Kiosk.Heartbeat | kiosk/server/src/kiosk_server/device.py:135-142 | The heartbeat is such a call: a good answer with settings replaces the kiosk's with exactly those; a good answer without is an error; and in every case that keeps the pairing the settings are otherwise as they were |
| Overlap.StoredIsWhatIsKnown | kiosk/server/src/kiosk_server/device.py:66-85 | In every interleaving of pairings, calls and heartbeats, with power cuts anywhere, disk and memory agree whenever every task waits |
| Overlap.CallsBegin | kiosk/server/src/kiosk_server/device.py:87-102 | A call begins with the cached token while it lasts, else with a request for one, and an unpaired kiosk sends nothing |
| Overlap.TokensLeadOn | kiosk/server/src/kiosk_server/device.py:103-118 | A token granted with its lifetime leads to the request it was for, as the same pairing; any other answer ends the task |
| Overlap.AnswersLeadOn | kiosk/server/src/kiosk_server/device.py:120-142 | A first refusal is followed by a request for a new token, a second one unpairs; any other answer ends the task, and one to a report brings its settings |
| Overlap.PowerMayGo | kiosk/server/src/kiosk_server/device.py:34-43 | The power may go between any two steps or within one; the process starts again from the disk, with no token, settings or task |
| Overlap.OnlyALateGrantOutlivesThePairing | kiosk/server/src/kiosk_server/device.py:103-118 | A step leaves a token cached that is not the standing pairing's exactly when it resumes with a grant asked for under another pairing, or after the pairing is gone |
| Overlap.OnlyARefusalDropsThePairing | kiosk/server/src/kiosk_server/device.py:103-108 | A step drops the pairing exactly when it acts on the token endpoint's refusal or a second refusal in a call |
| Overlap.OnlyALateRefusalForgetsAnother | kiosk/server/src/kiosk_server/device.py:80-108 | A pairing none of whose requests was refused is dropped exactly when a request sent under another is |
| Overlap.AnUnpairedKioskMayHoldAToken | kiosk/server/src/kiosk_server/device.py:87-118 | Two overlapping calls after which an unpaired kiosk holds a token |
| Overlap.ATokenMayBeAnotherPairings | kiosk/server/src/kiosk_server/device.py:66-118 | A call and a pairing that overlap, after which the new pairing holds the old one's token |
| Overlap.ANewPairingMayBeForgotten | kiosk/server/src/kiosk_server/device.py:87-108 | A call and a pairing that overlap, after which an old secret's refusal drops the new pairing |
| Overlap.OneAtATime | kiosk/server/src/kiosk_server/device.py:80-133 | Without overlap a cached token is always the standing pairing's, and the pairing is only lost to a refusal of its own request |
| Heartbeats.NoWaitWhileOwed | kiosk/server/src/kiosk_server/heartbeat.py:12-30 | In every interleaving no timed wait begins or goes on between a wake-up and the next heartbeat |
| Heartbeats.OwedHeartbeatComes | kiosk/server/src/kiosk_server/heartbeat.py:14-30 | After a wake-up the next heartbeat starts within two steps of the loop |
| Heartbeats.WokenNeverWaits | kiosk/server/src/kiosk_server/heartbeat.py:12-30 | From a wake-up to the next heartbeat, whatever happens between, no time passes in a wait |
| Heartbeats.WakeUpsAreServed | kiosk/server/src/kiosk_server/heartbeat.py:12-30 | And two steps of the loop after a wake-up another heartbeat has begun |
| Heartbeats.OnlyUnreadableSettingsEndTheLoop | kiosk/server/src/kiosk_server/heartbeat.py:16-28 | A step ends the loop exactly when it reads settings that are not an object, or waits for a delay that is not a number |
| Heartbeats.UnreadableSettingsEndIt | kiosk/server/src/kiosk_server/heartbeat.py:14-16 | A report answered with settings that are not an object, and the loop ends at its next turn |
| Heartbeats.RunsUntilCancelled | kiosk/server/src/kiosk_server/heartbeat.py:17-25 | With readable settings no outcome of a heartbeat ever ends the loop; only a cancellation does |
| Heartbeats.WaitAfterBeat | kiosk/server/src/kiosk_server/heartbeat.py:16-28 | After a failure the wait is fifteen seconds, otherwise what the settings say, a minute where they say nothing, and none once woken |
| Heartbeats.Loop.Run | kiosk/server/src/kiosk_server/heartbeat.py:12-30 | The loop is a run of the state machine; each turn waits exactly what its settings, its outcome and the wake-up make of it, and the loop sleeps no longer than these waits; it stops early only at a turn whose settings cannot be read or whose wait has no end |
| Heartbeats.WokenTurnsAreShort | kiosk/server/src/kiosk_server/heartbeat.py:27-30 | A wake-up during the heartbeat leaves no wait, one during the wait ends it, and without one the delay is waited out |
| Align.RotationIsProper | engine/src/engine/align.py:31-34 | Whatever decomposition is returned, the rotation is never a reflection |
| Align.FitIsAScaledRotation | engine/src/engine/align.py:20-41 | The matrix is a non-negative scale times a proper rotation |
| Align.FitMapsCentroidToCentroid | engine/src/engine/align.py:38-39 | The source's centroid goes to the target's |
| Align.ExcessOfAnyOtherMap | engine/src/engine/align.py:20-41 | Exactly how much more any other similarity map misses, for any number of points |
| Align.FitIsLeastSquares | engine/src/engine/align.py:20-26 | No similarity map misses by less, and where the points are spread only the fit misses as little |
| Align.SpreadExactlyWhen | engine/src/engine/align.py:37-38 | Points are spread exactly when two of them differ |
| Align.WithoutSpreadSizesStay | engine/src/engine/align.py:37-38 | Where they all coincide the fit keeps sizes |
| HeadPose.BrowserAgreesWithEngine | kiosk/client/src/ui/head-tracker.ts:8-10 | On the same five points the browser's yaw and pitch are the engine's, zero eye distance included |
| HeadPose.MeshPoseIsTheEnginesEstimate | kiosk/client/src/ui/head-tracker.ts:40-68 | The mesh's pose is the engine's estimate of its five points, and null exactly when the mesh lacks one of the points |
| HeadPose.ProxiesInThePicture | engine/src/engine/pose.py:24-43 | For any face with the eyes apart, in picture coordinates: the yaw is the nose's place along the eye line in eye distances, the pitch its place across it as a share of the mouth's |
| HeadPose.ProxiesIgnorePlacement | engine/src/engine/pose.py:24-43 | Moving, tilting or enlarging a face changes neither proxy, the pitch while the mouth stays clear of the eye line |
| HeadPose.MirroringNegatesYaw | engine/src/engine/pose.py:24-43 | Mirroring with left and right swapped negates the yaw and keeps the pitch |
| HeadPose.PitchIgnoresPlacementExactlyWhen | engine/src/engine/pose.py:24-43 | While the mouth stays clear of the eye line, moving, tilting and enlarging keeps the pitch exactly when the eyes are apart, there is no tilt, or the nose lies on the line from the eyes to the mouth |
| HeadPose.CoincidingEyesReadTiltAsPitch | engine/src/engine/pose.py:29-41 | A face with the eyes in one place whose pitch a tilt changes |
| Threshold.FewScoreAboveTheThreshold | engine/eval/run.py:60-62 | At most floor(fmr (n - 1)) scores are strictly above the threshold, ties allowed |
| Threshold.ThresholdOnlyForShares | engine/eval/run.py:60-62 | There is a threshold exactly for targets from zero to one |
| Threshold.NoLowerScoreWouldDo | engine/eval/run.py:60-62 | More scores than that lie above any lower threshold |
| Threshold.ScoresAtTheThreshold | engine/eval/run.py:60-62 | Exactly floor(fmr (n - 1)) + 1 are at or above it, and as many more as tie with it further down the order |
| Threshold.DistinctScoresAtTheThreshold | engine/eval/run.py:60-62 | With distinct scores there are no such ties |
| Threshold.NoTiesExactlyWhen | engine/eval/run.py:60-62 | There are none exactly when the score before the threshold in order is lower |
| Threshold.PromiseHoldsExactlyWhen | engine/eval/run.py:61 | The share at or above it is at most the target exactly when the score before it in order is lower and floor(fmr (n - 1)) + 1 is at most fmr n |
| Threshold.PromiseForDistinctScores | engine/eval/run.py:61 | For distinct scores only the number of impostors and the target decide |
| Threshold.RateIsAtMostTwiceTheTarget | engine/eval/run.py:116-118 | With enough impostors and distinct scores the share is at most twice the target |
| Threshold.ThePlainPromiseFails | engine/eval/run.py:61 | Eleven distinct scores below one of which more than the target share match |
| Threshold.TiesAllMatch | engine/eval/run.py:60-62 | Equal scores all match, at any target |

## Left out

- Concurrent database transactions: the claims are for serial ones; the code sets no isolation level, and two overlapping removals are not excluded.
- Editing OAuth clients, sign-in, consent, refresh tokens, sessions and rate limits: they are not part of the delegation rule, whose own comment leaves clients out.
- `clients.owner_user_id` and the tables the admin API only cascades into (sessions, codes, credentials): no path to a scope runs through them.
- Registering a kiosk (`provider/src/provider/admin/kiosks/service.py`) makes a client that holds the biometric scopes. The route asks its caller to hold them too; like other clients, it and what its token carries are outside the escalation model.
- Profile fields, passwords, authenticators and enrolled faces as stored values: the operations on them are modelled by whose account they hand over.
- A change of the catalogue between two runs of the seed: re-runs are of the same one.
- A catalogue whose specifications contradict each other: the seed's own catalogue gives every API, scope and role its own name.
- The wording of messages and logs, and the values of generated secrets and passwords: only whether one is made.
- Face detection, decoding, warping, embedding, anti-spoofing and quality scoring as computations: given functions, one row for each face.
- An embedding of length zero out of the model itself: embeddings are vectors of numbers. A reference or a template without a direction is modelled, as a score that is not a number.
- Matching.Similarity: templates of another dimension than the probe are a `requires`, where the library raises.
- Steps that are not valid, and frames and steps of different lengths: refused before the pipeline (`engine/src/engine/app.py:99-103`); limits that are not positive.
- Floating-point rounding: reals throughout.
- Align.FitIsLeastSquares: among rotations with a scale and a shift, as the fit promises; maps that mirror are not compared.
- `MOVES` lookups of names every object has (`constructor`): a step is one of the five known ones or none of them.
- A tracker reading that changes between a successful poll and the pose read after it: no `await` lies between the two.
- The order of a capture's progress among its phases, frames and cues: both are dated, and told apart.
- The kiosk's screens, the visit phases of enrolment, and the video loop that feeds the tracker.
- Disk failures other than a power cut, flushing to the medium, and file permissions: replacing a file is one step.
- JSON as text: what an answer can be read as is given, each part possibly missing; writing credentials and reading them back agree by contract.
- Device.Kiosk.AccessToken: a token answer without a lifetime is an error that leaves the token cached with the previous expiry, as in the code; the margin is claimed for tokens whose lifetime was given.
- The camera's name and the kiosk's `state()` view: plain fields.
- Routes, schemas, migrations as programs, the load test, the benchmark and key generation: they carry no decision of the components above.
