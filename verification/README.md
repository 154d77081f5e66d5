# NFF core: verified models

nff connects a fleet of microcontrollers to a cloud. Two of its parts carry state that is hard to
get right: the device SDK in C, which updates firmware over the air, keeps credentials in flash
and authenticates commands, and the local policy planner in Python, which learns from tool calls
how a bench is repaired. This project models both and proves what they are for.

Verify with `dafny verify dfyconfig.toml` (Dafny 4.11).

| file | models |
|---|---|
| `PolicyGraph.dfy`, `Planner.dfy`, `StringOrder.dfy` | the learned graph, value iteration with the self-loop in closed form, greedy extraction |
| `PolicyRecorder.dfy`, `PolicyEvidence.dfy` | the belief fold, the transition recorder, the live tap; the scores as averages of the log |
| `Sha256.dfy`, `Sha256Answer.dfy` | streaming SHA-256 against the one-shot definition of FIPS 180-4; its known answer |
| `Bytes.dfy`, `Decimal.dfy`, `Base64.dfy`, `Store.dfy` | octets and their text forms, the chunked credential store |
| `Json.dfy`, `Security.dfy`, `Fleet.dfy` | the flat JSON extractor, the canonical string, the nonce ring, command verification; the fleet's signer |
| `TrialTimer.dfy`, `Lifecycle.dfy` | the wrapping soak and deadline clock, the update life cycle over reboots |
| `Download.dfy`, `Handover.dfy` | the resumable download, the hand-over of a parked command between two tasks |
| `Claim.dfy`, `Enrollment.dfy` | the certificate rollover on the device, the enrollment protocol with the fleet worker |

## How it is modelled

- Code that updates state in place is a class or a method with a loop (`Context`, `Nvs`, `Verifier`,
  `Device`, `Session`, `Worker`, `GraphStore`, `Tap`, `Sweep`). Each is proved equal to a function of
  its old state, and the theorems about whole runs are lemmas about that function. The life cycle,
  the hand-over and the enrollment are state machines over all interleavings of their steps.
- Planner floats are reals plus infinity. State ids come from an arbitrary function, so nothing
  assumes that hashing is free of collisions.
- Machine words are explicit: `bv32` words in SHA-256, counters modulo 2^32 and 2^64 elsewhere.
- Flash is a table with a number of writes it still performs; power loss and a failing write are
  the same thing. In the life cycle every SDK call is one step with respect to power loss.
- The flash driver, the bootloader, the network, clocks, the health gate and ECDSA are parameters
  or events. A confirmed image is never rejected by the bootloader, and every image is built as
  the version it is offered as. The version commands are compared with is the one the
  configuration got at boot: the built-in one, or, for firmware whose loader reads it, the stored
  adopted one (`nvs_creds.c:147-154`).
- The fleet issues non-empty certificates and keys, as DER encodings are.
- The database calls do what their docstrings in `db.py` say.

## Where the code and the wish differ

- Enrollment: "a row is claimed only if the device stored a credential set issued for its hardware
  id and its project" does not hold of the code as it stands. The pending answer is keyed by the
  hardware id alone (`enroll_worker.py:102`), so with two projects the late answer to one rollover
  can claim the row of the other: `Enrollment.MixUpIsUnsafe` gives the run for any such pair of rows,
  and `Enrollment.SafeIffOneProject` proves that one project per hardware id is exactly the condition.
  Without it the weaker `Enrollment.ClaimedMeansStored` still holds of every run.
- Planner: an edge to the empty id is read as "no target", so a plan can stop short of a goal.
  `Planner.Extract` says exactly when (`BlankNext`), `Planner.BlankGraphPlansNothing` gives a graph.
  The recorder never writes such an edge, no state's id being empty
  (`PolicyRecorder.SessionHasNoBlanks`), so plans on recorded graphs end as promised.
- Versions: on firmware that reports the adopted version, a commit does not refresh the version
  that commands are compared with, so until the next boot an older version than the confirmed one
  is taken. `Lifecycle.AdoptingDowngrades` gives the run, `Lifecycle.NeverDowngradesIff` the exact
  condition, `Lifecycle.VersionsDropAtMostOneStep` what holds of every device.
- `apply_outcome` is documented to let only a clean serial capture clear a crash; the code also
  clears it on a successful flash (`nff/tools/policy.py:129-135`). The model follows the code.
- `version_le` accepts an equal version, while `sdk-c/docs/PROTOCOL.md` asks for a strictly newer
  one. `Lifecycle.SameVersionIsTaken`: outside a trial a version that is not strictly newer is taken
  exactly when it parses and equals the reported one.
- A result is erased from flash when it is handed to RAM at boot (`nff_core.c:119-122`), so it is lost when the
  power goes before the connection: `Lifecycle.NothingLostIff` proves that nothing else loses one.
- The documented 300 second timestamp window never rejects a command (`Security.WindowNeverActs`).
- The canonical string belongs to one command of its format exactly when no field holds a bar
  (`Security.TbsIsUniqueIff`); between commands without bars it is injective across the formats.
- The signed compares keep their promise of a bounded trial only for ticks that are close enough:
  `TrialTimer.ResolvesIffFrequent` proves 2^30 - 2500 ms to be the exact bound on the gaps, and
  `TrialTimer.EscapeIsUndecided` gives the run that escapes with one millisecond more.

## Model

| member | source | states |
|---|---|---|
| `PolicyGraph.EdgesFromMembers` | nff/tools/policy.py:312-314 | grouping by source state keeps exactly the edges that leave it |
| `PolicyGraph.EdgesOfMembers` | nff/tools/policy.py:284-286 | grouping by action keeps exactly the edges of that action |
| `PolicyGraph.GroupMembers` | nff/tools/policy.py:284-286 | the group scored for an action holds exactly the edges of that state and action |
| `PolicyGraph.EdgesFromJoin` | nff/tools/policy.py:312-314 | grouping by source state keeps the recording order |
| `PolicyGraph.EdgesOfJoin` | nff/tools/policy.py:284-286 | grouping by action keeps the recording order |
| `Planner.Totals` | nff/tools/policy.py:257-261 | the observation and wall-time sums of a group |
| `Planner.Accumulate` | nff/tools/policy.py:262-276 | the loop yields the mass on advancing edges, cost plus expected onward value, and the first most likely target |
| `Planner.NominalIsFirstMostLikely` | nff/tools/policy.py:274-276 | the nominal target is the earliest edge of maximal success count; there is none exactly when nothing advances |
| `Planner.EvalAction` | nff/tools/policy.py:252-280 | every field of the evaluation: closed-form Q, floored mean cost, nominal target, support; the empty group is infinite |
| `Planner.CostIsFlooredMean` | nff/tools/policy.py:261 | the reported step cost is the mean wall time of the observations or the floor: at least either, equal to one |
| `Planner.QSolvesBackup` | nff/tools/policy.py:252-280 | a finite score is a fixpoint: paying the step, moving on as observed and staying with the rest of the mass costs the score again |
| `Planner.ClampIsNearest` | nff/tools/policy.py:277 | the clamp gives the nearest share between none and all |
| `Planner.GroupBy` | nff/tools/policy.py:312-314 | the setdefault loop: distinct keys, exactly the occurring ones, each with its group in recording order |
| `Planner.GroupsByAction` | nff/tools/policy.py:284-286 | grouped by action: exactly the occurring actions, each with its edges in order |
| `Planner.BestAction` | nff/tools/policy.py:283-293 | the result scores lowest, and of equals has the least name; none exactly without edges |
| `Planner.BestIsUnique` | nff/tools/policy.py:288-293 | the choice is determined by edges and table: dictionary order never shows |
| `Planner.QFinite` | nff/tools/policy.py:266-278 | an action scores finite exactly when it has an advancing edge and all its advancing targets are finite |
| `Planner.QMonotone` | nff/tools/policy.py:266-278 | a lower table never scores an action higher |
| `Planner.QAtLeastFloor` | nff/tools/policy.py:261-278 | a finite score is at least the cost floor |
| `Planner.SelfLoopClosedForm` | nff/tools/policy.py:252-256 | the division by the progress mass solves the self-loop equation |
| `Planner.SubSolutionBelowQ` | nff/tools/policy.py:252-280 | a sub-solution of the cost equation below the table is below every score |
| `Planner.RelaxationKeepsTable` | nff/tools/policy.py:323-331 | every single relaxation keeps: goals 0, finite others at least the floor, each value at least its best score, only solvable states finite, all sub-solutions dominated |
| `Planner.Relax` | nff/tools/policy.py:324-331 | one in-place relaxation either leaves the table or lowers one value to the best score, exactly when that is lower; it keeps the table invariant; the delta is the drop, infinite exactly for a newly finite state |
| `Planner.DropIsDecrease` | nff/tools/policy.py:328-331 | the delta is what the new value lacks to the old one, infinite when one of them is |
| `Planner.Sweep` | nff/tools/policy.py:322-331 | a pass relaxes every listed state once, in order, each on the table the one before left; its delta is the largest drop; it only adds finite states, and if it added none no state outside can follow |
| `Planner.SweepProgress` | nff/tools/policy.py:321-333 | each round either settles or adds a finite state |
| `Planner.SettledIsClosed` | nff/tools/policy.py:321-333 | a settled table has a closed set of finite states |
| `Planner.InPlaceBeatsSimultaneous` | nff/tools/policy.py:321-333 | after any number of passes the in-place table lies nowhere above the table of as many simultaneous updates, in which every state is rescored on the table before |
| `Planner.IteratedBeatsSimultaneous` | nff/tools/policy.py:321-333 | so a table returned after all rounds lies nowhere above that many simultaneous updates |
| `Planner.Iterate` | nff/tools/policy.py:321-333 | passes follow each other until one drops less than epsilon or the rounds are used up; with a round for each relaxable state the finite states end up closed, whatever epsilon is |
| `Planner.GroupsByFrom` | nff/tools/policy.py:312-314 | grouped by source: the dictionary of outgoing edges |
| `Planner.SelectRelaxable` | nff/tools/policy.py:318-319 | the relaxable states are the non-goal states with outgoing edges, once each, in the order the edges first name them |
| `Planner.ReachedHasBest` | nff/tools/policy.py:345-353 | a finite non-goal state always has a finite best action with a finite target, so extraction meets no dead end |
| `Planner.BestStep` | nff/tools/policy.py:351-356 | the appended step is the table-greedy move along a recorded, succeeded, non-self edge |
| `Planner.PathGrows` | nff/tools/policy.py:354-360 | appending a step keeps the path chained and greedy and the support minimal |
| `Planner.GreedyStepIsUnique` | nff/tools/policy.py:351-356 | a state has one greedy step |
| `Planner.Extract` | nff/tools/policy.py:340-360 | at most the cap, greedy and chained, no state left twice, minimal support; below the cap it ends at a goal or a revisit exactly when the next target is not the empty id |
| `Planner.BlankGraphPlansNothing` | nff/tools/policy.py:352-353 | a graph on which the empty target id stops a solvable plan at once |
| `Planner.PlanBlankGraph` | nff/tools/policy.py:296-363 | the plan for that graph is planned, with no steps |
| `Planner.PlansConclude` | nff/tools/policy.py:344-358 | without edges to the empty id every plan below the cap ends at a goal or a revisit |
| `Planner.PlannedBounds` | nff/tools/policy.py:335-337 | a finite start is solvable; its value is at least the floor, every sub-solution and every finite-horizon optimum, and at least what following the table costs |
| `Planner.FollowingCostsAtMost` | nff/tools/policy.py:252-280 | over any number of calls, choosing actions that score at most the value of their state costs at most that value |
| `Planner.GreedyStepDescends` | nff/tools/policy.py:351-356 | the steps of a plan choose such actions |
| `Planner.HorizonIsSubSolution` | nff/tools/policy.py:252-280 | the cheapest expected cost over n free tool calls is a sub-solution |
| `Planner.HorizonGrows` | nff/tools/policy.py:252-280 | looking further ahead never gets cheaper |
| `Planner.PlanToGoal` | nff/tools/policy.py:296-363 | which plan is returned when: the three deferrals and already-goal exactly, unreachable only for unsolvable starts, planned only for solvable ones, the cost bounds from below and above, the path and how it ends |
| `Planner.ClampNeverActs` | nff/tools/policy.py:277 | on recorded counters the clamp of the progress mass is the identity |
| `PolicyRecorder.CrashClearedOnlyByEvidence` | nff/tools/policy.py:121-137 | a crash belief becomes healthy exactly by a successful flash or a clean serial capture without a new crash |
| `PolicyRecorder.BeliefAfter` | nff/tools/policy.py:117-143 | the whole fold by its outcomes: which device is believed, and exactly when the belief is a crash, a failed compile, a failed flash or health |
| `PolicyRecorder.RecordedIff` | nff/tools/policy.py:196-200 | a call is recorded exactly when it changed the state, failed, or used an actuation tool |
| `PolicyRecorder.StepLogs` | nff/tools/policy.py:464-476 | the belief follows every call; log and graph change only for a call that is to be recorded and whose write succeeds; the log entry is that call |
| `PolicyRecorder.StepsInOrder` | nff/tools/policy.py:457-473 | a session starts with an empty graph and takes its steps one after the other |
| `PolicyRecorder.WithEdgeAdds` | nff/tools/policy.py:212-222 | a recorded call adds one to the out-count, one to the in-count and its time to the wall total |
| `PolicyRecorder.WithEdgeTally` | nff/tools/policy.py:213-222 | a recorded call changes the counters of its own edge key only |
| `PolicyRecorder.RecordKeepsConserved` | nff/tools/policy.py:186-223 | recording keeps: unique keys, 0 <= success <= count, endpoints are nodes, visits = in + out counts, wall total, and per-key counters equal to the log |
| `PolicyRecorder.RecordKeepsBalance` | nff/tools/policy.py:186-223 | in minus out counts stay one at the current state and minus one at the first |
| `PolicyRecorder.SessionConserved` | nff/tools/policy.py:457-473 | from the empty graph every sequence of tool calls, failed writes and restarts leaves the graph the exact ledger of its recorded calls |
| `PolicyRecorder.NodesDescribeStates` | nff/tools/policy.py:202-209 | every node describes a state of the log that has its id |
| `PolicyRecorder.SessionBalanced` | nff/tools/policy.py:457-473 | without failed writes and restarts the flow of the graph leads from the first state to the current one |
| `PolicyRecorder.SessionHasNoBlanks` | nff/tools/policy.py:219-222 | the recorder never writes an edge to the empty id |
| `PolicyRecorder.SessionPlansConclude` | nff/tools/policy.py:344-358 | every plan on a recorded graph that is below the cap ends at a goal or a revisit |
| `PolicyRecorder.SessionNeedsNoClamp` | nff/tools/policy.py:277 | on every recorded graph the clamp never changes a value |
| `PolicyEvidence.CountersAreSamples` | nff/tools/policy.py:257-261 | on every recorded graph the totals of an action are the number and the wall time of its logged calls |
| `PolicyEvidence.BackupIsEmpirical` | nff/tools/policy.py:252-280 | on every recorded graph one step of the model costs the average over the logged calls of the action: their time, or the floor for each, plus the cost of where each one led, a failed call counting as staying |
| `PolicyRecorder.GraphStore.Visit` | nff/tools/policy.py:203-210 | the in-place node update |
| `PolicyRecorder.GraphStore.RecordTransition` | nff/tools/policy.py:186-223 | the in-place update equals the recorded graph; true exactly when something is recorded |
| `PolicyRecorder.Tap.ObserveTool` | nff/tools/policy.py:457-489 | belief, graph and log after one call; advice exactly on entering a fault, after a skipped or successful write, when the plan, made with at most 1000 rounds, epsilon 0.001, floor 1 and 32 steps, is planned, has steps and has enough support |
| `Sha256.Expand` | sdk-c/src/nff_sha256_fallback.h:51-54 | the schedule array equals the recursive message schedule |
| `Sha256.RunRounds` | sdk-c/src/nff_sha256_fallback.h:55-62 | the in-place round loop equals 64 recursive rounds |
| `Sha256.Context.Transform` | sdk-c/src/nff_sha256_fallback.h:48-65 | the state becomes the compression of the block |
| `Sha256.Context.AddIn` | sdk-c/src/nff_sha256_fallback.h:63-64 | the eight sums, each with its own working variable |
| `Sha256.Context.constructor` | sdk-c/src/nff_sha256_fallback.h:67-73 | an initial context has absorbed the empty message |
| `Sha256.Context.TopUp` | sdk-c/src/nff_sha256_fallback.h:79-85 | a completed buffer is hashed as the next block of the message |
| `Sha256.Context.Absorb` | sdk-c/src/nff_sha256_fallback.h:86-89 | the block loop hashes all whole blocks of the data |
| `Sha256.Context.Update` | sdk-c/src/nff_sha256_fallback.h:75-91 | the context stands for the old message followed by the data |
| `Sha256.Context.StoreLength` | sdk-c/src/nff_sha256_fallback.h:102-106 | the last eight bytes are the bit length modulo 2^64, big-endian |
| `Sha256.Context.Pad` | sdk-c/src/nff_sha256_fallback.h:94-106 | the hashed blocks and the buffer together are the padded message |
| `Sha256.Context.Finish` | sdk-c/src/nff_sha256_fallback.h:93-114 | the output is the one-shot digest of FIPS 180-4 section 6.2.2 of everything absorbed |
| `Sha256.Context.Emit` | sdk-c/src/nff_sha256_fallback.h:108-113 | the words come out most significant byte first |
| `Sha256.Context.Spill` | sdk-c/src/nff_sha256_fallback.h:96-101 | a buffer without room for the length is zero-filled and hashed, and the last block starts with zeros |
| `Sha256.Context.KeepPartial` | sdk-c/src/nff_sha256_fallback.h:77-82 | data that does not fill the buffer is only appended to it |
| `Sha256.OneBlockPadding` | sdk-c/src/nff_sha256_fallback.h:94-101 | with up to 55 pending bytes the padding fits one block |
| `Sha256.TwoBlockPadding` | sdk-c/src/nff_sha256_fallback.h:96-101 | with 56 or more pending bytes the padding takes two |
| `Sha256.HashChunks` | sdk-c/src/nff_sha256_fallback.h:67-114 | every way of cutting a message into updates gives the one-shot digest |
| `Sha256.HashAppend` | sdk-c/src/nff_sha256_fallback.h:86-89 | hashing one more block is one more compression |
| `Sha256.LengthFitsField` | sdk-c/src/nff_sha256_fallback.h:102-106 | below 2^61 bytes the length field is the true length, as section 5.1.1 of FIPS 180-4 demands |
| `Sha256.BytesReadBack` | sdk-c/src/nff_sha256_fallback.h:103-106 | the length field reads back as the number |
| `Sha256.RoundConstantsAreCubeRoots` | sdk-c/src/nff_sha256_fallback.h:21-38 | each of the 64 constants is the first 32 fractional bits of the cube root of its prime |
| `Sha256.InitialHashIsSquareRoots` | sdk-c/src/nff_sha256_fallback.h:67-73 | the initial words are the square-root fractions of the first eight primes |
| `Sha256.ChChooses` | sdk-c/src/nff_sha256_fallback.h:41 | each bit of the choice function is the second or the third word's, as the first word says |
| `Sha256.MajDecides` | sdk-c/src/nff_sha256_fallback.h:42 | two equal words decide the majority function |
| `Sha256.WordReadsBack` | sdk-c/src/nff_sha256_fallback.h:51-52 | the four bytes written for a word are read back as that word |
| `Sha256.ScheduleReadsBlock` | sdk-c/src/nff_sha256_fallback.h:51-52 | the first sixteen schedule words are those whose bytes the block lists |
| `Sha256Answer.AbcDigest` | sdk-c/src/nff_sha256_fallback.h:48-114 | the digest of "abc" is the published one, by its 48 schedule steps and 64 rounds |
| `Base64.LetterIsTable` | sdk-c/src/nff_store.c:16-17 | the letter function is the 64-character alphabet |
| `Base64.LetterReadsBack` | sdk-c/src/nff_store.c:37-44 | the inverse table inverts the alphabet |
| `Base64.OnlyLettersCount` | sdk-c/src/nff_store.c:37-44 | only characters of the alphabet have a value |
| `Base64.Rfc4648Vectors` | sdk-c/src/nff_store.c:19-35 | test vectors of RFC 4648 section 10 |
| `Base64.DecoderSkips` | sdk-c/src/nff_store.c:50-54 | the decoder ignores a foreign character wherever it stands and stops at padding or a NUL |
| `Base64.SextetsIsEncoding` | sdk-c/src/nff_store.c:23-32 | the written sextets are the zero-padded bits of the octets, as RFC 4648 section 4 defines |
| `Base64.PutGroup` | sdk-c/src/nff_store.c:24-31 | one loop round writes the four characters of its group |
| `Base64.Encode` | sdk-c/src/nff_store.c:19-35 | -1 exactly without room, otherwise the padded text and its terminator |
| `Base64.EncodeTextLength` | sdk-c/src/nff_store.c:20 | four characters per started group |
| `Base64.AccumulatorWraps` | sdk-c/src/nff_store.c:55 | the 32-bit accumulator is the number read so far modulo 2^32 |
| `Base64.WrapKeepsByte` | sdk-c/src/nff_store.c:55-60 | the wrapped accumulator still holds the next octet |
| `Base64.StepWithOutput` | sdk-c/src/nff_store.c:57-61 | the octet taken out is the next one of the number |
| `Base64.HoldingOctet` | sdk-c/src/nff_store.c:55-61 | after an octet is written the low bits of the accumulator are again exactly the undelivered bits |
| `Base64.HoldingMore` | sdk-c/src/nff_store.c:55-57 | so they are after a character that completes no octet |
| `Base64.Decode` | sdk-c/src/nff_store.c:46-64 | -1 exactly when the octets do not fit; otherwise the whole octets of the sextets read |
| `Base64.PayloadOfText` | sdk-c/src/nff_store.c:50-54 | the decoder sees exactly the sextets the encoder wrote |
| `Base64.DecodingInvertsEncoding` | sdk-c/src/nff_store.c:19-64 | a decoding of an encoding is the original |
| `Base64.RoundTrip` | sdk-c/src/nff_store.c:19-64 | decoding the encoded text gives the octets back |
| `Base64.EncodingDecodes` | sdk-c/src/nff_store.c:19-64 | the encoded text has a decoding: the original |
| `Base64.DecodedSize` | sdk-c/src/nff_store.c:114-116 | the buffer of the text's length always has room |
| `Base64.NumberIsInjective` | sdk-c/src/nff_store.c:46-64 | equally long octet strings with the same number are equal, so decoding is unique |
| `Store.RunIsPrefix` | sdk-c/src/nff_store.c:139-157 | an interrupted run of writes performs a prefix of them, all exactly on success |
| `Store.KeysDiffer` | sdk-c/src/nff_store.c:83-88 | chunk keys, count keys and the two scalar keys never collide |
| `Store.StoredTextReadsBack` | sdk-c/src/nff_store.c:68-112 | a stored blob reads back as its text whatever the flash held and whatever other keys are written later |
| `Store.InterruptedSaveKeepsClaim` | sdk-c/src/nff_store.c:139-157 | stopping after any proper prefix of the writes leaves the claimed flag as it was |
| `Store.FullSaveClaims` | sdk-c/src/nff_store.c:153-156 | a full save sets the flag |
| `Store.SavedBlobReadsBack` | sdk-c/src/nff_store.c:139-157 | after a full save each of the five blobs reads back; an empty one reads as absent |
| `Store.SaveThenLoad` | sdk-c/src/nff_store.c:139-202 | a load after a full save returns exactly the saved credentials, or fails exactly when a required part is empty or the project too long |
| `Store.ChainSplitsBack` | sdk-c/src/nff_store.c:189-192 | leaf plus intermediate splits back into both |
| `Store.SplitChainIff` | sdk-c/src/nff_store.c:189-192 | an intermediate is split off exactly when the chain is the leaf with something behind it |
| `Store.SaveLayout` | sdk-c/src/nff_store.c:139-157 | five blobs under their own names, no chunk above 200 characters, then the project, the claimed flag last; claimed means that flag is 1 |
| `Store.BlobTextIff` | sdk-c/src/nff_store.c:93-112 | a blob is readable exactly when its count is positive and so many chunks of at most 200 characters are there; its text is the chunks in order |
| `Store.Nvs.StoreBlob` | sdk-c/src/nff_store.c:68-90 | the flash runs the chunk writes and then the count, stopping at the first failure |
| `Store.Nvs.Save` | sdk-c/src/nff_store.c:139-157 | the flash runs the save's writes in order, flag last |
| `Store.Nvs.LoadBlob` | sdk-c/src/nff_store.c:93-122 | fails exactly without a positive count or with a missing chunk, otherwise decodes the joined text |
| `Store.Nvs.Load` | sdk-c/src/nff_store.c:159-202 | every failure condition and every field of the loaded configuration |
| `Decimal.ParseInvertsPrint` | sdk-c/src/nff_store.c:83 | printed chunk numbers read back |
| `Decimal.PrintTable` | sdk-c/src/nff_store.c:83 | one digit below ten, otherwise the last digit behind the others |
| `Decimal.SplitIsUnique` | sdk-c/src/nff_store.c:83 | a key splits at its first dot in one way |
| `Json.FindValue` | sdk-c/src/nff_json.h:21-42 | the scan returns the value position of the first match |
| `Json.FindsFirst` | sdk-c/src/nff_json.h:21-42 | on any text at all the search finds the first place where the quoted key, a colon and the white space around it lead to something, and fails exactly without one |
| `Json.GetStrInto` | sdk-c/src/nff_json.h:48-74 | the in-place copy: success exactly if the text and terminator fit, the unescaped text, nothing else overwritten |
| `Json.CopyRound` | sdk-c/src/nff_json.h:55-71 | where one round of the copy loop goes on and which character it adds; a trailing backslash ends the copy |
| `Json.CopiedHasNoNul` | sdk-c/src/nff_json.h:55-58 | extracted text never holds a NUL |
| `Json.EscapeTable` | sdk-c/src/nff_json.h:60-66 | which escape stands for which character |
| `Json.GetU32Of` | sdk-c/src/nff_json.h:80-93 | the accumulated digits modulo 2^32, failing on a non-digit |
| `Json.SkipLiteral` | sdk-c/src/nff_json.h:27-40 | the search passes over a string value, even one that holds text like a quoted key |
| `Json.SkipKey` | sdk-c/src/nff_json.h:27-40 | the search passes over another member's key |
| `Json.KeyMatches` | sdk-c/src/nff_json.h:29-37 | the member's own key matches and leads to its value |
| `Json.FindInObject` | sdk-c/src/nff_json.h:21-42 | in a printed flat object a present key is found at its value and an absent one never |
| `Json.CopyEscaped` | sdk-c/src/nff_json.h:55-73 | copying stops at the closing quote exactly when the original text fits |
| `Json.DigitsOfPrinted` | sdk-c/src/nff_json.h:86-90 | printed 32-bit numbers read back |
| `Json.ExtractInvertsPrint` | sdk-c/src/nff_json.h:48-93 | extraction inverts printing: the original string exactly when it fits, the original number, nothing for absent keys or the other kind |
| `Json.LookupMember` | sdk-c/src/nff_json.h:21-42 | with distinct keys every member is the one its key finds |
| `Security.TbsIsJoined` | sdk-c/src/nff_security.c:65-102 | all three formats join their fields with bars |
| `Security.TbsIsInjective` | sdk-c/src/nff_security.c:65-102 | on fields without bars the canonical string determines action, nonce, timestamp and every bound field, across formats |
| `Security.BarsAreAmbiguous` | sdk-c/src/nff_security.c:65-102 | every command with a bar in a field shares its canonical string with another command of its format |
| `Security.TbsIsUniqueIff` | sdk-c/src/nff_security.c:65-102 | a canonical string belongs to one command of its format exactly when no field holds a bar |
| `Security.TbsFitsBuffer` | sdk-c/src/nff_security.c:138-139 | whatever passes extraction fits 256 bytes |
| `Security.DescribedFits` | sdk-c/src/nff_security.c:65-102 | every extractable payload has an untruncated canonical string |
| `Security.DescribesOne` | sdk-c/src/nff_security.c:65-102 | a payload describes at most one command |
| `Security.WindowIsFiveMinutes` | sdk-c/src/nff_security.c:125-132 | the window test on any clock |
| `Security.RecentIsLastSixteen` | sdk-c/src/nff_security.c:35-50 | a nonce is refused as recent exactly when one of the last sixteen acceptances was it |
| `Security.SignatureOctets` | sdk-c/src/nff_security.c:142-145 | a signature text is taken exactly when it spells 1 to 72 whole octets |
| `Fleet.DeviceBuildsTheSame` | observability/nff-fleet/nff_fleet/signing.py:108-128 | the fleet signs the very string the device builds for the command |
| `Fleet.PrintedDescribes` | observability/nff-fleet/nff_fleet/signing.py:131-134 | the device takes a signed and printed payload for the command it was signed as, or for none when a field does not fit its buffer |
| `Fleet.SignedIsAcceptedIff` | observability/nff-fleet/nff_fleet/signing.py:63-67 | a command of the fleet is accepted exactly when its fields fit, its nonce is not empty and not recent, the clock is in the window and the signature is good |
| `Fleet.SignedOnlyOnce` | sdk-c/src/nff_security.c:113-165 | a signed command is accepted when it arrives with a fresh nonce and refused when it arrives again |
| `Claim.CertShaHex` | sdk-c/src/nff_claim.c:46-63 | fails exactly without the certificate field; otherwise the digest of the decoded leaf |
| `Claim.DigestHex` | sdk-c/src/nff_claim.c:50-61 | the SHA-256 digest in lower-case hex |
| `Security.Extract` | sdk-c/src/nff_security.c:65-102 | the command a payload describes, none exactly when a bound field is missing |
| `Security.PadIsInjective` | sdk-c/src/nff_security.c:26-48 | zero-padded fixed-width comparison is string equality |
| `Security.WindowNeverActs` | sdk-c/src/nff_security.c:125-132 | the timestamp window never rejects: seconds of a 32-bit millisecond counter stay below its threshold |
| `Security.SpacedGrows` | sdk-c/src/nff_security.c:35-50 | accepting a nonce absent from the last 16 keeps equal nonces more than 16 acceptances apart |
| `Security.Verifier.RowDiffers` | sdk-c/src/nff_security.c:26-32 | the comparison without early exit is false exactly for the padded nonce |
| `Security.Verifier.Seen` | sdk-c/src/nff_security.c:35-43 | true exactly for malformed nonces and the last min(k, 16) accepted ones |
| `Security.Verifier.WriteRow` | sdk-c/src/nff_security.c:46-47 | one slot is rewritten, the others kept |
| `Security.Verifier.Record` | sdk-c/src/nff_security.c:45-50 | the ring again holds exactly the last accepted nonces, all distinct |
| `Security.Verifier.Verify` | sdk-c/src/nff_security.c:113-165 | accepts exactly the acceptable payloads and remembers exactly their nonces; a refusal changes nothing |
| `Bytes.UnhexInvertsHex` | sdk-c/src/nff_ota.c:380-389 | the digit arithmetic reads lower-case hex back |
| `TrialTimer.SinceIsStamp` | sdk-c/src/nff_ota.c:268-282 | the stored soak stamp always stands for the start of the current healthy streak |
| `TrialTimer.SoakIsHealthyStreak` | sdk-c/src/nff_ota.c:268-282 | every tick since that start was healthy and the one before was not |
| `TrialTimer.CommitIsSoaked` | sdk-c/src/nff_ota.c:274-277 | a commit, at any clock value, ends a healthy streak of at least 5000 ms of true time |
| `TrialTimer.CommitIffSoaked` | sdk-c/src/nff_ota.c:268-277 | within 2^31 ms the wrapped signed compare is the true elapsed-time compare |
| `TrialTimer.RollbackIffPastDeadline` | sdk-c/src/nff_ota.c:281-287 | an unhealthy tick rolls back exactly when the wrapped distance past the deadline is below 2^31, the true compare within that range |
| `TrialTimer.ResolvedInTime` | sdk-c/src/nff_ota.c:258-288 | an undecided trial has no tick more than 5000 ms after a tick at or past the deadline, within 2^31 ms of the deadline and of the streak's start |
| `TrialTimer.StreakStaysShort` | sdk-c/src/nff_ota.c:268-279 | with frequent ticks no undecided healthy streak outlasts the soak window |
| `TrialTimer.ResolvedByFrequentTicks` | sdk-c/src/nff_ota.c:258-288 | the same bound at any clock value when ticks are at most 2^30 - 2500 ms apart |
| `TrialTimer.ResolvesIffFrequent` | sdk-c/src/nff_ota.c:258-288 | that gap is the exact one: every run of ticks at most a given gap apart resolves in time exactly up to it |
| `TrialTimer.EscapeIsUndecided` | sdk-c/src/nff_ota.c:268-287 | the run that escapes with a gap one millisecond wider |
| `TrialTimer.LateFirstTickWaits` | sdk-c/src/nff_ota.c:284-287 | some bound on the gaps is needed: a first tick 2^31 ms past the deadline is read as early |
| `TrialTimer.RunGrows` | sdk-c/src/nff_ota.c:258-288 | a waiting tick extends an undecided run |
| `Lifecycle.StepKeepsInv` | sdk-c/src/nff_ota.c:155-244 | every boot, connection, tick, command and reboot keeps the slot, record, timer and report invariants |
| `Lifecycle.RunKeepsInv` | sdk-c/src/nff_core.c:57-185 | every state of every run from a factory device satisfies them |
| `Lifecycle.PowerUp` | sdk-c/src/nff_core.c:102-123 | what a power-up does from any state of a run: the first two boots of a trial arm it, the third gives it up with its result queued, otherwise a queued result is handed over |
| `Lifecycle.FallBack` | sdk-c/src/nff_ota.c:214-223 | a bootloader fallback ends the trial on the other slot with the result handed over |
| `Lifecycle.Publishes` | sdk-c/src/nff_ota.c:123-140 | a connection publishes the result held in RAM, once, and changes nothing else but the valid mark of a non-trial image |
| `Lifecycle.HealthyTick` | sdk-c/src/nff_ota.c:258-279 | a healthy tick keeps the trial or commits it completely; within 2^31 ms it commits exactly when the streak is five seconds old |
| `Lifecycle.UnhealthyTick` | sdk-c/src/nff_ota.c:280-288 | an unhealthy tick ends the streak or gives the trial up with its result queued; within 2^31 ms exactly from the deadline on, 60 s after the power-up |
| `Lifecycle.CommandsTaken` | sdk-c/src/nff_ota.c:308-357 | the four answers to a command exactly, by the order of versions, and the state after each |
| `Lifecycle.StepAccounts` | sdk-c/src/nff_ota.c:123-244 | every step keeps each trial on, queued or reported, except exactly a loss of power while its result is in RAM |
| `Lifecycle.NothingLostIff` | sdk-c/src/nff_core.c:107-123 | in a run no result of any trial is lost exactly when the power never goes between the hand-over at boot and the connection |
| `Lifecycle.ConnectionReportsAll` | sdk-c/src/nff_ota.c:123-140 | in such a run every trial but one still on is reported after each connection |
| `Lifecycle.FallbackReverts` | sdk-c/src/nff_ota.c:208-223 | a rejected image ends in the confirmed image running and a published rollback of exactly that trial |
| `Lifecycle.TimeoutReverts` | sdk-c/src/nff_ota.c:280-288 | so does a trial that is unhealthy at its deadline |
| `Lifecycle.CrashLoopReverts` | sdk-c/src/nff_ota.c:225-236 | so does an image that crashes on each of three boots |
| `Lifecycle.Upgrade` | sdk-c/src/nff_ota.c:155-179 | an accepted image that stays healthy for five seconds is confirmed, adopted and reported, from every state of every run |
| `Lifecycle.RollbackTargetPreserved` | sdk-c/src/nff_ota.c:314-320 | while the trial flag is set the other slot holds the last confirmed image, marked valid |
| `Lifecycle.RunsConfirmedOutsideTrials` | sdk-c/src/nff_ota.c:183-194 | every rollback, crash loop or fallback runs the confirmed image |
| `Lifecycle.FallbackLandsOnConfirmed` | sdk-c/src/nff_ota.c:208-223 | a bootloader fallback ends the trial on the confirmed image |
| `Lifecycle.CommitsAreSoaked` | sdk-c/src/nff_ota.c:258-279 | in every run a commit ends a soaked healthy streak |
| `Lifecycle.OnlyTicksConfirm` | sdk-c/src/nff_ota.c:155-179 | only a tick confirms an image, and it is the one on trial |
| `Lifecycle.ArmsAreBounded` | sdk-c/src/nff_ota.c:225-242 | one trial arms probation on at most two boots |
| `Lifecycle.OneReportPerTrial` | sdk-c/src/nff_ota.c:123-140 | one trial publishes at most one result although connecting publishes twice |
| `Lifecycle.ReportsAreTruthful` | sdk-c/src/nff_ota.c:123-194 | a result names its trial's version and says committed exactly for confirmed trials |
| `Lifecycle.ProbationStaysUnmarked` | sdk-c/src/nff_core.c:150-157 | an image on probation is never marked valid |
| `Lifecycle.TrialsResolveInTime` | sdk-c/src/nff_ota.c:258-288 | bounded resolution in every run, at any clock value |
| `Lifecycle.AdoptedNamesConfirmed` | sdk-c/src/nff_ota.c:168-174 | the adopted version names the confirmed image, through rollbacks too |
| `Lifecycle.SameVersionIsTaken` | sdk-c/src/nff_ota.c:34-41 | a version that is not strictly newer is taken exactly when it equals the reported one |
| `Lifecycle.ReportedNamesConfirmed` | sdk-c/src/nff_ota.c:330-337 | the version commands are compared with is the confirmed image's, or after a commit of this boot the one before |
| `Lifecycle.VersionsDropAtMostOneStep` | sdk-c/src/nff_ota.c:330-337 | each confirmed version is at least that of one of the two images confirmed before |
| `Lifecycle.AdoptingDowngrades` | sdk-c/src/nff_ota.c:168-179 | a run of an adopting device that confirms a lower version than the confirmed one |
| `Lifecycle.NeverDowngradesIff` | sdk-c/src/nff_ota.c:330-337 | versions never go down in any run exactly when they are built into the images, or the factory version does not parse |
| `Lifecycle.Device.constructor` | sdk-c/src/nff_core.c:57-66 | a factory device |
| `Lifecycle.Device.Commit` | sdk-c/src/nff_ota.c:155-179 | the state after a commit |
| `Lifecycle.Device.Rollback` | sdk-c/src/nff_ota.c:183-194 | the state after a rollback |
| `Lifecycle.Device.BootCheck` | sdk-c/src/nff_ota.c:198-244 | fallback guard, crash-loop guard and arming |
| `Lifecycle.Device.Init` | sdk-c/src/nff_core.c:102-123 | boot check, then the pending-result hand-over |
| `Lifecycle.Device.CheckPendingResult` | sdk-c/src/nff_ota.c:123-140 | a pending result is published once |
| `Lifecycle.Device.OnConnected` | sdk-c/src/nff_core.c:135-163 | both publisher calls and the mark of a non-trial image |
| `Lifecycle.Device.TrialTick` | sdk-c/src/nff_ota.c:258-288 | the tick equals the decision on wrapped stamps |
| `Lifecycle.Device.HandleOta` | sdk-c/src/nff_ota.c:308-516 | the answer: busy, missing fields, downgrade or started; a verified image goes on trial in the other slot, a failed download leaves the boot choice alone |
| `Download.Session.ChunkCb` | sdk-c/src/nff_ota.c:87-117 | a written chunk is appended and hashed; after an error nothing more is written |
| `Download.Session.Stream` | sdk-c/src/nff_ota.c:425-426 | a request appends a prefix of its body, all of it without errors |
| `Download.Session.Restart` | sdk-c/src/nff_ota.c:433-440 | a restart leaves an empty partition and a fresh digest |
| `Download.Transfer` | sdk-c/src/nff_ota.c:418-449 | with flash that works an honestly served file is written whole, across stalls, resumes and restarts, if one of four rounds completes; without such a round, or without a second begin, the transfer fails |
| `Download.Fetch` | sdk-c/src/nff_ota.c:391-494 | reaching the end call means the written image has the commanded digest and size; an honest server's file is neither cut nor repeated; a completing transfer is installed; the cause of every other outcome |
| `Download.PieceOfFile` | sdk-c/src/nff_ota.c:411-416 | resuming at the written count extends a prefix of the file |
| `Handover.StepKeepsInv` | sdk-c/src/nff_cmd.c:105-115 | every small step of either task keeps the lock, buffer and hand-over invariant |
| `Handover.RunKeepsInv` | sdk-c/src/nff_cmd.c:105-115 | every state of every interleaving satisfies it |
| `Handover.NeverWrittenWhileRead` | sdk-c/src/nff_ota.c:519-531 | the parked buffer never changes while the handler reads it |
| `Handover.HandlerSeesAccepted` | sdk-c/src/nff_ota.c:522-531 | the handler reads exactly the command accepted last, up to its first NUL |
| `Handover.HandledOnceInOrder` | sdk-c/src/nff_ota.c:522-531 | each accepted command is handled once, in order |
| `Handover.IdleDelivers` | sdk-c/src/nff_cmd.c:105-115 | an idle device takes any command that fits, in so many steps, and the nff task then reads it up to its first NUL and is idle again |
| `Handover.ParkedIsHandled` | sdk-c/src/nff_ota.c:522-531 | the nff task alone handles a parked command and frees the slot |
| `Handover.BusyRefuses` | sdk-c/src/nff_cmd.c:106-108 | while a command is parked or an update active the next one is refused and nothing is touched |
| `Claim.ExtractDer` | sdk-c/src/nff_claim.c:33-44 | the decoded field, none exactly when the field is missing |
| `Claim.HandleRollover` | sdk-c/src/nff_claim.c:71-106 | without a complete payload the flash is untouched; otherwise it runs the save, and "applied" is answered exactly after a full one |
| `Claim.OneDecoding` | sdk-c/src/nff_claim.c:33-44 | a field decodes in one way |
| `Claim.PrintedPayloadDelivers` | observability/nff-fleet/nff_fleet/enroll_worker.py:61-74 | the fleet's printed payload delivers exactly the credentials it was built from |
| `Claim.RolloverThenLoad` | sdk-c/src/nff_claim.c:71-101 | from the fleet's JSON to the loaded configuration nothing changes |
| `Enrollment.Worker.FulfillOne` | observability/nff-fleet/nff_fleet/enroll_worker.py:80-123 | the row after each way the wait can end; true exactly for an applied answer |
| `Enrollment.Worker.Sweep` | observability/nff-fleet/nff_fleet/enroll_worker.py:143-148 | a row is claimed exactly if it was or one of its rollovers was answered applied |
| `Enrollment.Worker.Pass` | observability/nff-fleet/nff_fleet/enroll_worker.py:133-148 | re-opening, work list and sweep: a row waits afterwards exactly if it was accepted, without a certificate or with one gone stale, and was not on the list or could not be published |
| `Enrollment.ReopenedRow` | observability/nff-fleet/nff_fleet/db.py:343-351 | re-opening takes the certificate mark off exactly the accepted rows that went stale |
| `Enrollment.ClaimedByHeartbeat` | observability/nff-fleet/nff_fleet/db.py:331-340 | a heartbeat claims exactly the accepted rows of its device |
| `Enrollment.SweepWorksOff` | observability/nff-fleet/nff_fleet/enroll_worker.py:83-87 | a worked row is not worked again before it is re-opened |
| `Enrollment.SweepClaimsTheAnswered` | observability/nff-fleet/nff_fleet/enroll_worker.py:144-148 | the same of the sweep's specification |
| `Enrollment.SweepIsARun` | observability/nff-fleet/nff_fleet/enroll_worker.py:143-148 | a sweep interleaved with any steps of the devices is a run of the protocol with the same rows |
| `Enrollment.SaveIsAllOrNothing` | sdk-c/src/nff_claim.c:92-95 | a save under any write budget either stores the set and claims, or leaves the device unclaimed |
| `Enrollment.HandledRollover` | sdk-c/src/nff_claim.c:71-106 | what a delivered rollover does: nothing without a fitting project and a trust anchor, a cut save leaves the device running and unanswered, a full one stores the set and reboots |
| `Enrollment.RolloverStep` | sdk-c/src/nff_claim.c:71-106 | handling a delivered rollover keeps the protocol invariant |
| `Enrollment.BootStep` | sdk-c/src/nff_core.c:81-94 | a device boots into operation exactly when its claimed flag is set: its flash then loads |
| `Enrollment.StepKeepsInv` | observability/nff-fleet/nff_fleet/enroll_worker.py:80-148 | every protocol step keeps the invariant and takes nothing back |
| `Enrollment.LaterStatesGrow` | observability/nff-fleet/nff_fleet/db.py:317-351 | claimed is never undone; stored sets, flags and issued rollovers are never lost |
| `Enrollment.ClaimedMeansStored` | observability/nff-fleet/nff_fleet/enroll_worker.py:117-120 | in every run an applied answer in flight means the claimed flag is set, and a claimed row means the device stored exactly a set issued for its hardware id |
| `Enrollment.AcceptedGetsClaimed` | observability/nff-fleet/nff_fleet/enroll_worker.py:80-120 | a pending row gets claimed by accepting it and delivering a set to its running device, which then stores exactly that set |
| `Enrollment.LostRolloverIsRetried` | observability/nff-fleet/nff_fleet/enroll_worker.py:136-148 | a lost rollover is issued again and claims the row |
| `Enrollment.LostAnswerIsRecovered` | observability/nff-fleet/nff_fleet/db.py:331-340 | after a lost answer the device boots into operation and its first heartbeat claims the row |
| `Enrollment.OneProjectIsSafe` | observability/nff-fleet/nff_fleet/enroll_worker.py:80-123 | with one project per hardware id the stored set is for the row's own project |
| `Enrollment.MixUpIsUnsafe` | observability/nff-fleet/nff_fleet/enroll_worker.py:99-120 | a run that claims a row of one project on the answer to another project's rollover |
| `Enrollment.SafeIffOneProject` | observability/nff-fleet/nff_fleet/enroll_worker.py:80-148 | every run backs every claimed row with a stored set of its own project exactly when no hardware id is enrolled in two projects |

## Left out

- MQTT, TLS, HTTPS, serial, key-value and flash port bodies; their contracts appear as steps and parameters.
- ECDSA verification itself: an arbitrary function of the signature text and the canonical string.
- The simulated adoption of the emulated device type (`nff_ota.c:359-378`), which changes no image.
- The path on which a restart cannot begin the partition again: it ends in a failed download without the digest step, which the code performs on a freed context.
- Progress telemetry and the MQTT pump inside the download callback.
- Expected digests that are not lower-case hex: the digest enters `Download.Fetch` as octets.
- Parsing of version text by `sscanf`: a version is three numbers or malformed.
- Power loss inside an SDK call other than the credential save; the span from ending the partition write to the trial record, and the rollback's writes, count as atomic.
- Failing allocations, and the buffer arithmetic of extraction lengths beyond `int`.
- Memory models weaker than sequential consistency in the hand-over; the handler is taken to read the buffer once, front to back.
- Heartbeat and reconnect timers, crash counting, telemetry.
- `nff_json_get_i32` and the handlers of the other commands.
- Batch expiry, announcement and quota of enrollments; rows exist from the start and begin pending.
- Enrollment.Worker.FulfillOne: how the wait ends is a parameter; issuing the certificate and publishing are the protocol's `Fulfill` step.
- Floating-point rounding in the planner.
- Fleet.BuildTbs: the fleet's commands hold texts and a 32-bit timestamp; a member of another kind, which the code would format all the same, counts as missing here.
- Sha256.Context.Finish: for messages of 2^61 bytes and more the length field is the code's, modulo 2^64, where FIPS 180-4 defines none.
- Lifecycle.Device.HandleOta: the outcome of the download is a parameter, which `Download.Fetch` settles; the fields are extracted as `Json` models it.
- Lifecycle.Device.Init: the choice between operational and bootstrap mode is `Enrollment.BootStep`, the heartbeat and crash set-up are not modelled.
- Enrollment.Worker.Pass: which stale rows are re-opened and which work list is returned are parameters constrained as their queries are; batch expiry is not modelled.
