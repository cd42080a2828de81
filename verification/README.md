# A model of the storage service, with proofs

The service stores objects under `(bucket, key)` on a local file tree. An object is staged under `.tmp`, synced, renamed
into its bucket directory, and described by a sidecar under `.meta`. Every `await` of a put, delete, read, list or sweep is
a point where the others, an I/O fault, a crash or a power loss can step in. The project models this service and proves
what it keeps.

How it is built, from the bottom up:

- `strings.dfy`, `key_grammar.dfy`, `paths.dfy`, `layout.dfy`: the key grammar and the path helpers on strings, and the
  proof that the strings resolve to the segment lists the rest of the project works with.
- `file_system.dfy`, `policy.dfy`: a POSIX file tree with the calls the driver makes; who may write what, and how much.
- `machine.dfy`: the driver as a transition system. A step is one operating-system action of one operation (open, write,
  sync, mkdir, rename, unlink, stat, read), or a fault of that action, a chunk or a broken source, the clock, a crash of
  some processes, or a power loss that truncates what was not synced and may undo renames and unlinks.
- `safety.dfy`, `last_writer.dfy`, `agreement.dfy`, `sweep.dfy`: invariants of every reachable state and what follows.
- `map_store.dfy`, `calm.dfy`, `pages.dfy`: the in-memory map as the reference, and the runs that answer exactly like it.
- `listing.dfy`: sorted pages with a cursor, over a store that changes and over one that does not.
- `driver.dfy`: the driver as a class whose methods change a file tree. Each method walks the transition system while it
  runs, so every execution is a run of `machine.dfy`; its answer and its effect are given outright.
- `fake_driver.dfy`: the in-memory driver as a class, and call by call where the one on disk answers as it does.
- `handlers.dfy`: the write handlers over the driver, and first-write-wins over request sequences.
- `faults.dfy`: what a fault of each action costs, in the answer and in the tree, and what the environment can do.
- `overlap.dfy`, `witnesses.dfy`: runs that show the side conditions of the other theorems to be needed.
- `signed_url.dfy`: minting and serving signed GET URLs.

`hide` statements in proofs only keep definitions away from the solver. `nameMax` is the file system's NAME_MAX; methods
that stage a put assume it is at least 255, the longest segment the grammar allows.

Where the code and its own documentation disagree, the model follows the code:

- `create_signed_url` accepts keys with `@`, the GET that serves the URL does not: such a URL is never served
  (`SignedUrl.AtKeysAreMintedInVain`).
- `build_public_url` is described as path-escaped; it is not, which matters exactly for keys with `@`
  (`SignedUrl.PublicUrlIsEscapedExactly`).
- The promise that every failed verification is the same 403 does not hold for an unexpired signature with a character
  outside ASCII: the comparison raises and the answer is a 500 (`SignedUrl.SignedGetExact`).
- `head` describes the stored object only under the side conditions of `Agreement.HeadCallTellsTheTruth`: a lost sidecar
  (`Witnesses.HeadLiesAfterLostSidecar`) and, with no fault, crash or overlapping writers at all, one delete that runs
  during the call (`Witnesses.HeadLiesDuringDelete`) make it report bytes that are not there. A last segment
  longer than 213 characters never gets a sidecar, because its staging name adds 42 characters (`Driver.SidecarFitsExact`).
- A sweep can remove a file that was written a moment ago: it tests the age and removes in two actions, and the upload may
  write in between (`Witnesses.SweepTakesAFreshFile`, exactly when in `Sweep.SweptFileIsStaleUnlessWritten`).
- `list` filters by full path, so an absolute prefix is not a key prefix (`Listing.SelectsExact`).
- Exclusive puts are first-write-wins only when they do not overlap and their existence check meets no fault
  (`LastWriter.ExclusivePutFindsKeyAbsent`, `Overlap.BothExclusivePutsCommit`, `Witnesses.FaultyCheckReplaces`).

## Model

| member | source | states |
|---|---|---|
| Safety.RunsKeepInv | src/drivers/local_fs.py:50-207 | the inductive invariant holds along every run: any interleaving, fault, broken source, crash and power loss |
| Safety.EveryFileIsAWholePayload | src/drivers/local_fs.py:68-96 | in every reachable state a file under a bucket is the complete payload of one put to exactly that path that reached its rename, admitted by the write policy and within its cap |
| Safety.StoredObjectIsItsOwnPayload | src/drivers/local_fs.py:68-96 | what is stored for a bucket and key was put to that bucket and key |
| LastWriter.StoredObjectIsTheLastPut | src/drivers/local_fs.py:84-86 | without power loss a stored object is the payload of the last put renamed to its key, whose writer may write the key and whose cap (key-prefix cap for services, mime cap for users) bounds it |
| LastWriter.GetAnswersTheLastPut | src/drivers/local_fs.py:122-137 | over every run without power loss, the bytes a `get` yields are the payload of the last put renamed to its key, and a fault-free `get` that yields nothing found the key absent |
| Safety.SidecarIsItsOwnRecord | src/drivers/local_fs.py:102-119 | with process crashes but no power loss a final sidecar is the complete record of a put to that same key that had renamed |
| Safety.StagedWithinCap | src/routers/storage/common.py:32-43 | at every moment the staged bytes of a put are at most its cap, also after it was cut off |
| Safety.StagingIsConserved | src/drivers/local_fs.py:91-96 | with no orphan on record and no put in flight the staging area is empty |
| Safety.WhereOrphansComeFrom | src/drivers/local_fs.py:91-96 | staging files are orphaned only by a failed unlink, a crash or a power loss |
| Safety.TreeShape | src/drivers/local_fs.py:84-85 | in every reachable tree files and directories are disjoint and everything hangs below a directory |
| Safety.NoObjectAboveAnother | src/drivers/local_fs.py:84-85 | no stored object's path is an ancestor of another's |
| Safety.DirectoriesOnlyGrow | src/drivers/local_fs.py:191-207 | no action removes a directory, so the conflict of `a.png` with `a.png/b.png` lasts |
| Safety.ActsOnOwnObject | src/drivers/local_fs.py:84-86 | an object changes only by the rename of a put to its key or the unlink of a delete of its key |
| Safety.OnlyPermittedWritersChangeObjects | src/validation/prefix_policy.py:30-34 | over every run objects under service-only prefixes and objects with `@` in their key change only at the hands of a service |
| Safety.PutThatLostItsStagingOnlyFails | src/drivers/local_fs.py:68-96 | from any reachable state in which a put has lost its staging file, in every later state of any run each of its actions leaves every file and the commits as they are, and any answer it gives is a failure |
| Sweep.LostStagingStaysLost | src/drivers/paths.py:63-80 | a staging file a put has lost is absent in every later state before a power loss |
| Safety.SweepRemovesOnlyStale | src/drivers/paths.py:71-77 | over every run from the start of a sweep, a file it is about to remove was, in some tree after that start, last written before its cutoff, which lies at least 3600 s back |
| Sweep.SweptFileIsStaleUnlessWritten | src/drivers/paths.py:75-76 | whatever runs between the age test and the removal, the file then removed is still older than the cutoff exactly when it is the file that was tested, and another one only if the put still streaming into it has written since |
| Witnesses.SweepTakesAFreshFile | src/drivers/paths.py:75-76 | from any reachable state, a run in which a sweep removes a file written in that very second |
| Sweep.SweepTakesOldOrphans | src/drivers/paths.py:63-82 | an undisturbed sweep removes every orphan last written more than 3600 s before it began, whatever runs beside it |
| Sweep.OrphansAreGoneInTime | src/main.py:80-92 | with sweeps at most D seconds apart an orphan with mtime m is gone once a sweep begun by m + 3600 + D is over |
| Sweep.OrphanIsLoose | src/drivers/paths.py:46-47 | an orphan's name belongs to no put in flight, now or later |
| Agreement.HeadAnswerFields | src/drivers/local_fs.py:139-164 | `head` on an unchanging tree, field by field: nothing without an object; with a readable sidecar its four fields, the guessed type standing in for an empty one; otherwise the file's size, the guessed type, its hash up to 100 MiB, and no metadata |
| Agreement.HeadTellsTheTruth | src/drivers/local_fs.py:139-164 | in every state reachable without power loss, `head` of the tree as it stands is truthful about the stored bytes on an untainted key with no writer between its rename or unlink and its sidecar action |
| Agreement.HeadCallTellsTheTruth | src/drivers/local_fs.py:139-164 | over every run without power loss, a fault-free call of `head` begun on an untainted key, during which no writer of the key is past its rename or unlink, answers truthfully, whatever else acts between its four actions |
| Agreement.ReplyIsLogged | src/drivers/local_fs.py:139-164 | that answer is the one the call logs |
| Witnesses.HeadLiesDuringDelete | src/drivers/local_fs.py:139-195 | from any reachable state with an object, a run in which one complete undisturbed delete between two actions of `head` makes it answer with the old size and an empty etag, no key tainted |
| Witnesses.HeadLiesAfterLostSidecar | src/drivers/local_fs.py:98-119 | from any reachable state with an object and its sidecar, a run in which a put that loses its sidecar to a fault or a crash leaves `head` describing the old bytes beside the new ones |
| Agreement.WhereTaintComesFrom | src/drivers/local_fs.py:98-119 | a key is tainted only by overlapping writers, by a writer that dies after its rename or unlink, or by a failed sidecar write or unlink that leaves an older sidecar |
| Agreement.SoloWriterHeals | src/drivers/local_fs.py:98-119 | a taint ends exactly when a writer never overlapped renames its sidecar into place, or as a delete unlinks it |
| Agreement.SoloExact | src/drivers/local_fs.py:50-119 | a writer is solo exactly from a start with no other writer of its key in flight until it ends or another one starts |
| Agreement.SidecarLossIsHarmless | src/drivers/local_fs.py:155-188 | in every state reachable without power loss, on an untainted key with no writer past its effect, losing the sidecar leaves `bytes` as they were, and `etag` for objects of at most 100 MiB (empty above) |
| Calm.CalmRunsAnswerLikeTheMap | tests/fakes/fake_blob_driver.py:32-66 | in fault-free runs where calls on one key do not overlap, no used path obstructs another, sidecar names fit, no sidecar staging name is or lies above a used sidecar path, and no sweep meets a stale staging file, every put, get, head and delete answers as the map store does |
| Calm.UniverseExact | src/drivers/local_fs.py:84-119 | which keys can be used together there, in terms of their text: valid, with 42 characters left in the last segment, and none going on after another, or after its `.json` name, with a slash |
| Calm.AboveExact | src/drivers/paths.py:31-43 | one object's path lies above another's, and one sidecar's above another's, exactly when the texts of the keys say so |
| Calm.LoneCallIsCalm | src/drivers/local_fs.py:50-207 | the executions of the driver's methods are such runs: a call begun on an idle key and made of its own fault-free steps |
| Calm.ValidNamesAreShort | src/validation/key_grammar.py:57-58 | every name on the way to a valid object has at most 255 characters |
| Pages.QuietTreeIsTheMap | tests/fakes/fake_blob_driver.py:50-62 | after such a run, with nothing in flight, tree and map hold the same objects and bytes, and `head` answers alike |
| Pages.QuietListIsTheMap | tests/fakes/fake_blob_driver.py:68-75 | and so does every page of `list`, for any cursor, limit and prefix that is not absolute |
| Pages.KeysExact | src/drivers/local_fs.py:213-224 | in a reachable tree the walk's relative paths are exactly the keys of the stored objects |
| Pages.HeadOverExact | src/drivers/local_fs.py:139-143 | over a changing tree fault-free `head` answers exactly when its stat sees something and its second look a file |
| Pages.WalkIsSound | src/drivers/local_fs.py:213-222 | a walk that reads each directory in one tree of a page, coming to a directory from the reading of the one above, finds no key the bucket did not hold at some moment of the page |
| Pages.WalkIsComplete | src/drivers/local_fs.py:213-222 | and misses none the bucket held all the time |
| Pages.StillPage | src/drivers/local_fs.py:213-224 | over a tree that rests the walk finds exactly the bucket's keys |
| Pages.WalkOverRun | src/drivers/local_fs.py:210-236 | a pagination walk with limit at least 1 over any reachable run, its directories read and its heads looking at different moments: strictly increasing keys with the prefix, each held at some moment, and every matching key held throughout exactly once |
| Listing.WalkOverChangingStore | src/drivers/local_fs.py:226-235 | the same for arbitrary sets seen by each page; keys whose `head` vanished are dropped without moving the cursor |
| Listing.ReportedAscends | src/drivers/local_fs.py:226-235 | reported keys increase strictly, carry the prefix and lie above the cursor |
| Listing.SteadyKeysAreReported | src/drivers/local_fs.py:226-235 | a matching key that every page finds alive is reported by a complete walk |
| Listing.QuietWalkReportsEverything | src/drivers/local_fs.py:226-235 | over a quiet store the pages together are the sorted list of exactly the matching keys, for all limits at least 1 |
| Listing.NextPageStartsBehind | src/drivers/local_fs.py:227-235 | a page with a cursor leaves exactly the candidates behind its limit: their number is the measure of the walk |
| Listing.QuietWalkEnds | src/drivers/local_fs.py:227-235 | the walk ends after exactly as many pages as the keys fill |
| Listing.ZeroLimit | src/drivers/local_fs.py:229-235 | with limit 0 the first page is empty and final |
| Listing.SelectsRelative | src/drivers/local_fs.py:214-221 | for every prefix that is not absolute the path filter is `startswith(prefix)` on keys |
| Listing.SelectsExact | src/drivers/local_fs.py:214-221 | for any prefix it is so for all keys exactly when the prefix is neither the beginning of the bucket directory nor a full path below it |
| Listing.SlashPrefixSelectsEverything | src/drivers/local_fs.py:214-221 | the prefix `/` selects every key although none starts with it |
| Listing.BeforeExact | src/drivers/local_fs.py:223-228 | string order: `a` is before `b` exactly when they agree up to some place where `a` has ended or has the smaller character |
| Listing.BeforeDecides | src/drivers/local_fs.py:223-228 | that order is total |
| Listing.AscendingUnique | src/drivers/local_fs.py:223 | a sorted list is determined by its elements |
| Listing.Sort | src/drivers/local_fs.py:223 | `keys.sort()` yields the same keys, each one smaller than the next |
| Listing.AboveCursor | src/drivers/local_fs.py:227-228 | exactly the keys greater than the cursor, ascending; an empty cursor is none |
| Listing.PageExact | src/drivers/local_fs.py:223-236 | one page: the keys with fewer than `limit` smaller matching ones whose `head` answered, ascending; a cursor exactly when more match and the limit is not 0, namely the limit-th matching key |
| Driver.LocalFsBlobDriver.constructor | src/drivers/paths.py:50-60 | start-up on an empty volume makes the root, `.tmp`, `.meta` and two directories per bucket, no other and no file: an initial state of the transition system |
| Driver.FreshVolumeIsFreshStore | src/drivers/paths.py:50-60 | which is a fresh store in the sense of the refinement theorem |
| Driver.LocalFsBlobDriver.Put | src/drivers/local_fs.py:50-100 | a put is a run of the system made of its own fault-free steps; its answer and what it leaves depend on the concatenation of the chunks only: stored iff not deduplicated, within the cap, unbroken and unobstructed, else no file changes |
| Driver.LocalFsBlobDriver.StageChunks | src/drivers/local_fs.py:72-82 | staging counts against the cap and leaves the whole payload, or stops, touching no other file |
| Driver.LocalFsBlobDriver.MakeParents | src/drivers/local_fs.py:84 | `makedirs` succeeds iff no file is on the way, and makes only directories on the way |
| Driver.LocalFsBlobDriver.Publish | src/drivers/local_fs.py:85-86 | the rename succeeds iff no directory is at the target |
| Driver.LocalFsBlobDriver.Abandon | src/drivers/local_fs.py:91-96 | a put that did not rename unlinks its staging file |
| Driver.LocalFsBlobDriver.WriteSidecar | src/drivers/local_fs.py:102-119 | the complete record at the sidecar path exactly when the sidecar fits, else the old sidecar unchanged; no object touched |
| Driver.LocalFsBlobDriver.AnswerExisting | src/drivers/local_fs.py:62-66 | an exclusive put that finds something answers with what `head` says, or with nothing |
| Driver.HeadAfterPut | src/drivers/local_fs.py:139-164 | what `head` says after a stored put, field by field: this put's size, type, hash and metadata when the sidecar fits, else those of an older record, else the file's own |
| Driver.SidecarFitsExact | src/drivers/local_fs.py:250-256 | a sidecar fits exactly when the key's last segment is 42 characters shorter than NAME_MAX and no directory is at its path and no file above it |
| Driver.LocalFsBlobDriver.Get | src/drivers/local_fs.py:122-137 | the chunks concatenate to the stored bytes, all of 1 MiB but the last; nothing for an absent object or a directory |
| Driver.StreamFile | src/drivers/local_fs.py:128-137 | reading until an empty read cuts the bytes into full chunks and a non-empty rest |
| Driver.LocalFsBlobDriver.Head | src/drivers/local_fs.py:139-164 | the answer of the step-by-step `head`, field by field |
| Driver.LocalFsBlobDriver.EtagFromFile | src/drivers/local_fs.py:174-188 | the hash of the bytes up to 100 MiB, empty above |
| Driver.Hashed | src/drivers/local_fs.py:178-183 | the hasher sees the bytes, not how they were cut |
| Driver.LocalFsBlobDriver.Delete | src/drivers/local_fs.py:191-195 | true iff there was an object; object and sidecar are gone and nothing else changed |
| Driver.LocalFsBlobDriver.Walk | src/drivers/local_fs.py:213-222 | the bucket's keys whose full path passes the filter, each once |
| Driver.LocalFsBlobDriver.List | src/drivers/local_fs.py:210-236 | one page: ascending keys above the cursor with what `head` says of each, and as cursor the last key of a full page |
| Driver.LocalFsBlobDriver.Describe | src/drivers/local_fs.py:230-234 | one entry per key of the page, in order |
| Driver.LocalFsBlobDriver.CleanupStaleTmp | src/drivers/paths.py:63-82 | removes exactly the files under `.tmp` last written more than 3600 s before, and answers how many files are gone |
| Faults.FaultBeforeRename | src/drivers/local_fs.py:87-96 | a put that meets a fault before its rename fails, for want of space when that is what the fault was and for an I/O error otherwise; its staging file is gone and nothing else has changed |
| Faults.FaultAfterRename | src/drivers/local_fs.py:113-119 | a fault after the rename is swallowed: the put answers as stored and changes nothing more |
| Faults.FaultOfCheckOrCleanup | src/drivers/local_fs.py:62-96 | a fault of the existence check lets the put go on; one of the cleanup orphans the staging file and keeps the answer |
| Faults.FaultOfExisting | src/drivers/local_fs.py:62-66 | what a fault makes of the answer of an exclusive put that found something |
| Faults.FaultOfDelete | src/drivers/local_fs.py:191-207 | a delete whose unlink fails answers false and still takes the sidecar; one whose sidecar unlink fails keeps its answer |
| Faults.FaultOfGet | src/drivers/local_fs.py:122-137 | a fault of the first look of a `get` answers nothing, one of the opening is an error |
| Faults.GetAlone | src/drivers/local_fs.py:122-137 | an undisturbed `get` yields the stored bytes, and nothing for an absent key |
| Faults.HeadAlone | src/drivers/local_fs.py:139-164 | an undisturbed call of `head` logs what `head` says of the tree |
| Faults.FaultOfSweep | src/drivers/paths.py:74-79 | a sweep that cannot remove a file goes on without it |
| Faults.HeadUnderFaults | src/drivers/local_fs.py:139-188 | `head` for each of the sixteen combinations of faults of its four actions: hidden, from the sidecar, from the file, or without an etag |
| Faults.FaultOfHead | src/drivers/local_fs.py:139-188 | and the same for the actions of a call among others |
| Faults.WritesMayLag | src/drivers/local_fs.py:72-79 | what was written may reach the file later, in any part not shorter than what is there |
| Faults.PowerLossMayLeave | src/drivers/local_fs.py:79-86 | a power loss may leave any place as it was in any earlier tree, a beginning of unsynced bytes, or nothing, and ends every operation |
| FakeDriver.CountingStream | src/routers/storage/common.py:32-43 | passes the longest run of whole chunks within the cap; aborts iff the total exceeds it |
| FakeDriver.FakeBlobDriver.Put | tests/fakes/fake_blob_driver.py:32-39 | answer and new map are those of the map store |
| FakeDriver.FakeBlobDriver.Get | tests/fakes/fake_blob_driver.py:41-48 | the stored bytes, or nothing |
| FakeDriver.FakeBlobDriver.Head | tests/fakes/fake_blob_driver.py:50-62 | the entry's description, or nothing |
| FakeDriver.FakeBlobDriver.Delete | tests/fakes/fake_blob_driver.py:64-66 | answer and new map are those of the map store |
| FakeDriver.FakeBlobDriver.List | tests/fakes/fake_blob_driver.py:68-75 | one page of the bucket's keys with the prefix |
| FakeDriver.PutAnswersLikeTheMapExactly | src/drivers/local_fs.py:60-100 | a lone fault-free put answers as the map does iff nothing obstructs its path, or its source fails and no directory passes the existence check |
| FakeDriver.PutKeepsMirror | src/drivers/local_fs.py:60-100 | a put whose sidecar fits keeps tree and map in step at every key |
| FakeDriver.DeleteKeepsMirror | src/drivers/local_fs.py:191-195 | so does every delete |
| Handlers.StorageService.constructor | src/routers/storage/put_object.py:21-53 | a service over a valid driver starts with an empty history |
| Handlers.StorageService.Store | src/drivers/local_fs.py:50-100 | the driver's put of an admitted job, entered into the history of requests, keeps first-write-wins |
| Handlers.StorageService.PutObject | src/routers/storage/put_object.py:21-53 | the response and effect of every PUT; one answered as stored leaves its body, and when the sidecar fits a record and a `head` with the body's size and hash, the given content type and the uploader `svc:` and the caller |
| Handlers.StorageService.CreateUpload | src/routers/storage/create_upload.py:22-50 | the same for uploads, with the uploader `user:` and the subject |
| Handlers.StorageService.DeleteObject | src/routers/storage/delete_object.py:18-29 | the response and effect of every DELETE; 200 whether or not there was an object |
| Handlers.CreateKeepsFirstWriteWins | src/routers/storage/put_object.py:39-53 | a create of a key that does not stand keeps the rule: between two creates of a key there is a removal |
| Handlers.StandingAfter | src/routers/storage/put_object.py:49-52 | a key stands after a request only if it stood and was not removed, or was just stored |
| Handlers.PutStatusExact | src/routers/storage/put_object.py:28-53 | for every PUT exactly when it is answered 400, 409, 413, 500, broken off, or stored with 201 or 200 |
| Handlers.UploadStatusExact | src/routers/storage/create_upload.py:36-50 | for every upload exactly when it is answered 400, 403, 413, 415, 500 or 201 |
| Handlers.DeleteStatusExact | src/routers/storage/delete_object.py:25-29 | for every DELETE exactly when it is answered 400, 403 or 200 |
| Handlers.FaultStatus | src/core/errors.py:104-112 | a put that meets a fault before its rename is answered 507 when the disk is full and 500 otherwise |
| Handlers.UpsertStoresExactly | src/drivers/local_fs.py:60-96 | with the answer and effect the put promises, a fault-free in-cap upsert stores its payload iff its target is no directory and no file lies above it, and otherwise fails and changes no file |
| LastWriter.ExclusivePutFindsKeyAbsent | src/drivers/local_fs.py:62-86 | over every run, an exclusive put at its rename finds its key absent, unless its existence check met a fault or another writer overlapped it |
| Witnesses.FaultyCheckReplaces | src/drivers/local_fs.py:62-86 | from any reachable state with an object, a run in which a fault of the existence check lets an exclusive put, alone on its key, replace it |
| Overlap.BothExclusivePutsCommit | src/drivers/local_fs.py:62-86 | from any reachable state with nothing in the way of an absent key, a run in which two exclusive puts to it, both started there, both commit, with no call answered in between |
| Overlap.ReachesRename | src/drivers/local_fs.py:72-86 | a put past its check with nothing in its way can run to its rename without looking at the object again |
| Policy.LongestExact | src/validation/size_caps.py:12-20 | there is exactly one longest matching entry and the reference lookup finds it |
| Policy.LongestWithOneMore | src/validation/size_caps.py:12-20 | one more entry changes the answer exactly when it matches and is longer |
| Policy.ResolveS2sCap | src/validation/size_caps.py:12-20 | the loop finds the cap of the longest matching prefix in any iteration order |
| Policy.S2sCapExact | src/validation/size_caps.py:12-20 | the cap of a service is that of the longest configured prefix of the key, or the general one |
| Policy.ResolveUserCap | src/validation/prefix_policy.py:37-47 | the loop finds the cap of the longest matching media-type entry in any iteration order, or refuses |
| Policy.MediaTypeExact | src/validation/prefix_policy.py:40 | the media type of a content type is the part before the first semicolon without surrounding blanks, lowered character by character |
| Policy.HasParts | src/validation/prefix_policy.py:40 | every text has such a part |
| Policy.UserCapExact | src/validation/prefix_policy.py:37-47 | a user's cap is that of the longest configured entry the media type starts with; without one the upload is refused |
| Policy.CheckUserWritable | src/validation/prefix_policy.py:30-34 | allows iff no service-only prefix starts the key |
| Policy.UploadRefusedExactly | src/validation/prefix_policy.py:50-57 | 403, 415 and 413 exactly for a service-only prefix, a missing media type and an excessive declared size, in that order |
| Policy.UnlistedMediaTypeIsRefused | src/validation/prefix_policy.py:45-46 | a media type without an entry is refused, whatever its size |
| Policy.AdmittedPutIsAdmissible | src/routers/storage/put_object.py:28-50 | an admitted PUT is permitted, carries the key-prefix cap, the given content type and the uploader `svc:` and the caller |
| Policy.PutAdmittedExactly | src/routers/storage/put_object.py:28-50 | exactly which PUTs are admitted and why the others are refused, and the whole job handed to the driver |
| Policy.AdmittedUploadIsAdmissible | src/routers/storage/create_upload.py:36-49 | an admitted upload is permitted, free of `@`, outside service-only prefixes and carries the mime cap, the given content type and the uploader `user:` and the subject |
| Policy.UploadAdmittedExactly | src/routers/storage/create_upload.py:36-49 | exactly which uploads are admitted and why the others are refused, and the whole job handed to the driver |
| Policy.AdmitDeleteExact | src/routers/storage/delete_object.py:25-27 | a delete is admitted iff its caller may write the key |
| Policy.DeleteAdmittedExactly | src/routers/storage/delete_object.py:25-27 | and exactly why the others are refused: the grammar, with `@` for services only, or a service-only prefix for users |
| KeyGrammar.ValidateKeyExact | src/validation/key_grammar.py:36-64 | accepted keys are exactly the slash-joined lists of non-empty non-dot in-charset segments of at most 255 characters, 1024 in all, with an extension on the last |
| KeyGrammar.RejectedExactly | src/validation/key_grammar.py:36-64 | each rule is reported exactly when it is the first one broken; among segments the first bad one decides |
| KeyGrammar.AtIsTheOnlyDifference | src/validation/key_grammar.py:52 | the language without `@` is the language with it, minus the keys that contain `@` |
| KeyGrammar.OnlyControlCheckStopsNewline | src/validation/key_grammar.py:49-60 | the newline that `$` lets through is excluded by the control-character check alone |
| KeyGrammar.ValidateBucketExact | src/validation/key_grammar.py:29-33 | accepted buckets are the configured names of 3 to 63 lower-case letters, digits and dashes, or such a name and a newline |
| KeyGrammar.StrippedBucketsOnly | src/validation/key_grammar.py:29-33 | when configured names are stripped, without the newline |
| Paths.AssertWithinExact | src/drivers/paths.py:21-28 | under any root but `/` the string test on normalised paths is segment-list containment, for arbitrary candidates |
| Paths.ResolveExact | src/drivers/paths.py:21-28 | what a path resolves to, from its last segment back: empty and `.` change nothing, `..` drops the last directory, anything else is appended |
| Paths.ObjectPathExact | src/drivers/paths.py:31-36 | for arbitrary keys the object path is handed out, as the text of root, bucket and key, exactly when it resolves to the bucket's directory or below |
| Paths.TraversalIsStopped | src/drivers/paths.py:21-36 | a key that leaves its bucket by `..` gets no path |
| Paths.ObjectPathNeverEscapes | src/drivers/paths.py:31-36 | for arbitrary keys an object path that is returned resolves inside its bucket |
| Paths.ValidObjectPath | src/drivers/paths.py:31-36 | for validated keys `object_path` never raises and is already normal |
| Paths.ValidMetaPath | src/drivers/paths.py:39-43 | for validated keys `meta_path` never raises and is already normal |
| Paths.PathTexts | src/drivers/paths.py:31-47 | the texts of object, sidecar and staging paths of a validated key |
| Paths.ObjectPathInjective | src/drivers/paths.py:31-36 | distinct validated pairs have distinct object paths |
| Paths.MetaPathInjective | src/drivers/paths.py:39-43 | distinct validated pairs have distinct sidecar paths |
| Layout.StringPathsAreLayout | src/drivers/paths.py:31-43 | the string paths resolve to the segment paths of the model |
| Layout.StagingPathIsLayout | src/drivers/paths.py:46-47 | and so does the staging path |
| Layout.PathsOfIds | src/drivers/paths.py:31-43 | segment paths of objects and sidecars are injective |
| Layout.BucketRegion | src/drivers/paths.py:4-7 | the bucket region is disjoint from `.meta` and `.tmp` |
| Layout.StagePath | src/drivers/local_fs.py:250-256 | a sidecar staging name lies beside its sidecar and is no key's final sidecar path |
| Layout.StagePathsDiffer | src/drivers/local_fs.py:251-253 | staging names from different random parts never collide, whatever they stage |
| SignedUrl.ParseOfDecimal | src/drivers/signing.py:17-18 | decimal rendering is read back, so it is injective |
| SignedUrl.DecimalExact | src/drivers/signing.py:17-18 | it is the usual one: a sign, or digits without leading zeros whose place value is the number |
| SignedUrl.MessageInjective | src/drivers/signing.py:17-18 | for slash-free buckets the signed message determines bucket, key and expiry |
| SignedUrl.SlashInBucketConfusesMessages | src/drivers/signing.py:17-18 | with a slash in the bucket it would not |
| SignedUrl.UnquoteOfQuote | src/drivers/local_fs.py:244 | percent-encoding is undone by decoding (RFC 3986, sections 2.1 and 2.3) |
| SignedUrl.QuoteExact | src/drivers/local_fs.py:244 | it goes character by character: unreserved characters and the slash stay, others become a percent sign and two upper-case hexadecimal digits |
| SignedUrl.SignedTargetParses | src/drivers/local_fs.py:239-244 | the minted request target is routed back to the bucket, key, expiry and signature |
| SignedUrl.MintExact | src/routers/storage/create_signed_url.py:18-25 | exactly when a URL is minted (valid bucket and key, `@` allowed, 1 to 86400 seconds), and its text |
| SignedUrl.SignedUrlRoundTrip | src/routers/storage/create_signed_url.py:18-25 | a URL minted at t for ttl seconds decodes to what it was minted for and is served exactly before t + ttl when its key has no `@`; with `@` it is always rejected by the grammar |
| SignedUrl.AtKeysAreMintedInVain | src/routers/storage/create_signed_url.py:22-23 | every valid key with `@` gets a URL, and its GET is a bad request at any time |
| SignedUrl.RenditionKeyHasAt | src/validation/key_grammar.py:4-7 | there are such keys |
| SignedUrl.SignedGetExact | src/routers/files/signed_get.py:22-38 | exactly which requests are redirected and where to, which are bad requests, which are refused, and which end in an internal error |
| SignedUrl.RedirectComesBack | src/routers/files/signed_get.py:34-38 | the internal redirect names the requested object |
| SignedUrl.SignatureBindsTheUrl | src/drivers/signing.py:25-30 | if different messages have different MACs, a signature serves no other bucket, key or expiry |
| SignedUrl.PublicUrlIsEscapedExactly | src/routers/storage/common.py:13-15 | the public URL is the escaped one exactly for keys without `@` |

## Left out

- `modified_at`, `uploaded_at` and HTTP dates; log lines, envelopes, CORS, FastAPI and pydantic beyond the bound on `expires_in`.
- JSON text: a sidecar is a complete record or torn. A strict beginning of a record is taken not to parse.
- SHA-256 and HMAC: functions of which only the alphabet of the MAC is known; `SignedUrl.SignatureBindsTheUrl` assumes different messages have different MACs.
- `uuid4`: names are parameters required to be fresh, and no directory bears them. The clock and process numbers are parameters too.
- Symlinks, case-insensitive file systems, relative roots and PATH_MAX; `realpath` is lexical normalisation.
- Cancellation of a coroutine while its worker thread is inside an operating-system call: an abort takes effect between two actions.
- Durability of the latest rename and of sidecars after a power loss: nothing is claimed, since neither directory nor sidecar is synced.
- Sidecar staging files left under `.meta` by a fault or crash: no sweep looks at them, and no property removes them.
- `_safe_unlink` on a directory: it answers false, as for an absent file.
- Driver.LocalFsBlobDriver.Put: runs alone and without faults; interleaving and faults are the subject of the transition system. It assumes NAME_MAX of at least 255.
- Driver.LocalFsBlobDriver.List: for a limit of at least 0 and a bucket other than the two reserved directories; in a class method nothing can vanish between the walk and `head`, which `Pages.WalkOverRun` covers.
- Calm.CalmRunsAnswerLikeTheMap: leaves out runs in which a used key has the form of another's sidecar staging name, or a live upload outlasts an hour and meets a sweep; both make a put fail or lose its sidecar, which the map store cannot.
- Pages.WalkOverRun: a directory is read in one tree, and neither the walk nor a `head` of the page meets a fault; `list` has no steps of its own in the transition system.
- Pages.QuietListIsTheMap: compares pages when nothing is in flight.
- FakeDriver.FakeBlobDriver.Put: the cap is applied to the source inside the method, where the handlers wrap the stream before the call.
- SignedUrl.UnquoteOfQuote: for ASCII text, which all validated keys are; percent-escapes of other characters and escapes inside query values are not decoded.
- Media types with characters above code 255, which HTTP headers cannot carry, declared lengths that are not ASCII digits, and negative byte caps in the settings.
- The development-only streaming branch of `signed_get`, `presign_put`, `head_object`, JWT and API-key verification, settings parsing, nginx and deployment.
