# A verified model of the screenshot server

The server stores screenshots uploaded by a browser extension. Its page shows one of them with an annotation
editor that keeps an undo history and uploads the annotated image by itself. This project models the parts of
it that keep state, as Dafny classes and functions, and proves what those parts promise over whole runs.

| Part | Files | What is proved |
|---|---|---|
| Annotation editor | `editor_model`, `editor_invariants`, `editor_history`, `editor_saving`, `editor_convergence`, `editor_rendering`, `editor_effects`, `editor` | Every browser callback is an event of a step machine, taken in any order. No change is forgotten, the server's image is always one the editor can name, promises are settled once, renderings never mix revisions, the history is an undo/redo zipper, and saving comes to rest. |
| Arrow | `hit_test`, `arrow_geometry`, `arrow_model`, `arrow_proofs`, `arrow` | Endpoints are corrected lazily after drags; over any life of an arrow the user sees, hits and saves exactly the one asked for. Hit-testing is exact. |
| Rate limiter | `rate_limit_model`, `rate_limit_proofs`, `rate_limiter`, `rate_limit_race`, `rate_limit_orphans` | Pruned lists and the janitor decide as the complete admission log would; no window exceeds its limit. Without atomicity: exactly when a limit can be exceeded, by how much at most, and a run in which it is. |
| Image store | `png`, `storage_model`, `storage_runs`, `storage_leaks`, `storage_serial`, `storage_solo`, `storage_crash`, `storage` | Files are a map with atomic rename, every system call can fail, and the server can crash. What is served is always complete; serial writes never pair an old image with a new thumbnail; exactly what a failed or interrupted write leaves; a server that comes up again has no leftovers. |
| Rows and files | `database_model`, `database`, `server_model`, `server_invariants`, `server_outcomes`, `server` | The handlers over the two tables and the store: every row has its files, ownership, counts and conservation, and exactly when each status is given and what has been done by then. |
| User search | `like_pattern`, `user_search` | What the LIKE pattern finds, and exactly which searches find just the texts that contain them whatever the case. |
| Sessions | `session_model`, `session` | The exact bound on the gaps between requests under which one sign-in lasts for ever. |
| Client address | `real_ip` | The address chosen from the forwarding headers is the rightmost client, whatever is prepended, and exactly when a chain of proxies makes it the one they saw. |

## How the model is built

Code that updates variables is a class with those fields, and each of its methods is proved to take one step of
a specification function on values (`View() == Next(old(View()), e)` or the like). The properties are lemmas
about runs of those steps, so they hold of the methods. Loops of the source are loops here. Clocks, random
names, what a request carries and how system calls end are parameters.

Ghost fields record what is needed to state a property and nothing reads them to decide anything: in the editor
every snapshot made, the server's image and the revisions whose upload failed; in the store and the handlers
what was ever sent for each id, the temporary names given out and the removals that failed.

## What the proofs found

- A resolved `save()` promise, or the status Saved, is documented to mean that the server holds the current
  image. It surely does if and only if no upload failed since the last success (`EditorSaving.SavedIsSureIff`),
  because a failed upload may have replaced the image; `EditorSaving.SavedWithoutBeingHeld` gives the run.
- `InsertImage` is documented to report a duplicate id on a primary-key collision. On SQLite it also does so for
  a missing owner (`DatabaseModel.DuplicateMeans`).
- A write that fails or is cut short by a crash is documented to leave the existing image and thumbnail untouched.
  A write that returns an error does so if and only if what failed was not the rename of the thumbnail after
  everything before it had succeeded, or the image was the same anyway
  (`StorageSolo.FailedWriteChangesNothingIff`); otherwise the image is new and the thumbnail old, as in the run of
  `StorageSolo.FailedWriteLeavesNewImage`. After a crash at any moment, and whatever follows for other ids, the
  pair is the old one exactly until the image has been renamed (`StorageCrash.WriteShowsExactly`).
- The user search is documented as a search for a substring whatever its case. The program lowers the search and
  the database the text, and SQLite's `lower()` only knows ASCII. By the database's notion of case the search is
  exact if and only if it has no backslash and both sides lower its characters alike
  (`UserSearch.SearchIsSubstringIff`); by the program's, if and only if it has no backslash and the database
  knows every character that the program takes for one of its own in another case
  (`UserSearch.SearchIgnoresCaseIff`). `UserSearch.AccentedNameIsMissed` is a name that does not find itself.
- The rate limiter fetches an address's state before it locks it. After any run in which the address's requests
  all locked states that were still in the map, its limit can be exceeded without another sweep if and only if
  some thread has by then fetched a state of it that was evicted since (`RateLimitOrphans.RunOverfillsIff`).
  `RateLimitRace.OrphanExceedsLimit` is a run in which it is, and in every run a window holds at most the limit
  for each state ever made for the address (`RateLimitOrphans.AddressBound`).
- Of several X-Forwarded-For lines only the first is read. Each proxy may extend the first line, add a line or join
  all lines; with trusted proxies behind it, the address the first one saw is the result under an exact condition
  on the manners and on what the request carried (`RealIp.ChainYieldsClientIff`). When none joins, the first proxy
  alone decides (`RealIp.FirstProxyDecides`); when the first joins, nothing the request carried matters.
- The sign test for triangles accepts points outside a degenerate one (`HitTest.SignTestIsExactIff`). The
  editor's arrowheads are never degenerate (`ArrowGeometry.HeadsAreSolid`).

## Model

| member | source | states |
|---|---|---|
| EditorInvariants.NextInv | internal/tmpl/view.html:1779-1837 | Every event keeps the whole invariant: history, render cache, upload chain, server image, promises, and that no change is forgotten |
| EditorInvariants.RunInv | internal/tmpl/view.html:1779-1837 | So does every run, whatever the interleaving of edits, timers, renderings, responses, retries and saves |
| EditorInvariants.FlushInv | internal/tmpl/view.html:1789-1815 | `flush` restores the invariant even when called with fresh waiters and nothing running |
| EditorSaving.ServerImageIsNamed | internal/tmpl/view.html:1789-1815 | In every reachable state the server's image was drawn from `savedRev`, the revision in flight, or one whose upload failed since the last success |
| EditorSaving.SuccessIsExact | internal/tmpl/view.html:1802-1804 | Right after each success it is exactly `savedRev`, the snapshot that upload started from |
| EditorSaving.NoChangeIsLost | internal/tmpl/view.html:1779-1837 | While the page is not being left on purpose, an unsaved change always has a timer pending, an upload running, or the failed status showing |
| EditorSaving.UnwarnedLeaveIsSafe | internal/tmpl/view.html:1860-1865 | Closing the page without the warning loses nothing: the server shows the canvas, or the result of an upload that was reported as failed |
| EditorSaving.SettlementMeans | internal/tmpl/view.html:1833-1837 | A promise is resolved only with nothing unsaved and no upload running, rejected only when an upload ended in an error |
| EditorSaving.SettledForGood | internal/tmpl/view.html:1833-1837 | A settled promise is never settled again, over any run |
| EditorSaving.PromisesAreKept | internal/tmpl/view.html:1871-1876 | Every promise ever handed out is settled or waits for a running upload |
| EditorSaving.SavedIsSureIff | internal/tmpl/view.html:1793-1797 | When nothing is unsaved and no upload runs, every run the browser cannot tell apart has the current revision on the server, if and only if no upload failed since the last success |
| EditorSaving.SavedWithoutBeingHeld | internal/tmpl/view.html:1869-1876 | A run after which `save()` resolves and the status is Saved while the server still shows an undone annotation |
| EditorSaving.RunWithServerAt | internal/tmpl/view.html:1804-1814 | For every run and every revision the browser cannot rule out, an indistinguishable run after which the server holds it |
| EditorEffects.SaveGivesPromise | internal/tmpl/view.html:1871-1876 | Every `save()` hands out a promise of its own, resolved at once if nothing is unsaved or running, else waiting for an upload that runs or is started with the current snapshot |
| EditorEffects.EachSaveHasItsPromise | internal/tmpl/view.html:1871-1876 | Over any run there are exactly as many promises as calls of `save()` |
| EditorEffects.SavePromiseIsKept | internal/tmpl/view.html:1871-1876 | Whatever follows a `save()`, its own promise is settled or waits for a running upload |
| EditorEffects.FlushStartsUpload | internal/tmpl/view.html:1789-1802 | Timer, retry and save clear the timer and start the upload of the current snapshot if it is unsaved and none runs, resolve all waiters if it is saved, and leave a running upload alone |
| EditorEffects.EditSchedules | internal/tmpl/view.html:969-995 | A commit, and an undo or redo that moves, change the history and set the timer, and nothing else; an undo or redo that cannot move changes nothing |
| EditorEffects.SettleReports | internal/tmpl/view.html:1806-1814 | The last callback shows a failure and rejects all waiters, or resolves them, or uploads the newer snapshot for them |
| EditorEffects.FailureIsReported | internal/tmpl/view.html:1804-1812 | An upload that fails with a message, whatever comes before its last callback, ends with that message shown, `savedRev` unchanged and every waiter rejected |
| EditorEffects.StatusIsRight | internal/tmpl/view.html:1789-1815 | In every reachable state Saving is shown exactly while an upload runs, and Failed only with a message |
| EditorEffects.DiscardDrops | internal/tmpl/view.html:1877-1882 | Discarding drops the timer and the warning, and touches neither history nor a running upload |
| EditorEffects.DiscardedIsNotUploaded | internal/tmpl/view.html:1877-1882 | After it, with no upload running, no run without another edit, retry or save reaches the server |
| EditorConvergence.QuietRun | internal/tmpl/view.html:1784-1815 | Once edits and failures stop, the uploads that complete are exactly those needed, at most two |
| EditorConvergence.AdvancingDecreases | internal/tmpl/view.html:1789-1815 | Each event that carries a pending save forward decreases a measure that is twelve at most |
| EditorConvergence.QuietNeverRaises | internal/tmpl/view.html:1784-1815 | No event but an edit or a failure raises the measure, neither a retry nor another save |
| EditorConvergence.QuietRunAdvances | internal/tmpl/view.html:1784-1815 | So in every run without edits and failures at most twelve events advance, whatever is mixed in |
| EditorConvergence.QuietRunEndsSaved | internal/tmpl/view.html:1784-1815 | Every such run after which none can advance any more ends with everything saved and nobody waiting |
| EditorConvergence.CanAdvance | internal/tmpl/view.html:1789-1815 | As long as a save is pending, some such event can happen |
| EditorConvergence.Converges | internal/tmpl/view.html:1784-1815 | From every live state a quiet run of at most twelve events ends with everything saved and the history untouched |
| EditorConvergence.RestIsSaved | internal/tmpl/view.html:1789-1815 | When nothing is pending any more, `savedRev` is the current revision and nobody waits |
| EditorConvergence.NothingToUpload | internal/tmpl/view.html:1793-1797 | Returning to the saved snapshot before the timer fires starts no upload and changes nothing but the status |
| EditorRendering.CallerGetsItsRevision | internal/tmpl/view.html:1717-1724 | However renderings and edits interleave after a call of `renderCurrent`, its answer shows the drawing that was current at the call and carries that revision |
| EditorRendering.UploadSendsItsSnapshot | internal/tmpl/view.html:1798-1804 | The body sent shows the snapshot the upload was started with |
| EditorRendering.CacheIsUsed | internal/tmpl/view.html:1715-1724 | A rendering that completes while its snapshot is current answers the next call at once |
| EditorRendering.CallRendersUnlessCached | internal/tmpl/view.html:1717-1720 | A call is a new job for the current snapshot, answered at once exactly if the cached rendering is of that revision; nothing else changes |
| EditorRendering.RenderingFinishes | internal/tmpl/view.html:1720-1723 | A rendering that completes answers its own call with its own snapshot, and no other |
| EditorRendering.StaleRenderingIsNotCached | internal/tmpl/view.html:1720-1722 | One that completes after its snapshot was left displaces no cached one; the first is always kept |
| EditorRendering.AnsweredOnce | internal/tmpl/view.html:1717-1724 | A delivered or failed call is over, the other calls and the cache stay, and an export touches nothing but the renderings |
| EditorHistory.HistoryRefinesZipper | internal/tmpl/view.html:969-995 | Over any run the list, index and canvas behave as a zipper of past, present and future |
| EditorHistory.RevisionsAreForGood | internal/tmpl/view.html:934-951 | A revision stands for the same drawing for good, also after it left the history |
| EditorHistory.UndoThenRedo | internal/tmpl/view.html:977-995 | n undos then n redos give back list, index and canvas if and only if there were n snapshots to undo or nothing to redo |
| EditorHistory.CommitAfterUndos | internal/tmpl/view.html:969-975 | A commit after k undos keeps what is before, drops exactly the redo tail, and takes a revision never used |
| AnnotationEditor.SnapshotList.TakeSnapshot | internal/tmpl/view.html:944-951 | The snapshot holds the canvas under a new revision |
| AnnotationEditor.SnapshotList.Record | internal/tmpl/view.html:969-975 | The redo tail is dropped and one snapshot appended and shown |
| AnnotationEditor.SnapshotList.StepBack | internal/tmpl/view.html:977-985 | Moves to and shows the previous snapshot if there is one, else changes nothing |
| AnnotationEditor.SnapshotList.StepForward | internal/tmpl/view.html:987-995 | Moves to and shows the next snapshot if there is one, else changes nothing |
| AnnotationEditor.RenderCache.RenderCurrent | internal/tmpl/view.html:1717-1720 | The step of the model in which a call is answered from the cache or starts a rendering |
| AnnotationEditor.RenderCache.Finish | internal/tmpl/view.html:1720-1723 | The step in which a rendering completes and becomes the cached one if there was none or its revision is still current |
| AnnotationEditor.SavePromises.SettleSaveWaiters | internal/tmpl/view.html:1833-1837 | All waiters, and no other promise, get the one outcome, and none is left waiting |
| AnnotationEditor.Editor.constructor | internal/tmpl/view.html:883-885 | A new editor is the model's initial state and satisfies the invariant |
| AnnotationEditor.Editor.CommitChange | internal/tmpl/view.html:969-975 | The commit step of the model, on the fields |
| AnnotationEditor.Editor.UndoChange | internal/tmpl/view.html:977-985 | The undo step of the model |
| AnnotationEditor.Editor.RedoChange | internal/tmpl/view.html:987-995 | The redo step of the model |
| AnnotationEditor.Editor.Flush | internal/tmpl/view.html:1789-1802 | The flush step of the model: skipped, settled as saved, or an upload started, depending on the state |
| AnnotationEditor.Editor.OnUploaded | internal/tmpl/view.html:1802-1804 | The step in which the upload's success is recorded |
| AnnotationEditor.Editor.OnUploadFailed | internal/tmpl/view.html:1804-1806 | The step in which its failure is recorded |
| AnnotationEditor.Editor.OnUploadSettled | internal/tmpl/view.html:1806-1814 | The last step of the chain: failure reported to all waiters, or another flush |
| AnnotationEditor.Editor.SavePage | internal/tmpl/view.html:1871-1876 | The save step: one more waiter, then a flush |
| AnnotationEditor.Editor.DiscardPendingSave | internal/tmpl/view.html:1878-1882 | The step that drops the timer and disarms the warning |
| HitTest.ProjectionIsNearest | internal/tmpl/view.html:1321-1328 | The clamped projection is the nearest point of the segment: any other parameter in [0, 1] is further away by at least its squared distance from the projection |
| HitTest.MarginTestIsExact | internal/tmpl/view.html:1321-1328 | Comparing the distance with a margin decides whether some point of the segment is within the margin |
| HitTest.SignTestIsExactIff | internal/tmpl/view.html:1330-1337 | The sign test accepts exactly the convex combinations of the corners if and only if the triangle is not degenerate |
| HitTest.HullPassesSignTest | internal/tmpl/view.html:1330-1337 | It accepts every convex combination, also of a degenerate triangle |
| HitTest.DegenerateAcceptsOutsider | internal/tmpl/view.html:1330-1337 | For every degenerate triangle it also accepts some other point |
| ArrowGeometry.HeadsAreSolid | internal/tmpl/view.html:1192-1215 | No arrowhead is ever degenerate, even of an arrow of no length |
| ArrowGeometry.HeadIsEquilateral | internal/tmpl/view.html:1192-1215 | The tip and the two wings are equally far apart, by the head's size |
| ArrowGeometry.ShaftMeetsHead | internal/tmpl/view.html:1192-1215 | The shaft ends in the middle of the head's base |
| ArrowGeometry.StartHeadIsEquilateral | internal/tmpl/view.html:1206-1213 | The start and the two wings of the head there, if there is one, are equally far apart, by the same size |
| ArrowGeometry.ShaftMeetsStartHead | internal/tmpl/view.html:1206-1213 | And the shaft starts in the middle of that head's base |
| ArrowGeometry.NoStartHead | internal/tmpl/view.html:1206-1213 | Without one, shaft and box start at the start |
| ArrowGeometry.HeadsPointOutward | internal/tmpl/view.html:1192-1215 | Unless both endpoints are the same, the wings of the end lie towards the start and those of the start towards the end |
| ArrowGeometry.BoxIsTightest | internal/tmpl/view.html:1237-1244 | The box covers endpoints and wings with half the stroke around them, and is contained in every box that does |
| ArrowGeometry.BoxMoves | internal/tmpl/view.html:1237-1248 | The box of a moved arrow is the moved box |
| ArrowGeometry.HitsIsExact | internal/tmpl/view.html:1293-1302 | The tests accept exactly the points of the thickened shaft and of the heads the arrow has |
| ArrowGeometry.PartsAreOn | internal/tmpl/view.html:1288-1302 | Tip and wings of every head the arrow has, and the whole shaft, are on it |
| ArrowProofs.ArrowIsAsRequested | internal/tmpl/view.html:1222-1248 | Over any life of drags, endpoint moves, stroke changes, lazy corrections, hit tests and reloads, the arrow seen and saved is the one asked for, and left, top, width and height are those of its box |
| ArrowProofs.RunIsAnchored | internal/tmpl/view.html:1232-1248 | Over any such life the reference corner is that of the box of the stored endpoints |
| ArrowProofs.NextIsAsRequested | internal/tmpl/view.html:1364-1375 | Each operation changes the arrow seen by the requested move and by nothing else |
| ArrowProofs.DrawIsAsRequestedIff | internal/tmpl/view.html:1606-1609 | Dragging out an arrow, which corrects nothing first, leaves its start in place if and only if no drag is pending |
| ArrowProofs.ReloadIsSync | internal/tmpl/view.html:1304-1343 | Serialising and rebuilding an arrow, even in the middle of a drag, gives the arrow that correcting it gives, and serialises to the same again |
| ArrowProofs.BoxFollowsArrow | internal/tmpl/view.html:1232-1236 | Between corrections too, left and top are the corner of the box of the arrow seen |
| AnnotationArrow.ArrowObject.constructor | internal/tmpl/view.html:1177-1185 | A new arrow holds the given endpoints with its geometry up to date |
| AnnotationArrow.ArrowObject.SyncTranslation | internal/tmpl/view.html:1222-1231 | The stored endpoints become those seen, and the reference the current corner |
| AnnotationArrow.ArrowObject.UpdateGeometry | internal/tmpl/view.html:1237-1248 | Corner, size and reference become those of the stored endpoints' box |
| AnnotationArrow.ArrowObject.ToObject | internal/tmpl/view.html:1308-1318 | The arrow seen is what is serialised, and the object is left alone |
| AnnotationArrow.ArrowObject.MoveStartTo | internal/tmpl/view.html:1364-1375 | The model's step for the handle at the start |
| AnnotationArrow.ArrowObject.MoveEndTo | internal/tmpl/view.html:1364-1375 | The model's step for the handle at the end |
| AnnotationArrow.ArrowObject.ApplyStroke | internal/tmpl/view.html:1469-1475 | The model's step for a new stroke width |
| AnnotationArrow.ArrowObject.ContainsPoint | internal/tmpl/view.html:1288-1302 | Answers whether the point, taken back through the viewport unless it is absolute, is on the arrow seen, also in the middle of a drag, and corrects the endpoints |
| AnnotationArrow.FromObject | internal/tmpl/view.html:1339-1343 | The rebuilt arrow is seen where the serialised one was, with the same box |
| RateLimitProofs.DecisionsMatchReference | internal/ratelimit/ratelimit.go:74-131 | Every decision of any run equals the one taken from the complete log of admitted times, with no pruning and no eviction |
| RateLimitProofs.NewLimiterMatchesReference | internal/ratelimit/ratelimit.go:34-41 | In particular from a new limiter |
| RateLimitProofs.HandledAgrees | internal/ratelimit/ratelimit.go:79-98 | One request is decided as from the full log, and the pruned lists go on agreeing with it |
| RateLimitProofs.IdleIsForgettable | internal/ratelimit/ratelimit.go:119-131 | An evicted entry would have told later requests nothing |
| RateLimitProofs.EvictedExactly | internal/ratelimit/ratelimit.go:119-131 | An entry is evicted if and only if no request of the address was admitted in the last closed minute |
| RateLimitProofs.JanitorKeepsActive | internal/ratelimit/ratelimit.go:119-131 | After a sweep exactly the addresses with such a request are left, with their lists as they were |
| RateLimitProofs.NoWindowExceedsItsLimit | internal/ratelimit/ratelimit.go:74-107 | For any run, address and instant, at most the positive limits are admitted in the closed second and minute that end there |
| RateLimitProofs.WindowBound | internal/ratelimit/ratelimit.go:83-98 | A log each time of which was admitted under the limit keeps to it in every window, wherever it ends |
| RateLimitProofs.DeniedOnlyWhenFull | internal/ratelimit/ratelimit.go:83-94 | A request is denied if and only if admitting it would overfill some window |
| RateLimiter.PruneOlderThan | internal/ratelimit/ratelimit.go:101-108 | What is left starts at the first time not before the cutoff, and only times before it were dropped |
| RateLimiter.IpState.Admit | internal/ratelimit/ratelimit.go:79-98 | Decision and new lists are those of the model |
| RateLimiter.MemLimiter.State | internal/ratelimit/ratelimit.go:57-72 | The address's state, created if missing, with all others untouched |
| RateLimiter.MemLimiter.Allow | internal/ratelimit/ratelimit.go:74-99 | The model's request step, for this address alone |
| RateLimiter.MemLimiter.EvictIdle | internal/ratelimit/ratelimit.go:119-131 | Exactly the idle addresses are dropped, in whatever order they are visited |
| RateLimitRace.RaceIsAtomic | internal/ratelimit/ratelimit.go:74-77 | When no request locks a state evicted meanwhile, the decisions are those of the atomic limiter, whatever else is interleaved between fetching and locking |
| RateLimitRace.RaceKeepsWindows | internal/ratelimit/ratelimit.go:74-99 | So then every window keeps to its limit |
| RateLimitRace.EachStateKeepsItsLimits | internal/ratelimit/ratelimit.go:74-99 | Whatever the races, at most the limit is admitted through one state object in any window |
| RateLimitRace.OrphanExceedsLimit | internal/ratelimit/ratelimit.go:74-77 | A concrete interleaving in which an eviction between fetch and lock lets a minute hold two requests of one address at a limit of one |
| RateLimitOrphans.OverfillsIff | internal/ratelimit/ratelimit.go:74-99 | While what the map holds for an address is in step with its log, requests alone can exceed one of its limits if and only if some thread holds a state of it that is no longer in the map |
| RateLimitOrphans.RunOverfillsIff | internal/ratelimit/ratelimit.go:74-131 | The same after every run of fetches, locks and sweeps from a new limiter whose requests of the address locked current states; until then all its windows keep to the limits |
| RateLimitOrphans.OrphanOverfills | internal/ratelimit/ratelimit.go:74-77 | From any memory with such a thread, the requests that exceed the limit |
| RateLimitOrphans.AddressBound | internal/ratelimit/ratelimit.go:74-99 | In every run, a window of an address holds at most its limit times the number of states ever made for it |
| RateLimitOrphans.IpLogIsAdmitted | internal/ratelimit/ratelimit.go:96-98 | The log of one address used there is the one the decisions taken make up |
| Png.ThumbnailSize | internal/storage/storage.go:250-271 | For every source size the thumbnail is within the bound and the source, its longer side exact, its shorter one the exact quotient less a fraction of a pixel or clamped to 1 |
| Png.ScalingTwice | internal/storage/storage.go:250-257 | A thumbnail scaled again stays as it is |
| Png.NoOverflow | internal/storage/storage.go:238-248 | For every accepted header all products of the size computation fit in 32 bits, and the sides lie in 1..320 |
| Png.BigEndianReads | internal/storage/storage.go:242-243 | Four bytes, the highest first, are read as the number they were written for |
| Png.AcceptedSizes | internal/storage/storage.go:238-248 | Data with the signature and a size of w x h in its header is accepted if and only if neither side is above 20000 and the product not above 40 million, and else is too large |
| Png.RefusedData | internal/storage/storage.go:230-241 | Data is no PNG if and only if it is shorter than 24 bytes or does not start with the signature; all other data is a header of some size |
| Png.ThumbnailsAreSmall | internal/storage/storage.go:250-271 | No side of a thumbnail is above 320 pixels; an image that fits keeps its size, any other gets one side of exactly 320 |
| StorageModel.WriteStep | internal/storage/storage.go:110-133 | Every step of a write, succeeding or failing, keeps to its stage: what it owns is complete and what is served is what that stage allows |
| StorageModel.StepFrame | internal/storage/storage.go:110-214 | A step changes only files the operation owns, one new temporary file, and what is served for its id |
| StorageModel.StepKeepsOthers | internal/storage/storage.go:222-228 | Nothing served for another id changes |
| StorageModel.IsTempIff | internal/storage/storage.go:153-155 | The names taken for temporary ones are exactly those of a dot, anything, and `.tmp` |
| StorageModel.StepStaysBesideTarget | internal/storage/storage.go:103-133 | At every step of a write its temporary files are in the directories of the files they become |
| StorageRuns.NextInv | internal/storage/storage.go:57-214 | Every event of any number of interleaved writes and deletes, crashes and restarts keeps the store's invariant |
| StorageRuns.FilesAreAlwaysComplete | internal/storage/storage.go:103-133 | In every reachable state each image or thumbnail path is absent or holds the complete bytes of one accepted, decodable image of that id or of its thumbnail, and decodes in flight never exceed the semaphore |
| StorageLeaks.NoTempSurvives | internal/storage/storage.go:110-186 | While the server is up and every operation has returned, the temporary files are exactly those whose removal failed since it started |
| StorageRuns.RestartClears | internal/storage/storage.go:57-68 | After a crash the server comes up if and only if it can remove every temporary file it finds, and then none is left; what is served is untouched either way |
| StorageModel.SweepClears | internal/storage/storage.go:188-203 | Removing what the pattern matches, up to the first failure: success if and only if no removal fails, then no temporary file is left, and nothing else changes |
| StorageSerial.SerialWriteKeepsPair | internal/storage/storage.go:110-133 | From the begin of a write until another operation on its id, image and thumbnail are (old, old), (new, old) or (new, new), through failures of anything and crashes |
| StorageCrash.WriteShowsExactly | internal/storage/storage.go:103-133 | Which of the three it is, at any moment: the old pair until the image is renamed, then the new image, and the new thumbnail from its rename on, through failures, crashes and restarts |
| StorageSerial.OwnAdvance | internal/storage/storage.go:126-132 | When such a write returns, success means both are new and failure that both are old or only the image is new |
| StorageSerial.BeginsAlone | internal/storage/storage.go:110-115 | A write that begins while nothing else works on its id is such a writer |
| StorageSolo.RunWrite | internal/storage/storage.go:110-133 | A write ends with both files new, or reports failure and leaves both old or only the image new |
| StorageSolo.FailedWriteChangesNothingIff | internal/storage/storage.go:103-133 | A failed write leaves image and thumbnail as they were if and only if it was not the thumbnail's rename that failed after all calls before it, or the image was the same; else the image is new and the thumbnail old |
| StorageSolo.SecondRenameFailsIff | internal/storage/storage.go:111-131 | The second rename is reached and fails exactly when the data decodes, both temporary files are created and filled, the first rename succeeds and the next call fails |
| StorageSolo.FailedWriteLeavesNewImage | internal/storage/storage.go:126-131 | A write with one failing call that reports failure and leaves a new image beside the old thumbnail |
| StorageSolo.RunDelete | internal/storage/storage.go:205-214 | A delete ends with both files gone, or reports failure and leaves both or only the thumbnail |
| StorageSolo.SmoothRun | internal/storage/storage.go:110-151 | Without I/O errors a write fails only for data that does not decode, and then changes nothing |
| StorageSolo.SmoothRunLeavesNoTemp | internal/storage/storage.go:115-124 | And it removes every temporary file it made |
| Storage.Open | internal/storage/storage.go:57-68 | A store of exactly the files that are not temporary if and only if the directories can be made and listed and all other files removed; else an error, with nothing but temporary files gone |
| Storage.Store.RemoveStaleTemps | internal/storage/storage.go:188-203 | Files that match the pattern are removed up to the first that cannot be; on success none is left, and no other file changes |
| Storage.Store.WriteTemp | internal/storage/storage.go:157-186 | A complete temporary file, or none unless its removal failed too |
| Storage.Store.WriteThumbTemp | internal/storage/storage.go:135-151 | The first half of a write, up to a complete thumbnail in a temporary file |
| Storage.Store.Write | internal/storage/storage.go:103-133 | Files and result are those of the model's run of a write |
| Storage.Store.SaveNew | internal/storage/storage.go:79-88 | Refused without a change if the image file exists, else a write |
| Storage.Store.Save | internal/storage/storage.go:90-101 | Each kind of bad input is refused with its error and no change, else a write |
| Storage.Store.Delete | internal/storage/storage.go:205-214 | Files and result are those of the model's run of a delete |
| DatabaseModel.CountsAddUp | internal/db/db.go:302-309 | Listing every user once, the image counts add up to the number of images |
| DatabaseModel.MovingAllConserves | internal/db/db.go:357-368 | Moving all images of a user keeps every id and the total, and moves exactly the number of images it had |
| DatabaseModel.MovingOneConserves | internal/db/db.go:344-355 | Moving one image changes two counts by one and no other user's images |
| DatabaseModel.MovingKeepsColumns | internal/db/db.go:344-368 | Moving one image or all of a user changes the owner of those rows and no other column or row |
| DatabaseModel.DeletingUserCascades | internal/db/db.go:402-414 | Deleting a user removes the user and exactly its rows, leaves all other users and rows as they were, and keeps every foreign key |
| DatabaseModel.DuplicateMeans | internal/db/db.go:188-200 | Of the key and the owner, a duplicate is reported if and only if the id is taken or, on SQLite, the owner is missing; the row goes in if and only if neither is the case |
| DatabaseModel.UpsertSets | internal/db/db.go:146-168 | The user gets the name and picture given, as a new user or not; no other user and no image changes |
| DatabaseModel.InsertSets | internal/db/db.go:220-240 | One row more, with the columns given, no title, and the pixel ratio given or 1 if that is not positive |
| Database.DB.UpsertUser | internal/db/db.go:146-168 | Only that user changes |
| Database.DB.InsertImage | internal/db/db.go:220-240 | One row more with a positive pixel ratio, or an error and no change |
| Database.DB.DeleteImage | internal/db/db.go:272-281 | The row goes only for its owner |
| Database.DB.AdminDeleteImage | internal/db/db.go:370-380 | The row goes, whoever owns it |
| Database.DB.ReassignImage | internal/db/db.go:344-355 | The row gets its new owner unless there is no such row or user |
| Database.DB.ReassignAllImages | internal/db/db.go:357-368 | All rows of one owner get the new one, and their number is returned |
| Database.DB.ListImageIDsByOwner | internal/db/db.go:382-400 | Exactly the owner's ids, each once |
| Database.DB.DeleteUser | internal/db/db.go:402-414 | The user and its rows go, and nothing else |
| ServerInvariants.EveryRowHasItsFiles | internal/handlers/upload.go:94-143 | After any requests, with storage failing anywhere, every row has a complete decodable image sent for that id, a complete thumbnail of one, and an existing owner |
| ServerInvariants.SmoothRunStaysInStep | internal/handlers/delete.go:36-50 | As long as no I/O error occurs, row ids, image files and thumbnail files are the same set and nothing else is on disk |
| ServerInvariants.FailedUploadAddsNothing | internal/handlers/upload.go:131-143 | An upload that does not succeed leaves the image rows as they were |
| ServerInvariants.UploadAddsItsImage | internal/handlers/upload.go:97-147 | One that succeeds adds one row of the caller, under a new id, that shows exactly what was sent |
| ServerInvariants.RowsChangeHands | internal/handlers/delete.go:21-47 | Without an admin request a row is removed only by its owner, and never changed |
| ServerInvariants.OwnersKeepTheirRows | internal/handlers/delete.go:31-34 | The same over whole runs |
| ServerInvariants.FilesChangeForOwner | internal/handlers/annotate.go:34-42 | Without an admin request the files of a row change only for its owner |
| ServerInvariants.CountsAlwaysAddUp | internal/db/migrations/000003_nullable_source_url.up.sql:3 | After any run the users' image counts add up to the number of images |
| ServerOutcomes.AnnotateReplies | internal/handlers/annotate.go:24-57 | 404, 403 and 400 each if and only if there is no such row, it is another's, or the data is no PNG or too large; when nothing fails and the data is valid, 200 if and only if it decodes |
| ServerOutcomes.AnnotateDoes | internal/handlers/annotate.go:34-57 | With 200 the owner's image and thumbnail are those of the data sent; else nothing changed, but that a 500 leaves the new image exactly if the thumbnail's rename was the call that failed; rows and other files never change |
| ServerOutcomes.DeleteDoes | internal/handlers/delete.go:21-51 | 200 if and only if the row exists and is the caller's, and then row and files are gone and nothing else; a file stays only if its removal failed; with 404 and 403 nothing happens |
| ServerOutcomes.AdminDeleteImageDoes | internal/handlers/admin.go:153-172 | The same for an admin, whoever owns the row |
| ServerOutcomes.AdminDeleteUserDoes | internal/handlers/admin.go:121-149 | 200 if and only if there is such a user, and then the user, exactly its rows and their files are gone |
| ServerOutcomes.AdminReassignImageDoes | internal/handlers/admin.go:176-210 | The exact conditions of 400, 422, 404 and 200; with 200 the one row has the named owner and nothing else differs |
| ServerOutcomes.AdminReassignAllDoes | internal/handlers/admin.go:214-244 | The exact conditions of 400, 422 and 200; with 200 the rows of the one user are the other's and nothing else differs |
| ServerOutcomes.UploadDoes | internal/handlers/upload.go:63-147 | 400 if and only if the data is no PNG or too large, and then nothing happens; 200 only with one row of the values sent under the first free id tried, whose files show the data; 500 leaves the rows as they were |
| ServerOutcomes.UploadSucceedsIff | internal/handlers/upload.go:63-147 | When no I/O error occurs and no file lies without a row, 200 if and only if the data is valid and decodes and one of the ids tried is free |
| ServerOutcomes.UploadSparesOrphans | internal/storage/storage.go:83-88 | An image file without a row is never overwritten: the upload that meets it ends in 500 and writes nothing |
| ServerOutcomes.FreeIdIsFirst | internal/handlers/upload.go:97-129 | The id inserted is the first one tried that no row has, and there is none only if all of them are taken |
| ServerOutcomes.SignInDoes | internal/db/db.go:146-168 | Signing in records the user and changes nothing else |
| Server.Handlers.InsertWithRetry | internal/handlers/upload.go:97-129 | The first of at most three candidates that can be inserted is, and only a duplicate leads to another try |
| Server.Handlers.Upload | internal/handlers/upload.go:63-147 | Status, rows and files are those of the model's upload step |
| Server.Handlers.Delete | internal/handlers/delete.go:21-51 | Those of its delete step |
| Server.Handlers.Annotate | internal/handlers/annotate.go:24-57 | Those of its annotate step |
| Server.Handlers.AdminDeleteUser | internal/handlers/admin.go:121-149 | Those of its step, for the ids listed before the cascade |
| Server.Handlers.AdminDeleteImage | internal/handlers/admin.go:153-172 | Those of its step |
| Server.Handlers.AdminReassignImage | internal/handlers/admin.go:176-210 | Those of its step |
| Server.Handlers.AdminReassignAll | internal/handlers/admin.go:214-244 | Those of its step, with the number of images the user had |
| LikePattern.EscapedIsSubstring | internal/db/db.go:294-297 | For every lowered search without a backslash, LIKE with the escaped search between two % is substring search |
| UserSearch.PatternIsSubstring | internal/db/db.go:293-297 | For every search without a backslash the texts found are those that, lowered by the database, contain the search lowered by the program |
| UserSearch.SearchIsSubstringIff | internal/db/db.go:289-309 | On all texts that is substring search by the database's notion of case, if and only if the search has no backslash and program and database lower its characters alike |
| UserSearch.SearchIgnoresCaseIff | internal/db/db.go:289-309 | And by the program's notion of case, if and only if it has no backslash and the database knows all cases of its characters |
| UserSearch.AccentedNameIsMissed | internal/db/db.go:295-297 | A name with an accented capital, and no backslash, that on SQLite is not found by searching for itself |
| UserSearch.BackslashGoesWrong | internal/db/db.go:294 | For every search with a backslash and either notion of case, a text on which the pattern is wrong |
| UserSearch.ListedUsersContainSearch | internal/db/db.go:297-306 | For the searches so characterised, the users listed are those whose email or name contains the search |
| SessionModel.StaysSignedIn | internal/auth/oidc.go:260-277 | When a gap and the larger of the renewal delay and what rounding loses add up to less than the lifetime in whole ticks, every request of any sequence with such gaps is served as one identity |
| SessionModel.LongGapEnds | internal/auth/jwt.go:31-35 | A gap of the lifetime or more always ends the session |
| SessionModel.EndedForGood | internal/auth/oidc.go:260-264 | A session that ended is never revived by a later request |
| SessionModel.ServedUntil | internal/auth/jwt.go:28-54 | From the moment it is set a cookie serves its identity exactly until its token's rounded expiry or the end of its age in whole ticks, whichever is first |
| SessionModel.RenewedWhenDue | internal/auth/oidc.go:260-277 | A cookie is replaced only when it is accepted and older than the delay, by one issued now for the same identity |
| SessionModel.FailedRenewalIsHarmless | internal/auth/oidc.go:265-277 | A renewal that cannot be signed leaves the request served and the cookie as it was |
| SessionModel.SafeGapsExactly | internal/auth/jwt.go:28-54 | For every lifetime, delay and clock tick, gaps are safe if and only if, added to the larger of the delay and what rounding loses, they stay below the lifetime in whole ticks, or are nothing and the lifetime is a tick or more |
| SessionModel.SafeGapsOnIdealClock | internal/auth/oidc.go:265-273 | On an ideal clock, gaps are safe if and only if shorter than the lifetime less the delay |
| Session.CookieJar.IssueSessionCookie | internal/auth/jwt.go:28-55 | The jar holds a token issued now, unless it could not be signed |
| Session.CookieJar.ParseSessionCookie | internal/auth/jwt.go:73-101 | The identity and issue time of a cookie that is still sent and accepted, and of no other |
| Session.CookieJar.Middleware | internal/auth/oidc.go:252-277 | Identity and cookie after one request are those of the model; another provider's identity is kept |
| RealIp.ExtractForwardedIP | internal/server/middleware/realip.go:66-88 | The rightmost entry that parses and is not trusted, or a single-value header if and only if there is none |
| RealIp.ExtractedIsUnique | internal/server/middleware/realip.go:66-88 | The specification admits one result only |
| RealIp.PrependingChangesNothing | internal/server/middleware/realip.go:54-63 | Whatever is prepended to the line that is read, an address once found stays the result |
| RealIp.ChainYieldsClientIff | internal/server/middleware/realip.go:54-78 | Behind trusted proxies that each extend the first line, add one or join all, the result is the address the first of them saw under exactly the stated condition on their manners and the request's own lines |
| RealIp.FirstProxyDecides | internal/server/middleware/realip.go:66-78 | When none joins, it is if and only if the first extends the line, or there was none, or the request alone gave that address |
| RealIp.JoiningYieldsClient | internal/server/middleware/realip.go:54-63 | When the first joins, it is whatever the request carried |
| RealIp.ExtractedIsResult | internal/server/middleware/realip.go:66-88 | The result depends only on the last client of the first line and on the single-value headers |
| RealIp.TrimmingIsExact | internal/server/middleware/realip.go:70 | Trimming takes the white space on both sides of an entry and nothing else |
| RealIp.SingleHeadersInOrder | internal/server/middleware/realip.go:79-88 | Without a client in the line read, True-Client-IP is the result unless it is blank, and only then X-Real-IP, both trimmed |
| RealIp.Request.TrustedRealIP | internal/server/middleware/realip.go:35-49 | The address is rewritten only for requests that come from a trusted proxy |

## Left out

- Editor: more than one page, or another program, that uploads the same image; the server's image changes only by the uploads of the one page.
- Editor: undo and redo while a text is being edited, where restoring a snapshot can end the editing and commit once more.
- Editor: multi-selections, whose effect depends on the order of Fabric's events; Fabric itself, the toolbar, the clipboard and the display of the status.
- Editor: what a rendering looks like; a blob is tagged with its revision and shows that drawing, cropped by a viewport that is a parameter.
- Editor: a server that changes the image of an upload after it has responded to it; an upload acts between its start and its response.
- AnnotationEditor.SnapshotList.Restore: replaces the canvas at once; Fabric does so in a callback, and this order is not modelled.
- AnnotationArrow.ArrowObject.ToObject: endpoints and stroke width are serialised exactly; a rounding of numbers by Fabric's serialiser is not modelled.
- AnnotationArrow.ArrowObject.ContainsPoint: the viewport scales and moves, as the page sets it; Fabric's matrices could also rotate.
- HitTest.MarginTestIsExact: compares squares of distances; `HitTest.ComparingSquares` says that this is comparing distances.
- Arrow: directions are abstract unit vectors that point from the start to the end, to the right for an arrow of no length, and the cosine of 30 degrees a positive number whose square is 3/4; arithmetic is on real numbers, so floating-point rounding is not modelled.
- Rate limiter: `RateLimiter.MemLimiter.Allow` is one atomic step; the clock does not go back from one request or eviction to a later request of the same address. `RateLimitRace` drops the atomicity.
- Rate limiter: the HTTP middleware and the janitor's ticker.
- Png: pixels, decoding and encoding; a codec says whether data decodes and to which thumbnail.
- Storage.Open: the mode of the directories and their parents; that they exist or can be made is a parameter.
- Storage: overlapping writes of one id are modelled, but which image a thumbnail then belongs to is not promised by the code; a crash is a stop between steps, so loss of data the system had synced is not modelled.
- Server: each handler is one step, so requests to one id that overlap, and a crash between inserting a row and saving its file, are not modelled. Database calls succeed.
- Server.Handlers.Upload: parsing of the form and the pixel ratio, the check of the source URL and the randomness of ids are left out; what they yield are parameters, and a generator that fails yields fewer candidates. The replies 401 and 413 are left out too.
- DatabaseModel.DuplicateMeans: other constraints that SQLite reports with the same code, such as a pixel ratio that is not a number and is stored as NULL; ratios are real numbers.
- Database: the order and paging of listings, `UpdateImage`, creation times, and the SQL engines; tables are maps with a unique key, a foreign key and its cascade.
- UserSearch: how strings.ToLower and a database's lower() change each character is a parameter; on ASCII both are the usual one, and the database leaves alone what the program has lowered. Characters are taken one by one.
- Session: signatures; a cookie is what was issued. Sign-in itself and the provider's round trip.
- RealIp: parsing of addresses and networks; a function classifies each entry. White space is that of ASCII. That the empty string is no address is a premise of the lemmas about chains.
- Configuration loading, routing, security headers, templates and preferences: single-branch behaviour.
