# Verified model of the L1 invalidation engine

Snowplow keeps resolved outputs in an L1 cache and has to know, at every moment, which cells are
stale, which must be refreshed and which may be left alone. This project models the parts of
`go/snowplow/internal/cache` that decide it, and two API path parsers from
`go/snowplow/internal/apicall`, and proves what they promise over every run.

`dafny verify dfyconfig.toml` checks the whole project.

## Layout

| files | what they model |
|---|---|
| `DepKeys`, `DepIndex` | dependency keys, the keys an event hits, the forward index and its floors |
| `ResolveProtocol`, `ResolveSafety` | resolves, events and evictions as an interleaving step system, its invariant and the lost-invalidation theorems |
| `ResolvePrecision` | the other half: nothing is scheduled, held or stored without a cause, read off the schedule |
| `ResolveSchedule` | the lost-invalidation theorems with every hypothesis told by the schedule, and that every event and resolve can finish |
| `TornWindow`, `TornWitness` | exactly when the window after a write is open, and a schedule that shows it |
| `TrackerSpec`, `DepTracker` | the dependency tracker as a value with its run theorems, and as the class that updates it in place |
| `DepWorker` | one dequeued event from the probe through the decision and the fan-out to the eviction |
| `StampRace` | bumps whose stores interleave with each other, with records and with removals |
| `ListInterest`, `EventMasks`, `NarrowRun`, `NarrowTracker` | list-interest narrowing: read sets and registry, transition masks and the decision, runs, and the in-place form |
| `NarrowAudit` | the audit of would-avoid marks |
| `DirtyWindow`, `WindowedMax` | the invalidation-to-fresh window, known-stale, and the windowed maximum |
| `BindingsIndex`, `BindingsTracker` | the incremental RBAC reverse index, by definition and in place |
| `MarkAttribution`, `MarkRecording` | the mark counters, and the tracker's fan-outs recorded in them |
| `ReconcileWalk` | the batched reconcile audit |
| `ApiPaths` | `ParsePath` and `ParseResourcePath` |

Each subsystem has the same shape: values and step functions; a reference that reads the run or the
current world without looking at the machine's own state; lemmas that the two agree after every run;
and, where the source updates in place, a class whose methods are proved to be those steps.

## Where the code differs from its comments, or from itself

- **The window after a write** (`deps.go:1599-1634`). The comment says a dependency recorded after the
  write is seen by the scan or by the re-check, never by neither. That needs the bump to be one step.
  When the check reads the sequence after an event advanced it and before that event raised its floor,
  the event is counted as checked, leaves no trace for the scan, is not newer for the re-check, and may
  have fanned out before the edge exists. `TornWindow.PostPutExactlyWhen` says exactly when;
  `TornWitness.LostInTornWindow` is such a schedule.
- **The audit never reads avoid-only spuriously** (`deps_list_interest_audit.go:31-33`). A foreign
  enqueue that consumes a token followed by a dequeue before the token's own enqueue does.
  `NarrowAudit.SpuriousExactly` says for every run exactly when, `NarrowAudit.AvoidOnlyIsGenuine` what
  rules it out, `NarrowAudit.SpuriousAvoidOnly` how any schedule may come to it.
- **Marks before a settle without an entry are irrelevant** (`deps_list_interest_audit.go:236-238`). Not
  when the key became resident and was tainted during that dequeue: `NarrowAudit.TaintStep` is exact,
  `NarrowAudit.DropWitness` the run.
- **The two path parsers** agree on every path of non-empty segments with up to two trailing slashes.
  They differ exactly when the resource segment or the one after it is empty, or from three trailing
  slashes on when nothing is named or a bare namespace is (`ApiPaths.ParsersAgreeExactly`): one of them
  then reads a collection as a named object (`ApiPaths.TrailingSlashes`), or a namespace as no resource
  (`ApiPaths.NamespaceSlashes`).
- **A transiently stale bucket** (`bindings_by_gvr_delta.go:34-39`) outlives the republish window. The
  hooks resolve against the published snapshot, which lags the event, and a publish re-resolves nothing:
  a bucket filled from old rules stays until the role, the binding or a build comes round again.
  `BindingsIndex.RunAccurate` says exactly which runs keep the index right, `BindingsIndex.StaleEnrolment`
  is one that leaves a revoked binding in a cohort after publishing.
- **A deleted role** (`bindings_by_gvr_delta.go:375-378`). The comment on the re-routing expects a deleted
  role's rules to be empty; the deletion passes the last known ones, and `BindingsIndex.GoneRoleChangesNothing`
  shows that its bindings stay in their buckets until they themselves change or a build comes round.

## Assumptions of the step systems

- Publishing a bucket with the inherited floor is one step, so is removing a key; an event's advance,
  floor, each stamp, the collection and each mark are separate steps (`ResolveProtocol`, `StampRace`).
- In the other machines one operation with its retry loop is one step. In `DirtyWindow` the sequence a
  mark reads never goes back, and dequeues of one key do not overlap.
- The resolved store is a set of resident keys, the refresher a record of when a key was scheduled, the
  informer probe a parameter. `jqinterest.Project` is what every read of a read set observes.
- The walk of a type event over the whole index visits the buckets that are there when it starts.
- In `BindingsIndex` events apply to the current objects one at a time, and a publish may put any
  snapshot in place.
- A binding's namespace holds no slash, a role reference names a role, updates and deletes are of
  bindings that exist, as the API server and the informers guarantee.

## Model

| member | source | states |
|---|---|---|
| ResolveSafety.NoLostInvalidation | go/snowplow/internal/cache/deps.go:1579-1634 | For every interleaving of any number of resolves, events and store removals: once an event has fanned out, a key whose dependency was recorded before its write check, and which read before the event's data was visible, has been scheduled after both its write and the event, unless it left the store. |
| ResolveSafety.PostPutWindowClosed | go/snowplow/internal/cache/deps.go:1636-1663 | A dependency declared in the sink but recorded only after the check began is covered by the check, the re-check or the fan-out, except for an event the check saw half bumped and whose fan-out had passed the bucket. |
| ResolveSafety.PostPutWindowClosedAtomic | go/snowplow/internal/cache/deps.go:1636-1663 | With advance, floor and stamps taken as one step the window after the write is closed outright. |
| ResolveSafety.AtomicBumpsNeverTorn | go/snowplow/internal/cache/deps.go:1274-1294 | Checks that run only between bumps never count an event they saw no trace of. |
| TornWindow.PostPutExactlyWhen | go/snowplow/internal/cache/deps.go:1599-1634 | For one late-recorded dependency and one event on it: the key is scheduled after the write if and only if the event was not counted by the check before it left a trace, with its fan-out already past the bucket. |
| TornWitness.LostInTornWindow | go/snowplow/internal/cache/deps.go:1599-1634 | A concrete schedule, step by step, in which such an event schedules nothing although the key stays resident. |
| ResolveSafety.InvStep | go/snowplow/internal/cache/deps.go:1127-1172 | Every step of the protocol keeps the invariant that ties stamps, floors, edges, scans and marks together. |
| ResolvePrecision.QuietCheck | go/snowplow/internal/cache/deps.go:1579-1634 | The check re-marks nothing idly: over every schedule, when no event on the GVR of a dependency in a resolve's sink took its sequence number since the resolve began (for a reused dependency, since its producer did), no scan, check end or re-check of that resolve schedules anything. A check counted from anything earlier than the entry sequence fails it. |
| ResolvePrecision.ScheduledForCause | go/snowplow/internal/cache/deps.go:1665-1693 | Whenever any step schedules a key, the key is resident and the step is that of a resolve of the key with a disturbed dependency, or of an event that walked a bucket it hits while the key's edge was in it. |
| ResolvePrecision.EdgeExactly | go/snowplow/internal/cache/deps.go:1197-1230 | In every reachable state of the interleaving an edge is held if and only if a record or a write put it in place and its key neither left the store nor was stripped since. |
| ResolvePrecision.ResidentExactly | go/snowplow/internal/cache/resolved.go:3602-3640 | A key is resident if and only if a resolve of it stored and it did not leave since. |
| ResolveSchedule.NothingLost | go/snowplow/internal/cache/deps.go:1579-1634 | The lost-invalidation theorem with every hypothesis a position in the schedule: a resolve read a dependency, had it admitted, wrote and ended its check; an event that hits it appeared after the read and has no move left; the key stayed. Then the key is resident and was scheduled after both the write and the event. |
| ResolveSchedule.WindowClosed | go/snowplow/internal/cache/deps.go:1636-1663 | The same for a dependency named before the check whose edge came and was re-checked only after it began, when checks look between bumps or the event is not a missed one. |
| ResolveSchedule.ReadExactly | go/snowplow/internal/cache/deps.go:675-685 | The read times the theorems speak of are the positions of the first reads, through any chain of reuse. |
| ResolveSchedule.EventFinishes | go/snowplow/internal/cache/deps.go:2089-2205 | From any state an event can run out of moves by its own steps, so the hypothesis that it has is never empty. |
| ResolveSchedule.ResolveFinishes | go/snowplow/internal/cache/deps.go:1579-1634 | And a resolve can write and end its check by its own. |
| DepKeys.CoordinateBuckets | go/snowplow/internal/cache/deps.go:1300-1318 | The buckets an object event stamps are exactly the dependency keys it hits, at most four, exact forms before list forms. |
| DepKeys.HitsMeaning | go/snowplow/internal/cache/deps.go:1300-1318 | What an event hits, in fields and literals: the GVR, the namespace or the cluster, the name or the list; for a type every key of the GVR, or its lists. |
| TrackerSpec.RunAgrees | go/snowplow/internal/cache/deps.go:1162-1264 | After every run of records, removals and events the two indexes hold the same edges, nothing empty is kept, the totals count what is held and the cap bounds it. |
| TrackerSpec.RecordAgrees | go/snowplow/internal/cache/deps.go:1197-1230 | A record keeps agreement; one the cap refuses leaves both indexes as they were; any other leaves the edge in place. |
| TrackerSpec.RecordAdmits | go/snowplow/internal/cache/deps.go:1204-1230 | The cap is the only thing that refuses: afterwards the edges are those before and, while fewer than the cap were held, the recorded pair; a drop is counted if and only if the pair was missing and the held edges had reached the cap. |
| TrackerSpec.HeldExactly | go/snowplow/internal/cache/deps.go:1162-1264 | Over every run and any cap a pair is held if and only if some record of it found fewer held edges than the cap and its key was not removed since. |
| TrackerSpec.HeldUncapped | go/snowplow/internal/cache/deps.go:1162-1264 | With a cap the run cannot reach: held if and only if a record came after every removal of the key. |
| TrackerSpec.RemoveAgrees | go/snowplow/internal/cache/deps.go:2684-2724 | A removal keeps agreement, leaves no trace of its key and touches no other edge. |
| TrackerSpec.MoveTestNeverForgets | go/snowplow/internal/cache/deps.go:1688-1693 | A dependency reads as moved since every sequence below any event that hit it, even after its bucket was pruned and created again, and never since a sequence at or above the newest event of its GVR. |
| TrackerSpec.MovedExactly | go/snowplow/internal/cache/deps.go:1688-1693 | Over every run a dependency reads as moved since exactly the last event that hit it, except that while no key held it every event on its GVR counts. |
| TrackerSpec.ContentStampSafe | go/snowplow/internal/cache/content_stamp.go:81-104 | A covered content cell, read at asOf, has seen every event on its coordinate and every type event on its GVR up to the needed sequence. |
| TrackerSpec.ContentStampRefusal | go/snowplow/internal/cache/content_stamp.go:81-104 | A refusal is never idle: the cell's sequence is unknown, or its GVR had an event after it. |
| TrackerSpec.ContentStampExactly | go/snowplow/internal/cache/content_stamp.go:81-104 | Over every run a content cell is covered if and only if its read is known and either reaches the needed sequence or saw the last move of its coordinate and every type event on its GVR. |
| StampRace.FinishedBumpIsSeen | go/snowplow/internal/cache/deps.go:1501-1545 | With the stores of several bumps interleaved with records and removals: a finished bump is seen by the move test for every lower sequence, and nothing is seen at or above every bump of the GVR. |
| StampRace.StampHasCause | go/snowplow/internal/cache/deps.go:1501-1545 | A bucket moves only with cause: its stamp was left by a bump that hits it, or by the floor when a record created it, and the bucket has been there since. |
| StampRace.BumpFinishes | go/snowplow/internal/cache/deps.go:1274-1294 | Every bump can finish by its own stores. |
| StampRace.CoveredSawFinished | go/snowplow/internal/cache/content_stamp.go:81-104 | Under the same interleaving a covered content cell has seen every finished event it must reflect up to the needed sequence. |
| DepTrackers.DepTracker.Record | go/snowplow/internal/cache/deps.go:1163-1264 | The in-place record, with its rolled-back edge and pruned phantom bucket at the cap, is the record operation on the two indexes; the pair is held afterwards if and only if it was before or the total was below the cap, and dropped grows in the other case only. |
| DepTrackers.DepTracker.RemoveL1Key | go/snowplow/internal/cache/deps.go:2684-2724 | The edge-by-edge removal is the removal operation on the two indexes and keeps them in agreement. |
| DepTrackers.DepTracker.Bump | go/snowplow/internal/cache/deps.go:1274-1294 | Both bump walks raise the floor and stamp exactly the buckets the event hits. |
| DepTrackers.DepTracker.CollectForMark | go/snowplow/internal/cache/deps.go:2482-2531 | The matches of an object event are the keys of the hit buckets, each list-only exactly when no exact bucket reaches it. |
| DepTrackers.DepTracker.CollectTypeMatches | go/snowplow/internal/cache/deps.go:2410-2432 | The matches of a type event, with the same precedence. |
| DepTrackers.DepTracker.OnObjectEvent | go/snowplow/internal/cache/deps.go:2094-2170 | After the bump: a key is evicted if and only if the object is absent, the key's input has its GVR, namespace and name, and a dependency in reach of the event leads to it; everything else in reach is marked; list marks are those reached through lists alone, self marks those of the object's own coordinate reached exactly; though the own object is probed only where the answer is read. |
| DepTrackers.DepTracker.OnResourceType | go/snowplow/internal/cache/deps.go:2310-2344 | A type event reaches exactly the keys with a dependency on the GVR, list dependencies only when the type becomes available, and says of each whether lists alone lead to it. |
| DepTrackers.DepTracker.EvictBatch | go/snowplow/internal/cache/deps.go:2537-2560 | The eviction batch strips every edge of the evicted keys and no other. |
| DepTrackers.FanOutPartition | go/snowplow/internal/cache/deps.go:2145-2170 | Evicted, self, list and exact keys cover the matches without overlap; a gone object marks no self, a present one evicts nothing. |
| DepTrackers.FanOutMeaning | go/snowplow/internal/cache/deps.go:2264-2278 | The parts of a fan-out in edges, coordinates and literals: representing the object is having its GVR, namespace and name. |
| DepTrackers.TypeReach | go/snowplow/internal/cache/deps.go:2410-2432 | What a type event reaches, in the same terms. |
| DepWorkers.HandleEvent | go/snowplow/internal/cache/deps_watch.go:404-470 | One event end to end. Only a probe that finds the object gone evicts, and it evicts every entry in reach that represents it, from the store and from the index, and nothing else; an unknown object within its five requeues touches neither, past them it marks and evicts nothing; everything else in reach is marked. |
| DepWorkers.AvoidedListMark | go/snowplow/internal/cache/deps.go:2145-2170 | A list mark of the tracker's fan-out is avoided if and only if the object was found and every dependency through which the event reached the key is narrowed to reads no transition taken with the event changed. |
| DepTrackers.TallyOne | go/snowplow/internal/cache/deps.go:2107-2152 | Each walked match is added to exactly the one part its fate names. |
| ListInterest.ProjectUnion | go/snowplow/internal/cache/jqinterest/path.go:172-181 | Equal projections on a union of read sets are equal projections on each part, and conversely. |
| ListInterest.ProjectedReads | go/snowplow/internal/cache/jqinterest/path.go:172-181 | Two items project equally on a read set if and only if every read finds the same text in both, finding nothing being one of the texts. |
| ListInterest.InternOk | go/snowplow/internal/cache/deps_list_interest.go:506-525 | Interning keeps the registry append-only, its generations counted, ids distinct and the process-wide bound. |
| ListInterest.InternAnswers | go/snowplow/internal/cache/deps_list_interest.go:506-525 | A commit is answered with the interest of exactly its read set; with none if and only if the set is new and 4096 are registered. |
| ListInterest.EdgeClimbs | go/snowplow/internal/cache/deps_list_interest.go:288-318 | No record, commit or widening takes an edge down, and a narrowed edge observes every read just committed. |
| EventMasks.CoalescedJoin | go/snowplow/internal/cache/deps_watch.go:223-241 | Merging the masks of two runs of transitions, either into the other, is the mask of their concatenation. |
| EventMasks.CoalescedMeaning | go/snowplow/internal/cache/deps_list_interest.go:552-567 | A coalesced mask is undecided, or a membership change, or names a changed interest, if and only if one of its transitions was, and its generation is that of the transition evaluated earliest. |
| EventMasks.ClearsAll | go/snowplow/internal/cache/deps_list_interest.go:583-613 | A coalesced mask clears an interest exactly when every merged transition was a decodable update evaluated after its registration that left its projection unchanged. |
| EventMasks.AvoidsMeaning | go/snowplow/internal/cache/deps_list_interest.go:670-745 | A mark is avoided exactly when the key has list edges in reach, all narrowed, the object was found and the mask clears each of their interests. |
| EventMasks.DecidesMeaning | go/snowplow/internal/cache/deps_list_interest.go:670-745 | The reason decided, in the order of the checks: with a narrowed edge in reach degraded, no mask, undecided, membership, late; then what the edges keep it for; then a changed read; else avoided. |
| NarrowRun.RunRegistry | go/snowplow/internal/cache/deps_list_interest.go:506-525 | After every run the registry is well formed and within its bound. |
| NarrowRun.RunMasks | go/snowplow/internal/cache/deps_watch.go:404-470 | After every run the pending and the taken mask of a coordinate are the coalesced masks of the transitions it still owes, through requeues and lost processings. |
| NarrowRun.RequeuesExactly | go/snowplow/internal/cache/deps_watch.go:438-446 | Over every run the requeue budget is the number of give-backs since the coordinate's last decision, five at most. |
| NarrowRun.OwedAfterProbe | go/snowplow/internal/cache/deps_watch.go:421-470 | What is owed goes back to waiting, ahead of what came meanwhile, exactly while an unknown probe is within the budget; any other probe consumes it. |
| NarrowRun.RunEdges | go/snowplow/internal/cache/deps_list_interest.go:182-192 | Every edge is what it was told since it was created. A list edge is narrowed to exactly the union of what was committed or replayed onto it, pending before any, and, unless it began plain, all if and only if it was recorded plainly, widened, or some commit's union was refused by a full registry; any other edge is sticky for good. |
| NarrowRun.EdgeOnlyWidens | go/snowplow/internal/cache/deps_list_interest.go:288-318 | For the life of an edge its interest only climbs: pending, narrowed, larger read sets, all. |
| NarrowRun.AvoidedExactly | go/snowplow/internal/cache/deps_list_interest.go:670-745 | After any run a mark is classified avoided exactly when every list edge in reach is narrowed, the object was found, and every transition taken with the event spared each edge's interest. |
| NarrowRun.AvoidedIsSound | go/snowplow/internal/cache/deps_list_interest.go:670-745 | When a mark is avoided no read set ever committed to an edge in reach tells the object before the first coalesced transition from the one after the last. |
| NarrowTrackers.NarrowDecide | go/snowplow/internal/cache/deps_list_interest.go:670-745 | The loop over the list edges and the probe and mask checks return the lowest reason that applies. |
| NarrowTrackers.WalkEdges | go/snowplow/internal/cache/deps_list_interest.go:687-714 | What the edges alone decide, and exactly the interests of the narrowed ones. |
| NarrowTrackers.NarrowTracker.UpdateMask | go/snowplow/internal/cache/deps_list_interest.go:583-613 | The loop over the registered interests computes the mask of the transition. |
| NarrowTrackers.NarrowTracker.CommitReads | go/snowplow/internal/cache/deps_list_interest.go:288-318 | A commit nothing interferes with is the commit step, and says narrowed exactly when the edge ends narrowed. |
| NarrowRun.CommitAtSwap | go/snowplow/internal/cache/deps_list_interest.go:294-318 | Whatever runs between a commit's load, its intern and its swap, a swap that finds the edge as it was loaded is the whole commit as one step at the swap. |
| NarrowTrackers.NarrowTracker.SwapCommitted | go/snowplow/internal/cache/deps_list_interest.go:311-318 | The in-place swap of an interned commit wins exactly when the edge is as it was loaded, and is then the commit step; a lost one changes nothing. |
| NarrowTrackers.NarrowTracker.ClassifyMark | go/snowplow/internal/cache/deps_list_interest.go:670-745 | Classifying a mark in place during a run answers avoided exactly when every list edge in reach is narrowed, the object was found, and every transition taken with the event spared each edge's interest. |
| NarrowTrackers.NarrowTracker.InternReads | go/snowplow/internal/cache/deps_list_interest.go:506-525 | The in-place intern is the intern step. |
| NarrowTrackers.NarrowTracker.ReplayListEdge | go/snowplow/internal/cache/deps_list_interest.go:418-433 | The in-place replay is the replay step. |
| NarrowTrackers.NarrowTracker.HandleDepEvent | go/snowplow/internal/cache/deps_watch.go:404-470 | One processing is the take and the process step: a found object is decided exists, a gone one absent, an unknown one is given back with its mask until it was requeued five times and is then decided degraded; every decision takes the mask and clears the count. |
| NarrowAudit.RunConserved | go/snowplow/internal/cache/deps_list_interest_audit.go:204-281 | After every run the avoid-only refreshes taken are the identical, changed, no-prior and unaudited ones plus the open dequeues still without a verdict. |
| NarrowAudit.RunCounts | go/snowplow/internal/cache/deps_list_interest_audit.go:204-281 | Over every run each of the four counters is the number of verdicts of its kind that the schedule's writes and settles give. |
| NarrowAudit.OpenExactly | go/snowplow/internal/cache/deps_list_interest_audit.go:204-281 | The open dequeue, and whether a write of it was stored, read off the schedule. |
| NarrowAudit.TaintStep | go/snowplow/internal/cache/deps_list_interest_audit.go:218-239 | A step keeps an owed taint held if and only if it is not a settle that found no entry and wrote nothing for a key that has become resident and tainted since. |
| NarrowAudit.RunHolds | go/snowplow/internal/cache/deps_list_interest_audit.go:85-149 | A run without such a settle keeps every taint of a resident key in its cell or in the open dequeue. |
| NarrowAudit.DropWitness | go/snowplow/internal/cache/deps_list_interest_audit.go:218-239 | A four-step run that loses a taint of a resident key. |
| NarrowAudit.SpuriousExactly | go/snowplow/internal/cache/deps_list_interest_audit.go:91-137 | After any run, an open refresh is counted avoid-only although it covers another mark's enqueue if and only if, since the pair was last consumed, some enqueue was foreign, some was avoided and every one of them met a token. |
| NarrowAudit.RunScheduled | go/snowplow/internal/cache/deps_list_interest_audit.go:91-137 | After every run the cell and the open snapshot are those of the token level and the enqueues read off the schedule alone. |
| NarrowAudit.AvoidOnlyIsGenuine | go/snowplow/internal/cache/deps_list_interest_audit.go:91-137 | When every token a foreign enqueue took was missed by its own enqueue before the dequeue, an avoid-only refresh covers avoided marks only. |
| NarrowAudit.SpuriousAvoidOnly | go/snowplow/internal/cache/deps_list_interest_audit.go:91-137 | Every schedule without an open dequeue, and without an enqueue that met no token since the last, can go on to a spurious avoid-only refresh: a token, a foreign enqueue, a dequeue. |
| NarrowAudit.SpuriousWitness | go/snowplow/internal/cache/deps_list_interest_audit.go:91-137 | The shortest such run: three operations. |
| NarrowAudit.NarrowAuditor.NarrowAuditSettle | go/snowplow/internal/cache/deps_list_interest_audit.go:218-239 | The in-place settle is the settle step. |
| NarrowAudit.NarrowAuditor.NoteWrite | go/snowplow/internal/cache/deps_list_interest_audit.go:245-281 | The in-place write note is the write step: the first stored write of an avoid-only refresh counts no prior, identical or changed by the bytes, anything else counts nothing. |
| DirtyWindow.WindowExactly | go/snowplow/internal/cache/dirty_window.go:193-294 | After every run the stamp exists exactly when some mark is not covered, its t0 is the earliest such mark, its sequence the latest mark's, in flight exactly while a dequeue owns it, known-stale exactly while a failure stands. |
| DirtyWindow.CutMeaning | go/snowplow/internal/cache/dirty_window.go:256-294 | Every eviction, every dequeue settled closed and every closing Put covers the marks before it. |
| DirtyWindow.CutAttained | go/snowplow/internal/cache/dirty_window.go:256-294 | Nothing else covers a mark. |
| DirtyWindow.BeganMeaning | go/snowplow/internal/cache/dirty_window.go:221-232 | A dequeue owns the window exactly when it found an open one and neither a settle nor an eviction came since. |
| DirtyWindow.OvertakenSettle | go/snowplow/internal/cache/dirty_window.go:256-268 | A settle whose dequeue an eviction overtook changes no window, however new. |
| DirtyWindow.KnownStaleExactly | go/snowplow/internal/cache/known_stale.go:603-641 | Known-stale is exactly that the latest settled refresh failed for this reason and no accepted Put and no eviction came since. |
| DirtyWindow.DirtyWindows.MarkDirty | go/snowplow/internal/cache/dirty_window.go:193-216 | The in-place mark is the mark step. |
| DirtyWindow.DirtyWindows.SettleWindow | go/snowplow/internal/cache/dirty_window.go:256-294 | The in-place settle is the settle step, and says gone exactly when the stamp is not its own. |
| DirtyWindow.DirtyWindows.WindowUnfresh | go/snowplow/internal/cache/dirty_window.go:332-358 | An unfresh end in fields: remarked keeps the window from its earliest mark, evicted closes it or re-opens it from the first mark since, declined and dropped leave it known-stale for the given reason or their own; someone else's stamp is left alone; counted once, as evicted when an eviction removed the window. |
| DirtyWindow.DirtyWindows.SettleDequeue | go/snowplow/internal/cache/refresher.go:1441-1460 | How a dequeue without an error ends: only an accepted write that was not remarked is a sample, a remarked one keeps the window, a refused one or a missing entry ends it, no write leaves the cell known-stale as declined. |
| DirtyWindow.DirtyWindows.EvictDirtyWindow | go/snowplow/internal/cache/dirty_window.go:371-389 | An eviction removes the window, counted only when no dequeue and no failure accounts for it. |
| DirtyWindow.DirtyWindows.EndKnownStaleOnPut | go/snowplow/internal/cache/known_stale.go:603-641 | An accepted Put with a start sequence ends known-stale windows only: it clears, closes or re-opens them as an ordinary window, and says which; one without changes nothing. |
| WindowedMaximum.Coverage | go/snowplow/internal/cache/dirty_window.go:605-630 | Whenever it is read, the reported half began at least half a window (rounded down) and less than a window ago. |
| WindowedMaximum.WindowedMax.Read | go/snowplow/internal/cache/dirty_window.go:605-630 | The reported maximum is attained and not exceeded by the samples observed since the reported half began, 0 when there are none, and that half began the larger of the two halves' ages ago. |
| WindowedMaximum.WindowedMax.Observe | go/snowplow/internal/cache/dirty_window.go:585-603 | A sample reaches both halves, and each half holds exactly the samples of its epoch. |
| BindingsIndex.CohortExact | go/snowplow/internal/cache/bindings_by_gvr.go:367-409 | After every run whose builds, binding adds, updates, widenings and role deletions since the last build agreed with the current objects on what they resolved, the cohort of a navigated resource holds only bindings one of whose current rules, not limited to names, has a verb in get, list and the star, the group or the star, and the resource or the star; it misses none but those the build could not resolve; the wildcard bucket holds those whose rule has the star for both; entries carry their bindings' subjects. |
| BindingsIndex.GrantMeaning | go/snowplow/internal/cache/bindings_by_gvr.go:286-320 | What the two grants are, rule by rule in literals: get, list or the star; the group or the star; the resource or the star; never a rule limited to names. |
| BindingsIndex.LastBuildExactly | go/snowplow/internal/cache/bindings_by_gvr.go:423-516 | Over every run a binding is unresolved if and only if the snapshot of the last build had it but not the role it names, and the navigated set is what that build asked for and what was added since. |
| BindingsIndex.GoneRoleChangesNothing | go/snowplow/internal/cache/bindings_by_gvr_delta.go:260-284 | A role that is deleted comes with its last known rules, so a right index does not change: its bindings keep their buckets. |
| BindingsIndex.RunAccurate | go/snowplow/internal/cache/bindings_by_gvr_delta.go:315-445 | With the published snapshot lagging arbitrarily behind the objects: the index is right after every operation since the last build if and only if each of them resolved, against what was published, the buckets the current rules give. |
| BindingsIndex.StepAccurate | go/snowplow/internal/cache/bindings_by_gvr_delta.go:331-445 | Exactly when one operation leaves a right index right: builds, adds, updates and widenings when published and current rules give the same buckets, role deletions when the last known rules give none, anything else always. |
| BindingsIndex.CurrentAgrees | go/snowplow/internal/cache/bindings_by_gvr_delta.go:34-39 | A published snapshot that is current agrees on every operation but the deletion of a role. |
| BindingsIndex.StaleEnrolment | go/snowplow/internal/cache/bindings_by_gvr_delta.go:34-39 | A role revoked and a binding to it added before the rebuild publishes leave a binding that does not grant in the cohort, and publishing does not take it out. |
| BindingsIndex.ReroutedAccurate | go/snowplow/internal/cache/bindings_by_gvr_delta.go:331-410 | A role event re-buckets exactly the bindings of that role, and leaves a right index right if and only if its rules give the buckets of what the role is left with. |
| BindingsIndex.NavigatedAccurate | go/snowplow/internal/cache/bindings_by_gvr.go:566-612 | Widening the navigated set leaves a right index right if and only if published and current rules agree on the new resource for every known binding outside the wildcard bucket. |
| BindingsIndex.BuildAccurate | go/snowplow/internal/cache/bindings_by_gvr.go:423-516 | A build from the published snapshot is right about a binding if and only if the snapshot knows it when it exists, and files and buckets it as the current objects do when it resolves. |
| BindingsIndex.RoleEventRules | go/snowplow/internal/cache/bindings_by_gvr_delta.go:331-350 | A role event, a deletion too, changes the rules of exactly the bindings filed under its key. |
| BindingsIndex.WildcardGrantsAll | go/snowplow/internal/cache/bindings_by_gvr.go:286-320 | A wildcard binding grants every resource, so the wildcard bucket belongs to every cohort. |
| BindingsIndex.ParseInvertsKey | go/snowplow/internal/cache/bindings_by_gvr.go:212-221 | Parsing a role key gives the reference back. |
| BindingsTrackers.BindingsTracker.EnrolLocked | go/snowplow/internal/cache/bindings_by_gvr.go:367-391 | The in-place enrolment files the binding and buckets it by its rules. |
| BindingsTrackers.BindingsTracker.UnrolLocked | go/snowplow/internal/cache/bindings_by_gvr.go:398-409 | The in-place removal takes the binding out of every bucket. |
| BindingsTrackers.BindingsTracker.OnRoleRulesChanged | go/snowplow/internal/cache/bindings_by_gvr_delta.go:331-410 | The loop over the referencing bindings is the re-routing. |
| BindingsTrackers.BindingsTracker.BuildBindingsByGVRIndex | go/snowplow/internal/cache/bindings_by_gvr.go:423-516 | The build loop gives the index by definition, and counts the enrolled. |
| BindingsTrackers.BindingsTracker.AddNavigatedGVR | go/snowplow/internal/cache/bindings_by_gvr.go:566-612 | The loop over the known bindings is the widening. |
| BindingsTrackers.BindingsTracker.AddNavigatedInRun | go/snowplow/internal/cache/bindings_by_gvr.go:566-612 | During a run that is right so far, every binding is filed under one role, so the in-place widening is the run's widening step. |
| BindingsTrackers.BindingsTracker.RulesForEntryLocked | go/snowplow/internal/cache/bindings_by_gvr.go:618-627 | The search over the roles finds the rules of the role an id is filed under. |
| MarkAttribution.RunTotals | go/snowplow/internal/cache/deps_attribution.go:221-261 | Over every run the mark total is the sum of the buckets, of the entry classes and of the drill-down, which never exceeds its cap plus the overflow entry. |
| MarkAttribution.RunBuckets | go/snowplow/internal/cache/deps_attribution.go:155-171 | Over every run each registered bucket holds exactly its events' marks, and nothing is unattributed. |
| MarkAttribution.RunEntries | go/snowplow/internal/cache/deps_attribution.go:237-250 | Over every run each entry class holds exactly the marks on its entries, and the denominator counts the events that marked something. |
| MarkAttribution.DrillDownExactly | go/snowplow/internal/cache/deps_attribution.go:253-261 | Over every run a resource has its own entry if and only if it was marked while fewer than 256 resources had been, and then holds exactly its marks; the overflow entry holds the marks of all the others. |
| MarkRecording.FanOutsAttributed | go/snowplow/internal/cache/deps.go:2094-2205 | Over every run of the tracker's own fan-outs the total counts the keys matched and not evicted; each bucket counts the keys marked as its class, told in edges and coordinates, under its cause: add or update for a found object, delete for a gone one, degraded for an undecided one, the lifecycle event for a type; nothing is unattributed and all splits add up. |
| MarkRecording.FanOutsByEntry | go/snowplow/internal/cache/deps.go:2094-2205 | And each entry class counts the marks on the keys learned to be of it, the first those nothing was learned of. |
| MarkRecording.EventEmittable | go/snowplow/internal/cache/deps_attribution.go:155-171 | Every mark of a fan-out falls in a registered bucket: a gone object marks no self, a type event no self, a type becoming available list edges only. |
| MarkRecording.RecordObjectEvent | go/snowplow/internal/cache/deps.go:2094-2205 | An object event in place, end to end: the tracker bumps and splits its matches, and the counters take the step of exactly the marks it made. |
| MarkRecording.RecordTypeEvent | go/snowplow/internal/cache/deps.go:2355-2395 | A type event in place, end to end. |
| MarkAttribution.BumpedSum | go/snowplow/internal/cache/deps_attribution.go:221-236 | Whatever the counts, every mark lands in a bucket or in the guard. |
| MarkAttribution.EventTallies | go/snowplow/internal/cache/deps_attribution.go:110-115 | The class counts and the entry-class tally of one event count the same marks. |
| MarkAttribution.MarkCounters.RecordDirtyMarks | go/snowplow/internal/cache/deps_attribution.go:221-250 | The single writer moves all splits as the record operation says. |
| MarkAttribution.MarkCounters.AddGVR | go/snowplow/internal/cache/deps_attribution.go:253-261 | The in-place drill-down folds new resources past the cap into one entry. |
| ReconcileWalk.ReconcileState.Walk | go/snowplow/internal/cache/deps_reconcile.go:338-380 | However the entries are split into batches: a coordinate is handed over, once, if and only if the pass is real, its object is absent and some visited entry with that GVR, namespace and name holds a self edge for it; the rows are those entries, one each; the counts are those of the audit by definition. |
| ReconcileWalk.ReportMeaning | go/snowplow/internal/cache/deps_reconcile.go:394-454 | The audit by definition, in fields: coordinates probed and found unknown once each, divergent when absent with a self edge, rows and missing edges per entry. |
| ReconcileWalk.ReconcileState.ProbeOne | go/snowplow/internal/cache/deps_reconcile.go:412-454 | One candidate moves the memo, the counts, the rows and the hand-over as the probe step says. |
| ReconcileWalk.ProbeStepProbed | go/snowplow/internal/cache/deps_reconcile.go:412-454 | A memoised probe keeps the pass equal to the audit by definition of the entries seen. |
| ReconcileWalk.ReportMore | go/snowplow/internal/cache/deps_reconcile.go:412-454 | How one more entry moves the audit by definition. |
| ReconcileWalk.RowsCoverDivergent | go/snowplow/internal/cache/deps_reconcile.go:440-452 | A coordinate is divergent exactly when some listed row carries it. |
| ReconcileWalk.OnlyCoordsMatter | go/snowplow/internal/cache/deps_reconcile.go:394-408 | Entries without a coordinate of their own are sampled and nothing more. |
| ApiPaths.ParsersAgreeExactly | go/snowplow/internal/apicall/wire_shape.go:103-162 | On every path of plain segments with any number of trailing slashes the two parsers agree (same acceptance, same resource, collection exactly when unnamed) if and only if the resource segment and the segment after it are not empty and, from three slashes on, the path is no resource path or is a named one other than a bare namespace. |
| ApiPaths.AcceptTogether | go/snowplow/internal/apicall/wire_shape.go:103-162 | They both accept or both refuse if and only if the resource segment is not empty and the slashes give neither the namespaces nor a bare namespace an empty resource. |
| ApiPaths.ParsersAgree | go/snowplow/internal/apicall/wire_shape.go:103-162 | In particular they agree on every path of non-empty segments with up to two trailing slashes. |
| ApiPaths.ParseInvertsPrint | go/snowplow/internal/apicall/apicall.go:66-147 | Parsing gives the target back from each of the eight documented shapes, under any number of trailing slashes by the splitting parser and up to two by the cutting one. |
| ApiPaths.ParsePathMeaning | go/snowplow/internal/apicall/apicall.go:66-147 | The splitting parser reads a path by its segments. |
| ApiPaths.ParseResourceMeaning | go/snowplow/internal/apicall/wire_shape.go:103-162 | The cutting parser reads a path by its segments. |
| ApiPaths.TrailingSlashes | go/snowplow/internal/apicall/wire_shape.go:103-106 | From three trailing slashes on a core collection reads as a collection and as a named object: one parser trims every slash, the other one. |
| ApiPaths.NamespaceSlashes | go/snowplow/internal/apicall/wire_shape.go:128-146 | And a namespace addressed by itself reads as that namespace and as no resource at all. |
| ApiPaths.QueryIgnored | go/snowplow/internal/apicall/apicall.go:44-47 | The query is what follows the first '?' before any '#', and neither it nor the fragment reaches the path. |
| ApiPaths.SplitURIMeaning | go/snowplow/internal/apicall/apicall.go:44-47 | For every string: it is the path, then the query behind a question mark if there is one, then the fragment behind a hash if there is one, no separator coming before its time. |
| ApiPaths.ParsePathTotal | go/snowplow/internal/apicall/apicall.go:66-147 | The splitting parser on every string: no template, a leading slash, and its segments read by position, a namespace taking two and what follows a name ignored; anything else is refused. |
| ApiPaths.ParseResourceTotal | go/snowplow/internal/apicall/wire_shape.go:103-162 | The cutting parser on every string, by the same positions, an empty resource refused. |
| ApiPaths.SplitJoin | go/snowplow/internal/apicall/apicall.go:78-126 | Splitting undoes joining, empty segments included. |

## Left out

- Builds deferred until the first RBAC snapshot, sub-generation bumps and the first-build rotation.
- `sync.Map` and compare-and-swap granularity inside one operation; a mark that read an older sequence than the stamp already carries is one such race.
- ResolveSafety.PostPutWindowClosed: one direction, because with other events about the key may be scheduled for another reason; the equivalence is stated for one event alone (`TornWindow.PostPutExactlyWhen`).
- TornWindow.PostPutExactlyWhen: one resolve and one event, because the schedule time of a key does not say which event asked for it.
- A write whose resolve carried no sink, which the check re-marks once without looking.
- A resolve with several accepted writes, and nested sinks beyond reuse of another resolve's read.
- The skip of re-asserted edges by edge-set identity: the model re-asserts from the edges themselves.
- Capture taps, resolve memos, the push ledger, expvar and OTLP publishing, logging and test hooks.
- The verdict and replay counters of the narrowing shadow, and its test-only off switch.
- The p95 estimator of the windowed quantile; samples are reals, so NaN is not modelled. Counters are unbounded, so the wrap-around of 64-bit counters is not modelled.
- The wall-time cut of the full reconcile walk and its lock-hold figures.
- `apicall.PlanQuery`: it rests on the Kubernetes selector parsers, which are not part of this model.
- Converting informer objects to RBAC types, and the tombstones of missed deletes.
- The JSON decoding and the jq analyser behind a read set: a transition says whether its objects decode.
