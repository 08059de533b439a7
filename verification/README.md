# Verified model of the Pinot control plane

The control plane is a Kubernetes operator for Apache Pinot. It has two jobs. Three controllers keep
schemas, tables and tenants in a running Pinot cluster equal to custom resources in the API server. A
fourth controller expands one `Pinot` resource into config maps, workloads, services and volume
claims. This project models both jobs, the segment-reload watch that connects schemas to tables, and
the small JSON helpers all of them rest on.

## The reconcile protocol

One reconcile of a schema, table or tenant reads the object, looks up the cluster's service and
credentials, GETs the entity from Pinot, sends a POST or a PUT where needed, patches the status, and
then adds its finalizer, or sends a DELETE and removes the finalizer. `PatchStatus` refreshes the
caller's copy in place and patches a deep copy, so after a status patch the caller holds a version
that is out of date. The later full `Update` is then refused, and its error is dropped. Most of what
the protocol does and does not achieve follows from that.

- `Protocol` is the step machine. A `World` holds the live object, every version it ever had, the
  Pinot store and logs of what was sent. `Step` makes one call. What other parties do before a call,
  whether a read is stale, whether a write succeeds and what Pinot answers all come from a tape
  indexed by call number. A statement for all tapes is one for all interleavings and all outcomes.
- `Controllers` has the reconcilers as classes whose methods change the object they were handed, in
  the order of the original. Each `Reconcile` is proved to be exactly one pass of the machine.
- `Safety` proves what holds at every moment of every run: version safety, no lost edits, the history
  of recorded JSON, and finalizer safety.
- `Agreement` decides call by call, over every run in which nobody else writes the entity or its record,
  exactly when the recorded JSON is what Pinot stores between passes. `FreshReads` proves that steady
  runs without stale reads always agree, when an entity is sent again, and what becomes of a refused
  update. `StaleReads` decides it for one whole pass on any first copy, any snapshots inside
  `PatchStatus` and any answers of Pinot. `GoneObjects` says when an object leaves its entity behind.
- `ReloadLog` follows the reload log of a table over all runs and says exactly until when it holds the
  answers noted since the last status write.
- `Runs` has three runs from a fresh object that break a promise once its condition is dropped, and one
  with stale reads that keeps it, for every decoder and every two texts of one name. `Witnesses` has concrete inputs for these runs, for a
  deletion that never finishes, for an object that never settles, and for claims that are not those
  of the resource.
- `Quiet` proves that a pass in which every call succeeds and nobody else writes is one application
  of a function on five facts. `Limits` uses that to decide exactly when deletion finishes and
  exactly when an object settles.
- `PassOutcomes` says for whole undisturbed passes, outcome by outcome, what stands in the status, what
  Pinot holds, what was sent and what became of the finalizer, for every answer of Pinot.
  `SchemaToTables` takes the status that a schema pass leaves on to the reload scan.
- `MergePatch` has JSON merge patch as section 2 of RFC 7396 defines it, and proves that the status
  merge of the machine is that algorithm applied to status documents.

## The expansion and the reload scan

- `Expansion` has the nested loops as methods over growing lists, with the storage loops' variable
  modelled as a numbered cell of memory that outlives its loop, as in Go 1.19. `ExpansionProofs`
  compares the result with a relational join and compares two runs. `Contents` says
  what stands in the generated objects and that container, configuration file and mounts fit together.
  `Discovery` ties the generated
  labels to the lookup the other controllers make and to the pods a service reaches.
- `Reload` has the update handler of the schema watch with its early returns.
- `JsonText` and `JsonLookup` have a scanner for JSON text without escapes and prove what two member
  lookups in a row amount to. `Json` has the helpers `trimQuote`, `IsEqualJson` and
  `GetValueFromJson` over a decoder that is a parameter.

## Assumptions about libraries

- `Update` is refused when the stored version differs from the copy's, and never touches the status:
  status is a subresource (`config/crd/bases/datainfra.io_pinotschemas.yaml:75-76`).
- A status patch carries no version check, is a merge patch by RFC 7396, and always produces a new
  version: `LastUpdateTime` is part of it, and passes fall into different seconds.
- An object marked for deletion disappears when its list of finalizers becomes empty. One object
  incarnation is followed.
- Reads of objects go through a cache and may return any earlier version.
- A DELETE that Pinot answers with 200, and a POST or PUT that it answers with 200, is carried out; one
  answered otherwise is not; one without an answer may or may not be.
- The config map hash maps each config map to its name and a hash of its data. Locality assumes that
  the hash has no collisions.
- A JSON decoder never accepts the empty string, and whatever decodes into members also decodes.

## Where the code is followed against expectation

- A refused creation of a table is recorded with the success constant
  (`internal/table_controller/reconciler.go:205-212`). The model does the same, so a table that Pinot
  refused looks created.
- An adopted object (present in Pinot, nothing recorded) records the wanted JSON, not the JSON found.
  The copy in memory still has an empty record, so the comparison that follows fails and the pass ends
  with an error.
- For schemas and tables a refused update records the wanted JSON as current. Later passes compare
  record and spec and send no update until the spec wants another JSON than the refused one
  (`FreshReads.RefusedUpdateIsNotRepeated`, `FreshReads.RefusedUpdateResumesExactly`). `docs/pinot_schema_management.md:43` says that the
  current state of the schema is stored in the status; that holds only for accepted writes.
- A DELETE answered with an error code still releases the object
  (`internal/schema_controller/reconciler.go:117-137`), so the entity can outlive it
  (`Witnesses.RefusedDeleteLeavesEntity`).
- An update answered with a status code other than 200 is still followed by the finalizer stage, on a
  copy that is out of date except for tenants.

## Model

| member | source | states |
|---|---|---|
| Controllers.PatchStatus | internal/utils/patch.go:37-59 | The caller's object becomes the snapshot that was read, not the patched object; the difference between snapshot and transformed copy is what reaches the API server; a failed read changes nothing |
| Controllers.MakePatchStatus | internal/schema_controller/reconciler.go:340-363 | The status write of all three controllers runs the machine from its read to the point after its write, whatever pass it is part of, and records the refreshed spec |
| Controllers.HandleFinalizer | internal/schema_controller/reconciler.go:84-142 | Registering the finalizer, or DELETE and removal, is exactly the machine's finalizer stage, including dropped update errors |
| Controllers.SchemaReconciler.CreateOrUpdate | internal/schema_controller/reconciler.go:146-332 | The branches on GET, POST, adoption, comparison and PUT run the machine from its entry to the finalizer stage, or to the end when an error is returned |
| Controllers.SchemaReconciler.Do | internal/schema_controller/reconciler.go:63-142 | `do` is the machine from the service lookup to the end of the pass |
| Controllers.SchemaReconciler.Reconcile | internal/schema_controller/pinotschema_controller.go:61-78 | One reconcile of a schema, for any interleaving and any outcome of every call, leaves exactly the world of one pass |
| Controllers.TableReconciler.CreateOrUpdate | internal/table_controller/reconciler.go:141-316 | The same for tables: absence is the body `{}`, a refused creation is reported as success, the reload log is reset |
| Controllers.TableReconciler.Do | internal/table_controller/reconciler.go:61-139 | `do` of the table controller is the machine from the lookup on |
| Controllers.TableReconciler.Reconcile | internal/table_controller/pinottable_controller.go:73-92 | One reconcile of a table is exactly one pass |
| Controllers.TenantReconciler.CreateOrUpdate | internal/tenant_controller/reconciler.go:173-307 | The same for tenants: no adoption, no status write after a refused update |
| Controllers.TenantReconciler.Do | internal/tenant_controller/reconciler.go:59-138 | `do` of the tenant controller is the machine from the lookup on |
| Controllers.TenantReconciler.Reconcile | internal/tenant_controller/pinottenant_controller.go:63-83 | One reconcile of a tenant is exactly one pass |
| Safety.StepExtends | internal/schema_controller/reconciler.go:63-142 | Every call only appends versions: the history stays ordered by version, the deletion mark is never taken back, a gone object stays gone |
| Safety.VersionSafety | internal/schema_controller/reconciler.go:84-138 | At every moment of every run, with any interleaving and stale reads: the pass has not committed both a status write and a finalizer write; if it committed a finalizer write it sent no POST and no PUT except refused ones of tenants |
| Safety.FinalizerWriteLosesNoEdit | internal/utils/patch.go:42-54 | A full update that is accepted starts from the newest version and changes nothing in it but the controller's own finalizer |
| Safety.RecordedJsonWasOnceWanted | internal/schema_controller/reconciler.go:349-358 | Whatever interleaves, mid-pass edits included: the recorded JSON of every version is empty or a spec the object held no later than that version |
| Safety.FinalizerSafety | internal/schema_controller/reconciler.go:84-138 | An object that ever carried the finalizer is gone only after a DELETE was answered under the deletion mark; no DELETE is sent for an unmarked object |
| PassOutcomes.StraightOnRegisters | internal/schema_controller/reconciler.go:84-94 | A pass whose GET is answered with a code other than 200 and 404 (schemas and tenants), or finds the entity recorded as wanted, sends no POST and no PUT and writes no status; an unmarked object without the finalizer gains it at the end of its list |
| PassOutcomes.StraightOnReleases | internal/schema_controller/reconciler.go:95-138 | On such a pass a marked object with the finalizer gets its DELETE; whatever code answers it, exactly that finalizer goes, and the object with the last one; the entity stays if and only if the code is not 200; without an answer everything stays |
| PassOutcomes.CreationOutcome | internal/schema_controller/reconciler.go:175-231 | After an answered POST: reason is the answer's body, message and type the success constant, for refused schemas and tenants the failure constant, status "True", the spec on record; nothing else of the object changes; a marked object's entity gets its DELETE while the finalizer stays |
| PassOutcomes.AdoptionOutcome | internal/table_controller/reconciler.go:225-252 | An adoption records the wanted JSON with the GET's body as reason, CreateSuccess as message, UpdateSuccess (schemas) or CreateSuccess (tables) as type, and ends the pass |
| PassOutcomes.UpdateOutcome | internal/table_controller/reconciler.go:247-311 | After an answered PUT: success or failure as message and type; reason is the answer's body, but for a refused schema the body of the GET |
| PassOutcomes.TenantRefusalOutcome | internal/tenant_controller/reconciler.go:252-306 | A refused PUT of a tenant writes no status, and the pass registers the finalizer, or sends the DELETE and releases the object |
| PassOutcomes.LostSendEndsPass | internal/schema_controller/reconciler.go:178-190 | A POST or PUT without an answer ends the pass: nothing recorded, no finalizer touched, no DELETE |
| PassOutcomes.FailedLookupEndsPass | internal/schema_controller/reconciler.go:69-82 | A service or secret that cannot be read, or JSON without a readable name, ends the pass with nothing done |
| PassOutcomes.UnusableAnswerEndsPass | internal/tenant_controller/reconciler.go:190-255 | So does a GET without an answer, and a record that cannot be compared |
| PassOutcomes.FailedStatusEndsPass | internal/utils/patch.go:42-57 | A status write whose read or write fails ends the pass, with no DELETE and no finalizer touched |
| PassOutcomes.FailedLookupKeepsFinalizer | internal/schema_controller/reconciler.go:96-105 | A deletion whose lookup fails sends no DELETE and keeps the finalizer |
| Witnesses.RefusedDeleteLeavesEntity | internal/schema_controller/reconciler.go:117-137 | A concrete schema whose DELETE is answered with 409: after one pass the object is gone and the entity remains |
| GoneObjects.GoneObjectLeavesEntityExactly | internal/schema_controller/reconciler.go:113-137 | When the finalizer goes, and with it the object, the entity its last version names is left behind in Pinot if and only if it existed and the DELETE just before was answered with an error |
| Agreement.AgreementExactly | internal/schema_controller/reconciler.go:146-332 | Over every run in which nobody else writes the entity or its record, with stale reads, lost and refused requests, failed patches, false reports and spec edits at any time: record and Pinot agree between all passes (or, not for tenants, a failed update is on record) if and only if every call was harmless. A stale read never does harm by itself; a status write does if it neither leaves agreement nor is followed by an update or the deletion of the entity; a lost request, failed write or failed read does if it ends a pass that still owes agreement |
| FreshReads.FreshRunIsHarmless | internal/schema_controller/reconciler.go:175-326 | From a fresh object every call of every steady run without stale reads is harmless |
| FreshReads.RecordAgreesWithPinot | internal/table_controller/reconciler.go:168-311 | So in all these runs an existing entity is recorded exactly between passes, or the status says that the update failed |
| FreshReads.TenantRecordIsExact | internal/tenant_controller/reconciler.go:200-303 | For tenants there is no exception |
| FreshReads.PutExactlyOnDrift | internal/tenant_controller/reconciler.go:250-303 | An existing entity is sent again exactly if the spec differs from what Pinot stores or, for schemas and tables with a failed update on record, from the JSON of that update; so a tenant's refused update is repeated until accepted |
| FreshReads.RefusedUpdateCountsAsCurrent | internal/schema_controller/reconciler.go:305-326 | A refused update ends with the wanted JSON on record as current and the old one still in Pinot |
| FreshReads.RefusedUpdateIsNotRepeated | internal/table_controller/reconciler.go:247-311 | After a refused update of a schema or table no later pass sends a PUT as long as the spec wants that JSON, whatever else happens in the run |
| FreshReads.RefusedUpdateResumesExactly | internal/table_controller/reconciler.go:247-262 | The next pass that finds the entity after an edit sends a PUT if and only if the spec differs from the JSON that was refused |
| StaleReads.OutdatedReadsKeepExactly | internal/schema_controller/reconciler.go:146-332 | One whole pass that nobody interferes with, on any first copy, any snapshots read inside the status patches and any answers of Pinot, true or false: agreement is kept if and only if what is sent, what the stamp records from its snapshot, what is adopted and what is deleted add up to it |
| StaleReads.LaggingUpdateKeeps | internal/utils/patch.go:42-54 | When one lagging cache serves the first read and the read inside the status patch, an accepted outdated update is harmless: what is recorded is what was sent |
| StaleReads.FalseAbsenceKeepsExactly | internal/schema_controller/reconciler.go:175-231 | A pass with fresh reads that is told an existing entity is absent keeps agreement if and only if the POST is accepted, Pinot stores the wanted JSON, or the pass deletes the entity |
| StaleReads.OutdatedReadHarmsExactly | internal/schema_controller/reconciler.go:175-326 | When only the first read may be stale and everything else is quiet: agreement is kept if and only if what the copy sends is still wanted, what it adopts is what Pinot stores or is updated, or the pass deletes the entity |
| StaleReads.OutdatedUpdateHarmsExactly | internal/tenant_controller/reconciler.go:250-303 | The main case of that: with the entity in place and something recorded, the copy leads to no PUT or has the JSON that is still wanted |
| StaleReads.OutdatedSendBreaks | internal/schema_controller/reconciler.go:268-304 | Once Pinot accepts JSON that is not wanted any more, a status patch that reads the object as it is breaks agreement, under any steady interleaving |
| StaleReads.StampAgreesExactly | internal/utils/patch.go:42-54 | A status patch from any snapshot leaves agreement if and only if the fields it changes, and those it leaves because snapshot and target coincide, add up to it |
| Runs.StaleReadBreaksAgreement | internal/schema_controller/pinotschema_controller.go:61-78 | From a fresh object, with one outdated first read and everything else steady, Pinot ends up with JSON that is neither wanted nor recorded; for every kind, decoder and pair of texts of one name |
| Runs.LaggingCacheKeepsAgreement | internal/utils/patch.go:42-54 | The same run with the outdated version returned to both reads of the pass ends in agreement, though on JSON that is not wanted any more |
| Runs.FalseAbsenceBreaksAgreement | internal/schema_controller/reconciler.go:175-231 | With fresh reads only, one false report of absence followed by a refused POST breaks agreement |
| Quiet.QuietPassIsQuietNext | internal/schema_controller/reconciler.go:63-332 | A whole pass in a quiet environment is one application of a function of spec, record, finalizers, deletion mark and Pinot's content |
| Limits.DeletionFinishesExactly | internal/schema_controller/reconciler.go:79-138 | Deletion finishes in finitely many quiet passes if and only if the entity is present and the record equals the spec or (not for tenants) is empty; one pass in the first case, two in the second; otherwise every pass leaves the object marked and holding the finalizer |
| Limits.DeletedObjectLeavesExactly | internal/tenant_controller/reconciler.go:74-136 | With no other finalizer on the object, finishing means leaving the API server, under the same condition and after the same number of passes |
| Limits.SettlesExactly | internal/schema_controller/reconciler.go:146-332 | Quiet passes lead to Pinot, record and finalizer all in place if and only if the entity is absent, or the record is known to differ, or Pinot is right and the record right or adoptable; two passes are enough and the state then stays |
| Limits.DistanceShrinks | internal/schema_controller/reconciler.go:146-332 | A number of at most two, zero exactly in the settled state, falls with every quiet pass until it is zero |
| Limits.FreshObjectSettlesInTwo | internal/schema_controller/reconciler.go:175-228 | A new object with an absent entity settles in exactly two passes: the pass that creates the entity cannot register the finalizer |
| Limits.EditedObjectSettlesInOnePass | internal/schema_controller/reconciler.go:256-304 | After an edit of a settled object that keeps the entity name, one whole quiet pass settles it again |
| Limits.SettledPassWritesNothing | internal/schema_controller/reconciler.go:63-142 | A quiet pass over a settled object commits no version, sends nothing but the GET and leaves Pinot alone |
| Witnesses.DeletionNeverFinishes | internal/table_controller/reconciler.go:77-135 | A concrete table, marked before Pinot had it: every pass is quiet, creates and deletes it, and leaves mark and finalizer |
| Witnesses.DriftedNeverSettles | internal/schema_controller/reconciler.go:256-304 | A concrete schema recorded as wanted while Pinot stores an older text: every pass is quiet and none settles it |
| Limits.RecordedDriftStays | internal/table_controller/reconciler.go:247-262 | When record and spec agree, quiet passes send no POST and no PUT and write no status, whatever Pinot stores; all they may do is register the finalizer |
| MergePatch.PatchRoundTrip | internal/utils/patch.go:52-54 | A merge patch created from two documents and applied to the first gives the second, for all documents without nulls in the second |
| MergePatch.MergeStatusIsMergePatch | internal/utils/patch.go:52-54 | The status merge used by the machine is merge patch creation followed by application, on the status documents of all three kinds |
| MergePatch.StatusDocSpelled | api/v1beta1/pinottable_types.go:48-54 | The status documents under the member names of the resource definitions |
| MergePatch.PatchStatusFrame | internal/utils/patch.go:37-59 | With any writer between read and write: fields the transform changed relative to the snapshot take its value, all others keep the writer's, spec and finalizers are untouched, the version rises |
| Expansion.GetAllNodeSpecForNodeType | internal/pinot_controller/constructors.go:46-70 | The result is the concatenation of the groups of the first four order entries, each in original order; a shorter order is the index panic |
| ExpansionProofs.OrderedSortsExactly | internal/pinot_controller/constructors.go:46-70 | That result is a stable sort of the nodes by order position, and a permutation, if and only if every node's type occurs exactly once among the four entries |
| Expansion.MakeConfigMap | internal/pinot_controller/internal_builder.go:89-198 | The config map carries the data of its node type with the last matching deep storage entry; an unknown type leaves it empty |
| Expansion.GetEnv | internal/pinot_controller/internal_builder.go:438-471 | Environment, Java options with plugins, and the hashes of all config maps of the same name so far, in order |
| Expansion.GetVolumeMounts | internal/pinot_controller/internal_builder.go:325-366 | Number and position of every mount: one per storage entry in order, then the config map's at the path of the node type, then those of the k8s config in order |
| Expansion.StorageLoop | internal/pinot_controller/reconciler.go:74-76 | All claims of one loop point to its variable; once the loop is over each dereferences to the last entry |
| Expansion.MakeStsOrDeploy | internal/pinot_controller/internal_builder.go:200-256 | The workload template of a joined triple, with claims from its own storage loop |
| Expansion.K8sLoop | internal/pinot_controller/reconciler.go:64-79 | The inner loop extends workloads, services and claims by the rows of one node and config, and keeps the meaning of all earlier claims |
| Expansion.Do | internal/pinot_controller/reconciler.go:28-82 | The four generated lists are the ones the rows of the join prescribe, each claim dereferenced at the end |
| Contents.StartsItsOwnType | internal/pinot_controller/internal_builder.go:392-436 | A workload of a known node type starts that type, on the one file of its own config map, at the path where it mounts that map, and for all but controllers with the cluster's name and ZooKeeper address |
| Contents.WorkloadSpelled | internal/pinot_controller/internal_builder.go:200-256 | Name, labels, kind, container name, replicas, pod fields, and the number of volumes and mounts of a row's workload |
| Contents.ServiceSpelled | internal/pinot_controller/internal_builder.go:258-323 | Name, namespace, labels, selector and spec of a row's service; name, namespace and labels of its claims |
| Contents.LabelsSpelled | internal/pinot_controller/internal_builder.go:277-286 | The five labels and their values |
| Contents.ConfigMapSpelled | internal/pinot_controller/internal_builder.go:89-198 | The one file of a known type and its whole text, in order; no file for an unknown type |
| Contents.DeepStorageIsLast | internal/pinot_controller/internal_builder.go:89-186 | The deep storage text is that of the last entry of the node's type |
| Contents.JavaOptionsSpelled | internal/pinot_controller/internal_builder.go:447-456 | The node config's own options come first, then every plugin once and in order |
| ExpansionProofs.RowsAreTheJoin | internal/pinot_controller/reconciler.go:54-81 | The rows are every matching triple of node, node config and k8s config exactly once, ordered by node, then config, then k8s config |
| ExpansionProofs.ServiceFitsWorkload | internal/pinot_controller/internal_builder.go:288-319 | Workloads and services correspond one to one: the n-th workload names the n-th service, under equal labels |
| ExpansionProofs.VolumeNamesItsConfigMap | internal/pinot_controller/internal_builder.go:368-390 | A workload's first volume names the config map of its own node and config, which is generated no later than the workload |
| ExpansionProofs.HashesAccumulate | internal/pinot_controller/internal_builder.go:461-470 | A workload's environment ends with one hash per config map of its own name generated so far, at least one, its own last, and no other |
| ExpansionProofs.SharedTypeSharesHash | internal/pinot_controller/reconciler.go:61-72 | When nodes that share a config share a node type, all these hashes have the same value |
| ExpansionProofs.ConfigChangeIsLocal | internal/pinot_controller/internal_builder.go:438-471 | Changing one config's data changes a row's template if and only if the row uses that config and some node up to it that uses the config has a known type; services and claims stay |
| ExpansionProofs.ReactsIfUsing | internal/pinot_controller/internal_builder.go:98-190 | For a node of a known type that condition is just using the config |
| ExpansionProofs.ConfigChangeAcrossRuns | internal/pinot_controller/reconciler.go:54-81 | The same for two whole runs: as many workloads, the n-th template differs exactly if its row reacts, all services and all claims equal |
| ExpansionProofs.ClaimListFaithfulExactly | internal/pinot_controller/reconciler.go:74-76 | The claim list shows the resource's own storage specs if and only if all entries within each joined k8s config have equal specs |
| ExpansionProofs.OwnClaimsFaithfulExactly | internal/pinot_controller/internal_builder.go:230-234 | The same for the claim templates a workload carries |
| Witnesses.BothClaimsAreLarge | internal/pinot_controller/reconciler.go:74-76 | A concrete resource with a small and a large disk: both generated claims ask for the large one |
| Discovery.GetControllerSvcUrl | internal/schema_controller/reconciler.go:365-386 | The URL names the first service that matches namespace and labels, and an empty host if there is none |
| Discovery.LookupFindsControllers | internal/schema_controller/reconciler.go:365-386 | Over the services of any set of Pinot resources, the lookup for a cluster sees exactly those of that cluster's controller nodes |
| Discovery.ServiceReachesExactly | internal/pinot_controller/internal_builder.go:277-307 | Within a cluster a service selects another node's pods if and only if both share node type, node config and k8s config, hence always its own |
| Reload.ScanTable | internal/table_controller/pinottable_controller.go:126-193 | The loop body returns early exactly at an item that ends the scan, and requests and notes a reload as the specification says |
| Reload.ScanTables | internal/table_controller/pinottable_controller.go:126-195 | The loop is the scan function, up to and including the first item that ends it |
| Reload.UpdateFunc | internal/table_controller/pinottable_controller.go:97-201 | The handler always returns false and changes nothing when the object is being deleted, unreadable, dated in the future or the tables cannot be listed; otherwise it scans |
| Reload.ScanReloadsExactly | internal/table_controller/pinottable_controller.go:126-195 | The tables reloaded are exactly the schema's own before the first that has reload off or fails a step, in list order, plus possibly the POST of that last one; each gains one entry at the end of its log, no other log changes |
| Reload.NothingWithoutUpdate | internal/table_controller/pinottable_controller.go:128 | A schema whose message is not PinotSchemaControllerUpdateSuccess reloads nothing |
| Reload.ScanStopsSilently | internal/table_controller/pinottable_controller.go:127-162 | A table with reload off, or after an update one with an unreadable service, secret or name, ends the scan at once |
| Reload.ScanPassesOver | internal/table_controller/pinottable_controller.go:127-164 | A table with reload on is passed over if there was no update or it was of another schema |
| Reload.ScanReloads | internal/table_controller/pinottable_controller.go:164-187 | Otherwise the reload is requested, the answer noted at the end of the log, and the scan goes on if both succeeded |
| SchemaToTables.AcceptedUpdateReloads | internal/table_controller/pinottable_controller.go:97-201 | After a schema pass whose PUT was accepted, the scan asks first for the reload of the first listed table that names the schema, and notes the answer at the end of its log |
| SchemaToTables.OtherOutcomesReloadNothing | internal/table_controller/pinottable_controller.go:128 | After a pass that created or adopted the schema, or whose update was refused, the scan does nothing |
| ReloadLog.ScanWritesNotes | internal/table_controller/pinottable_controller.go:164-187 | What the scan does to the logs of all tables is what one atomic note per reloaded table does to the tables' worlds |
| ReloadLog.LogExactUntilFirstMiss | internal/table_controller/reconciler.go:349-359 | Over every run of the table controller, with notes and status writes delayed between read and write in any way: the log holds exactly the answers noted since the last status write, at all moments up to a call, if and only if up to there every note was computed from the entries it is written over and every status write from a log not yet cleared, or with nothing to clear |
| ReloadLog.ReloadStatusIsLogSinceStamp | internal/table_controller/reconciler.go:349-359 | As long as no writer is interrupted between its read and its write, the log of the live table is exactly those answers |
| Runs.LateNoteRevivesAnswer | internal/table_controller/pinottable_controller.go:180-187 | A run in which every status write clears what it should, and a note that read the log before brings back a cleared answer |
| Witnesses.PromisesBreak | internal/table_controller/pinottable_controller.go:180-187 | The three breaking runs on concrete JSON texts |
| Json.TrimCancelsQuotes | internal/utils/utils.go:25-33 | One layer of quotes is cancelled around any text; a text stays as it is if and only if it has no quote at either end |
| JsonLookup.TrimWritten | internal/utils/utils.go:25-33 | On the raw text of any value, trimming undoes exactly the quotes of a string and leaves every other value as it is |
| JsonLookup.TrailingTextIsAnError | internal/utils/utils.go:55-58 | Text other than white space after an object makes decoding fail |
| JsonLookup.LookupWritten | internal/utils/utils.go:52-61 | One lookup in the text of any document without escapes gives the last member of that name, the empty string if there is none, an error if it is not an object or `null` |
| JsonLookup.TwoLookupsFollowThePath | internal/table_controller/pinottable_controller.go:135-146 | Two lookups in a row equal the lookup along the path if and only if the first value is not a string that itself reads as `null` or as an empty object; then the result is empty instead of an error |
| JsonLookup.HiddenObjectIsMistaken | internal/table_controller/pinottable_controller.go:135-146 | A concrete document on which the two differ |
| JsonLookup.ScanReadsSchemaOfTable | internal/table_controller/pinottable_controller.go:135-146 | The schema name the reload scan compares is the one along the path `segmentsConfig`, `schemaName` |

## Left out

- HTTP transport, URL paths, the tenant type in the DELETE path, secrets and credentials: a call either
  gets an answer or is lost, and service and credential lookups are one read that succeeds or ends the
  pass.
- Event recording, logging, sleeps, requeue delays, predicates, manager set-up: passes simply repeat.
- The operator-runtime builder and store that reconcile the generated lists: the model stops at the
  lists.
- Probes, resources, ports, storage specs and service specs are opaque values that the expansion
  passes on.
- Owner references, clients and the custom resource pointer inside generated objects.
- JSON string escapes and full decoding: the protocol theorems hold for any decoder; the lookup theorems
  hold for text without escapes.
- An unset list in a status is written as `null`, which a merge patch cannot tell from an absent member;
  the status documents here leave it out.
- Loop variables of the storage loops are numbered cells of one memory; other Go pointers are values,
  because nothing generated keeps their addresses.
- Controllers.SchemaReconciler.Reconcile: what the world becomes is exact, the returned error is not part
  of the contract, because it only decides when the next pass starts. The same goes for tables and
  tenants.
- Agreement.AgreementExactly: speaks of the moments between passes, because a pass writes to Pinot before
  it records, and of objects that still exist.
- FreshReads.RecordAgreesWithPinot: a steady run has no lost effect, no failed status patch, no spec edit
  inside a pass, and no refused POST for an entity that exists with other content. The exact condition
  without these is that of `Agreement.AgreementExactly`.
- FreshReads.TenantRecordIsExact: the same conditions.
- ReloadLog.ReloadStatusIsLogSinceStamp: needs writers that are not interrupted; without that
  `ReloadLog.LogExactUntilFirstMiss` has the exact condition, which both kinds of writers can fail.
- Reload.UpdateFunc: the outcome of each call for a table is part of the list item, so a table is not
  changed by others while the scan runs; interleaved notes are part of `ReloadLog` instead.
- Expansion.Do: stops at the lists. If no node falls into one of the four groups, the original goes on
  to read a field of an internal builder that was never set
  (`internal/pinot_controller/reconciler.go:91`) and panics; the model returns empty lists.
- ExpansionProofs.ConfigChangeIsLocal: exact condition instead of "the nodes that use the config",
  because a node of an unknown type gets an empty config map that no edit can change.
- JsonLookup.TwoLookupsFollowThePath: exact condition instead of "always", because a string holding an
  object looks like that object once its quotes are trimmed.
