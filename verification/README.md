# Cloudbitmaps storage drivers, modelled in Dafny

This project models how the S3, GCS and Azure drivers of `cloudbitmaps` keep their promises over object stores that lose
answers, apply requests late and serve racing writers, and proves those promises for every run, every input or every order of
events. `dafny verify dfyconfig.toml` verifies all of it.

## What is modelled

**The protocols.** `Service` is one object name in a store: the object under it (version, write id, bytes), the open multipart
uploads, Azure's pool of uncommitted blocks, every request in flight, for parts too, and a log of changes. Any number of
clients run any mix of the drivers' procedures: `putImmutable`, `delete` with `ifVersion`, and the registry's `write` and
`delete`. A request is applied at any time after it is sent, or never; an answer may be lost or be a throttle whatever became
of the request; the SDK may send copies by itself where its retry is on; a put may fail, or meet a conflict, before its
commit; uploads are aborted and blocks expire; and someone may delete the object outright. `Decide` and `Settle` are what each
driver makes of an answer and of a read-back. Preconditions are those of sections 13.1.1 and 13.1.2 of RFC 9110. On top of it:

- `History` and `Landings`: what every step keeps, and what a client that returned or met a conflict may conclude.
- `WriteOnce`: one abstract write-once put, with the verdicts stored, conflict and failed, which all three drivers refine.
- `Assembly`: whether the parts a commit names can still come together.
- `Late`: what a call that is over may still do, when objects are deleted and rows replaced.
- `Fills`: which clients can still put an object under an empty name, told by the state alone.
- `Doubts`: when a conflict is told of a request that landed, or a create lands twice.
- `Swaps` and `Rows`: conditional deletes, and the registry's compare-and-swap, in which no update is lost.
- `Verdicts`: what each call is told, from what became of its request, and what a call does that nothing disturbs.
- `Runs`: runs, step by step, that show where a promise stops.
- `Commits`: the commit loops as the drivers write them, proved to take exactly the decisions above.

**The sinks.** `Limits`, `Parts`, `S3Sink`, `AzureSink` and `GcsSink`: sizes and part counts against the services' limits, and
conservation of bytes through buffering, flushing and committing, failed requests and callbacks that carry on after a failure
included. `BlockIds` and `Base64` (section 4 of RFC 4648) are the block ids Azure's pool rests on.

**The checksum.** `Crc32c`: the table-driven loop computes the CRC32C of section 12.1 of RFC 3720, defined as the remainder of
a polynomial division, for every byte string; and no burst inside four consecutive bytes escapes it.

**Events and time.** `ReadOnce` (a stream's events in any order), `Retry` (bounded retries under a deadline) and `LeaseGuard`
(concurrent `next`, `return` and `throw`, with the chunk keys of `BitRoute`).

**Errors.** `Heap`, `Copies`, `Reasons`, `Scrub` and `Keeps`: the memoised, depth-bounded copy of an error's object graph,
cycles included, on an explicit heap: what it hides, what it keeps, and when there is none. `Signatures`: the text scanner for
signatures.

**Reads and decisions.** `Tails` (tail and range reads, section 14 of RFC 9110), `Lifecycles` (what a bucket's rules mean for
a store) and `AwsHost` (which hosts are AWS's S3, against a grammar).

## What turned out otherwise

These are statements one might expect that do not hold of the code, each with the run or the input that shows it, and with
what does hold.

- A conflict promises that a put never lands only while nothing deletes the object: a throttled first send may still land
  after a deletion (`Runs.ConflictLandsAfterADelete`). Without deletes it never does (`WriteOnce.ConflictNeverLands`). With
  them, a put, a row write or delete, or a conditional delete that is over can still land exactly while a request of it is in
  flight, the version it is conditioned on, if it is, stands, and what a commit names is stored or on its way
  (`Late.LateExactly`); and a conflict told after a single send, of any driver and any call, leaves nothing that lands
  (`Late.FirstConflictIsFinal`).
- Azure's row conflict may be of a write that landed (`Runs.UnsettledButLanded`), as the code's own comments say; what it does
  promise is `Swaps.UnsettledIsReplaced`. Such an end needs a second copy (`Late.FirstConflictIsFinal`); and where the SDK may
  send one, a waiting row write or row delete can come to it exactly when a request of it has landed or the version it is
  conditioned on, if it is, still stands (`Doubts.RowDoubtExactly`).
- A conditional delete may report a conflict though it deleted (`Runs.DeleteConflictsThoughItDeleted`). A waiting one can come
  to that exactly when it has deleted and another object is there, or when it has deleted or its version stands and some
  client may fill the name, or, on S3, whose rejection of a race evaluates nothing, when its version stands
  (`Doubts.DeleteDoubtExactly`).
- GCS's default, unconditional delete takes whatever is there (`Runs.UnconditionalDeleteTakesAnother`, and from any world with
  one in flight `Fills.TakesWhatIsThere`). One that is over can still do so exactly while a request of it is in flight and an
  object is there or some client may put one there (`Fills.LateEraseExactly`).
- On S3 and GCS a row write whose row was deleted since it was read need not be told of a conflict: it is exactly when the
  service answers a refusal, and not when it answers that the row is absent (`Verdicts.RowWriteIsTold`, and a run in
  `Runs.DeletedRowIsNoConflict`). On Azure it is a conflict either way (`Verdicts.AzureRowWriteIsTold`).
- A row created where none is expected can be created twice (`Runs.CreateLandsTwice`). That takes both a second copy and a
  change between the two that empties the row (`Doubts.SecondLandingNeedsBoth`), and wherever the SDK may send copies it can
  happen (`Doubts.CreateCanLandTwice`).
- S3's row versions are ETags, so a body written twice brings a version back (`Runs.SameBodySameEtag`): exactly when the same
  bytes come back under the name (`Rows.ReusedExactly`), so with distinct bodies never (`Rows.EtagsAreNeverReused`).
- The S3 constructor's comment promises a cap up to S3's 5 TiB, but a cap it derives itself is not checked: it is past 5 TiB
  exactly when `maxObjectBytes` is left out beside a `partBytes` above 549,755,813 (`Limits.AdvertisedPastTheObjectLimit`).
- A sink counts a write before it checks its size, and drops a part whose request failed, so a callback that swallows the
  failure gets a size that is not the object's: `S3Sink.SwallowedLoss` is such a call. Exactly when is stated by
  `S3Sink.PutImmutable`, `AzureSink.PutImmutable` and `GcsSink.PutImmutable`.
- S3's tail may be longer than its size says: `Tails.LongerThanItsSize` is such a read, and `Tails.S3Tail` states exactly
  when.
- The comment on GCS's `sitsInside` says that each prefix of such a rule is the store's own or sits inside it; a rule that
  also names a prefix beside the store's sits inside too (`Lifecycles.BesideIsInsideToo`). What the check decides is
  `Lifecycles.GcsInsideIsInside`.

## Model

| member | source | states |
|---|---|---|
| Service.RunsCompose | packages/s3/src/storage.ts:245-279 | Runs of the service and its clients compose, so what a run leaves holds at every later time |
| History.NamesAreDistinct | packages/azure-blob/src/storage.ts:420-441 | No two writers' parts, and no two parts of one writer, share a name, on a pool all writers of the blob share |
| History.PayloadIsTheBody | packages/azure-blob/src/storage.ts:463-500 | A commit assembles exactly its own writer's parts in order, whatever else was staged under the name |
| History.StepKeepsInv | packages/s3/src/storage.ts:563-719 | Every step of every client and of the service keeps the invariant: the log explains the object, what landed is logged, parts are their writers' |
| History.RunKeepsInv | packages/s3/src/storage.ts:563-719 | So every run does |
| Landings.IdNamesWriter | packages/azure-blob/src/write-id.ts:1-51 | An object that carries a writer's id was put there by that writer |
| Landings.RunIsSound | packages/azure-blob/src/write-id.ts:1-51 | In every run a client that returned has landed, and what a read-back settled is true |
| Landings.ReturnedHasLanded | packages/azure-blob/src/registry.ts:124-158 | A put or a row write that returns is in the log, with its own bytes and id |
| Landings.ConflictIsFinal | packages/s3/src/registry.ts:200-227 | An S3 or GCS row write, or an S3 row delete, that ends in a conflict is in no log, at any later time |
| Landings.DoneStays | packages/s3/src/storage.ts:245-279 | A call's outcome does not change afterwards |
| WriteOnce.SpecStepIsTruthful | packages/s3/src/storage.ts:672-686 | The abstract put: a writer told "stored" holds the cell for good, one told "conflict" never does, and no verdict changes |
| WriteOnce.StepRefines | packages/azure-blob/src/storage.ts:482-500 | Each step of S3, GCS and Azure racing puts is a step of the abstract put, a conflict met before the commit included |
| WriteOnce.RunsRefine | packages/gcs/src/storage.ts:657-705 | So every run of `putImmutable` calls without deletes refines the one atomic write-once put |
| WriteOnce.RunIsTruthful | packages/gcs/src/storage.ts:657-705 | In every such run each verdict given is true of the object |
| WriteOnce.OneWinner | packages/s3/src/storage.ts:245-279 | Of any number of racing puts at most one returns, and the object then holds exactly its bytes, under its id |
| WriteOnce.ConflictNeverLands | packages/s3/src/storage.ts:672-719 | A put told of a conflict has not landed and never will, however late its requests are applied |
| Assembly.StaysLost | packages/azure-blob/src/storage.ts:462-475 | A commit whose upload is gone, or one of whose parts is neither stored nor on its way nor still to be sent, can never be assembled again |
| Assembly.Restores | packages/azure-blob/src/storage.ts:462-475 | The requests for parts in flight suffice to store them, each applied once |
| Late.LateExactly | packages/s3/src/storage.ts:672-719 | For every run, deletions and swaps included: a put, row write, row delete or conditional delete that is over can still land if and only if a request of it is in flight, the version it is conditioned on, if it is, stands, and each part its commit names is stored or a request for it is in flight, in an upload that is open on S3 |
| Late.StaysEnded | packages/s3/src/storage.ts:672-719 | Where no request is in flight, or what its commit names can no longer come together, no continuation of the run lands anything of the call |
| Late.CanLand | packages/s3/src/storage.ts:672-719 | Where all three are so, a continuation that lands it is constructed |
| Late.RetiredLandsNothing | packages/gcs/src/registry.ts:161-189 | A request conditioned on a version that is gone lands nothing, in any continuation |
| Late.NeverLands | packages/s3/src/registry.ts:200-227 | Where one of the three is not so, no continuation lands anything of the call |
| Late.FirstConflictIsFinal | packages/azure-blob/src/registry.ts:124-176 | On every driver, for every call: one that is told of a conflict, settled or not, after one send has nothing that landed or can ever land, whatever is deleted |
| Fills.StaysEmpty | packages/s3/src/storage.ts:672-719 | Where no client may fill it, by its own state, an empty name stays empty in every run, and nothing lands |
| Fills.Filled | packages/azure-blob/src/storage.ts:462-500 | Where one may, a continuation in which it stages its parts, commits and lands is constructed, and nothing of the others changes |
| Fills.LateEraseExactly | packages/gcs/src/storage.ts:434-456 | An unconditional delete that is over can still take an object if and only if a request of it is in flight and an object is there or some client may fill the name |
| Fills.TakesWhatIsThere | packages/gcs/src/storage.ts:434-456 | From any world, an unconditional delete in flight can take the object that is there, of whatever version |
| Doubts.RowDoubtExactly | packages/azure-blob/src/registry.ts:124-176 | A waiting row write or row delete that the SDK may copy can end in a conflict though it landed if and only if a request of it has landed or the version it is conditioned on, if it is, stands |
| Doubts.RowEndsInDoubt | packages/azure-blob/src/registry.ts:124-158 | The continuation, constructed: a copy lands, the row goes, and a second copy's conflict is told |
| Doubts.DeleteDoubtExactly | packages/azure-blob/src/storage.ts:308-335 | A waiting conditional delete can end in a conflict though it deleted if and only if it has deleted and another object is there, or it has deleted or its version stands and some client may fill the name, or, on S3, its version stands |
| Doubts.DeleteEndsInDoubt | packages/azure-blob/src/storage.ts:319-331 | A delete that landed and meets another object, in whatever run, can end so: a copy's refusal and the read-back are constructed |
| Doubts.RacedDeleteEndsInDoubt | packages/s3/src/storage.ts:441-472 | On S3 a delete whose version stands can be told of a conflict for racing its own copy, which then deletes |
| Doubts.DoubtMeetsAnother | packages/azure-blob/src/storage.ts:319-331 | Every run to such an end passes through a moment at which the delete has landed and another object is there, but for S3's races |
| Doubts.SecondLandingNeedsBoth | packages/azure-blob/src/registry.ts:124-158 | In every run, between two landings of one create, a put's included, the name was emptied, and the create was sent more than once |
| Doubts.CreateCanLandTwice | packages/azure-blob/src/registry.ts:124-158 | Wherever a row's create waits and the SDK may copy it, a continuation in which two copies land is constructed |
| Swaps.RetiredForever | packages/gcs/src/registry.ts:241-247 | A version that is gone stays gone while versions are not reused |
| Swaps.RunKeepsVersioned | packages/azure-blob/src/registry.ts:124-176 | What each conditional request's fate says of the version it named holds in every run |
| Swaps.DeleteReturnsGone | packages/azure-blob/src/storage.ts:308-335 | A conditional delete that returns leaves no object of its version, then or later; on GCS and Azure one that conflicts does not either |
| Swaps.DeleteTakesItsVersion | packages/s3/src/storage.ts:441-472 | A conditional delete never removes an object of another version, SDK copies included |
| Swaps.SwapReplacesWhatWasRead | packages/s3/src/registry.ts:200-227 | A row write lands on the very row its version was read from |
| Swaps.SwapLandsOnce | packages/gcs/src/registry.ts:161-189 | A conditional row write lands at most once, however often it is sent |
| Swaps.UnsettledIsReplaced | packages/azure-blob/src/registry.ts:124-158 | Azure's unsettled conflict: the version it expected is gone for good, and its own row, if it landed, has been replaced |
| Rows.SwapAppliesItsUpdate | packages/s3/src/registry.ts:200-227 | A landed swap is its update applied to the row just before it |
| Rows.RowIsEveryUpdate | packages/gcs/src/registry.ts:161-189 | The row is the first row with every landed update applied, in order |
| Rows.NoUpdateIsLost | packages/azure-blob/src/registry.ts:124-158 | After any run of swaps the row is the fold of the landed updates, each writer's at most once, every writer that returned included |
| Rows.ReusedExactly | packages/s3/src/registry.ts:200-227 | After any history, ETags were reused if and only if the name held the same bytes twice |
| Rows.EtagsAreNeverReused | packages/s3/src/registry.ts:200-227 | With all row bodies distinct, S3's ETags are never reused, which the theorems above assume |
| Verdicts.PutIsTold | packages/s3/src/storage.ts:687-719 | In every run, what an honest answer makes of a put: returned if it landed; a conflict if its one send was refused or raced; read back if the SDK or an earlier send may have landed; a failure if S3 lost the upload of its one send |
| Verdicts.PutFaults | packages/gcs/src/storage.ts:685-705 | A put whose answer is lost fails, and after a throttle it is sent again, three times at most, unless the SDK does that |
| Verdicts.PutIsSettled | packages/azure-blob/src/write-id.ts:39-51 | What the read-back of a put tells, by the id it finds |
| Verdicts.RowWriteIsTold | packages/s3/src/registry.ts:200-227 | In every run, an S3 or GCS row write: returned if it landed, a failure if it is answered that the row is absent, and else a conflict |
| Verdicts.AzureRowWriteIsTold | packages/azure-blob/src/registry.ts:124-158 | The same of Azure: an absent row is an unsettled conflict, and a refusal is read back |
| Verdicts.RowWriteIsSettled | packages/azure-blob/src/registry.ts:144-157 | The read-back of a row: its own is a success, and anything else an unsettled conflict |
| Verdicts.RowDeleteIsTold | packages/s3/src/registry.ts:229-244 | A row delete is a success if it is answered so, and else a conflict, on every driver |
| Verdicts.EraseIsTold | packages/s3/src/storage.ts:441-472 | A conditional delete is a success if it deleted or nothing was there, and any refusal is read back |
| Verdicts.EraseIsSettled | packages/azure-blob/src/storage.ts:319-331 | The read-back of a delete: a conflict exactly while an object is there |
| Verdicts.PlainEraseIsTold | packages/gcs/src/storage.ts:434-456 | An unconditional delete is a success if it deleted or nothing was there |
| Verdicts.OthersFail | packages/azure-blob/src/registry.ts:160-176 | A row call or delete whose answer is lost or a throttle fails |
| Verdicts.MayBeHeard | packages/s3/src/registry.ts:200-244 | Every request that was decided can be answered honestly |
| Verdicts.Undisturbed | packages/gcs/src/registry.ts:161-207 | From any world, a call sent in one request that nothing disturbs succeeds exactly when its precondition holds, and leaves what it should; else it is told of a conflict and changes nothing |
| Verdicts.UndisturbedStaged | packages/azure-blob/src/storage.ts:443-500 | The same of a put that sends its bytes first |
| Runs.ConflictLandsAfterADelete | packages/s3/src/storage.ts:672-719 | A run, with a deletion, in which a put reports a conflict and then lands |
| Runs.UnsettledButLanded | packages/azure-blob/src/write-id.ts:12-18 | A run in which Azure's row conflict is of a write that landed |
| Runs.DeleteConflictsThoughItDeleted | packages/azure-blob/src/storage.ts:308-335 | A run in which a conditional delete deletes, and its copy reports a conflict |
| Runs.UnconditionalDeleteTakesAnother | packages/gcs/src/storage.ts:434-456 | A run in which GCS's default delete takes an object of another version |
| Runs.SameBodySameEtag | packages/s3/src/registry.ts:200-227 | A run in which a repeated body brings an ETag back, and a swap lands on a row its caller never read |
| Runs.CreateLandsTwice | packages/azure-blob/src/registry.ts:124-158 | A run in which a row is created twice by one write and its copy |
| Runs.DeletedRowIsNoConflict | packages/s3/src/registry.ts:200-227 | A run in which a swap of a deleted row is told of no conflict |
| Commits.S3Commit | packages/s3/src/storage.ts:687-719 | Exactly when the resend loop returns, conflicts and fails, by its last answer, the number of sends, the write id and the read-back; it sends once more for each leading throttle, four times at most, and waits exactly the delays drawn, under 3.5 s; and it takes the decisions the protocol theorems are about |
| Commits.GcsSimpleCommit | packages/gcs/src/storage.ts:685-705 | The same of the simple upload's loop |
| Commits.ReplayedCommit | packages/azure-blob/src/storage.ts:482-500 | Exactly when the single commit of Azure, and of GCS's resumable upload, returns, conflicts and fails, with its read-back |
| Commits.OwnOrConflict | packages/azure-blob/src/write-id.ts:39-51 | A failed precondition is this write's own success exactly when the stored id is its own, an error when the read-back fails, and else a conflict |
| BlockIds.Injective | packages/azure-blob/src/storage.ts:420-441 | Two block ids are equal only for one nonce and one index |
| BlockIds.ConstantLength | packages/azure-blob/src/storage.ts:438-441 | Every id of the first million is 28 characters long |
| BlockIds.IdSpells | packages/azure-blob/src/storage.ts:438-441 | An id decodes to the nonce, a dash, and the index in six digits or more |
| Base64.RoundTrip | packages/gcs/src/crc32c.ts:16-23 | Base64 decodes to what was encoded, for every octet string |
| Base64.Injective | packages/gcs/src/crc32c.ts:16-23 | Two byte strings with one base64 text are the same |
| Base64.StandardExamples | packages/gcs/src/crc32c.ts:16-23 | The standard's own examples (section 10 of RFC 4648) |
| Limits.EveryObjectFits | packages/s3/src/storage.ts:196-226 | For all accepted options, of S3 and of Azure, an object of the ceiling fits the part limit, in parts within the part sizes |
| Limits.SmallestPart | packages/s3/src/storage.ts:220-224 | The part is the smallest that is as large as asked for and with which the ceiling fits, and a ceiling left out is as many times the part |
| Limits.RefusedExactly | packages/s3/src/storage.ts:206-219 | Which options are refused, in bytes |
| Limits.AdvertisedPastTheObjectLimit | packages/s3/src/storage.ts:196-226 | When, exactly, the advertised ceiling is past S3's object limit |
| Limits.Counted | packages/s3/src/storage.ts:600-633 | Parts of at least a size take at least that many bytes each |
| Limits.RoomForOneMore | packages/s3/src/storage.ts:600-623 | The part limit's guard is never met while bytes are within the ceiling |
| Parts.NamedInFull | packages/s3/src/storage.ts:636-670 | The listed parts are as long as all parts sent only if they are all of them |
| Parts.Conserved | packages/s3/src/storage.ts:585-670 | What a commit stores is what was handed over exactly when nothing was refused and no part lost, and exactly when the sizes agree |
| S3Sink.S3MultipartSink.FlushPart | packages/s3/src/storage.ts:600-633 | What is pending becomes the next part, whole and in order, listed if it is stored; an upload that does not open keeps it pending |
| S3Sink.S3MultipartSink.Write | packages/s3/src/storage.ts:585-597 | Each write that fits is kept in order, pending stays under a part, parts are whole, and the part limit is never met |
| S3Sink.S3MultipartSink.Finish | packages/s3/src/storage.ts:636-670 | The commit names the listed parts, or carries all that was taken, the size is the total, and the outcome is the commit's unless the last part was lost: then the conflict its request was answered, or a failure |
| S3Sink.PutImmutable | packages/s3/src/storage.ts:245-279 | For every sequence of writes and faults: a write that ends it is a conflict exactly when its request was answered with one, and else a failure; otherwise the outcome is the commit's, of the listed ones of the parts sent; the reported size is that of what was handed over, and the object is exactly that if and only if no write was refused and no part lost |
| S3Sink.RefusedExactly | packages/s3/src/storage.ts:585-597 | A write is refused exactly when what was handed over passes the ceiling with it, and fails only if its request did |
| S3Sink.SwallowedLoss | packages/s3/src/storage.ts:245-279 | A call that returns a size which is not the object's: its one part is lost and the failure swallowed |
| AzureSink.StagesOneMore | packages/azure-blob/src/storage.ts:462-475 | Staging under the next id leaves every listed block as it is |
| AzureSink.IdsAreAlike | packages/azure-blob/src/storage.ts:438-441 | All ids a sink lists have one length |
| AzureSink.AzureBlockBlobSink.FlushBlock | packages/azure-blob/src/storage.ts:462-475 | What is pending is staged under the next id, listed only if it is staged, and the pool changes at that id alone |
| AzureSink.AzureBlockBlobSink.Write | packages/azure-blob/src/storage.ts:443-460 | Each write that fits is kept in order, and the block limit is never met |
| AzureSink.AzureBlockBlobSink.Finish | packages/azure-blob/src/storage.ts:477-500 | The commit lists the staged blocks, or uploads what is pending, and the outcome is the commit's unless the last block was lost: then its conflict is read back as the commit's would be, and else it is a failure |
| AzureSink.PutImmutable | packages/azure-blob/src/storage.ts:177-206 | As on S3, with a pool that may hold anything else beforehand, whenever the commit goes out |
| AzureSink.RefusedExactly | packages/azure-blob/src/storage.ts:443-460 | The same of Azure |
| GcsSink.GcsUploadSink.Write | packages/gcs/src/storage.ts:619-640 | Bytes are buffered up to the threshold and streamed past it, in order, and a failed stream takes no more |
| GcsSink.GcsUploadSink.Finish | packages/gcs/src/storage.ts:657-676 | The commit carries all that was taken, streamed exactly when it passed the threshold, and the outcome is the commit's, for which a failure of the stream stands |
| GcsSink.PutImmutable | packages/gcs/src/storage.ts:217-245 | For a stream that may fail before a write, while one waits, or before the end: a write that meets a failed precondition ends it in a conflict, any other in a failure; otherwise the commit is of exactly the writes the sink took, streamed exactly past the threshold, and the size is theirs if and only if none was too large; without a failed stream, as on S3; and a put whose stream failed never returns, unless the failure is a precondition's and the read-back finds its own id |
| GcsSink.RefusedExactly | packages/gcs/src/storage.ts:619-640 | A write fails exactly once the stream has, and until then is refused exactly when it passes the ceiling |
| GcsSink.ResolvesTo | packages/gcs/src/storage.ts:179-189 | The threshold and the ceiling the options come to |
| Crc32c.ShiftIsLinear | packages/gcs/src/crc32c.ts:6-14 | A register step is linear over xor |
| Crc32c.ShiftsAreInjective | packages/gcs/src/crc32c.ts:6-14 | Any number of steps is a bijection of the register |
| Crc32c.RegisterIsRemainder | packages/gcs/src/crc32c.ts:16-23 | The reflected register is the bit-reversed remainder of the polynomial division, for every message |
| Crc32c.ReverseReverses | packages/gcs/src/crc32c.ts:16-23 | The reversal is of the bits: each is the one as far from the other end |
| Crc32c.CrcIsRegister | packages/gcs/src/crc32c.ts:16-23 | So the CRC of the standard is the register, inverted before and after |
| Crc32c.BuildTable | packages/gcs/src/crc32c.ts:6-14 | The nested loops fill the table with eight steps of each byte |
| Crc32c.LookupIsEightShifts | packages/gcs/src/crc32c.ts:16-23 | One lookup is eight steps |
| Crc32c.Crc32cBase64 | packages/gcs/src/crc32c.ts:16-23 | The loop over the bytes gives the base64 of the CRC the division defines, in four octets of which the first is the highest |
| Crc32c.BigEndianSpells | packages/gcs/src/crc32c.ts:19-22 | The four octets spell the 32-bit value in base 256, the highest first |
| Crc32c.StandardExample | packages/gcs/src/crc32c.ts:16-23 | The standard's own example, 32 bytes of zeros (section B.4 of RFC 3720) |
| Crc32c.RegisterIsInjective | packages/gcs/src/crc32c.ts:16-23 | Different registers stay different over any message |
| Crc32c.BurstIsDetected | packages/gcs/src/crc32c.ts:16-23 | Two bodies that differ only inside four consecutive bytes have different checksums |
| ReadOnce.Read.On | packages/gcs/src/read-once.ts:97-155 | The handlers do, event by event, what the specification does |
| ReadOnce.SettlesOnce | packages/gcs/src/read-once.ts:107-155 | For every order of events the read settles at the first event that settles it, to what that event says, and never again |
| ReadOnce.Unsettled | packages/gcs/src/read-once.ts:107-155 | A read nothing has settled holds all it was sent, within its limit |
| ReadOnce.ResolvesWithTheBody | packages/gcs/src/read-once.ts:134-145 | It resolves only at an end, with the concatenation of the data before it and the last announced status |
| ReadOnce.AnnouncedTooLong | packages/gcs/src/read-once.ts:120-133 | A length announced past the limit settles the read, but only under a status of success |
| ReadOnce.NeverHoldsMore | packages/gcs/src/read-once.ts:134-139 | Never more than `maxBytes` is held |
| ReadOnce.LetsGo | packages/gcs/src/read-once.ts:107-133 | The stream is let go at most once a response, never before one, and always once a failed read's response has come |
| Retry.Download | packages/gcs/src/read-once.ts:82-118 | One request under a deadline: sent exactly before it, and given up on exactly when its answer would not come before it |
| Retry.RetryDownload | packages/gcs/src/download-retry.ts:32-52 | Which attempts are made, when, and to what outcome, exactly: retried only in time, after a retryable fault, with 10 ms left before and after the backoff, three times at most; given up on only with under 10 ms left; under 700 ms of backoff; done by the deadline but for the lateness of one timer, or at once after it |
| Retry.ConcludesInTime | packages/gcs/src/download-retry.ts:32-52 | The bounds that follow from how the attempts follow each other |
| Retry.FollowMeans | packages/gcs/src/download-retry.ts:32-52 | Every attempt but the last failed with a retryable fault, and every retry begins later, with 10 ms left |
| Retry.Remaining | packages/gcs/src/read-timeout.ts:64-83 | What is left of a deadline |
| BitRoute.SplitsAndJoins | packages/core/src/core/bit-route.ts:48-68 | Splitting and joining an id are inverse, both ways, and the key is the upper 16 bits |
| BitRoute.BetweenIsSame | packages/core/src/core/bit-route.ts:48-53 | An id between two of one chunk is of that chunk |
| LeaseGuard.Guard.Next | packages/roaring/src/lease-guards.ts:81-92 | The first stretch of `next`, as the specification's segment |
| LeaseGuard.Guard.Settle | packages/roaring/src/lease-guards.ts:62-76 | What a pull that gave an item hands on |
| LeaseGuard.Guard.SettleEmpty | packages/roaring/src/lease-guards.ts:62-65 | A pull that gave no item hands on nothing and checks nothing |
| LeaseGuard.Guard.Return | packages/roaring/src/lease-guards.ts:93-95 | `return` ends the stream and the inner one |
| LeaseGuard.Guard.Throw | packages/roaring/src/lease-guards.ts:96-101 | `throw`, up to the inner stream's |
| LeaseGuard.Guard.ThrowFails | packages/roaring/src/lease-guards.ts:100-105 | A `throw` the inner stream rejects ends the stream |
| LeaseGuard.Drive | packages/roaring/src/lease-guards.ts:42-109 | A guard called and answered in any order is, at the end, in the state the specification's run is |
| LeaseGuard.OverIsFinal | packages/roaring/src/lease-guards.ts:42-109 | A stream that is over hands on nothing, whatever is in flight |
| LeaseGuard.EndsAtOnce | packages/roaring/src/lease-guards.ts:51-59 | It is over as soon as `return` is called or a check throws, and the inner stream is ended |
| LeaseGuard.NothingAfterTheEnd | packages/roaring/src/lease-guards.ts:42-109 | Nothing is delivered after a check threw or `return` was called |
| LeaseGuard.ChecksAreDue | packages/roaring/src/lease-guards.ts:42-109 | Under any interleaving the history is exactly the one the delivered items are due: one passed check before each item, or each run of one key |
| LeaseGuard.ItemsAreHandedOn | packages/roaring/src/lease-guards.ts:58-76 | Under any interleaving the items handed on are, in order, those pulled while the stream is not over whose check passes or is not due |
| LeaseGuard.NothingIsDropped | packages/roaring/src/lease-guards.ts:58-76 | With every check passing, and nobody ending it, a stream hands on exactly what the inner one gave |
| LeaseGuard.NextPulls | packages/roaring/src/lease-guards.ts:81-92 | A `next` of a stream that is not over pulls the inner one once, unless its check throws |
| LeaseGuard.OncePerChunk | packages/roaring/src/lease-guards.ts:111-122 | For ascending ids that is one check for each chunk |
| LeaseGuard.CheckedOncePerChunk | packages/roaring/src/lease-guards.ts:111-128 | So a guarded stream of ascending ids passes one check for each chunk it delivers of |
| LeaseGuard.EntersByACheck | packages/roaring/src/lease-guards.ts:79-91 | Nothing is pulled or delivered before a check has passed, unless the caller throws into the stream |
| Copies.ListIsSafe | packages/s3/src/scrub-error.ts:156-173 | A faithful copy of a list shows no credential, in pairs of items either |
| Copies.TablePuts | packages/s3/src/scrub-error.ts:176-192 | A further entry of a map's copy keeps the copy faithful, whatever keys it collides with |
| Copies.TableIsSafe | packages/s3/src/scrub-error.ts:176-192 | A faithful copy of a map tells nothing under a credential's name |
| Copies.GroupIsSafe | packages/s3/src/scrub-error.ts:195-204 | A faithful copy of a set is safe |
| Copies.RecordIsSafe | packages/s3/src/scrub-error.ts:207-230 | A faithful copy of a record holds no transport, no accessor, and nothing told under a credential's name |
| Copies.QuietRecordIsSafe | packages/s3/src/scrub-error.ts:207-230 | A record whose copy changed nothing was safe already |
| Copies.QuietPairsAreHidden | packages/s3/src/scrub-error.ts:237-260 | And had what is beside a credential's name hidden already |
| Heap.BesideExactly | packages/s3/src/scrub-error.ts:237-260 | Which key is beside a credential's name: on a plain record every other one, on an error exactly the `...value` partner of a `...name` field, in any case |
| Heap.SafeShows | packages/s3/src/scrub-error.ts:133-230 | A safe object, outright: no text but what redaction made, no transport by name, nothing told under or after a credential's name |
| Reasons.StackIsNotBeside | packages/s3/src/scrub-error.ts:237-260 | An error's stack is never taken for the value beside a name |
| Reasons.UntidyBeside | packages/s3/src/scrub-error.ts:237-260 | What is hidden beside a name was told in the original |
| Scrub.GoodIsSafe | packages/s3/src/scrub-error.ts:133-230 | A finished copy, of any kind, is safe and refers only to copies |
| Scrub.QuietIsSafe | packages/s3/src/scrub-error.ts:133-230 | An object whose copy changed nothing was safe, and refers only to objects that were copied |
| Scrub.Chains | packages/s3/src/scrub-error.ts:133-230 | Copying what an object holds disturbs neither the originals nor the copies under way |
| Scrub.Copying.CopyOf | packages/s3/src/scrub-error.ts:133-153 | The copy of a value: a text redacted, an object's one copy, nothing for what may not be kept; terminating on cycles |
| Scrub.Copying.CopyList | packages/s3/src/scrub-error.ts:156-173 | A finished copy of a list |
| Scrub.Copying.CopyTable | packages/s3/src/scrub-error.ts:176-192 | A finished copy of a map |
| Scrub.Copying.CopyGroup | packages/s3/src/scrub-error.ts:195-204 | A finished copy of a set |
| Scrub.Copying.CopyRecord | packages/s3/src/scrub-error.ts:207-230 | A finished copy of an error or a plain object |
| Scrub.Copying.CopyField | packages/s3/src/scrub-error.ts:275-306 | One own property carried, an error's stack read through the original |
| Scrub.Copying.KeepSlotFields | packages/s3/src/scrub-error.ts:312-331 | What the original reads through its prototype is carried too |
| Scrub.Copying.RedactPairs | packages/s3/src/scrub-error.ts:237-260 | What is beside a credential's name is hidden |
| Scrub.CopiesAreScrubbed | packages/s3/src/scrub-error.ts:338-343 | All in reach of a copy is safe, and none of it is a live object |
| Scrub.OriginalsWereScrubbed | packages/s3/src/scrub-error.ts:338-343 | Where nothing changed, all in reach of the error is safe as it is |
| Scrub.ScrubCredentials | packages/s3/src/scrub-error.ts:338-343 | No live object changes; the result is the error or a copy that shares none of its objects; either way nothing in reach shows a credential or holds a transport, and no record in reach tells anything beside a credential's name its original holds; and it is a copy only for a reason in reach of the error |
| Scrub.ScrubsTellsNoSecret | packages/s3/src/scrub-error.ts:338-343 | What the result does not tell, stated by the names of the fields themselves |
| Keeps.CopiesKeepTheRest | packages/s3/src/scrub-error.ts:133-331 | Every copy keeps each number, and each text as redaction leaves it, that stands under, after or beside no credential's name |
| Keeps.CopiesKeepObjects | packages/s3/src/scrub-error.ts:133-331 | An object that no way of eleven objects leads to keeps every object it holds, but class instances and what is hidden |
| Keeps.NothingToHideNoReason | packages/s3/src/scrub-error.ts:338-343 | There is no reason to copy an error in reach of which is nothing to hide |
| Signatures.NamesStayApart | packages/gcs/src/scrub-error.ts:121-126 | No `Signature=` starts within another |
| Signatures.CutShowsNothing | packages/gcs/src/scrub-error.ts:217-238 | Replacing a run uncovers no signature before its end |
| Signatures.FindRunEnd | packages/gcs/src/scrub-error.ts:222-230 | The inner loop finds the end of the run |
| Signatures.SignatureIsShown | packages/gcs/src/scrub-error.ts:121-126 | A signature after its name, in any case and between any texts, is found |
| Signatures.CutsAreOfSignatures | packages/gcs/src/scrub-error.ts:124-126 | What is cut holds only what a signature is written in, and percent signs |
| Signatures.RedactSignatures | packages/gcs/src/scrub-error.ts:217-238 | The result reads nowhere as a name, in any mix of cases, with 16 or more characters of a signature after it; it is the text with whole such runs replaced and all else kept in order; and a text with none is returned as it is |
| Tails.AzureTail | packages/azure-blob/src/storage.ts:238-306 | In at most two attempts, the bytes, size and version of one and the same blob, whatever replaces it meanwhile; always as long as the size allows; and exactly when it fails, is refused or is transient; a truthful answer in full is not refused |
| Tails.S3Tail | packages/s3/src/storage.ts:326-396 | Exactly when it fails and when it is refused; what it returns is as long as its size allows except in exactly one case, and is the object's tail when the answer names the total; a truthful answer for the suffix of any object is not refused |
| Tails.LongerThanItsSize | packages/s3/src/storage.ts:381-392 | A read whose tail is longer than its size, of answers that are both true |
| Tails.TailSize | packages/gcs/src/storage.ts:397-428 | A size is accepted if and only if the response is a proper answer for the tail of an object of that size, and a truthful answer's bytes are the object's tail |
| Tails.RangeIsTheRange | packages/gcs/src/storage.ts:275-308 | An accepted range is those bytes of the object |
| Tails.TheRangeIsAccepted | packages/gcs/src/storage.ts:281-308 | The right bytes, told as they are, are accepted |
| Tails.GcsTail | packages/gcs/src/storage.ts:316-370 | Exactly when it fails and when it is refused; what it returns is as long as its size allows, and of one object; a proper answer is not refused |
| Lifecycles.Related | packages/gcs/src/lifecycle.ts:42-44 | Two prefixes and two suffixes have a common name exactly when they are related |
| Lifecycles.DeletesSomeName | packages/gcs/src/lifecycle.ts:71-86 | A rule is found exactly when it may delete live objects and some name of the store's meets it |
| Lifecycles.DeletesLiveExactly | packages/gcs/src/lifecycle.ts:50-77 | Which rules may delete a live object, by their action and by what a live object meets |
| Lifecycles.OursByName | packages/gcs/src/lifecycle.ts:38-39 | Which names are the store's |
| Lifecycles.GcsProblemIsReal | packages/gcs/src/lifecycle.ts:104-145 | The verdict is a problem exactly when there is such a rule |
| Lifecycles.ThreatensOutright | packages/s3/src/lifecycle.ts:71-84 | A rule threatens exactly when it expires objects or moves them to a class they cannot be read from at once |
| Lifecycles.ReachesByPrefix | packages/s3/src/lifecycle.ts:60-62 | Which keys a rule reaches, by where its prefix stands |
| Lifecycles.ClassesByName | packages/s3/src/lifecycle.ts:71-84 | Which storage classes are read at once |
| Lifecycles.S3ProblemIsReal | packages/s3/src/lifecycle.ts:118-172 | The verdict is a problem exactly when an enabled, untagged, threatening rule and the store have a key in common |
| Lifecycles.InsideIsInside | packages/s3/src/lifecycle.ts:92-93 | A rule sits inside the store's prefix exactly when some key is not the store's and every key the rule reaches is |
| Lifecycles.NarrowingIsPossible | packages/s3/src/lifecycle.ts:118-172 | To narrow a rule is advised exactly when some threatening rule reaches keys of the store's and others |
| Lifecycles.GcsInsideIsInside | packages/gcs/src/lifecycle.ts:88-99 | On GCS a rule sits inside exactly when some name is not the store's, the rule names prefixes, and each reaches only names of the store's or none of them |
| Lifecycles.BesideIsInsideToo | packages/gcs/src/lifecycle.ts:88-99 | A rule that sits inside though one of its prefixes is beside the store's |
| AwsHost.KindsAreDisjoint | packages/s3/src/client-probe.ts:185-206 | No label is of two kinds |
| AwsHost.GovIsReadBothWays | packages/s3/src/client-probe.ts:185-206 | The pattern's `-gov` is read as the optional part and as the word, so `s3-us-gov-1` is a label too |
| AwsHost.GreedyReadsTails | packages/s3/src/client-probe.ts:229-233 | Reading greedily reads all of a tail exactly when it is one |
| AwsHost.LastS3Label | packages/s3/src/client-probe.ts:222-226 | The loop finds the last S3 label |
| AwsHost.IsServiceHost | packages/s3/src/client-probe.ts:222-233 | The last S3 label and a greedy reading accept exactly the grammar |
| AwsHost.ReadsOneWay | packages/s3/src/client-probe.ts:217-221 | A host under an AWS domain is read in one way |
| AwsHost.IsAwsS3Host | packages/s3/src/client-probe.ts:217-234 | It accepts exactly the hosts of the grammar |
| AwsHost.ServiceExamples | packages/s3/src/client-probe.ts:208-216 | A bucket's host, its dual-stack form and a VPC endpoint's are S3's |
| AwsHost.OtherServices | packages/s3/src/client-probe.ts:208-216 | Another service's host, whose name starts alike, is not |
| AwsHost.NormalExamples | packages/s3/src/client-probe.ts:217-218 | Case, and one dot at the end, make no difference |
| AwsHost.HostExamples | packages/s3/src/client-probe.ts:182-183 | The two domains, and one that is not |

## Left out

- The cloud SDKs, sockets, HTTP bodies, clocks and randomness: answers, times and draws are parameters; write ids and nonces
  are taken to be distinct; SHA-256 is not computed.
- The error classifiers: their outcomes are the model's answers. Azure's `409 BlobAlreadyExists` and `412` are one answer.
- WriteOnce.ConflictNeverLands: assumes that nothing deletes the object; with deletions `Late.LateExactly` says exactly when
  it fails.
- Swaps.DeleteReturnsGone: assumes that versions are not reused, as do the other theorems on conditions; for S3's rows this is
  proved from distinct bodies, for GCS generations and Azure ETags it is the service's own promise.
- Landings.ConflictIsFinal: covers the calls no SDK copies; where it may, `Late.FirstConflictIsFinal`,
  `Doubts.RowDoubtExactly` and `Doubts.DeleteDoubtExactly` say when a conflict is of a request that landed.
- Late.LateExactly: leaves out the delete sent without a condition, of which `Fills.LateEraseExactly` says it.
- Doubts.RowDoubtExactly: is of calls that have sent and not been answered; that versions are not reused is assumed.
- Doubts.DeleteDoubtExactly: the same.
- Crc32c.BigEndianSpells: the value of a word is that of its bits, `Crc32c.Number`.
- Commits.ReplayedCommit: the SDK's own copies are steps of `Service`, not of this method.
- S3Sink.S3MultipartSink.Finish: the upload's abort and the hash are not modelled.
- AzureSink.PutImmutable: a request to stage a block is applied when it is sent or never; late copies are in `Service`, where
  a writer gives up after a failed block.
- GcsSink.PutImmutable: `abort` and the hold on the SDK's upload are not modelled.
- In `Service` a put may fail or conflict before its commit at any time, whatever is under the name. An error a callback
  throws of its own is not in the sinks.
- ReadOnce.LetsGo: counts how often the stream's destruction is scheduled; that it is deferred by one turn is not modelled.
- LeaseGuard.ChecksAreDue: the order in which the engine's awaits resume is arbitrary here; `batches()` is the same guard.
- Scrub.ScrubCredentials: the redaction of texts and the names of credentials are parameters, of which only this is assumed: a
  text redaction changes holds a bracket, and no name does. That an error without a reason is returned as it is is proved; one
  in which every object is tidy but some way through it is longer than the depth may still be returned as it is.
- Scrub.Copying.RedactPairs: lower case is ASCII's; where two keys of a record are redacted to one text, the later value wins
  and the pair rule is stated by the original's keys.
- The GCS and Azure versions of the graph copy, which add cells, summaries and parallel lists to the same scheme, and the
  other text scanners.
- Tails.S3Tail: a tail length that is no safe integer is refused by every driver before anything else, and is not modelled.
- Tails.AzureTail: which blob a tail is of is stated for a service that answers a conditional download truthfully.
- Listings: only an immediately repeated token is refused, so they need not end against an arbitrary server.
- `serialise`, `probeClient`, the registry drivers above the three stores, and everything above the drivers: the bitmap
  containers, the `.crbm` reader, load, publish and erase are not part of this model.
- The wording of the lifecycle verdicts and the advice in them, but for when narrowing a rule is advised.
