/**
 * One name in an object store, and every client that writes or deletes it. The service holds the object, the open
 * multipart uploads and the pool of uncommitted blocks; a client runs one driver procedure. Requests and answers travel
 * apart: a request may be applied after its client stopped waiting for it, or never, and an answer may be lost.
 *
 * The client's decisions are `Decide`, what one answer means, and `Settle`, what a read-back means. The service's
 * preconditions are those of sections 13.1.1 and 13.1.2 of RFC 9110.
 */
module Service {

  import opened Bytes
  import BlockIds

  datatype Driver = S3 | Gcs | Azure

  // ---------- what is stored ----------

  /** The object under the name: its version, the write id in its metadata if it carries one, and its bytes. */
  datatype Entry = Entry(version: nat, id: Option<nat>, bytes: Bytes)

  /** A part of an S3 multipart upload, or an uncommitted block of Azure's pool, which all writers of the name share. */
  datatype PartName = Part(upload: nat, number: nat) | Block(id: string)

  // ---------- what the clients do ----------

  datatype Expect = Absent | Version(version: nat)

  /** One procedure call and its arguments. */
  datatype Job =
    // `putImmutable` of the parts' bytes; `staged` when the sink flushed parts before the end
    | Put(writeId: nat, nonce: string, parts: seq<Bytes>, staged: bool)
    // the storage half's `delete`, given `ifVersion`; `conditional` when the driver sends it as a precondition
    | Erase(ifVersion: nat, conditional: bool)
    // the registry's `write` and `delete`
    | RowWrite(rowId: nat, body: Bytes, expected: Expect)
    | RowDelete(row: nat)

  /** What became of one request. */
  datatype Fate =
    | InFlight     // not applied yet; it may be at any later time
    | Landed
    | Refused      // its precondition was evaluated, and failed on an object that was there
    | Raced        // rejected for racing another conditional request, its precondition not evaluated
    | Unknown      // its upload or its blocks are not there
    | Missing      // there was no object to delete or to compare with

  datatype Send = Send(client: nat, fate: Fate)

  datatype Answer = Ok | Precondition | Race | NoSuchUpload | NotFound | Throttled | Lost

  datatype Outcome = Returned | Conflict | Unsettled | Failed

  datatype Verdict = Finish(outcome: Outcome) | Resend | ReadBack

  datatype Phase =
    | Idle
    | Staging(acked: nat)
    | Waiting(resent: nat, current: nat)   // `current` is the request whose answer is awaited
    | Backoff(resent: nat)
    | Reading(answer: Answer)
    | Done(outcome: Outcome)

  datatype Client = Client(job: Job, phase: Phase)

  /** One change of the object: the request that made it, none for a deletion from outside, and the object around it. */
  datatype Event = Event(send: Option<nat>, before: Option<Entry>, after: Option<Entry>)

  datatype World = World(
    driver: Driver,
    initial: Option<Entry>,
    cell: Option<Entry>,
    parts: map<PartName, Bytes>,
    posted: multiset<(nat, nat)>,   // the requests for parts in flight: the client and which part
    uploads: set<nat>,
    clients: seq<Client>,
    sends: seq<Send>,
    log: seq<Event>)

  // ---------- the driver's decisions ----------

  /** How many times a throttled commit is sent again. */
  const THROTTLE_RESENDS: nat := 3

  /**
   * Whether the commit goes out once a call of `send`, with the SDK's own retry off, and again only after a throttle.
   */
  predicate Resends(driver: Driver, job: Job) {
    job.Put? && (driver.S3? || (driver.Gcs? && !job.staged))
  }

  /** What the driver makes of an answer, after `resent` re-sends. */
  function Decide(driver: Driver, job: Job, resent: nat, answer: Answer): Verdict {
    if answer.Ok? then
      Finish(Returned)
    else match job
      case Put(_, _, _, staged) =>
        if driver.S3? then
          if resent > 0 && (answer.Precondition? || answer.Race? || answer.NoSuchUpload?) then ReadBack
          else if answer.Precondition? || answer.Race? then Finish(Conflict)
          else if answer.Throttled? && resent < THROTTLE_RESENDS then Resend
          else Finish(Failed)
        else if driver.Gcs? && !staged then
          if answer.Precondition? then (if resent > 0 then ReadBack else Finish(Conflict))
          else if answer.Throttled? && resent < THROTTLE_RESENDS then Resend
          else Finish(Failed)
        else
          if answer.Precondition? then ReadBack else Finish(Failed)
      case Erase(_, conditional) =>
        if answer.NotFound? then (if conditional || !driver.S3? then Finish(Returned) else Finish(Failed))
        else if conditional && (answer.Precondition? || (driver.S3? && answer.Race?)) then ReadBack
        else Finish(Failed)
      case RowWrite(_, _, expected) =>
        if driver.Azure? then
          if answer.NotFound? && expected.Version? then Finish(Unsettled)
          else if answer.Precondition? then ReadBack
          else Finish(Failed)
        else if answer.Precondition? || (driver.S3? && answer.Race?) then Finish(Conflict)
        else Finish(Failed)
      case RowDelete(_) =>
        if answer.Precondition? || answer.NotFound? || (driver.S3? && answer.Race?) then Finish(Conflict)
        else Finish(Failed)
  }

  /** What the driver makes of the object it reads back after `answer`. */
  function Settle(driver: Driver, job: Job, answer: Answer, stored: Option<Entry>): Outcome {
    match job
    case Put(writeId, _, _, _) =>
      if stored.Some? && stored.value.id == Some(writeId) then Returned
      else if driver.S3? && stored.None? && !answer.Precondition? then Failed
      else Conflict
    case Erase(_, _) =>
      if stored.None? then Returned else Conflict
    case RowWrite(rowId, _, _) =>
      if stored.Some? && stored.value.id == Some(rowId) then Returned else Unsettled
    case RowDelete(_) => Failed
  }

  /** Whether the SDK may send a copy of the request by itself, after a lost answer. */
  predicate Replays(driver: Driver, job: Job) {
    match driver
    case S3 => job.Erase?
    case Gcs => job.Erase? || job.RowDelete? || (job.Put? && job.staged)
    case Azure => true
  }

  // ---------- the service ----------

  /** The name a client's part goes under, counted from zero. */
  function NameOf(driver: Driver, i: nat, job: Job, n: nat): PartName
    requires job.Put? && BlockIds.IsNonce(job.nonce)
  {
    if driver.Azure? then Block(BlockIds.BlockId(job.nonce, n)) else Part(i, n + 1)
  }

  /** Whether the put sends bytes before its commit: parts, blocks, or GCS's stream. */
  predicate Stages(job: Job) {
    job.Put? && job.staged
  }

  /** Whether the commit names stored parts, rather than carrying the bytes. */
  predicate Assembles(driver: Driver, job: Job) {
    Stages(job) && !driver.Gcs?
  }

  predicate HasParts(w: World, i: nat)
    requires i < |w.clients| && WellFormedJob(w.clients[i].job) && w.clients[i].job.Put?
  {
    var job := w.clients[i].job;
    && (w.driver.S3? ==> i in w.uploads)
    && forall n :: 0 <= n < |job.parts| ==> NameOf(w.driver, i, job, n) in w.parts
  }

  /** The bytes the service would make the object of: the named parts in order, or the bytes the request carries. */
  function Payload(w: World, i: nat): Bytes
    requires i < |w.clients| && WellFormedJob(w.clients[i].job)
    requires w.clients[i].job.Put? && (Assembles(w.driver, w.clients[i].job) ==> HasParts(w, i))
  {
    var job := w.clients[i].job;
    if Assembles(w.driver, job) then
      Concat(seq(|job.parts|, n requires 0 <= n < |job.parts| => w.parts[NameOf(w.driver, i, job, n)]))
    else
      Concat(job.parts)
  }

  predicate WellFormedJob(job: Job) {
    job.Put? ==> BlockIds.IsNonce(job.nonce)
  }

  /** Whether the precondition holds of what is there (sections 13.1.1 and 13.1.2 of RFC 9110). */
  predicate Holds(job: Job, cell: Option<Entry>) {
    match job
    case Put(_, _, _, _) => cell.None?
    case Erase(v, conditional) => cell.Some? && (conditional ==> cell.value.version == v)
    case RowWrite(_, _, expected) =>
      if expected.Absent? then cell.None? else cell.Some? && cell.value.version == expected.version
    case RowDelete(v) => cell.Some? && cell.value.version == v
  }

  /** Whether the request needs an object to be there. */
  predicate NeedsObject(job: Job) {
    job.Erase? || job.RowDelete? || (job.RowWrite? && job.expected.Version?)
  }

  /** The object a landed request leaves. A registry row carries a write id on Azure only. */
  function Outgrowth(w: World, i: nat, version: nat): Option<Entry>
    requires i < |w.clients| && WellFormedJob(w.clients[i].job)
    requires w.clients[i].job.Put? && Assembles(w.driver, w.clients[i].job) ==> HasParts(w, i)
  {
    match w.clients[i].job
    case Put(writeId, _, _, _) => Some(Entry(version, Some(writeId), Payload(w, i)))
    case Erase(_, _) => None
    case RowWrite(rowId, body, _) => Some(Entry(version, if w.driver.Azure? then Some(rowId) else None, body))
    case RowDelete(_) => None
  }

  /** The answers a client may be given for a request, by what became of it. A lost or throttled one says nothing. */
  predicate Answers(driver: Driver, job: Job, fate: Fate, answer: Answer) {
    || answer.Throttled?
    || answer.Lost?
    || (answer.Ok? && (fate.Landed? || (fate.Missing? && (job.Erase? || job.RowDelete?))))
    || (answer.Precondition? && (fate.Refused? || fate.Missing?))
    || (answer.Race? && fate.Raced?)
    || (answer.NoSuchUpload? && fate.Unknown? && driver.S3?)
    || (answer.NotFound? && fate.Missing?)
  }

  // ---------- one step ----------

  datatype Step =
    | Begin(i: nat)              // a client starts: it opens an upload or a stream, or sends its request
    | Post(i: nat)               // the client, or its SDK once more, sends its next part
    | Store(i: nat, n: nat)      // the service stores a part that was sent, however late
    | Ack(i: nat)                // the client learns that its next part is stored, or the stream has taken it
    | Commit(i: nat)             // every part is stored: the client sends the commit
    | GiveUp(i: nat, verdict: Verdict) // a part was refused, or the stream failed: the client does not commit
    | Replay(i: nat)             // the SDK sends a copy, and awaits that one's answer
    | Apply(k: nat, version: nat) // the service applies a request
    | Reject(k: nat)             // the service rejects a request that raced another (S3)
    | Lose(k: nat)               // the service finds no upload, or not every block
    | Hear(i: nat, answer: Answer)
    | Retry(i: nat)              // the backoff is over: the client sends again
    | Look(i: nat)               // the client reads the object back
    | LookFails(i: nat)
    | Abort(i: nat)              // an upload is aborted, by its client or a lifecycle rule
    | Discard(name: PartName)    // an uncommitted block expires
    | Sweep                      // someone deletes the object, with no condition

  function WithPhase(w: World, i: nat, phase: Phase): World
    requires i < |w.clients|
  {
    w.(clients := w.clients[i := w.clients[i].(phase := phase)])
  }

  function WithFate(w: World, k: nat, fate: Fate): World
    requires k < |w.sends|
  {
    w.(sends := w.sends[k := w.sends[k].(fate := fate)])
  }

  /** The client sends its request, and waits for the answer to it. */
  function Sent(w: World, i: nat, resent: nat): World
    requires i < |w.clients|
  {
    WithPhase(w.(sends := w.sends + [Send(i, InFlight)]), i, Waiting(resent, |w.sends|))
  }

  predicate Enabled(w: World, step: Step) {
    match step
    case Begin(i) => i < |w.clients| && w.clients[i].phase.Idle? && MayBegin(w, w.clients[i].job)
    case Post(i) =>
      && i < |w.clients| && w.clients[i].phase.Staging? && Assembles(w.driver, w.clients[i].job)
      && w.clients[i].phase.acked < |w.clients[i].job.parts|
    case Store(i, n) =>
      && (i, n) in w.posted
      && i < |w.clients| && WellFormedJob(w.clients[i].job) && Assembles(w.driver, w.clients[i].job)
      && n < |w.clients[i].job.parts| && (w.driver.S3? ==> i in w.uploads)
    case Ack(i) =>
      && i < |w.clients| && WellFormedJob(w.clients[i].job) && w.clients[i].phase.Staging?
      && w.clients[i].job.Put? && w.clients[i].phase.acked < |w.clients[i].job.parts|
      && (!w.driver.Gcs? ==> NameOf(w.driver, i, w.clients[i].job, w.clients[i].phase.acked) in w.parts)
    case Commit(i) =>
      && i < |w.clients| && w.clients[i].phase.Staging?
      && w.clients[i].job.Put? && w.clients[i].phase.acked == |w.clients[i].job.parts|
    case GiveUp(i, verdict) =>
      && i < |w.clients| && w.clients[i].phase.Staging? && w.clients[i].job.Put? && MayGiveUp(w.driver, verdict)
    case Replay(i) => i < |w.clients| && w.clients[i].phase.Waiting? && Replays(w.driver, w.clients[i].job)
    case Apply(k, version) => k < |w.sends| && w.sends[k].fate.InFlight? && CanApply(w, w.sends[k].client)
    case Reject(k) => k < |w.sends| && w.sends[k].fate.InFlight? && w.driver.S3? && IsConditional(w, w.sends[k].client)
    case Lose(k) => k < |w.sends| && w.sends[k].fate.InFlight? && CanLose(w, w.sends[k].client)
    case Hear(i, answer) =>
      && i < |w.clients| && w.clients[i].phase.Waiting? && w.clients[i].phase.current < |w.sends|
      && Answers(w.driver, w.clients[i].job, w.sends[w.clients[i].phase.current].fate, answer)
    case Retry(i) => i < |w.clients| && w.clients[i].phase.Backoff?
    case Look(i) => i < |w.clients| && w.clients[i].phase.Reading?
    case LookFails(i) => i < |w.clients| && w.clients[i].phase.Reading?
    case Abort(i) => i in w.uploads
    case Discard(name) => name.Block? && name in w.parts
    case Sweep => w.cell.Some?
  }

  /**
   * What a put may come to before its commit. A part that is refused, or a stream that fails, is a conflict when the
   * answer reads as one; GCS and Azure read the object back first when it comes after the last write.
   */
  predicate MayGiveUp(driver: Driver, verdict: Verdict) {
    verdict == Finish(Failed) || verdict == Finish(Conflict) || (verdict.ReadBack? && !driver.S3?)
  }

  predicate IsConditional(w: World, i: nat) {
    i < |w.clients| && (w.clients[i].job.Erase? ==> w.clients[i].job.conditional)
  }

  /** A version is one the caller read from the name, so it has been there. */
  predicate MayBegin(w: World, job: Job) {
    match job
    case Put(_, _, _, _) => true
    case Erase(v, _) => WasThere(w, v)
    case RowWrite(_, _, expected) => expected.Version? ==> WasThere(w, expected.version)
    case RowDelete(v) => WasThere(w, v)
  }

  /** The object before the `e`-th change; after the last one, what is there now. */
  function CellAt(w: World, e: nat): Option<Entry>
    requires e <= |w.log|
  {
    if e == 0 then w.initial else w.log[e - 1].after
  }

  predicate HasVersion(cell: Option<Entry>, version: nat) {
    cell.Some? && cell.value.version == version
  }

  /** Whether the name has ever held an object of a version. */
  predicate WasThere(w: World, version: nat) {
    exists e :: 0 <= e <= |w.log| && HasVersion(CellAt(w, e), version)
  }

  predicate CanApply(w: World, i: nat) {
    && i < |w.clients| && WellFormedJob(w.clients[i].job)
    && (Assembles(w.driver, w.clients[i].job) && w.cell.None? ==> HasParts(w, i))
  }

  predicate CanLose(w: World, i: nat) {
    i < |w.clients| && WellFormedJob(w.clients[i].job) && Assembles(w.driver, w.clients[i].job) && !HasParts(w, i)
  }

  /** A request is applied: it lands, is refused, or finds nothing. A landed commit uses up what it was made of. */
  function Applied(w: World, k: nat, version: nat): World
    requires k < |w.sends| && CanApply(w, w.sends[k].client)
  {
    var i := w.sends[k].client;
    var job := w.clients[i].job;
    if Holds(job, w.cell) then
      var after := Outgrowth(w, i, version);
      WithFate(w, k, Landed).(
        cell := after,
        log := w.log + [Event(Some(k), w.cell, after)],
        uploads := w.uploads - {i},
        parts := if w.driver.Azure? && job.Put? then map[] else w.parts)
    else if w.cell.None? && NeedsObject(job) then WithFate(w, k, Missing)
    else WithFate(w, k, Refused)
  }

  function Begun(w: World, i: nat): World
    requires i < |w.clients|
  {
    if Stages(w.clients[i].job) then
      WithPhase(w, i, Staging(0)).(uploads := if w.driver.S3? then w.uploads + {i} else w.uploads)
    else Sent(w, i, 0)
  }

  function Heard(w: World, i: nat, answer: Answer): World
    requires i < |w.clients| && w.clients[i].phase.Waiting?
  {
    var (job, resent) := (w.clients[i].job, w.clients[i].phase.resent);
    WithPhase(w, i, match Decide(w.driver, job, resent, answer)
                    case Finish(outcome) => Done(outcome)
                    case Resend => Backoff(resent)
                    case ReadBack => Reading(answer))
  }

  function Next(w: World, step: Step): World
    requires Enabled(w, step)
  {
    match step
    case Begin(i) => Begun(w, i)
    case Post(i) => w.(posted := w.posted + multiset{(i, w.clients[i].phase.acked)})
    case Store(i, n) =>
      var job := w.clients[i].job;
      w.(parts := w.parts[NameOf(w.driver, i, job, n) := job.parts[n]], posted := w.posted - multiset{(i, n)})
    case Ack(i) => WithPhase(w, i, Staging(w.clients[i].phase.acked + 1))
    case Commit(i) => Sent(w, i, 0)
    case GiveUp(i, verdict) => WithPhase(w, i, if verdict.Finish? then Done(verdict.outcome) else Reading(Precondition))
    case Replay(i) => Sent(w, i, w.clients[i].phase.resent)
    case Apply(k, version) => Applied(w, k, version)
    case Reject(k) => WithFate(w, k, Raced)
    case Lose(k) => WithFate(w, k, Unknown)
    case Hear(i, answer) => Heard(w, i, answer)
    case Retry(i) => Sent(w, i, w.clients[i].phase.resent + 1)
    case Look(i) =>
      WithPhase(w, i, Done(Settle(w.driver, w.clients[i].job, w.clients[i].phase.answer, w.cell)))
    case LookFails(i) => WithPhase(w, i, Done(Failed))
    case Abort(i) => w.(uploads := w.uploads - {i})
    case Discard(name) => w.(parts := w.parts - {name})
    case Sweep => w.(cell := None, log := w.log + [Event(None, w.cell, None)])
  }

  // ---------- runs ----------

  predicate Allowed(w: World, steps: seq<Step>)
    decreases |steps|
  {
    steps == [] || (Enabled(w, steps[0]) && Allowed(Next(w, steps[0]), steps[1..]))
  }

  function After(w: World, steps: seq<Step>): World
    requires Allowed(w, steps)
    decreases |steps|
  {
    if steps == [] then w else After(Next(w, steps[0]), steps[1..])
  }

  /** A start: nothing sent, nothing staged, and no two write ids or nonces alike, nor any the stored object's. */
  predicate Start(w: World) {
    && w.cell == w.initial && w.parts == map[] && w.posted == multiset{} && w.uploads == {} && w.sends == []
    && w.log == []
    && (forall i :: 0 <= i < |w.clients| ==> w.clients[i].phase.Idle? && WellFormedJob(w.clients[i].job))
    && DistinctIds(w)
  }

  function IdOf(job: Job): Option<nat> {
    match job
    case Put(writeId, _, _, _) => Some(writeId)
    case RowWrite(rowId, _, _) => Some(rowId)
    case _ => None
  }

  predicate DistinctIds(w: World) {
    && (forall i, j :: 0 <= i < j < |w.clients| && IdOf(w.clients[i].job).Some? ==>
          IdOf(w.clients[i].job) != IdOf(w.clients[j].job))
    && (forall i, j :: 0 <= i < j < |w.clients| && w.clients[i].job.Put? && w.clients[j].job.Put? ==>
          w.clients[i].job.nonce != w.clients[j].job.nonce)
    && (forall i :: 0 <= i < |w.clients| && w.initial.Some? && w.initial.value.id.Some? ==>
          IdOf(w.clients[i].job) != w.initial.value.id)
  }

  lemma {:induction false} RunsCompose(w: World, a: seq<Step>, b: seq<Step>)
    requires Allowed(w, a + b)
    ensures Allowed(w, a) && Allowed(After(w, a), b) && After(w, a + b) == After(After(w, a), b)
    decreases |a|
  {
    if a == [] {
      assert a + b == b;
    } else {
      assert (a + b)[1..] == a[1..] + b;
      RunsCompose(Next(w, a[0]), a[1..], b);
    }
  }
}
