/**
 * Runs that show where a promise ends. Each is a start and the steps of one allowed run, so a reader sees that the
 * assumptions of `WriteOnce` and `Swaps` are needed, and which guarantees the drivers do not give.
 */
module Runs {

  import opened Bytes
  import opened Service
  import opened History
  import opened Landings
  import opened WriteOnce
  import opened Swaps
  import BlockIds

  /** One more step of a run, from the world it has reached to the next. */
  lemma Take(w: World, steps: seq<Step>, x: World, step: Step, y: World) returns (more: seq<Step>)
    requires Allowed(w, steps) && After(w, steps) == x && Enabled(x, step) && Next(x, step) == y
    ensures more == steps + [step] && Allowed(w, more) && After(w, more) == y
    decreases |steps|
  {
    hide Enabled, Next;
    more := steps + [step];
    if steps == [] {
      assert [step][1..] == [];
    } else {
      assert more[1..] == steps[1..] + [step];
      var rest := Take(Next(w, steps[0]), steps[1..], x, step, y);
    }
  }

  // ---------- the steps the runs are made of, one at a time ----------

  lemma Begins(w: World, steps: seq<Step>, x: World, i: nat, y: World) returns (more: seq<Step>)
    requires Allowed(w, steps) && After(w, steps) == x
    requires i < |x.clients| && x.clients[i].phase.Idle? && MayBegin(x, x.clients[i].job)
    requires !Stages(x.clients[i].job) && Sent(x, i, 0) == y
    ensures Allowed(w, more) && After(w, more) == y
  {
    more := Take(w, steps, x, Begin(i), y);
  }

  lemma Replays(w: World, steps: seq<Step>, x: World, i: nat, y: World) returns (more: seq<Step>)
    requires Allowed(w, steps) && After(w, steps) == x
    requires i < |x.clients| && x.clients[i].phase.Waiting? && Service.Replays(x.driver, x.clients[i].job)
    requires Sent(x, i, x.clients[i].phase.resent) == y
    ensures Allowed(w, more) && After(w, more) == y
  {
    more := Take(w, steps, x, Replay(i), y);
  }

  lemma Applies(w: World, steps: seq<Step>, x: World, k: nat, version: nat, y: World) returns (more: seq<Step>)
    requires Allowed(w, steps) && After(w, steps) == x
    requires k < |x.sends| && x.sends[k].fate.InFlight? && CanApply(x, x.sends[k].client)
    requires Applied(x, k, version) == y
    ensures Allowed(w, more) && After(w, more) == y
  {
    more := Take(w, steps, x, Apply(k, version), y);
  }

  lemma Hears(w: World, steps: seq<Step>, x: World, i: nat, answer: Answer, y: World) returns (more: seq<Step>)
    requires Allowed(w, steps) && After(w, steps) == x
    requires i < |x.clients| && x.clients[i].phase.Waiting? && x.clients[i].phase.current < |x.sends|
    requires Answers(x.driver, x.clients[i].job, x.sends[x.clients[i].phase.current].fate, answer)
    requires Heard(x, i, answer) == y
    ensures Allowed(w, more) && After(w, more) == y
  {
    more := Take(w, steps, x, Hear(i, answer), y);
  }

  lemma Retries(w: World, steps: seq<Step>, x: World, i: nat, y: World) returns (more: seq<Step>)
    requires Allowed(w, steps) && After(w, steps) == x
    requires i < |x.clients| && x.clients[i].phase.Backoff? && Sent(x, i, x.clients[i].phase.resent + 1) == y
    ensures Allowed(w, more) && After(w, more) == y
  {
    more := Take(w, steps, x, Retry(i), y);
  }

  lemma Looks(w: World, steps: seq<Step>, x: World, i: nat, y: World) returns (more: seq<Step>)
    requires Allowed(w, steps) && After(w, steps) == x && i < |x.clients| && x.clients[i].phase.Reading?
    requires WithPhase(x, i, Done(Settle(x.driver, x.clients[i].job, x.clients[i].phase.answer, x.cell))) == y
    ensures Allowed(w, more) && After(w, more) == y
  {
    more := Take(w, steps, x, Look(i), y);
  }

  lemma Sweeps(w: World, steps: seq<Step>, x: World, y: World) returns (more: seq<Step>)
    requires Allowed(w, steps) && After(w, steps) == x && x.cell.Some?
    requires x.(cell := None, log := x.log + [Event(None, x.cell, None)]) == y
    ensures Allowed(w, more) && After(w, more) == y
  {
    more := Take(w, steps, x, Sweep, y);
  }

  function Fresh(driver: Driver, cell: Option<Entry>, clients: seq<Client>): World {
    World(driver, cell, cell, map[], multiset{}, {}, clients, [], [])
  }

  // ---------- Azure's registry: unsettled, and landed ----------

  const OLD_ROW := Some(Entry(0, None, []))
  const ROW_A := Some(Entry(1, Some(1), [1]))
  const ROW_B := Some(Entry(2, Some(2), [2]))
  const WRITE_A := RowWrite(1, [1], Version(0))
  const WRITE_B := RowWrite(2, [2], Version(1))

  /** The first write has landed, its answer is lost, and the SDK has sent a copy. */
  function CopySent(): World {
    World(Azure, OLD_ROW, ROW_A, map[], multiset{}, {}, [Client(WRITE_A, Waiting(0, 1)), Client(WRITE_B, Idle)],
          [Send(0, Landed), Send(0, InFlight)], [Event(Some(0), OLD_ROW, ROW_A)])
  }

  lemma CopyIsSent() returns (steps: seq<Step>)
    ensures var w := Fresh(Azure, OLD_ROW, [Client(WRITE_A, Idle), Client(WRITE_B, Idle)]);
            Start(w) && Allowed(w, steps) && After(w, steps) == CopySent()
  {
    hide Allowed, After, Enabled, Next, Start;
    var w := Fresh(Azure, OLD_ROW, [Client(WRITE_A, Idle), Client(WRITE_B, Idle)]);
    Starts(w);
    assert HasVersion(CellAt(w, 0), 0);
    var w1 := w.(clients := [Client(WRITE_A, Waiting(0, 0)), Client(WRITE_B, Idle)], sends := [Send(0, InFlight)]);
    steps := Begins(w, [], w, 0, w1);
    var w2 := w1.(sends := [Send(0, Landed)], cell := ROW_A, log := [Event(Some(0), OLD_ROW, ROW_A)]);
    steps := Applies(w, steps, w1, 0, 1, w2);
    steps := Replays(w, steps, w2, 0, CopySent());
  }

  /**
   * On Azure an unsettled conflict may be of a write that landed: its answer was lost, another writer swapped in on
   * top, and the SDK's copy was refused.
   */
  lemma UnsettledButLanded() returns (w: World, steps: seq<Step>, v: World)
    ensures Start(w) && Allowed(w, steps) && After(w, steps) == v && NoReuse(v)
    ensures |w.clients| == |v.clients| == 2 && w.driver.Azure? && w.clients[0].job == WRITE_A
    ensures v.clients[0].phase == Done(Unsettled) && LandedBy(v, 0)
  {
    hide Allowed, After, Enabled, Next, NoReuse, Start;
    w := Fresh(Azure, OLD_ROW, [Client(WRITE_A, Idle), Client(WRITE_B, Idle)]);
    steps := CopyIsSent();
    var w3 := CopySent();
    assert HasVersion(CellAt(w3, 1), 1);
    var w4 := w3.(clients := [Client(WRITE_A, Waiting(0, 1)), Client(WRITE_B, Waiting(0, 2))],
                  sends := [Send(0, Landed), Send(0, InFlight), Send(1, InFlight)]);
    steps := Begins(w, steps, w3, 1, w4);
    var w5 := w4.(sends := [Send(0, Landed), Send(0, InFlight), Send(1, Landed)], cell := ROW_B,
                  log := [Event(Some(0), OLD_ROW, ROW_A), Event(Some(2), ROW_A, ROW_B)]);
    steps := Applies(w, steps, w4, 2, 2, w5);
    var w6 := w5.(sends := [Send(0, Landed), Send(0, Refused), Send(1, Landed)]);
    steps := Applies(w, steps, w5, 1, 3, w6);
    var w7 := w6.(clients := [Client(WRITE_A, Reading(Precondition)), Client(WRITE_B, Waiting(0, 2))]);
    steps := Hears(w, steps, w6, 0, Precondition, w7);
    v := w7.(clients := [Client(WRITE_A, Done(Unsettled)), Client(WRITE_B, Waiting(0, 2))]);
    steps := Looks(w, steps, w7, 0, v);
    assert v.sends[0] == Send(0, Landed);
    TwoNewVersions(v, 0, 1, 2);
  }

  lemma TwoNewVersions(w: World, first: nat, second: nat, third: nat)
    requires first != second && second != third && first != third && |w.log| == 2
    requires HasVersion(w.initial, first) && HasVersion(w.log[0].after, second) && HasVersion(w.log[1].after, third)
    ensures NoReuse(w)
  {
  }

  /** A start of two clients that have nothing in common. */
  lemma Starts(w: World)
    requires w == Fresh(w.driver, w.initial, w.clients) && |w.clients| == 2
    requires w.clients[0].phase.Idle? && w.clients[1].phase.Idle?
    requires WellFormedJob(w.clients[0].job) && WellFormedJob(w.clients[1].job)
    requires IdOf(w.clients[0].job) != IdOf(w.clients[1].job)
    requires w.clients[0].job.Put? && w.clients[1].job.Put? ==> w.clients[0].job.nonce != w.clients[1].job.nonce
    requires w.initial.Some? ==> w.initial.value.id.None?
    ensures Start(w) && Allowed(w, []) && After(w, []) == w
  {
  }

  // ---------- a put told of a conflict that lands after a deletion ----------

  const PUT_A := Put(1, "aaaaaaaaaaaa", [[1]], false)
  const PUT_B := Put(2, "bbbbbbbbbbbb", [[2]], false)
  const OBJECT_A := Some(Entry(6, Some(1), [1]))
  const OBJECT_B := Some(Entry(5, Some(2), [2]))

  lemma Bodies()
    ensures Concat([[1]]) == [1] && Concat([[2]]) == [2]
    ensures WellFormedJob(PUT_A) && WellFormedJob(PUT_B) && PUT_A.nonce != PUT_B.nonce
  {
    assert PUT_A.nonce[0] != PUT_B.nonce[0];
  }

  /** The first put was throttled and is still on its way; its re-send was refused by the second put's object. */
  function Resent(): World {
    World(S3, None, OBJECT_B, map[], multiset{}, {},
          [Client(PUT_A, Reading(Precondition)), Client(PUT_B, Waiting(0, 1))],
          [Send(0, InFlight), Send(1, Landed), Send(0, Refused)], [Event(Some(1), None, OBJECT_B)])
  }

  lemma PutIsResent() returns (steps: seq<Step>)
    ensures var w := Fresh(S3, None, [Client(PUT_A, Idle), Client(PUT_B, Idle)]);
            Start(w) && Allowed(w, steps) && After(w, steps) == Resent()
  {
    hide Allowed, After, Enabled, Next, Start, WellFormedJob;
    Bodies();
    var w := Fresh(S3, None, [Client(PUT_A, Idle), Client(PUT_B, Idle)]);
    Starts(w);
    var w1 := w.(clients := [Client(PUT_A, Waiting(0, 0)), Client(PUT_B, Idle)], sends := [Send(0, InFlight)]);
    steps := Begins(w, [], w, 0, w1);
    var w2 := w1.(clients := [Client(PUT_A, Backoff(0)), Client(PUT_B, Idle)]);
    steps := Hears(w, steps, w1, 0, Throttled, w2);
    var w3 := w2.(clients := [Client(PUT_A, Backoff(0)), Client(PUT_B, Waiting(0, 1))],
                  sends := [Send(0, InFlight), Send(1, InFlight)]);
    steps := Begins(w, steps, w2, 1, w3);
    var w4 := w3.(sends := [Send(0, InFlight), Send(1, Landed)], cell := OBJECT_B,
                  log := [Event(Some(1), None, OBJECT_B)]);
    steps := Applies(w, steps, w3, 1, 5, w4);
    var w5 := w4.(clients := [Client(PUT_A, Waiting(1, 2)), Client(PUT_B, Waiting(0, 1))],
                  sends := [Send(0, InFlight), Send(1, Landed), Send(0, InFlight)]);
    steps := Retries(w, steps, w4, 0, w5);
    var w6 := w5.(sends := [Send(0, InFlight), Send(1, Landed), Send(0, Refused)]);
    steps := Applies(w, steps, w5, 2, 0, w6);
    steps := Hears(w, steps, w6, 0, Precondition, Resent());
  }

  /**
   * `ConflictNeverLands` needs that nothing deletes: once the object that refused the re-send is gone, the read-back
   * still reports the conflict, and the throttled first send can then land.
   */
  lemma ConflictLandsAfterADelete() returns (w: World, steps: seq<Step>, v: World)
    ensures Start(w) && PutsOnly(w) && Allowed(w, steps) && After(w, steps) == v
    ensures |v.clients| == 2 && v.clients[0] == Client(PUT_A, Done(Conflict)) && v.cell == OBJECT_A
  {
    hide Allowed, After, Enabled, Next, Start, WellFormedJob;
    Bodies();
    w := Fresh(S3, None, [Client(PUT_A, Idle), Client(PUT_B, Idle)]);
    steps := PutIsResent();
    var w1 := Resent();
    var w2 := w1.(cell := None, log := [Event(Some(1), None, OBJECT_B), Event(None, OBJECT_B, None)]);
    steps := Sweeps(w, steps, w1, w2);
    var w3 := w2.(clients := [Client(PUT_A, Done(Conflict)), Client(PUT_B, Waiting(0, 1))]);
    steps := Looks(w, steps, w2, 0, w3);
    v := w3.(sends := [Send(0, Landed), Send(1, Landed), Send(0, Refused)], cell := OBJECT_A,
             log := [Event(Some(1), None, OBJECT_B), Event(None, OBJECT_B, None), Event(Some(0), None, OBJECT_A)]);
    steps := Applies(w, steps, w3, 0, 6, v);
  }

  // ---------- deletes ----------

  const ERASE := Erase(0, true)
  const ERASE_ANY := Erase(0, false)

  /** A delete has landed, its answer is lost, and the SDK has sent a copy. */
  function DeleteCopied(): World {
    World(Azure, OLD_ROW, None, map[], multiset{}, {}, [Client(ERASE, Waiting(0, 1)), Client(PUT_A, Idle)],
          [Send(0, Landed), Send(0, InFlight)], [Event(Some(0), OLD_ROW, None)])
  }

  lemma DeleteIsCopied() returns (steps: seq<Step>)
    ensures var w := Fresh(Azure, OLD_ROW, [Client(ERASE, Idle), Client(PUT_A, Idle)]);
            Start(w) && Allowed(w, steps) && After(w, steps) == DeleteCopied()
  {
    hide Allowed, After, Enabled, Next, Start, WellFormedJob;
    Bodies();
    var w := Fresh(Azure, OLD_ROW, [Client(ERASE, Idle), Client(PUT_A, Idle)]);
    NotAPut(ERASE);
    Starts(w);
    assert HasVersion(CellAt(w, 0), 0);
    var w1 := w.(clients := [Client(ERASE, Waiting(0, 0)), Client(PUT_A, Idle)], sends := [Send(0, InFlight)]);
    steps := Begins(w, [], w, 0, w1);
    var w2 := w1.(sends := [Send(0, Landed)], cell := None, log := [Event(Some(0), OLD_ROW, None)]);
    steps := Applies(w, steps, w1, 0, 0, w2);
    steps := Replays(w, steps, w2, 0, DeleteCopied());
  }

  /** A delete whose answer was lost, and the object stored since: the copy is refused, and the conflict is reported. */
  lemma DeleteConflictsThoughItDeleted() returns (w: World, steps: seq<Step>, v: World)
    ensures Start(w) && w.driver.Azure? && Allowed(w, steps) && After(w, steps) == v
    ensures |v.clients| == 2 && v.clients[0] == Client(ERASE, Done(Conflict))
    ensures |v.log| == 2 && v.log[0] == Event(Some(0), OLD_ROW, None) && |v.sends| == 3 && v.sends[0] == Send(0, Landed)
  {
    hide Allowed, After, Enabled, Next, Start, WellFormedJob;
    Bodies();
    NotAPut(ERASE);
    steps := DeleteIsCopied();
    w := Fresh(Azure, OLD_ROW, [Client(ERASE, Idle), Client(PUT_A, Idle)]);
    var w3 := DeleteCopied();
    var w4 := w3.(clients := [Client(ERASE, Waiting(0, 1)), Client(PUT_A, Waiting(0, 2))],
                  sends := [Send(0, Landed), Send(0, InFlight), Send(1, InFlight)]);
    steps := Begins(w, steps, w3, 1, w4);
    var w5 := w4.(sends := [Send(0, Landed), Send(0, InFlight), Send(1, Landed)], cell := OBJECT_A,
                  log := [Event(Some(0), OLD_ROW, None), Event(Some(2), None, OBJECT_A)]);
    steps := Applies(w, steps, w4, 2, 6, w5);
    var w6 := w5.(sends := [Send(0, Landed), Send(0, Refused), Send(1, Landed)]);
    steps := Applies(w, steps, w5, 1, 0, w6);
    var w7 := w6.(clients := [Client(ERASE, Reading(Precondition)), Client(PUT_A, Waiting(0, 2))]);
    steps := Hears(w, steps, w6, 0, Precondition, w7);
    v := w7.(clients := [Client(ERASE, Done(Conflict)), Client(PUT_A, Waiting(0, 2))]);
    steps := Looks(w, steps, w7, 0, v);
  }

  lemma NotAPut(job: Job)
    requires !job.Put?
    ensures WellFormedJob(job)
  {
  }

  /** A delete sent without its condition, GCS's default, takes an object of another version. */
  lemma UnconditionalDeleteTakesAnother() returns (w: World, steps: seq<Step>, v: World)
    ensures Start(w) && w.driver.Gcs? && Allowed(w, steps) && After(w, steps) == v
    ensures |w.clients| == 2 && w.clients[0].job == ERASE_ANY && |v.sends| == 2 && v.sends[0] == Send(0, Landed)
    ensures |v.log| == 3 && v.log[2] == Event(Some(0), OBJECT_A, None) && !HasVersion(OBJECT_A, ERASE_ANY.ifVersion)
  {
    hide Allowed, After, Enabled, Next, Start, WellFormedJob;
    Bodies();
    w := Fresh(Gcs, OLD_ROW, [Client(ERASE_ANY, Idle), Client(PUT_A, Idle)]);
    NotAPut(ERASE_ANY);
    Starts(w);
    assert HasVersion(CellAt(w, 0), 0);
    var w1 := w.(clients := [Client(ERASE_ANY, Waiting(0, 0)), Client(PUT_A, Idle)], sends := [Send(0, InFlight)]);
    steps := Begins(w, [], w, 0, w1);
    var w2 := w1.(cell := None, log := [Event(None, OLD_ROW, None)]);
    steps := Sweeps(w, steps, w1, w2);
    var w3 := w2.(clients := [Client(ERASE_ANY, Waiting(0, 0)), Client(PUT_A, Waiting(0, 1))],
                  sends := [Send(0, InFlight), Send(1, InFlight)]);
    steps := Begins(w, steps, w2, 1, w3);
    var w4 := w3.(sends := [Send(0, InFlight), Send(1, Landed)], cell := OBJECT_A,
                  log := [Event(None, OLD_ROW, None), Event(Some(1), None, OBJECT_A)]);
    steps := Applies(w, steps, w3, 1, 6, w4);
    v := w4.(sends := [Send(0, Landed), Send(1, Landed)], cell := None,
             log := [Event(None, OLD_ROW, None), Event(Some(1), None, OBJECT_A), Event(Some(0), OBJECT_A, None)]);
    steps := Applies(w, steps, w4, 0, 0, v);
  }

  // ---------- rows ----------

  const FIRST_ROW := Some(Entry(1, None, [1]))
  const LAST_ROW := Some(Entry(2, None, [9]))
  const SWAP := RowWrite(1, [9], Version(1))
  const AGAIN := RowWrite(2, [1], Absent)

  /** Where a row body is written twice, S3 gives its ETag twice, and a swap lands on a row its caller never read. */
  lemma SameBodySameEtag() returns (w: World, steps: seq<Step>, v: World)
    ensures Start(w) && w.driver.S3? && Allowed(w, steps) && After(w, steps) == v && !NoReuse(v)
    ensures |v.log| == 3 && v.log[0] == Event(None, FIRST_ROW, None)
    ensures v.log[2] == Event(Some(0), FIRST_ROW, LAST_ROW) && |v.sends| == 2 && v.sends[0] == Send(0, Landed)
  {
    hide Allowed, After, Enabled, Next, Start;
    w := Fresh(S3, FIRST_ROW, [Client(SWAP, Idle), Client(AGAIN, Idle)]);
    Starts(w);
    assert HasVersion(CellAt(w, 0), 1);
    var w1 := w.(clients := [Client(SWAP, Waiting(0, 0)), Client(AGAIN, Idle)], sends := [Send(0, InFlight)]);
    steps := Begins(w, [], w, 0, w1);
    var w2 := w1.(cell := None, log := [Event(None, FIRST_ROW, None)]);
    steps := Sweeps(w, steps, w1, w2);
    var w3 := w2.(clients := [Client(SWAP, Waiting(0, 0)), Client(AGAIN, Waiting(0, 1))],
                  sends := [Send(0, InFlight), Send(1, InFlight)]);
    steps := Begins(w, steps, w2, 1, w3);
    var w4 := w3.(sends := [Send(0, InFlight), Send(1, Landed)], cell := FIRST_ROW,
                  log := [Event(None, FIRST_ROW, None), Event(Some(1), None, FIRST_ROW)]);
    steps := Applies(w, steps, w3, 1, 1, w4);
    v := w4.(sends := [Send(0, Landed), Send(1, Landed)], cell := LAST_ROW,
             log := [Event(None, FIRST_ROW, None), Event(Some(1), None, FIRST_ROW),
                    Event(Some(0), FIRST_ROW, LAST_ROW)]);
    steps := Applies(w, steps, w4, 0, 2, v);
    assert CellAt(v, 0) == FIRST_ROW && CellAt(v, 2) == FIRST_ROW;
  }

  const CREATE := RowWrite(1, [1], Absent)
  const CREATED := Some(Entry(1, Some(1), [1]))
  const CREATED_AGAIN := Some(Entry(2, Some(1), [1]))

  /** A row created where none is expected can be created twice on Azure: the SDK's copy lands after a deletion. */
  lemma CreateLandsTwice() returns (w: World, steps: seq<Step>, v: World)
    ensures Start(w) && w.driver.Azure? && Allowed(w, steps) && After(w, steps) == v
    ensures |w.clients| == 2 && w.clients[0].job == CREATE && |v.sends| == 2
    ensures v.sends[0] == Send(0, Landed) && v.sends[1] == Send(0, Landed) && v.cell == CREATED_AGAIN
  {
    hide Allowed, After, Enabled, Next, Start;
    w := Fresh(Azure, None, [Client(CREATE, Idle), Client(WRITE_B, Idle)]);
    Starts(w);
    var w1 := w.(clients := [Client(CREATE, Waiting(0, 0)), Client(WRITE_B, Idle)], sends := [Send(0, InFlight)]);
    steps := Begins(w, [], w, 0, w1);
    var w2 := w1.(clients := [Client(CREATE, Waiting(0, 1)), Client(WRITE_B, Idle)],
                  sends := [Send(0, InFlight), Send(0, InFlight)]);
    steps := Replays(w, steps, w1, 0, w2);
    var w3 := w2.(sends := [Send(0, Landed), Send(0, InFlight)], cell := CREATED,
                  log := [Event(Some(0), None, CREATED)]);
    steps := Applies(w, steps, w2, 0, 1, w3);
    var w4 := w3.(cell := None, log := [Event(Some(0), None, CREATED), Event(None, CREATED, None)]);
    steps := Sweeps(w, steps, w3, w4);
    v := w4.(sends := [Send(0, Landed), Send(0, Landed)], cell := CREATED_AGAIN,
             log := [Event(Some(0), None, CREATED), Event(None, CREATED, None), Event(Some(1), None, CREATED_AGAIN)]);
    steps := Applies(w, steps, w4, 1, 2, v);
  }

  // ---------- S3's registry: the row is gone, and no conflict is told ----------

  /**
   * A swap of a row that was deleted since it was read, and is answered that the row is absent, is told of no
   * conflict.
   */
  lemma DeletedRowIsNoConflict() returns (w: World, steps: seq<Step>, v: World)
    ensures Start(w) && w.driver.S3? && Allowed(w, steps) && After(w, steps) == v
    ensures |w.clients| == |v.clients| == 2 && w.clients[0].job == WRITE_A && WRITE_A.expected == Version(0)
    ensures HasVersion(w.cell, 0) && v.sends == [Send(0, Missing)] && v.cell.None?
    ensures v.clients[0].phase == Done(Failed)
  {
    hide Allowed, After, Enabled, Next, Start, WellFormedJob;
    w := Fresh(S3, OLD_ROW, [Client(WRITE_A, Idle), Client(WRITE_B, Idle)]);
    NotAPut(WRITE_A);
    NotAPut(WRITE_B);
    Starts(w);
    assert HasVersion(CellAt(w, 0), 0);
    var w1 := w.(clients := [Client(WRITE_A, Waiting(0, 0)), Client(WRITE_B, Idle)], sends := [Send(0, InFlight)]);
    steps := Begins(w, [], w, 0, w1);
    var w2 := w1.(cell := None, log := [Event(None, OLD_ROW, None)]);
    steps := Sweeps(w, steps, w1, w2);
    var w3 := w2.(sends := [Send(0, Missing)]);
    steps := Applies(w, steps, w2, 0, 0, w3);
    v := w3.(clients := [Client(WRITE_A, Done(Failed)), Client(WRITE_B, Idle)]);
    steps := Hears(w, steps, w3, 0, NotFound, v);
  }
}
