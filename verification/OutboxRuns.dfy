/** Any number of publishers over one outbox table, their turns interleaved at will, any of
    them dying between two turns. */
module OutboxRuns {
  import opened Prelude
  import opened Outbox

  /** What LockPending hands to the loop. */
  datatype PendingEvent = PendingEvent(id: nat, key: int)

  function Load(rows: seq<Row>, ids: seq<nat>): (batch: seq<PendingEvent>)
    requires Within(ids, |rows|)
  {
    seq(|ids|, i requires 0 <= i < |ids| => PendingEvent(ids[i], rows[ids[i]].key))
  }

  /** A publisher inside a pass: its batch, the turn it is at, the keys it blocked, and which
      turns ended with the broker's consent. */
  datatype Work = Work(batch: seq<PendingEvent>, next: nat, blocked: set<int>, acked: seq<bool>)

  datatype World = World(rows: seq<Row>, works: map<int, Work>, locks: nat)

  const START := World([], map[], 0)

  datatype Step =
    | Add(key: int, now: int)
    | Lock(worker: int, limit: nat, busy: set<nat>, now: int, listed: seq<nat>)
    | Handle(worker: int, outcome: Outcome, now: int)
    | Die(worker: int)

  predicate Idle(w: World, worker: int) {
    worker in w.works ==> w.works[worker].next >= |w.works[worker].batch|
  }

  /** The batch comes in the order in which the database happens to list it. */
  function LockStep(w: World, worker: int, limit: nat, busy: set<nat>, now: int, listed: seq<nat>): World {
    Locking(w, worker, Returned(Pick(w.rows, 0, limit, busy, now), listed))
  }

  function Locking(w: World, worker: int, ids: seq<nat>): World
    requires Within(ids, |w.rows|) && Distinct(ids)
  {
    World(LockRows(w.rows, ids), w.works[worker := Work(Load(w.rows, ids), 0, {}, [])], w.locks + |ids|)
  }

  function HandleStep(w: World, worker: int, o: Outcome, now: int): World
    requires !Idle(w, worker)
  {
    var k := w.works[worker];
    var e := k.batch[k.next];
    var stop := e.key in k.blocked;
    World(if e.id < |w.rows| then w.rows[e.id := Turn(w.rows[e.id], stop, o, now)] else w.rows,
          w.works[worker := Next(k, o)], w.locks)
  }

  function Next(k: Work, o: Outcome): Work
    requires k.next < |k.batch|
  {
    var key := k.batch[k.next].key;
    var stop := key in k.blocked;
    Work(k.batch, k.next + 1, if stop || o.answer.Accepted? then k.blocked else k.blocked + {key},
         k.acked + [Acked(stop, o)])
  }

  function Do(w: World, s: Step): World {
    match s
    case Add(key, now) => w.(rows := w.rows + [NewRow(key, now)])
    case Lock(worker, limit, busy, now, listed) =>
      if Idle(w, worker) then LockStep(w, worker, limit, busy, now, listed) else w
    case Handle(worker, o, now) => if Idle(w, worker) then w else HandleStep(w, worker, o, now)
    case Die(worker) => w.(works := w.works - {worker})
  }

  function Run(w: World, steps: seq<Step>): World
    decreases |steps|
  {
    if steps == [] then w else Do(Run(w, steps[..|steps| - 1]), steps[|steps| - 1])
  }

  // ---------------------------------------------------------------- what every run keeps

  /** Attempts by status: an event still in the queue has at most 19 behind it, one being
      handled or done between 1 and 20, a dropped one exactly 20. Every copy at the broker was
      asked for; every attempt of a row that came back was a request or a turn spent blocked. */
  predicate RowSound(r: Row) {
    && r.copies <= r.tries && r.tries + r.blocks <= r.attempts <= MAX_ATTEMPTS
    && (r.saved ==> r.tries > 0 && r.attempts == MAX_ATTEMPTS)
    && match r.status
       case Pending => r.attempts == 0
       case Retry => 1 <= r.attempts < MAX_ATTEMPTS && r.tries + r.blocks == r.attempts
       case Processing => 1 <= r.attempts <= r.tries + r.blocks + 1
       case Published => 1 <= r.copies
       case Failed => r.attempts == MAX_ATTEMPTS && r.tries + r.blocks == MAX_ATTEMPTS
  }

  predicate Holds(k: Work, id: nat) {
    exists n :: k.next <= n < |k.batch| && k.batch[n].id == id
  }

  ghost predicate Sound(w: World) {
    && (forall id :: 0 <= id < |w.rows| ==> RowSound(w.rows[id]))
    && WorksSound(w.works, w.rows)
    && Apart(w.works)
    && w.locks == Attempts(w.rows)
  }

  ghost predicate WorksSound(works: map<int, Work>, rows: seq<Row>) {
    forall p <- works :: WorkSound(works[p], rows)
  }

  /** No event is held by two publishers. */
  ghost predicate Apart(works: map<int, Work>) {
    forall p <- works, q <- works, id: nat :: Holds(works[p], id) && Holds(works[q], id) ==> p == q
  }

  ghost predicate WorkSound(k: Work, rows: seq<Row>) {
    && (forall n :: 0 <= n < |k.batch| ==> k.batch[n].id < |rows| && rows[k.batch[n].id].key == k.batch[n].key)
    && (forall i, j :: 0 <= i < j < |k.batch| ==> k.batch[i].id != k.batch[j].id)
    && (forall n :: k.next <= n < |k.batch| ==> Handling(rows[k.batch[n].id]))
  }

  predicate Handling(r: Row) {
    r.status.Processing? && r.tries + r.blocks + 1 == r.attempts && !r.saved
  }

  function Attempts(rows: seq<Row>): nat {
    if rows == [] then 0 else Attempts(rows[..|rows| - 1]) + rows[|rows| - 1].attempts
  }

  lemma {:induction false} AttemptsAfter(rows: seq<Row>, id: nat, r: Row)
    requires id < |rows|
    ensures Attempts(rows[id := r]) == Attempts(rows) - rows[id].attempts + r.attempts
    decreases |rows|
  {
    var n := |rows| - 1;
    if id < n {
      assert rows[id := r][..n] == rows[..n][id := r];
      AttemptsAfter(rows[..n], id, r);
    } else {
      assert rows[id := r][..n] == rows[..n];
    }
  }

  lemma {:induction false} LockingCounts(rows: seq<Row>, ids: seq<nat>)
    requires Within(ids, |rows|) && Distinct(ids)
    ensures Attempts(LockRows(rows, ids)) == Attempts(rows) + |ids|
    decreases |ids|
  {
    if ids != [] {
      var n := |ids| - 1;
      var r := LockRows(rows, ids[..n]);
      LockingCounts(rows, ids[..n]);
      assert ids[n] !in ids[..n];
      AttemptsAfter(r, ids[n], Locked(r[ids[n]]));
    }
  }

  lemma AddKeeps(w: World, key: int, now: int)
    requires Sound(w)
    ensures Sound(Do(w, Add(key, now)))
  {
    var r := NewRow(key, now);
    assert (w.rows + [r])[..|w.rows|] == w.rows;
    forall p <- w.works ensures WorkSound(w.works[p], w.rows + [r]) {
    }
  }

  lemma LockKeepsOthers(rows: seq<Row>, ids: seq<nat>, k: Work)
    requires Free(rows, ids) && WorkSound(k, rows)
    ensures WorkSound(k, LockRows(rows, ids))
  {
  }

  lemma LockedRowsSound(rows: seq<Row>, ids: seq<nat>)
    requires Within(ids, |rows|) && Distinct(ids)
    requires forall id <- ids :: rows[id].status.Pending? || rows[id].status.Retry?
    requires forall id :: 0 <= id < |rows| ==> RowSound(rows[id])
    ensures var after := LockRows(rows, ids);
            && (forall id :: 0 <= id < |rows| ==> RowSound(after[id]))
            && WorkSound(Work(Load(rows, ids), 0, {}, []), after)
  {
  }

  /** A publisher that takes over nothing but free events leaves all publishers apart. */
  lemma StaysApart(works: map<int, Work>, worker: int, k: Work)
    requires Apart(works)
    requires forall p <- works, id: nat :: p != worker && Holds(k, id) ==> !Holds(works[p], id)
    ensures Apart(works[worker := k])
  {
  }

  predicate Free(rows: seq<Row>, ids: seq<nat>) {
    && Within(ids, |rows|) && Distinct(ids)
    && forall id <- ids :: rows[id].status.Pending? || rows[id].status.Retry?
  }

  lemma LockingWorks(works: map<int, Work>, rows: seq<Row>, worker: int, ids: seq<nat>)
    requires Free(rows, ids) && WorksSound(works, rows)
    requires WorkSound(Work(Load(rows, ids), 0, {}, []), LockRows(rows, ids))
    ensures WorksSound(works[worker := Work(Load(rows, ids), 0, {}, [])], LockRows(rows, ids))
  {
    forall p <- works ensures WorkSound(works[p], LockRows(rows, ids)) {
      LockKeepsOthers(rows, ids, works[p]);
    }
  }

  lemma LockingApart(works: map<int, Work>, rows: seq<Row>, worker: int, ids: seq<nat>)
    requires Free(rows, ids) && Apart(works) && WorksSound(works, rows)
    ensures Apart(works[worker := Work(Load(rows, ids), 0, {}, [])])
  {
    var k := Work(Load(rows, ids), 0, {}, []);
    forall p <- works, id: nat | p != worker && Holds(k, id) ensures !Holds(works[p], id) {
      assert id in ids;
    }
    StaysApart(works, worker, k);
  }

  lemma LockingKeeps(w: World, worker: int, ids: seq<nat>)
    requires Sound(w) && Free(w.rows, ids)
    ensures Sound(Locking(w, worker, ids))
  {
    LockingCounts(w.rows, ids);
    LockedRowsSound(w.rows, ids);
    LockingWorks(w.works, w.rows, worker, ids);
    LockingApart(w.works, w.rows, worker, ids);
  }

  lemma ReturnedAreFree(rows: seq<Row>, limit: nat, busy: set<nat>, now: int, listed: seq<nat>)
    ensures var picked := Pick(rows, 0, limit, busy, now);
            Free(rows, Returned(picked, listed)) && forall id <- Returned(picked, listed) :: id in picked
  {
    PickExact(rows, 0, limit, busy, now);
  }

  lemma LockKeeps(w: World, worker: int, limit: nat, busy: set<nat>, now: int, listed: seq<nat>)
    requires Sound(w)
    ensures Sound(Do(w, Lock(worker, limit, busy, now, listed)))
  {
    if Idle(w, worker) {
      ReturnedAreFree(w.rows, limit, busy, now, listed);
      LockingKeeps(w, worker, Returned(Pick(w.rows, 0, limit, busy, now), listed));
    }
  }

  lemma TurnKeeps(r: Row, stop: bool, o: Outcome, now: int)
    requires RowSound(r) && Handling(r)
    ensures RowSound(Turn(r, stop, o, now)) && Turn(r, stop, o, now).attempts == r.attempts
  {
  }

  lemma TurnKeepsWork(k: Work, rows: seq<Row>, id: nat, r: Row)
    requires WorkSound(k, rows) && id < |rows| && r.key == rows[id].key && !Holds(k, id)
    ensures WorkSound(k, rows[id := r])
  {
  }

  lemma HandleKeeps(w: World, worker: int, o: Outcome, now: int)
    requires Sound(w)
    ensures Sound(Do(w, Handle(worker, o, now)))
  {
    if !Idle(w, worker) {
      var k := w.works[worker];
      var id := k.batch[k.next].id;
      assert Holds(k, id);
      var r := Turn(w.rows[id], k.batch[k.next].key in k.blocked, o, now);
      TurnKeeps(w.rows[id], k.batch[k.next].key in k.blocked, o, now);
      AttemptsAfter(w.rows, id, r);
      var k' := Next(k, o);
      assert forall x: nat :: Holds(k', x) ==> Holds(k, x) && x != id;
      StaysApart(w.works, worker, k');
      TurnKeepsWork(k', w.rows, id, r);
      forall q <- w.works | q != worker ensures WorkSound(w.works[q], w.rows[id := r]) {
        TurnKeepsWork(w.works[q], w.rows, id, r);
      }
    }
  }

  lemma {:induction false} RunKeepsSound(steps: seq<Step>)
    ensures Sound(Run(START, steps))
    decreases |steps|
  {
    if steps != [] {
      var n := |steps| - 1;
      RunKeepsSound(steps[..n]);
      var w := Run(START, steps[..n]);
      match steps[n]
      case Add(key, now) => AddKeeps(w, key, now);
      case Lock(worker, limit, busy, now, listed) => LockKeeps(w, worker, limit, busy, now, listed);
      case Handle(worker, o, now) => HandleKeeps(w, worker, o, now);
      case Die(worker) => assert forall q <- Do(w, steps[n]).works :: q in w.works;
    }
  }

  function Added(steps: seq<Step>): nat {
    if steps == [] then 0 else Added(steps[..|steps| - 1]) + if steps[|steps| - 1].Add? then 1 else 0
  }

  lemma {:induction false} RowsAreAdded(steps: seq<Step>)
    ensures |Run(START, steps).rows| == Added(steps)
    decreases |steps|
  {
    if steps != [] {
      RowsAreAdded(steps[..|steps| - 1]);
    }
  }

  lemma {:induction false} AttemptsBounded(rows: seq<Row>)
    requires forall id :: 0 <= id < |rows| ==> rows[id].attempts <= MAX_ATTEMPTS
    ensures Attempts(rows) <= MAX_ATTEMPTS * |rows|
    decreases |rows|
  {
    if rows != [] {
      AttemptsBounded(rows[..|rows| - 1]);
    }
  }

  /** Every run: an event is locked at most 20 times, so the publishers together lock at
      most 20 times the number of events, and the broker is handed at most 20 copies of one. */
  lemma LocksAreBounded(steps: seq<Step>)
    ensures var w := Run(START, steps);
            && w.locks == Attempts(w.rows) <= MAX_ATTEMPTS * Added(steps)
            && forall id :: 0 <= id < |w.rows| ==>
                 w.rows[id].copies <= w.rows[id].attempts <= MAX_ATTEMPTS
                 && (w.rows[id].status.Published? ==> w.rows[id].copies >= 1)
                 && (w.rows[id].status.Failed? ==> w.rows[id].attempts == MAX_ATTEMPTS)
                 && (w.rows[id].status.Pending? || w.rows[id].status.Retry? ==> w.rows[id].attempts < MAX_ATTEMPTS)
  {
    RunKeepsSound(steps);
    RowsAreAdded(steps);
    AttemptsBounded(Run(START, steps).rows);
  }

  // ---------------------------------------------------------------- rows nothing will touch again

  /** Out of the queue, and in no publisher's remaining batch. */
  ghost predicate AtRest(w: World, id: nat) {
    && id < |w.rows| && !w.rows[id].status.Pending? && !w.rows[id].status.Retry?
    && forall p <- w.works :: !Holds(w.works[p], id)
  }

  lemma RestStays(w: World, id: nat, s: Step)
    requires AtRest(w, id)
    ensures AtRest(Do(w, s), id) && Do(w, s).rows[id] == w.rows[id]
  {
    match s
    case Add(_, _) =>
    case Die(_) =>
    case Lock(worker, limit, busy, now, listed) =>
      if Idle(w, worker) {
        ReturnedAreFree(w.rows, limit, busy, now, listed);
        LockingRests(w, worker, Returned(Pick(w.rows, 0, limit, busy, now), listed), id);
      }
    case Handle(worker, o, now) =>
      if !Idle(w, worker) {
        HandlingRests(w, worker, o, now, id);
      }
  }

  lemma LockingRests(w: World, worker: int, ids: seq<nat>, id: nat)
    requires AtRest(w, id) && Free(w.rows, ids)
    ensures AtRest(Locking(w, worker, ids), id) && Locking(w, worker, ids).rows[id] == w.rows[id]
  {
    assert id !in ids;
    assert !Holds(Work(Load(w.rows, ids), 0, {}, []), id);
  }

  lemma HandlingRests(w: World, worker: int, o: Outcome, now: int, id: nat)
    requires AtRest(w, id) && !Idle(w, worker)
    ensures AtRest(HandleStep(w, worker, o, now), id) && HandleStep(w, worker, o, now).rows[id] == w.rows[id]
  {
    var k := w.works[worker];
    assert Holds(k, k.batch[k.next].id);
    var after := HandleStep(w, worker, o, now);
    forall q <- after.works ensures !Holds(after.works[q], id) {
      assert q in w.works && !Holds(w.works[q], id);
    }
  }

  /** A row left 'processing' by a publisher that died, or by a status update that failed, is
      never locked, published or retried again; nor is a published or dropped one. */
  lemma {:induction false} RestIsForever(w: World, id: nat, steps: seq<Step>)
    requires AtRest(w, id)
    ensures AtRest(Run(w, steps), id) && Run(w, steps).rows[id] == w.rows[id]
    decreases |steps|
  {
    if steps != [] {
      RestIsForever(w, id, steps[..|steps| - 1]);
      RestStays(Run(w, steps[..|steps| - 1]), id, steps[|steps| - 1]);
    }
  }

  lemma HeldByOne(w: World, worker: int, id: nat)
    requires Sound(w) && worker in w.works && Holds(w.works[worker], id)
    ensures id < |w.rows| && Handling(w.rows[id]) && forall p <- w.works :: p != worker ==> !Holds(w.works[p], id)
  {
    var k := w.works[worker];
    assert WorkSound(k, w.rows);
    var n :| k.next <= n < |k.batch| && k.batch[n].id == id;
  }

  /** In every run, dying strands exactly the rest of the batch: the rows at rest afterwards are
      those that were before and those the publisher still held, which stay processing. */
  lemma DyingStrands(steps: seq<Step>, worker: int, id: nat)
    requires id < |Run(START, steps).rows|
    ensures var w := Run(START, steps);
            var after := Do(w, Die(worker));
            && (AtRest(after, id) <==> AtRest(w, id) || (worker in w.works && Holds(w.works[worker], id)))
            && (AtRest(after, id) && !AtRest(w, id) ==> after.rows[id].status.Processing?)
  {
    var w := Run(START, steps);
    RunKeepsSound(steps);
    var after := Do(w, Die(worker));
    assert forall p <- w.works :: p == worker || (p in after.works && after.works[p] == w.works[p]);
    if worker in w.works && Holds(w.works[worker], id) {
      HeldByOne(w, worker, id);
    }
  }

  /** The turn in which the publisher handles this event. */
  predicate TurnOf(w: World, s: Step, id: nat) {
    s.Handle? && !Idle(w, s.worker) && w.works[s.worker].batch[w.works[s.worker].next].id == id
  }

  predicate BlockedIn(w: World, s: Step)
    requires s.Handle? && !Idle(w, s.worker)
  {
    w.works[s.worker].batch[w.works[s.worker].next].key in w.works[s.worker].blocked
  }

  lemma TakenIsNotAtRest(w: World, id: nat, s: Step)
    requires Sound(w) && id < |w.rows| && !AtRest(w, id) && (s.Add? || s.Lock?)
    ensures !AtRest(Do(w, s), id)
  {
    if s.Lock? && Idle(w, s.worker) {
      var ids := Returned(Pick(w.rows, 0, s.limit, s.busy, s.now), s.listed);
      LockedOrHeld(w, s.worker, ids, id);
    }
  }

  lemma LockedOrHeld(w: World, worker: int, ids: seq<nat>, id: nat)
    requires Within(ids, |w.rows|) && Distinct(ids) && Idle(w, worker) && id < |w.rows| && !AtRest(w, id)
    ensures !AtRest(Locking(w, worker, ids), id)
  {
    var after := Locking(w, worker, ids);
    if id in ids {
      var n :| 0 <= n < |ids| && ids[n] == id;
      assert after.works[worker].batch[n].id == id;
    } else if w.rows[id].status.Pending? || w.rows[id].status.Retry? {
      assert after.rows[id] == w.rows[id];
    } else {
      var p :| p in w.works && Holds(w.works[p], id);
      assert p != worker && after.works[p] == w.works[p];
    }
  }

  lemma TurnLeaves(w: World, s: Step, id: nat)
    requires Sound(w) && id < |w.rows| && !AtRest(w, id) && s.Handle? && !Idle(w, s.worker)
    ensures var after := Do(w, s);
            AtRest(after, id) <==> TurnOf(w, s, id) && !after.rows[id].status.Retry?
    ensures !TurnOf(w, s, id) ==> Do(w, s).rows[id] == w.rows[id]
  {
    var k, after := w.works[s.worker], Do(w, s);
    if TurnOf(w, s, id) {
      assert Holds(k, id);
      HeldByOne(w, s.worker, id);
      assert WorkSound(k, w.rows);
      assert !Holds(after.works[s.worker], id);
    } else if !w.rows[id].status.Pending? && !w.rows[id].status.Retry? {
      var p :| p in w.works && Holds(w.works[p], id);
      var n :| w.works[p].next <= n < |w.works[p].batch| && w.works[p].batch[n].id == id;
      assert after.works[p].next <= n && after.works[p].batch[n].id == id;
    }
  }

  /** Over every run, the two ways to strand a row: a step leaves a row that was not at rest at rest
      and processing exactly if it is the death of the publisher that held it, or the row's own turn
      with a status update that failed. */
  lemma StrandedIff(steps: seq<Step>, s: Step, id: nat)
    requires id < |Run(START, steps).rows| && !AtRest(Run(START, steps), id)
    ensures var w := Run(START, steps);
            var after := Do(w, s);
            AtRest(after, id) && after.rows[id].status.Processing?
            <==> (s.Die? && s.worker in w.works && Holds(w.works[s.worker], id))
                 || (TurnOf(w, s, id) && !s.outcome.marked)
  {
    var w := Run(START, steps);
    RunKeepsSound(steps);
    match s
    case Add(_, _) => TakenIsNotAtRest(w, id, s);
    case Lock(_, _, _, _, _) => TakenIsNotAtRest(w, id, s);
    case Die(worker) => DyingStrands(steps, worker, id);
    case Handle(worker, o, now) =>
      if !Idle(w, worker) {
        TurnLeaves(w, s, id);
        if TurnOf(w, s, id) {
          assert Holds(w.works[worker], id);
          HeldByOne(w, worker, id);
          TurnStaysIff(w.rows[id], BlockedIn(w, s), o, now);
        }
      }
  }

  lemma TurnStaysIff(r: Row, blocked: bool, o: Outcome, now: int)
    requires Handling(r)
    ensures Turn(r, blocked, o, now).status.Processing? <==> !o.marked
  {
  }

  // ---------------------------------------------------------------- order across passes

  /** Among the turns taken, those of a key with consent come first; a key whose turn ended
      without it is blocked. */
  ghost predicate InOrder(k: Work) {
    && k.next == |k.acked| <= |k.batch|
    && (forall i :: 0 <= i < k.next && !k.acked[i] ==> k.batch[i].key in k.blocked)
    && (forall i, j :: 0 <= i < j < k.next && k.batch[i].key == k.batch[j].key && k.acked[j] ==> k.acked[i])
  }

  lemma StepKeepsOrder(w: World, s: Step)
    requires forall p <- w.works :: InOrder(w.works[p])
    ensures forall p <- Do(w, s).works :: InOrder(Do(w, s).works[p])
  {
    if s.Handle? && !Idle(w, s.worker) {
      var k := w.works[s.worker];
      var k' := Next(k, s.outcome);
      assert InOrder(k) && k'.acked[..k.next] == k.acked;
    }
  }

  predicate Ascending(ids: seq<nat>) {
    forall i, j :: 0 <= i < j < |ids| ==> ids[i] < ids[j]
  }

  /** The database lists every batch of the run in order of id. */
  predicate ListsInOrder(steps: seq<Step>) {
    forall s <- steps :: s.Lock? ==> Ascending(s.listed)
  }

  predicate BatchAscends(k: Work) {
    forall i, j :: 0 <= i < j < |k.batch| ==> k.batch[i].id < k.batch[j].id
  }

  lemma {:induction false} RunKeepsAscending(steps: seq<Step>)
    requires ListsInOrder(steps)
    ensures forall p <- Run(START, steps).works :: BatchAscends(Run(START, steps).works[p])
    decreases |steps|
  {
    if steps != [] {
      RunKeepsAscending(steps[..|steps| - 1]);
      assert steps[|steps| - 1] in steps;
      StepKeepsAscending(Run(START, steps[..|steps| - 1]), steps[|steps| - 1]);
    }
  }

  lemma StepKeepsAscending(w: World, s: Step)
    requires forall p <- w.works :: BatchAscends(w.works[p])
    requires s.Lock? ==> Ascending(s.listed)
    ensures forall p <- Do(w, s).works :: BatchAscends(Do(w, s).works[p])
  {
    if s.Lock? && Idle(w, s.worker) {
      assert Ascending(Returned(Pick(w.rows, 0, s.limit, s.busy, s.now), s.listed));
    }
  }

  /** In every run, within each pass: of the events of one key the broker takes a prefix, in the
      order of the batch, whatever other publishers do in between; and in order of id, if the
      database lists its batches so. */
  lemma {:induction false} EveryPassPublishesPrefix(steps: seq<Step>, worker: int, i: nat, j: nat)
    requires var w := Run(START, steps);
             && worker in w.works && i < j < w.works[worker].next && j < |w.works[worker].batch|
             && j < |w.works[worker].acked|
             && w.works[worker].batch[i].key == w.works[worker].batch[j].key && w.works[worker].acked[j]
    ensures var k := Run(START, steps).works[worker];
            k.acked[i] && (ListsInOrder(steps) ==> k.batch[i].id < k.batch[j].id)
  {
    RunKeepsOrder(steps);
    if ListsInOrder(steps) {
      RunKeepsAscending(steps);
    }
  }

  lemma {:induction false} RunKeepsOrder(steps: seq<Step>)
    ensures forall p <- Run(START, steps).works :: InOrder(Run(START, steps).works[p])
    decreases |steps|
  {
    if steps != [] {
      RunKeepsOrder(steps[..|steps| - 1]);
      StepKeepsOrder(Run(START, steps[..|steps| - 1]), steps[|steps| - 1]);
    }
  }

  const OK := Outcome(Accepted, true, true)
  const NO := Outcome(Refused, true, true)

  lemma Then(steps: seq<Step>, s: Step, w: World)
    requires Run(START, steps) == w
    ensures Run(START, steps + [s]) == Do(w, s)
  {
    assert (steps + [s])[..|steps|] == steps;
  }

  const E0 := PendingEvent(0, 7)
  const FIRST := Row(7, Retry, 1, 2, 1, 0, 0, false)

  lemma FirstIsLocked()
    ensures Run(START, [Add(7, 0), Lock(1, 50, {}, 0, [0])])
            == World([Row(7, Processing, 1, 0, 0, 0, 0, false)], map[1 := Work([E0], 0, {}, [])], 1)
  {
    var w := World([NewRow(7, 0)], map[], 0);
    Then([], Add(7, 0), START);
    Then([Add(7, 0)], Lock(1, 50, {}, 0, [0]), w);
    assert Pick(w.rows, 0, 50, {}, 0) == [0];
    assert LockRows(w.rows, [0]) == [Row(7, Processing, 1, 0, 0, 0, 0, false)];
    assert Load(w.rows, [0]) == [E0];
    assert [Add(7, 0)] + [Lock(1, 50, {}, 0, [0])] == [Add(7, 0), Lock(1, 50, {}, 0, [0])];
  }

  lemma FirstIsRefused()
    ensures Run(START, [Add(7, 0), Lock(1, 50, {}, 0, [0]), Handle(1, NO, 0)])
            == World([FIRST], map[1 := Work([E0], 1, {7}, [false])], 1)
  {
    FirstIsLocked();
    var locked := World([Row(7, Processing, 1, 0, 0, 0, 0, false)], map[1 := Work([E0], 0, {}, [])], 1);
    Then([Add(7, 0), Lock(1, 50, {}, 0, [0])], Handle(1, NO, 0), locked);
    assert [Add(7, 0), Lock(1, 50, {}, 0, [0])] + [Handle(1, NO, 0)]
           == [Add(7, 0), Lock(1, 50, {}, 0, [0]), Handle(1, NO, 0)];
    assert PowerOfTwo(1) == 2;
    assert Turn(locked.rows[0], false, NO, 0) == FIRST;
    assert locked.rows[0 := FIRST] == [FIRST];
    assert Next(locked.works[1], NO) == Work([E0], 1, {7}, [false]);
    assert locked.works[1 := Work([E0], 1, {7}, [false])] == map[1 := Work([E0], 1, {7}, [false])];
  }

  lemma AppendThree(steps: seq<Step>, a: Step, b: Step, c: Step)
    ensures steps + [a, b, c] == steps + [a] + [b] + [c]
  {
  }

  lemma ThenThree(steps: seq<Step>, a: Step, b: Step, c: Step)
    ensures Run(START, steps + [a, b, c]) == Do(Do(Do(Run(START, steps), a), b), c)
  {
    AppendThree(steps, a, b, c);
    var w := Run(START, steps);
    Then(steps, a, w);
    Then(steps + [a], b, Do(w, a));
    Then(steps + [a] + [b], c, Do(Do(w, a), b));
  }

  const E1 := PendingEvent(1, 7)

  lemma SecondIsPublished(w: World)
    requires w == World([FIRST, NewRow(7, 1)], map[1 := Work([E0], 1, {7}, [false])], 1)
    ensures Do(Do(w, Lock(1, 50, {}, 1, [1])), Handle(1, OK, 1)).rows
            == [FIRST, Row(7, Published, 1, 1, 1, 0, 1, false)]
  {
    assert Pick(w.rows, 2, 49, {}, 1) == [];
    assert Pick(w.rows, 1, 50, {}, 1) == [1];
    assert Pick(w.rows, 0, 50, {}, 1) == [1];
    assert LockRows(w.rows, [1]) == [FIRST, Row(7, Processing, 1, 1, 0, 0, 0, false)];
    assert Load(w.rows, [1]) == [E1];
  }

  /** One publisher, two events of one key: the first is refused at 0 and waits 2 s, the
      second arrives and is published at 1. */
  lemma LaterPassOvertakes()
    ensures var w := Run(START, [Add(7, 0), Lock(1, 50, {}, 0, [0]), Handle(1, NO, 0)]
                                + [Add(7, 1), Lock(1, 50, {}, 1, [1]), Handle(1, OK, 1)]);
            |w.rows| == 2 && w.rows[0].key == w.rows[1].key
            && w.rows[0].status.Retry? && w.rows[0].copies == 0 && w.rows[1].status.Published?
  {
    FirstIsRefused();
    var w := World([FIRST], map[1 := Work([E0], 1, {7}, [false])], 1);
    ThenThree([Add(7, 0), Lock(1, 50, {}, 0, [0]), Handle(1, NO, 0)],
              Add(7, 1), Lock(1, 50, {}, 1, [1]), Handle(1, OK, 1));
    SecondIsPublished(Do(w, Add(7, 1)));
  }

  // ---------------------------------------------------------------- when an event is dropped

  /** A turn drops its row exactly when it is the 20th attempt, ends without consent, and the
      status update goes through; the dead-letter record exists exactly when the broker was
      asked in that turn and the insert went through. */
  lemma TurnDropsIff(r: Row, blocked: bool, o: Outcome, now: int)
    requires RowSound(r) && Handling(r)
    ensures var after := Turn(r, blocked, o, now);
            && (after.status.Failed? <==> o.marked && r.attempts == MAX_ATTEMPTS && !Acked(blocked, o))
            && (after.status.Failed? ==> (after.saved <==> !blocked && o.kept))
            && (after.tries == r.tries <==> blocked)
  {
  }

  /** A turn publishes its row exactly when the broker was asked, took the event and said so, and
      the status update goes through; it puts it back for a retry, due after its backoff, exactly
      when it ends without consent before the 20th attempt and the update goes through; without the
      update the row stays processing. Key and attempts stay, and every request and copy is
      accounted for. */
  lemma TurnPublishesIff(r: Row, blocked: bool, o: Outcome, now: int)
    requires RowSound(r) && Handling(r)
    ensures var after := Turn(r, blocked, o, now);
            && (after.status.Published? <==> o.marked && !blocked && o.answer.Accepted?)
            && (after.status.Retry? <==> o.marked && (blocked || !o.answer.Accepted?) && r.attempts < 20)
            && (after.status.Processing? <==> !o.marked)
            && after.nextAt == (if after.status.Retry? then now + Backoff(r.attempts) else r.nextAt)
            && after.key == r.key && after.attempts == r.attempts
            && after.tries == r.tries + (if blocked then 0 else 1)
            && after.blocks == r.blocks + (if blocked then 1 else 0)
            && after.copies == r.copies + (if blocked || o.answer.Refused? then 0 else 1)
            && (after.saved <==> !blocked && !o.answer.Accepted? && r.attempts == 20 && o.kept)
  {
  }

  /** After every run, the step that drops an event is such a turn, and leaves no dead-letter
      record exactly when the event was blocked or the insert failed. */
  lemma DroppedIff(steps: seq<Step>, s: Step, id: nat)
    requires id < |Run(START, steps).rows| && !Run(START, steps).rows[id].status.Failed?
    ensures var w := Run(START, steps);
            var after := Do(w, s).rows[id];
            && (after.status.Failed? <==>
                  TurnOf(w, s, id) && s.outcome.marked && w.rows[id].attempts == MAX_ATTEMPTS
                  && !Acked(BlockedIn(w, s), s.outcome))
            && (after.status.Failed? ==> (after.saved <==> !BlockedIn(w, s) && s.outcome.kept))
  {
    var w := Run(START, steps);
    RunKeepsSound(steps);
    if TurnOf(w, s, id) {
      assert Holds(w.works[s.worker], id);
      TurnDropsIff(w.rows[id], BlockedIn(w, s), s.outcome, s.now);
    }
  }

  /** An added event is the last row, waits as nobody has handled it, and is due at once: a worker that
      looks from then on may lock it, one that looks before may not. */
  lemma AddedIsDueAtOnce(w: World, key: int, now: int, at: int)
    ensures var rows := Do(w, Add(key, now)).rows;
            && |rows| == |w.rows| + 1 && rows[..|w.rows|] == w.rows
            && var r := rows[|w.rows|];
               && r.key == key && r.status.Pending? && r.attempts == 0 && (Due(r, at) <==> now <= at)
               && r.tries == 0 && r.blocks == 0 && r.copies == 0 && !r.saved
  {
  }

  /** An event put back for a retry is due again exactly when its backoff is over. */
  lemma RetryIsDueAfterBackoff(r: Row, blocked: bool, o: Outcome, now: int, at: int)
    requires RowSound(r) && Handling(r) && Turn(r, blocked, o, now).status.Retry?
    ensures Due(Turn(r, blocked, o, now), at) <==> now + Backoff(r.attempts) <= at
  {
    TurnPublishesIff(r, blocked, o, now);
  }

  lemma NoTurnNoStatus(w: World, s: Step, id: nat)
    requires id < |w.rows| && !TurnOf(w, s, id)
    ensures var r, after := w.rows[id], Do(w, s).rows[id];
            after == r || (s.Lock? && after == Locked(r))
  {
  }

  lemma HandledRow(w: World, s: Step, id: nat)
    requires Sound(w) && id < |w.rows| && TurnOf(w, s, id)
    ensures RowSound(w.rows[id]) && Handling(w.rows[id])
    ensures Do(w, s).rows[id] == Turn(w.rows[id], BlockedIn(w, s), s.outcome, s.now)
  {
    assert Holds(w.works[s.worker], id);
    HeldByOne(w, s.worker, id);
  }

  /** The row's own turn, taken or not, decides what becomes of it. */
  predicate ComesOut(before: Row, after: Row, turn: bool, blocked: bool, o: Outcome, now: int) {
    && (after.status.Published? <==>
          before.status.Published? || (turn && o.marked && !blocked && o.answer.Accepted?))
    && (!before.status.Retry? ==>
          && (after.status.Retry? <==>
                turn && o.marked && (blocked || !o.answer.Accepted?) && before.attempts < 20)
          && (after.status.Retry? ==> after.nextAt == now + Backoff(before.attempts)))
  }

  lemma TurnComesOut(w: World, s: Step, id: nat)
    requires Sound(w) && id < |w.rows| && TurnOf(w, s, id)
    ensures ComesOut(w.rows[id], Do(w, s).rows[id], true, BlockedIn(w, s), s.outcome, s.now)
  {
    HandledRow(w, s, id);
    TurnPublishesIff(w.rows[id], BlockedIn(w, s), s.outcome, s.now);
  }

  lemma OthersStay(w: World, s: Step, id: nat, o: Outcome)
    requires id < |w.rows| && !TurnOf(w, s, id)
    ensures ComesOut(w.rows[id], Do(w, s).rows[id], false, false, o, 0)
  {
    NoTurnNoStatus(w, s, id);
    if w.rows[id].status.Published? {
      PublishedIsNotLocked(w, s, id);
    }
  }

  /** After every run: an event becomes published exactly by a turn of its own in which the broker,
      asked, took it and said so, and the status update went through; and it goes back to wait,
      until its backoff is over, exactly by a turn before the 20th that ended otherwise. */
  lemma PublishedIff(steps: seq<Step>, s: Step, id: nat)
    requires id < |Run(START, steps).rows|
    ensures var w := Run(START, steps);
            var before, after := w.rows[id], Do(w, s).rows[id];
            && (after.status.Published? <==>
                  before.status.Published?
                  || (TurnOf(w, s, id) && s.outcome.marked && !BlockedIn(w, s) && s.outcome.answer.Accepted?))
            && (!before.status.Retry? ==>
                  (after.status.Retry? <==>
                     TurnOf(w, s, id) && s.outcome.marked && (BlockedIn(w, s) || !s.outcome.answer.Accepted?)
                     && before.attempts < 20))
            && (!before.status.Retry? && after.status.Retry? ==> after.nextAt == s.now + Backoff(before.attempts))
  {
    var w := Run(START, steps);
    RunKeepsSound(steps);
    if TurnOf(w, s, id) {
      TurnComesOut(w, s, id);
    } else {
      OthersStay(w, s, id, OK);
    }
  }

  lemma PublishedIsNotLocked(w: World, s: Step, id: nat)
    requires id < |w.rows| && w.rows[id].status.Published? && !TurnOf(w, s, id)
    ensures Do(w, s).rows[id] == w.rows[id]
  {
    if s.Lock? {
      ReturnedAreFree(w.rows, s.limit, s.busy, s.now, s.listed);
    }
  }

  /** Over every run: a dropped event was never offered to the broker exactly when all its 20
      turns were spent waiting behind a failed event of its key; then it has no dead letter. */
  lemma DroppedUnaskedIffAlwaysBlocked(steps: seq<Step>, id: nat)
    requires id < |Run(START, steps).rows| && Run(START, steps).rows[id].status.Failed?
    ensures var r := Run(START, steps).rows[id];
            && r.tries + r.blocks == MAX_ATTEMPTS
            && (r.tries == 0 <==> r.blocks == MAX_ATTEMPTS)
            && (r.tries == 0 ==> r.copies == 0 && !r.saved)
  {
    RunKeepsSound(steps);
  }

  /** Two events of one key, a broker that refuses the first: passes 2000 s apart. */
  function Refusals(n: nat): seq<Step> {
    if n == 0 then [Add(7, 0), Add(7, 0)]
    else Refusals(n - 1) + [Lock(1, 50, {}, 2000 * n, [0, 1]), Handle(1, NO, 2000 * n), Handle(1, NO, 2000 * n)]
  }

  function RefusedRow(n: nat, tries: nat): Row
    requires tries <= n
  {
    if n == 0 then NewRow(7, 0)
    else if n < MAX_ATTEMPTS then Row(7, Retry, n, 2000 * n + Backoff(n), tries, n - tries, 0, false)
    else Row(7, Failed, n, 2000 * (n - 1) + Backoff(n - 1), tries, n - tries, 0, tries > 0)
  }

  /** The backoff doubles with each attempt, from one second to 1024, and stays there. */
  lemma BackoffDoubles(n: nat)
    ensures Backoff(0) == 1 && (n < 10 ==> Backoff(n + 1) == 2 * Backoff(n)) && (n >= 10 ==> Backoff(n) == 1024)
  {
    BackoffIsShort(n);
    if n < 10 {
      BackoffIsShort(n + 1);
    }
    BackoffIsShort(10);
    assert PowerOfTwo(10) == 1024 by {
      assert PowerOfTwo(5) == 32;
      assert PowerOfTwo(8) == 256;
    }
  }

  lemma {:induction false} BackoffIsShort(n: nat)
    ensures 1 <= Backoff(n) <= 1024
  {
    var m := if n < 10 then n else 10;
    PowersGrow(m, 10);
    assert PowerOfTwo(10) == 1024 by {
      assert PowerOfTwo(5) == 32;
      assert PowerOfTwo(8) == 256;
    }
  }

  lemma {:induction false} PowersGrow(m: nat, n: nat)
    requires m <= n
    ensures PowerOfTwo(m) <= PowerOfTwo(n)
    decreases n
  {
    if m < n {
      PowersGrow(m, n - 1);
    }
  }

  lemma RoundLocks(w: World, n: nat, t: int)
    requires n < MAX_ATTEMPTS && t == 2000 * (n + 1)
    requires w.rows == [RefusedRow(n, n), RefusedRow(n, 0)] && Idle(w, 1)
    ensures var after := LockStep(w, 1, 50, {}, t, [0, 1]);
            && after.rows == [Locked(RefusedRow(n, n)), Locked(RefusedRow(n, 0))]
            && after.works[1] == Work([E0, PendingEvent(1, 7)], 0, {}, [])
  {
    BackoffIsShort(n);
    assert Pick(w.rows, 2, 48, {}, t) == [];
    assert Pick(w.rows, 1, 49, {}, t) == [1];
    assert Pick(w.rows, 0, 50, {}, t) == [0, 1];
  }

  lemma RefusedTurns(n: nat, t: int)
    requires n < MAX_ATTEMPTS && t == 2000 * (n + 1)
    ensures Turn(Locked(RefusedRow(n, n)), false, NO, t) == RefusedRow(n + 1, n + 1)
    ensures Turn(Locked(RefusedRow(n, 0)), true, NO, t) == RefusedRow(n + 1, 0)
  {
  }

  lemma Round(w: World, n: nat)
    requires n < MAX_ATTEMPTS && w.rows == [RefusedRow(n, n), RefusedRow(n, 0)] && Idle(w, 1)
    ensures var t := 2000 * (n + 1);
            var after := Do(Do(Do(w, Lock(1, 50, {}, t, [0, 1])), Handle(1, NO, t)), Handle(1, NO, t));
            after.rows == [RefusedRow(n + 1, n + 1), RefusedRow(n + 1, 0)] && Idle(after, 1)
  {
    var t := 2000 * (n + 1);
    RoundLocks(w, n, t);
    RefusedTurns(n, t);
    TwoTurns(LockStep(w, 1, 50, {}, t, [0, 1]), Locked(RefusedRow(n, n)), Locked(RefusedRow(n, 0)), t);
  }

  /** The publisher's two turns: the first event is refused and blocks the second. */
  lemma TwoTurns(w: World, a: Row, b: Row, t: int)
    requires w.rows == [a, b] && 1 in w.works && w.works[1] == Work([E0, PendingEvent(1, 7)], 0, {}, [])
    ensures var after := Do(Do(w, Handle(1, NO, t)), Handle(1, NO, t));
            after.rows == [Turn(a, false, NO, t), Turn(b, true, NO, t)] && Idle(after, 1)
  {
  }

  lemma {:induction false} RefusalsLeave(n: nat)
    requires n <= MAX_ATTEMPTS
    ensures var w := Run(START, Refusals(n)); w.rows == [RefusedRow(n, n), RefusedRow(n, 0)] && Idle(w, 1)
    decreases n
  {
    if n == 0 {
      Then([], Add(7, 0), START);
      Then([Add(7, 0)], Add(7, 0), World([NewRow(7, 0)], map[], 0));
      assert [Add(7, 0)] + [Add(7, 0)] == Refusals(0);
    } else {
      RefusalsLeave(n - 1);
      Round(Run(START, Refusals(n - 1)), n - 1);
      ThenThree(Refusals(n - 1), Lock(1, 50, {}, 2000 * n, [0, 1]), Handle(1, NO, 2000 * n), Handle(1, NO, 2000 * n));
    }
  }

  /** Waiting behind a refused event costs attempts too: after 20 passes the second event is
      dropped although the broker was never asked to take it, and no dead-letter record exists. */
  lemma DroppedUnasked()
    ensures var rows := Run(START, Refusals(20)).rows;
            |rows| == 2 && rows[0].status.Failed? && rows[0].saved
            && rows[1].status.Failed? && rows[1].tries == 0 && !rows[1].saved
  {
    RefusalsLeave(20);
  }

  // ---------------------------------------------------------------- the table

  class OutboxTable {
    var rows: seq<Row>

    constructor ()
      ensures rows == []
    {
      rows := [];
    }

    method AddTx(key: int, now: int)
      modifies this
      ensures rows == old(rows) + [NewRow(key, now)]
    {
      rows := rows + [NewRow(key, now)];
    }

    /** The inner SELECT. */
    method SelectPending(limit: nat, busy: set<nat>, now: int) returns (ids: seq<nat>)
      ensures ids == Pick(rows, 0, limit, busy, now)
    {
      ids := [];
      var id := 0;
      while id < |rows| && |ids| < limit
        invariant 0 <= id <= |rows| && |ids| <= limit
        invariant ids + Pick(rows, id, limit - |ids|, busy, now) == Pick(rows, 0, limit, busy, now)
      {
        if (rows[id].status.Pending? || rows[id].status.Retry?) && rows[id].nextAt <= now && id !in busy {
          assert ids + ([id] + Pick(rows, id + 1, limit - |ids| - 1, busy, now))
              == (ids + [id]) + Pick(rows, id + 1, limit - |ids| - 1, busy, now);
          ids := ids + [id];
        }
        id := id + 1;
      }
    }

    /** listed is the order in which the database returns the rows. */
    method LockPending(limit: nat, busy: set<nat>, now: int, listed: seq<nat>) returns (batch: seq<PendingEvent>)
      modifies this
      ensures var ids := Returned(Pick(old(rows), 0, limit, busy, now), listed);
              batch == Load(old(rows), ids) && rows == LockRows(old(rows), ids)
    {
      var ids := SelectPending(limit, busy, now);
      ids := Returned(ids, listed);
      batch := Load(rows, ids);
      LockAll(ids);
    }

    method LockAll(ids: seq<nat>)
      requires Within(ids, |rows|) && Distinct(ids)
      modifies this
      ensures rows == LockRows(old(rows), ids)
    {
      for n := 0 to |ids|
        invariant rows == LockRows(old(rows), ids[..n])
      {
        assert ids[..n + 1][..n] == ids[..n];
        var r := rows[ids[n]];
        rows := rows[ids[n] := r.(status := Processing, attempts := r.attempts + 1)];
      }
      assert ids[..|ids|] == ids;
    }

    method MarkPublished(id: nat)
      modifies this
      ensures rows == if id < |old(rows)| then old(rows)[id := old(rows)[id].(status := Published)] else old(rows)
    {
      if id < |rows| {
        rows := rows[id := rows[id].(status := Published)];
      }
    }

    method MarkRetry(id: nat, now: int)
      modifies this
      ensures rows == if id < |old(rows)| then old(rows)[id := RetryRow(old(rows)[id], now)] else old(rows)
    {
      if id < |rows| {
        var r := rows[id];
        if r.attempts >= 20 {
          rows := rows[id := r.(status := Failed)];
        } else {
          rows := rows[id := r.(status := Retry, nextAt := now + Backoff(r.attempts))];
        }
      }
    }

    /** The body of the publisher's loop over one batch; os says what the outside world does. */
    method PublishBatch(batch: seq<PendingEvent>, os: seq<Outcome>, now: int)
      requires |os| == |batch|
      requires forall e <- batch :: e.id < |rows| && rows[e.id].key == e.key
      modifies this
      ensures rows == Turns(old(rows), Ids(batch), os, now, |batch|).0
    {
      var blockedKeys: set<int> := {};
      ghost var ids := Ids(batch);
      for n := 0 to |batch|
        invariant (rows, blockedKeys) == Turns(old(rows), ids, os, now, n)
      {
        PublishOne(batch[n], batch[n].key in blockedKeys, os[n], now);
        if batch[n].key !in blockedKeys && !os[n].answer.Accepted? {
          blockedKeys := blockedKeys + {batch[n].key};
        }
      }
    }

    method PublishOne(e: PendingEvent, blocked: bool, o: Outcome, now: int)
      requires e.id < |rows|
      modifies this
      ensures rows == old(rows)[e.id := Turn(old(rows)[e.id], blocked, o, now)]
      ensures o.marked ==> (rows[e.id].status.Published? <==> !blocked && o.answer.Accepted?)
      ensures !o.marked ==> rows[e.id].status == old(rows)[e.id].status
    {
      if blocked {
        rows := rows[e.id := rows[e.id].(blocks := rows[e.id].blocks + 1)];
        if o.marked {
          MarkRetry(e.id, now);
        }
        return;
      }
      rows := rows[e.id := Asked(rows[e.id], o.answer)];
      if !o.answer.Accepted? {
        if rows[e.id].attempts >= 20 && o.kept {
          rows := rows[e.id := rows[e.id].(saved := true)];
        }
        if o.marked {
          MarkRetry(e.id, now);
        }
        return;
      }
      if o.marked {
        MarkPublished(e.id);
      }
    }
  }

  function Ids(batch: seq<PendingEvent>): seq<nat> {
    seq(|batch|, i requires 0 <= i < |batch| => batch[i].id)
  }

  /** A pass of PublishBatch is the same as the turns of one publisher in a run. */
  lemma {:induction false} BatchIsARun(w: World, worker: int, os: seq<Outcome>, now: int, n: nat)
    requires worker in w.works && n <= |os| == |w.works[worker].batch|
    requires var k := w.works[worker];
             k.next == 0 && k.blocked == {} && WorkSound(k, w.rows)
    ensures var after := Run(w, seq(n, i requires 0 <= i < n => Handle(worker, os[i], now)));
            && worker in after.works
            && after.works[worker].batch == w.works[worker].batch && after.works[worker].next == n
            && (after.rows, after.works[worker].blocked) == Turns(w.rows, Ids(w.works[worker].batch), os, now, n)
    decreases n
  {
    if n > 0 {
      BatchIsARun(w, worker, os, now, n - 1);
      var steps := seq(n, i requires 0 <= i < n => Handle(worker, os[i], now));
      assert steps[..n - 1] == seq(n - 1, i requires 0 <= i < n - 1 => Handle(worker, os[i], now));
    }
  }
}
