/** The outbox table and the publisher passes that drain it. Row number i is event id i.
    Four columns are history that the table itself does not keep: how often the broker was
    asked (`tries`), how often the turn was spent waiting behind a failed event (`blocks`), how
    many copies the broker took (`copies`), and whether a dead-letter record was written
    (`saved`). */
module Outbox {
  import opened Prelude

  datatype Status = Pending | Retry | Processing | Published | Failed

  datatype Row = Row(key: int, status: Status, attempts: nat, nextAt: int,
                     tries: nat, blocks: nat, copies: nat, saved: bool)

  const MAX_ATTEMPTS := 20

  /** What the broker did: took the event, refused it, or took it and let the answer get lost. */
  datatype Answer = Accepted | Refused | Unanswered

  /** One turn of the loop: the broker's answer, whether the status update went through,
      and whether the dead-letter insert did. Errors of the last two are ignored. */
  datatype Outcome = Outcome(answer: Answer, marked: bool, kept: bool)

  function NewRow(key: int, now: int): Row {
    Row(key, Pending, 0, now, 0, 0, 0, false)
  }

  predicate Due(r: Row, now: int) {
    (r.status.Pending? || r.status.Retry?) && r.nextAt <= now
  }

  /** SELECT ... ORDER BY id LIMIT ... FOR UPDATE SKIP LOCKED, from row `from` on. */
  function Pick(t: seq<Row>, from: nat, limit: nat, busy: set<nat>, now: int): (ids: seq<nat>)
    requires from <= |t|
    ensures |ids| <= limit && (forall i :: 0 <= i < |ids| ==> from <= ids[i] < |t|)
    ensures forall i, j :: 0 <= i < j < |ids| ==> ids[i] < ids[j]
    decreases |t| - from
  {
    if from == |t| || limit == 0 then []
    else if Due(t[from], now) && from !in busy then [from] + Pick(t, from + 1, limit - 1, busy, now)
    else Pick(t, from + 1, limit, busy, now)
  }

  /** The selection holds due and unlocked rows only, and passes over none of them before its
      last one, nor at all when the limit is not reached. */
  lemma {:induction false} PickExact(t: seq<Row>, from: nat, limit: nat, busy: set<nat>, now: int)
    requires from <= |t|
    ensures var ids := Pick(t, from, limit, busy, now);
            && (forall id <- ids :: Due(t[id], now) && id !in busy)
            && (forall id: nat :: from <= id < |t| && Due(t[id], now) && id !in busy && id !in ids ==>
                  |ids| == limit && forall last <- ids :: last < id)
    decreases |t| - from
  {
    if from < |t| && limit > 0 {
      PickExact(t, from + 1, if Due(t[from], now) && from !in busy then limit - 1 else limit, busy, now);
    }
  }

  predicate Within(ids: seq<nat>, n: nat) {
    forall i :: 0 <= i < |ids| ==> ids[i] < n
  }

  predicate Distinct(ids: seq<nat>) {
    forall i, j :: 0 <= i < j < |ids| ==> ids[i] != ids[j]
  }

  /** The same ids in another order. */
  predicate Permutes(listed: seq<nat>, ids: seq<nat>) {
    && Distinct(listed) && |listed| == |ids|
    && (forall i :: 0 <= i < |listed| ==> listed[i] in ids)
    && (forall i :: 0 <= i < |ids| ==> ids[i] in listed)
  }

  /** UPDATE ... RETURNING lists the selected rows in an order of its own. */
  function Returned(ids: seq<nat>, listed: seq<nat>): (r: seq<nat>)
    requires Distinct(ids)
    ensures Permutes(r, ids) && (Permutes(listed, ids) ==> r == listed)
  {
    if Permutes(listed, ids) then listed else ids
  }

  function Locked(r: Row): Row {
    r.(status := Processing, attempts := r.attempts + 1)
  }

  function LockRows(t: seq<Row>, ids: seq<nat>): (r: seq<Row>)
    requires Within(ids, |t|) && Distinct(ids)
    ensures |r| == |t|
    ensures forall i :: 0 <= i < |t| ==> r[i] == if i in ids then Locked(t[i]) else t[i]
    decreases |ids|
  {
    if ids == [] then t
    else
      var n := |ids| - 1;
      var r := LockRows(t, ids[..n]);
      r[ids[n] := Locked(r[ids[n]])]
  }

  /** LEAST(3600, POWER(2, LEAST(attempts, 10))) seconds. */
  function Backoff(attempts: nat): int {
    Min(3600, PowerOfTwo(if attempts < 10 then attempts else 10))
  }

  function PowerOfTwo(n: nat): (p: int)
    ensures p >= 1
  {
    if n == 0 then 1 else 2 * PowerOfTwo(n - 1)
  }

  function RetryRow(r: Row, now: int): Row {
    if r.attempts >= MAX_ATTEMPTS then r.(status := Failed)
    else r.(status := Retry, nextAt := now + Backoff(r.attempts))
  }

  function Asked(r: Row, a: Answer): Row {
    r.(tries := r.tries + 1, copies := r.copies + if a.Refused? then 0 else 1)
  }

  /** The row after its turn in the loop. */
  function Turn(r: Row, blocked: bool, o: Outcome, now: int): Row {
    if blocked then
      var r := r.(blocks := r.blocks + 1);
      if o.marked then RetryRow(r, now) else r
    else
      var r := Asked(r, o.answer);
      if o.answer.Accepted? then
        if o.marked then r.(status := Published) else r
      else
        var r := if r.attempts >= MAX_ATTEMPTS && o.kept then r.(saved := true) else r;
        if o.marked then RetryRow(r, now) else r
  }

  /** Whether the turn left the loop with the broker's consent to this event. */
  predicate Acked(blocked: bool, o: Outcome) {
    !blocked && o.answer.Accepted?
  }

  // ---------------------------------------------------------------- one pass

  /** The rows and the blocked keys after the first n turns of a pass. */
  function Turns(t: seq<Row>, ids: seq<nat>, os: seq<Outcome>, now: int, n: nat): (r: (seq<Row>, set<int>))
    requires n <= |ids| && |os| == |ids| && Within(ids, |t|)
    ensures |r.0| == |t| && forall i :: 0 <= i < |t| ==> r.0[i].key == t[i].key
    decreases n
  {
    if n == 0 then (t, {})
    else
      var (t, blocked) := Turns(t, ids, os, now, n - 1);
      var id := ids[n - 1];
      var stop := t[id].key in blocked;
      (t[id := Turn(t[id], stop, os[n - 1], now)],
       if stop || os[n - 1].answer.Accepted? then blocked else blocked + {t[id].key})
  }

  predicate AckedAt(t: seq<Row>, ids: seq<nat>, os: seq<Outcome>, now: int, n: nat)
    requires n < |ids| && |os| == |ids| && Within(ids, |t|)
  {
    Acked(t[ids[n]].key in Turns(t, ids, os, now, n).1, os[n])
  }

  lemma BlockedOneMore(t: seq<Row>, ids: seq<nat>, os: seq<Outcome>, now: int, n: nat, key: int)
    requires n < |ids| && |os| == |ids| && Within(ids, |t|)
    ensures key in Turns(t, ids, os, now, n + 1).1
            <==> key in Turns(t, ids, os, now, n).1 || (t[ids[n]].key == key && !AckedAt(t, ids, os, now, n))
  {
  }

  lemma {:induction false} UnconsentedBlocks(t: seq<Row>, ids: seq<nat>, os: seq<Outcome>, now: int, n: nat, i: nat)
    requires i < n <= |ids| && |os| == |ids| && Within(ids, |t|) && !AckedAt(t, ids, os, now, i)
    ensures t[ids[i]].key in Turns(t, ids, os, now, n).1
    decreases n
  {
    BlockedOneMore(t, ids, os, now, n - 1, t[ids[i]].key);
    if i < n - 1 {
      UnconsentedBlocks(t, ids, os, now, n - 1, i);
    }
  }

  lemma {:induction false} BlockedByUnconsented(t: seq<Row>, ids: seq<nat>, os: seq<Outcome>, now: int, n: nat,
                                                key: int)
    returns (i: nat)
    requires n <= |ids| && |os| == |ids| && Within(ids, |t|) && key in Turns(t, ids, os, now, n).1
    ensures i < n && t[ids[i]].key == key && !AckedAt(t, ids, os, now, i)
    decreases n
  {
    BlockedOneMore(t, ids, os, now, n - 1, key);
    i := n - 1;
    if key in Turns(t, ids, os, now, n - 1).1 {
      i := BlockedByUnconsented(t, ids, os, now, n - 1, key);
    }
  }

  /** The keys blocked after n turns are those of the turns that did not end in consent. */
  lemma BlockedExactly(t: seq<Row>, ids: seq<nat>, os: seq<Outcome>, now: int, n: nat, key: int)
    requires n <= |ids| && |os| == |ids| && Within(ids, |t|)
    ensures key in Turns(t, ids, os, now, n).1
            <==> exists i :: 0 <= i < n && t[ids[i]].key == key && !AckedAt(t, ids, os, now, i)
  {
    forall i | 0 <= i < n && !AckedAt(t, ids, os, now, i) ensures t[ids[i]].key in Turns(t, ids, os, now, n).1 {
      UnconsentedBlocks(t, ids, os, now, n, i);
    }
    if key in Turns(t, ids, os, now, n).1 {
      var i := BlockedByUnconsented(t, ids, os, now, n, key);
    }
  }

  /** Within one pass the events of a key that the broker agreed to take are a prefix of
      that key's events in the batch. */
  lemma PassPublishesPrefix(t: seq<Row>, ids: seq<nat>, os: seq<Outcome>, now: int, i: nat, j: nat)
    requires i < j < |ids| && |os| == |ids| && Within(ids, |t|)
    requires t[ids[i]].key == t[ids[j]].key && AckedAt(t, ids, os, now, j)
    ensures AckedAt(t, ids, os, now, i)
  {
    if !AckedAt(t, ids, os, now, i) {
      UnconsentedBlocks(t, ids, os, now, j, i);
    }
  }

  /** Whatever the broker answers, no event of the batch gets through before an earlier one. */
  ghost predicate NeverReorders(t: seq<Row>, ids: seq<nat>, now: int)
    requires Within(ids, |t|)
  {
    forall os: seq<Outcome>, a: nat, b: nat |
      && |os| == |ids| && a < |ids| && b < |ids| && t[ids[a]].key == t[ids[b]].key && ids[a] < ids[b]
      && AckedAt(t, ids, os, now, b) :: AckedAt(t, ids, os, now, a)
  }

  /** The events of each key are listed in order of id. */
  predicate ListsById(t: seq<Row>, ids: seq<nat>)
    requires Within(ids, |t|)
  {
    forall a, b :: 0 <= a < b < |ids| && t[ids[a]].key == t[ids[b]].key ==> ids[a] <= ids[b]
  }

  /** A batch may come in any order, as UPDATE ... RETURNING promises none: the pass keeps the id
      order of every key exactly if the batch lists the events of each key in that order. */
  lemma IdOrderKeptIffListedSo(t: seq<Row>, ids: seq<nat>, now: int)
    requires Within(ids, |t|)
    ensures NeverReorders(t, ids, now) <==> ListsById(t, ids)
  {
    if NeverReorders(t, ids, now) {
      forall a, b | 0 <= a < b < |ids| && t[ids[a]].key == t[ids[b]].key ensures ids[a] <= ids[b] {
        LaterRefused(t, ids, now, a, b);
      }
    } else {
      var os: seq<Outcome>, a: nat, b: nat :|
        && |os| == |ids| && a < |ids| && b < |ids| && t[ids[a]].key == t[ids[b]].key && ids[a] < ids[b]
        && AckedAt(t, ids, os, now, b) && !AckedAt(t, ids, os, now, a);
      if a < b {
        PassPublishesPrefix(t, ids, os, now, a, b);
      }
    }
  }

  lemma LaterRefused(t: seq<Row>, ids: seq<nat>, now: int, a: nat, b: nat)
    requires Within(ids, |t|) && a < b < |ids| && t[ids[a]].key == t[ids[b]].key && NeverReorders(t, ids, now)
    ensures ids[a] <= ids[b]
  {
    var os := seq(|ids|, i => Outcome(if i == b then Refused else Accepted, true, true));
    AllAccepted(t, ids, os, now, a);
    assert AckedAt(t, ids, os, now, a) && !AckedAt(t, ids, os, now, b);
  }

  predicate Consented(t: seq<Row>, ids: seq<nat>, os: seq<Outcome>, now: int, id: nat)
    requires |os| == |ids| && Within(ids, |t|)
  {
    exists n :: 0 <= n < |ids| && ids[n] == id && AckedAt(t, ids, os, now, n)
  }

  /** The promise of the documentation for one pass: whatever the broker answers, no event
      gets through while an earlier one of its key is still unpublished. */
  ghost predicate NeverOvertakes(t: seq<Row>, ids: seq<nat>, now: int)
    requires Within(ids, |t|)
  {
    forall os: seq<Outcome>, i: nat, j: nat |
      && |os| == |ids| && i < j < |t| && t[i].key == t[j].key && !t[i].status.Published?
      && Consented(t, ids, os, now, j) :: Consented(t, ids, os, now, i)
  }

  /** An unpublished earlier event that the batch skips: waiting for its backoff, held by
      another worker, stranded or dropped. */
  ghost predicate SkipsEarlier(t: seq<Row>, ids: seq<nat>, busy: set<nat>, now: int)
    requires Within(ids, |t|)
  {
    exists i: nat, j :: i < j < |t| && j in ids && t[i].key == t[j].key
      && !t[i].status.Published? && (!Due(t[i], now) || i in busy)
  }

  /** A pass keeps the order of every key exactly when its batch skips no earlier event, and the
      database happens to list each key's events in order of id. */
  lemma OrderKeptIffNothingSkipped(t: seq<Row>, limit: nat, busy: set<nat>, now: int, ids: seq<nat>)
    requires Permutes(ids, Pick(t, 0, limit, busy, now))
    ensures Within(ids, |t|)
    ensures NeverOvertakes(t, ids, now) <==> !SkipsEarlier(t, ids, busy, now) && ListsById(t, ids)
  {
    if SkipsEarlier(t, ids, busy, now) {
      SkippedIsOvertaken(t, limit, busy, now, ids);
    } else if !ListsById(t, ids) {
      UnlistedIsOvertaken(t, limit, busy, now, ids);
    } else {
      forall os: seq<Outcome>, i: nat, j: nat |
        && |os| == |ids| && i < j < |t| && t[i].key == t[j].key && !t[i].status.Published?
        && Consented(t, ids, os, now, j)
        ensures Consented(t, ids, os, now, i)
      {
        assert j in ids;
        PickedTogether(t, limit, busy, now, i, j);
        EarlierConsents(t, ids, os, now, i, j);
      }
    }
  }

  lemma PickedAreDue(t: seq<Row>, limit: nat, busy: set<nat>, now: int, ids: seq<nat>)
    requires Permutes(ids, Pick(t, 0, limit, busy, now))
    ensures Within(ids, |t|) && forall id <- ids :: Due(t[id], now) && id !in busy
  {
    PickExact(t, 0, limit, busy, now);
  }

  lemma SkippedIsOvertaken(t: seq<Row>, limit: nat, busy: set<nat>, now: int, ids: seq<nat>)
    requires Permutes(ids, Pick(t, 0, limit, busy, now)) && Within(ids, |t|) && SkipsEarlier(t, ids, busy, now)
    ensures !NeverOvertakes(t, ids, now)
  {
    var i: nat, j :| i < j < |t| && j in ids && t[i].key == t[j].key
      && !t[i].status.Published? && (!Due(t[i], now) || i in busy);
    PickedAreDue(t, limit, busy, now, ids);
    var os := seq(|ids|, _ => Outcome(Accepted, true, true));
    AcceptedIsConsent(t, ids, os, now, j);
    assert Consented(t, ids, os, now, j) && !Consented(t, ids, os, now, i);
  }

  lemma UnlistedIsOvertaken(t: seq<Row>, limit: nat, busy: set<nat>, now: int, ids: seq<nat>)
    requires Permutes(ids, Pick(t, 0, limit, busy, now)) && Within(ids, |t|) && !ListsById(t, ids)
    ensures !NeverOvertakes(t, ids, now)
  {
    var a, b :| 0 <= a < b < |ids| && t[ids[a]].key == t[ids[b]].key && ids[a] > ids[b];
    PickedAreDue(t, limit, busy, now, ids);
    assert ids[b] in ids;
    var os := OnlyTheFirst(t, ids, now, a, b);
  }

  /** The broker may take the first of two events of the batch and refuse the second. */
  lemma OnlyTheFirst(t: seq<Row>, ids: seq<nat>, now: int, a: nat, b: nat) returns (os: seq<Outcome>)
    requires Within(ids, |t|) && Distinct(ids) && a < b < |ids|
    ensures |os| == |ids| && Consented(t, ids, os, now, ids[a]) && !Consented(t, ids, os, now, ids[b])
  {
    os := seq(|ids|, i => Outcome(if i == b then Refused else Accepted, true, true));
    AllAccepted(t, ids, os, now, a);
    assert AckedAt(t, ids, os, now, a) && !AckedAt(t, ids, os, now, b);
  }

  lemma PickedTogether(t: seq<Row>, limit: nat, busy: set<nat>, now: int, i: nat, j: nat)
    requires i < j < |t| && j in Pick(t, 0, limit, busy, now) && Due(t[i], now) && i !in busy
    ensures i in Pick(t, 0, limit, busy, now)
  {
    PickExact(t, 0, limit, busy, now);
  }

  lemma EarlierConsents(t: seq<Row>, ids: seq<nat>, os: seq<Outcome>, now: int, i: nat, j: nat)
    requires |os| == |ids| && Within(ids, |t|) && i < j < |t| && t[i].key == t[j].key
    requires ListsById(t, ids) && i in ids && Consented(t, ids, os, now, j)
    ensures Consented(t, ids, os, now, i)
  {
    var n :| 0 <= n < |ids| && ids[n] == j && AckedAt(t, ids, os, now, n);
    var m :| 0 <= m < |ids| && ids[m] == i;
    PassPublishesPrefix(t, ids, os, now, m, n);
  }

  lemma AcceptedIsConsent(t: seq<Row>, ids: seq<nat>, os: seq<Outcome>, now: int, id: nat)
    requires |os| == |ids| && Within(ids, |t|) && id in ids
    requires forall o <- os :: o.answer.Accepted?
    ensures Consented(t, ids, os, now, id)
  {
    var n :| 0 <= n < |ids| && ids[n] == id;
    AllAccepted(t, ids, os, now, n);
    assert AckedAt(t, ids, os, now, n);
  }

  lemma {:induction false} AllAccepted(t: seq<Row>, ids: seq<nat>, os: seq<Outcome>, now: int, n: nat)
    requires n <= |ids| && |os| == |ids| && Within(ids, |t|)
    requires forall i :: 0 <= i < n ==> os[i].answer.Accepted?
    ensures Turns(t, ids, os, now, n).1 == {}
    decreases n
  {
    if n > 0 {
      AllAccepted(t, ids, os, now, n - 1);
    }
  }
}
