/** The quota table: single-statement updates, and the worker that walks it page by page
    to open a new calendar period. */
module CdnQuotaStore {
  import opened Prelude
  import opened CdnQuota

  type Key = (int, string)

  // ---------------------------------------------------------------- the order of the keyset

  predicate StrLess(s: string, t: string) {
    t != "" && (s == "" || s[0] < t[0] || (s[0] == t[0] && StrLess(s[1..], t[1..])))
  }

  /** (telegram_id, node_id) > ($2, $3) reads KeyLess(cursor, key). */
  predicate KeyLess(a: Key, b: Key) {
    a.0 < b.0 || (a.0 == b.0 && StrLess(a.1, b.1))
  }

  lemma {:induction false} StrLessIsIrreflexive(s: string)
    ensures !StrLess(s, s)
  {
    if s != "" {
      StrLessIsIrreflexive(s[1..]);
    }
  }

  lemma {:induction false} StrLessIsTotalOrder(s: string, t: string, u: string)
    ensures StrLess(s, t) || s == t || StrLess(t, s)
    ensures StrLess(s, t) && StrLess(t, u) ==> StrLess(s, u)
    decreases |s| + |t| + |u|
  {
    if s != "" && t != "" {
      assert s == [s[0]] + s[1..] && t == [t[0]] + t[1..];
      StrLessIsTotalOrder(s[1..], t[1..], if u == "" then u else u[1..]);
    }
  }

  /** Strings compare at their first difference, and a prefix comes first. */
  lemma {:induction false} FirstDifferenceDecides(p: string, s: string, t: string)
    requires s == "" || t == "" || s[0] != t[0]
    ensures StrLess(p + s, p + t) <==> t != "" && (s == "" || s[0] < t[0])
    decreases |p|
  {
    if p == "" {
      assert p + s == s && p + t == t;
    } else {
      assert (p + s)[1..] == p[1..] + s && (p + t)[1..] == p[1..] + t;
      FirstDifferenceDecides(p[1..], s, t);
    }
  }

  lemma KeyLessIsTotalOrder(a: Key, b: Key, c: Key)
    ensures !KeyLess(a, a)
    ensures KeyLess(a, b) || a == b || KeyLess(b, a)
    ensures KeyLess(a, b) && KeyLess(b, c) ==> KeyLess(a, c)
  {
    StrLessIsIrreflexive(a.1);
    StrLessIsTotalOrder(a.1, b.1, c.1);
  }

  lemma {:induction false} LeastExists(ks: set<Key>)
    requires ks != {}
    ensures exists m :: m in ks && forall k <- ks :: k == m || KeyLess(m, k)
  {
    var any :| any in ks;
    if ks == {any} {
      return;
    }
    assert ks - {any} < ks;
    LeastExists(ks - {any});
    var m :| m in ks - {any} && forall k <- ks - {any} :: k == m || KeyLess(m, k);
    var least := if KeyLess(any, m) then any else m;
    forall k <- ks ensures k == least || KeyLess(least, k) {
      KeyLessIsTotalOrder(any, m, k);
      KeyLessIsTotalOrder(m, any, k);
    }
  }

  // ---------------------------------------------------------------- the calendar pass

  const FIRST_CURSOR: Key := (0, "")

  /** Rows of another period behind the cursor's page. */
  function Pending(rows: map<Key, Row>, period: string, cursor: Key): set<Key> {
    set k | k in rows && rows[k].periodKey != period && KeyLess(cursor, k)
  }

  /** One page: the least pending keys in order, all of them unless the page is full. */
  ghost predicate IsPage(rows: map<Key, Row>, period: string, cursor: Key, size: nat, page: seq<Key>) {
    && |page| <= size
    && InOrder(Pending(rows, period, cursor), page)
    && (|page| < size ==> forall k <- Pending(rows, period, cursor) :: k in page)
  }

  /** Pending rows the cursor has passed. */
  function Visited(before: map<Key, Row>, period: string, cursor: Key): set<Key> {
    set k | k in Pending(before, period, FIRST_CURSOR) && !KeyLess(cursor, k)
  }

  /** Pending rows still ahead of the cursor. */
  function Left(before: map<Key, Row>, period: string, cursor: Key): set<Key> {
    Pending(before, period, FIRST_CURSOR) - Visited(before, period, cursor)
  }

  /** The table when the pass has come up to the cursor and `failing` row transactions fail. */
  function PassUpTo(before: map<Key, Row>, period: string, limit: int, failing: set<Key>, cursor: Key): map<Key, Row> {
    map k | k in before ::
      if k in Visited(before, period, cursor) && k !in failing then ResetRow(before[k], period, limit) else before[k]
  }

  lemma RestIsAhead(before: map<Key, Row>, period: string, limit: int, failing: set<Key>, cursor: Key)
    requires !KeyLess(cursor, FIRST_CURSOR)
    ensures Pending(PassUpTo(before, period, limit, failing, cursor), period, cursor) == Left(before, period, cursor)
  {
    var now := PassUpTo(before, period, limit, failing, cursor);
    forall k <- before
      ensures k in Pending(now, period, cursor) <==> k in Left(before, period, cursor)
    {
      KeyLessIsTotalOrder(FIRST_CURSOR, cursor, k);
    }
  }

  function Elems(page: seq<Key>): set<Key> {
    set k | k in page
  }

  /** The keys of `page` are the least of `ahead`, in order. */
  ghost predicate InOrder(ahead: set<Key>, page: seq<Key>) {
    && (forall j :: 0 <= j < |page| ==> page[j] in ahead)
    && (forall j, l :: 0 <= j < l < |page| ==> KeyLess(page[j], page[l]))
    && (forall k <- ahead :: k in page || forall j :: 0 <= j < |page| ==> KeyLess(page[j], k))
  }

  lemma HeadOfRest(ahead: set<Key>, page: seq<Key>, i: nat)
    requires i < |page| && InOrder(ahead, page)
    ensures page[i] in ahead - Elems(page[..i])
    ensures forall x <- ahead - Elems(page[..i]) :: !KeyLess(x, page[i])
  {
    forall j | 0 <= j < i ensures page[j] != page[i] && page[j] in page[..i] {
      KeyLessIsTotalOrder(page[j], page[j], page[j]);
      assert page[..i][j] == page[j];
    }
    forall x <- ahead - Elems(page[..i]) ensures !KeyLess(x, page[i]) {
      KeyLessIsTotalOrder(x, page[i], x);
      if x in page {
        var j :| 0 <= j < |page| && page[j] == x;
        assert i <= j;
      }
    }
  }

  lemma Advance(before: map<Key, Row>, period: string, limit: int, failing: set<Key>, cursor: Key, k: Key)
    requires !KeyLess(cursor, FIRST_CURSOR)
    requires k in Left(before, period, cursor)
    requires forall x <- Left(before, period, cursor) :: !KeyLess(x, k)
    ensures !KeyLess(k, FIRST_CURSOR)
    ensures Visited(before, period, k) == Visited(before, period, cursor) + {k}
    ensures (Visited(before, period, k) - failing)
            == (Visited(before, period, cursor) - failing) + (if k in failing then {} else {k})
    ensures PassUpTo(before, period, limit, failing, k)
            == if k in failing then PassUpTo(before, period, limit, failing, cursor)
               else PassUpTo(before, period, limit, failing, cursor)[k := ResetRow(before[k], period, limit)]
  {
    KeyLessIsTotalOrder(FIRST_CURSOR, k, FIRST_CURSOR);
    forall x <- Pending(before, period, FIRST_CURSOR)
      ensures x in Visited(before, period, k) <==> x in Visited(before, period, cursor) || x == k
    {
      KeyLessIsTotalOrder(cursor, k, x);
      KeyLessIsTotalOrder(k, x, k);
    }
  }

  /** What a complete pass makes of the table when the transactions of `failing` fail. */
  function CalendarPass(rows: map<Key, Row>, period: string, limit: int, failing: set<Key>): map<Key, Row> {
    map k | k in rows ::
      if k in Pending(rows, period, FIRST_CURSOR) && k !in failing
      then ResetRow(rows[k], period, limit) else rows[k]
  }

  /** After a clean pass the whole table is on the target period exactly when no row of
      another period sits at or before the first cursor. Positive user ids never do. */
  lemma PassReachesAll(rows: map<Key, Row>, period: string, limit: int)
    ensures (forall k <- CalendarPass(rows, period, limit, {}) ::
               CalendarPass(rows, period, limit, {})[k].periodKey == period)
            <==> (forall k <- rows :: rows[k].periodKey == period || k.0 > 0 || (k.0 == 0 && k.1 != ""))
    ensures forall k <- rows :: k.0 > 0 ==> CalendarPass(rows, period, limit, {})[k].periodKey == period
  {
    var after := CalendarPass(rows, period, limit, {});
    forall k <- rows
      ensures KeyLess(FIRST_CURSOR, k) <==> k.0 > 0 || (k.0 == 0 && k.1 != "")
      ensures after[k].periodKey == period <==> rows[k].periodKey == period || KeyLess(FIRST_CURSOR, k)
    {
    }
    if forall k <- after :: after[k].periodKey == period {
      forall k <- rows
        ensures rows[k].periodKey == period || k.0 > 0 || (k.0 == 0 && k.1 != "")
      {
        assert k in after;
      }
    }
  }

  /** A later clean pass finishes exactly what failed and touches nothing twice; after a
      clean pass another one changes nothing. */
  lemma PassIsResumable(rows: map<Key, Row>, period: string, limit: int, failing: set<Key>)
    ensures CalendarPass(CalendarPass(rows, period, limit, failing), period, limit, {})
            == CalendarPass(rows, period, limit, {})
  {
    var once := CalendarPass(rows, period, limit, failing);
    assert once.Keys == rows.Keys;
    forall k <- rows
      ensures CalendarPass(once, period, limit, {})[k] == CalendarPass(rows, period, limit, {})[k]
    {
    }
  }

  /** Visiting the next row of a page: what the table becomes and what is left. */
  lemma OneRow(before: map<Key, Row>, period: string, limit: int, failing: set<Key>,
               start: Key, cursor: Key, page: seq<Key>, i: nat)
    requires i < |page| && !KeyLess(cursor, FIRST_CURSOR)
    requires InOrder(Left(before, period, start), page)
    requires Left(before, period, cursor) == Left(before, period, start) - Elems(page[..i])
    ensures var k := page[i];
            && k in before && before[k].periodKey != period
            && !KeyLess(k, FIRST_CURSOR)
            && PassUpTo(before, period, limit, failing, cursor)[k] == before[k]
            && PassUpTo(before, period, limit, failing, k)
               == (if k in failing then PassUpTo(before, period, limit, failing, cursor)
                   else PassUpTo(before, period, limit, failing, cursor)[k := ResetRow(before[k], period, limit)])
            && Left(before, period, k) == Left(before, period, start) - Elems(page[..i + 1])
            && |Visited(before, period, k) - failing|
               == |Visited(before, period, cursor) - failing| + (if k in failing then 0 else 1)
  {
    HeadOfRest(Left(before, period, start), page, i);
    Advance(before, period, limit, failing, cursor, page[i]);
    assert page[..i + 1] == page[..i] + [page[i]];
    assert Elems(page[..i + 1]) == Elems(page[..i]) + {page[i]};
    assert Left(before, period, page[i]) == Left(before, period, cursor) - {page[i]};
  }

  lemma PassStarts(before: map<Key, Row>, period: string, limit: int, failing: set<Key>)
    ensures !KeyLess(FIRST_CURSOR, FIRST_CURSOR)
    ensures PassUpTo(before, period, limit, failing, FIRST_CURSOR) == before
    ensures Visited(before, period, FIRST_CURSOR) - failing == {}
  {
    KeyLessIsTotalOrder(FIRST_CURSOR, FIRST_CURSOR, FIRST_CURSOR);
    assert Visited(before, period, FIRST_CURSOR) == {};
  }

  lemma PageOfLeft(before: map<Key, Row>, period: string, limit: int, failing: set<Key>,
                   cursor: Key, batchSize: int, page: seq<Key>)
    requires !KeyLess(cursor, FIRST_CURSOR)
    requires IsPage(PassUpTo(before, period, limit, failing, cursor), period, cursor,
                    if batchSize <= 0 then 500 else batchSize, page)
    ensures InOrder(Left(before, period, cursor), page)
    ensures |page| == 0 || |page| < batchSize ==> Left(before, period, cursor) - Elems(page) == {}
    ensures |page| > 0 ==> Left(before, period, cursor) - Elems(page) < Left(before, period, cursor)
    ensures |page| == 0 ==> Left(before, period, cursor) == {}
  {
    RestIsAhead(before, period, limit, failing, cursor);
    if |page| > 0 {
      assert page[0] in Left(before, period, cursor) && page[0] in Elems(page);
    }
  }

  lemma PassEnds(before: map<Key, Row>, period: string, limit: int, failing: set<Key>, cursor: Key)
    requires Left(before, period, cursor) == {}
    ensures PassUpTo(before, period, limit, failing, cursor) == CalendarPass(before, period, limit, failing)
    ensures Visited(before, period, cursor) == Pending(before, period, FIRST_CURSOR)
  {
    forall k <- Pending(before, period, FIRST_CURSOR) ensures k in Visited(before, period, cursor) {
      assert k !in Left(before, period, cursor);
    }
  }

  // ---------------------------------------------------------------- the table

  datatype Status = Status(telegramId: int, nodeId: string, periodKey: string, used: int, limit: int,
                           state: State, revision: int, justExhausted: bool, counterRebased: bool)

  function Lookup(rows: map<Key, Row>, k: Key): Option<Row> {
    if k in rows then Some(rows[k]) else None
  }

  class QuotaStore {
    var rows: map<Key, Row>

    constructor ()
      ensures rows == map[]
    {
      rows := map[];
    }

    method ApplyObservationTx(telegramId: int, nodeId: string, observed: int, observedUplink: int,
                              limitBytes: int, periodKey: string)
      returns (res: Result<Status>)
      modifies this
      ensures res.Ok? <==> telegramId != 0 && nodeId != ""
                           && ValidReport(Report(observed, observedUplink, limitBytes, periodKey))
      ensures res.Err? ==> rows == old(rows)
      ensures res.Ok? ==>
                var prev := Lookup(old(rows), (telegramId, nodeId));
                var row := Observe(prev, Report(observed, observedUplink, limitBytes, periodKey));
                && rows == old(rows)[(telegramId, nodeId) := row]
                && res.value == Status(telegramId, nodeId, row.periodKey, row.Used(), row.limit, row.state,
                                       row.revision,
                                       row.state.Exhausted? && !(prev.Some? && prev.value.state.Exhausted?),
                                       prev.Some? && observed < prev.value.baseline)
                && row.limit == limitBytes
                && (row.state.Exhausted? <==> row.Used() >= limitBytes || (prev.Some? && prev.value.state.Exhausted?))
    {
      if telegramId == 0 || nodeId == "" {
        return Err("empty telegram_id or node_id");
      }
      if observed < 0 {
        return Err("negative observed");
      }
      if observedUplink < 0 {
        return Err("negative observed uplink");
      }
      if observedUplink > observed {
        return Err("observed uplink exceeds total");
      }
      if limitBytes <= 0 {
        return Err("non-positive limit");
      }
      var k := (telegramId, nodeId);
      var prev := Lookup(rows, k);
      var row := Upsert(prev, Report(observed, observedUplink, limitBytes, periodKey));
      rows := rows[k := row];
      var st := Status(telegramId, nodeId, row.periodKey, row.Used(), row.limit, row.state, row.revision,
                       false, prev.Some? && observed < prev.value.baseline);
      if st.state.Active? && st.used >= st.limit {
        row := row.(state := Exhausted, revision := row.revision + 1);
        rows := rows[k := row];
        st := st.(state := Exhausted, revision := row.revision, justExhausted := true);
      }
      return Ok(st);
    }

    method ResetQuotaTx(telegramId: int, nodeId: string, periodKey: string, limitBytes: int)
      returns (res: Result<bool>)
      modifies this
      ensures res.Err? <==> periodKey == ""
      ensures res.Err? ==> rows == old(rows)
      ensures res.Ok? ==>
                var prev := Lookup(old(rows), (telegramId, nodeId));
                && res.value == Resets(prev, Reset(periodKey, limitBytes))
                && rows == if prev.None? then old(rows)
                           else old(rows)[(telegramId, nodeId) := ResetRow(prev.value, periodKey, limitBytes)]
    {
      if periodKey == "" {
        return Err("empty period key");
      }
      var k := (telegramId, nodeId);
      if k in rows && rows[k].periodKey != periodKey {
        rows := rows[k := rows[k].(periodKey := periodKey, baseline := rows[k].observed, limit := limitBytes,
                                   state := Active, revision := rows[k].revision + 1)];
        return Ok(true);
      }
      assert k in rows ==> rows == rows[k := rows[k]];
      return Ok(false);
    }

    /** One statement for all nodes of the user; returns the nodes really reset. */
    method ResetQuotaForUserTx(telegramId: int, periodKey: string, limitBytes: int)
      returns (res: Result<set<string>>)
      modifies this
      ensures res.Err? <==> periodKey == ""
      ensures res.Err? ==> rows == old(rows)
      ensures res.Ok? ==>
                && rows.Keys == old(rows).Keys
                && (forall k <- rows ::
                      rows[k] == if k.0 == telegramId
                                 then ResetRow(old(rows)[k], periodKey, limitBytes) else old(rows)[k])
                && (forall n :: n in res.value <==>
                      (telegramId, n) in old(rows)
                      && Resets(Some(old(rows)[(telegramId, n)]), Reset(periodKey, limitBytes)))
    {
      if periodKey == "" {
        return Err("empty period key");
      }
      var hit := set k | k in rows && k.0 == telegramId && rows[k].periodKey != periodKey;
      var nodes := set k | k in hit :: k.1;
      rows := map k | k in rows ::
        if k in hit
        then rows[k].(periodKey := periodKey, baseline := rows[k].observed, limit := limitBytes,
                      state := Active, revision := rows[k].revision + 1)
        else rows[k];
      forall n
        ensures n in nodes <==> (telegramId, n) in hit
      {
        if n in nodes {
          var k :| k in hit && k.1 == n;
          assert k == (telegramId, n);
        }
        if (telegramId, n) in hit {
          assert (telegramId, n).1 == n;
        }
      }
      return Ok(nodes);
    }

    method ListQuotasForCalendarReset(periodKey: string, cursor: Key, limit: int) returns (page: seq<Key>)
      ensures IsPage(rows, periodKey, cursor, if limit <= 0 then 500 else limit, page)
    {
      var size := if limit <= 0 then 500 else limit;
      var rest := Pending(rows, periodKey, cursor);
      page := [];
      while |page| < size && rest != {}
        invariant |page| <= size
        invariant rest == Pending(rows, periodKey, cursor) - Elems(page)
        invariant forall i :: 0 <= i < |page| ==> page[i] in Pending(rows, periodKey, cursor)
        invariant forall i, j :: 0 <= i < j < |page| ==> KeyLess(page[i], page[j])
        invariant forall i, k :: 0 <= i < |page| && k in rest ==> KeyLess(page[i], k)
        decreases rest
      {
        LeastExists(rest);
        var m :| m in rest && forall k <- rest :: k == m || KeyLess(m, k);
        page := page + [m];
        rest := rest - {m};
      }
      forall k <- Pending(rows, periodKey, cursor)
        ensures k in page || (|page| == size && k in rest)
      {
        assert k in page || k in rest;
      }
    }

    /** The rows of one page, in order. `start` is the cursor the page was read from. */
    method ResetPage(ghost before: map<Key, Row>, periodKey: string, limitBytes: int, failing: set<Key>,
                     start: Key, page: seq<Key>)
      returns (cursor: Key, resetRows: nat)
      requires periodKey != "" && !KeyLess(start, FIRST_CURSOR)
      requires rows == PassUpTo(before, periodKey, limitBytes, failing, start)
      requires InOrder(Left(before, periodKey, start), page)
      modifies this
      ensures !KeyLess(cursor, FIRST_CURSOR)
      ensures rows == PassUpTo(before, periodKey, limitBytes, failing, cursor)
      ensures Left(before, periodKey, cursor) == Left(before, periodKey, start) - Elems(page)
      ensures |Visited(before, periodKey, cursor) - failing|
              == |Visited(before, periodKey, start) - failing| + resetRows
    {
      cursor, resetRows := start, 0;
      for i := 0 to |page|
        invariant !KeyLess(cursor, FIRST_CURSOR)
        invariant rows == PassUpTo(before, periodKey, limitBytes, failing, cursor)
        invariant Left(before, periodKey, cursor) == Left(before, periodKey, start) - Elems(page[..i])
        invariant |Visited(before, periodKey, cursor) - failing|
                  == |Visited(before, periodKey, start) - failing| + resetRows
      {
        var k := page[i];
        OneRow(before, periodKey, limitBytes, failing, start, cursor, page, i);
        if k !in failing {
          var done := ResetQuotaTx(k.0, k.1, periodKey, limitBytes);
          if done.value {
            resetRows := resetRows + 1;
          }
        }
        cursor := k;
      }
      assert page[..|page|] == page;
    }

    /** The pass terminates, resets each pending row once and no other, and reports how
        many: whatever the page size, and whichever row transactions fail on the way. */
    method RunCalendarReset(periodKey: string, limitBytes: int, batchSize: int, failing: set<Key>)
      returns (resetRows: nat)
      requires periodKey != ""
      modifies this
      ensures rows == CalendarPass(old(rows), periodKey, limitBytes, failing)
      ensures resetRows == |Pending(old(rows), periodKey, FIRST_CURSOR) - failing|
    {
      ghost var before := rows;
      var cursor := FIRST_CURSOR;
      resetRows := 0;
      PassStarts(before, periodKey, limitBytes, failing);
      while true
        invariant !KeyLess(cursor, FIRST_CURSOR)
        invariant rows == PassUpTo(before, periodKey, limitBytes, failing, cursor)
        invariant resetRows == |Visited(before, periodKey, cursor) - failing|
        decreases Left(before, periodKey, cursor)
      {
        var page := ListQuotasForCalendarReset(periodKey, cursor, batchSize);
        PageOfLeft(before, periodKey, limitBytes, failing, cursor, batchSize, page);
        if |page| == 0 {
          break;
        }
        var more: nat;
        cursor, more := ResetPage(before, periodKey, limitBytes, failing, cursor, page);
        resetRows := resetRows + more;
        if |page| < batchSize {
          break;
        }
      }
      PassEnds(before, periodKey, limitBytes, failing, cursor);
    }
  }
}
