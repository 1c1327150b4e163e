/** The CDN quota row of one (user, node) pair: what one report, one period reset and any
    run of them do to it. */
module CdnQuota {
  import opened Prelude

  datatype State = Active | Exhausted

  /** `baseline` is the cumulative reading the period is counted from, `observed` the
      high-water mark of the readings; the `Up` pair is the uplink part of the same. */
  datatype Row = Row(periodKey: string, baseline: int, observed: int,
                     baselineUp: int, observedUp: int,
                     limit: int, state: State, revision: int)
  {
    function Used(): int { Max(observed - baseline, 0) }
    function UsedUp(): int { Max(observedUp - baselineUp, 0) }
    function UsedDown(): int { Max((observed - baseline) - (observedUp - baselineUp), 0) }
  }

  datatype Report = Report(total: int, uplink: int, limit: int, periodKey: string)

  predicate ValidReport(r: Report) {
    0 <= r.uplink <= r.total && r.limit > 0
  }

  /** INSERT ... ON CONFLICT DO UPDATE. */
  function Upsert(prev: Option<Row>, r: Report): Row {
    match prev
    case None =>
      Row(r.periodKey, r.total, r.total, r.uplink, r.uplink, r.limit, Active, 0)
    case Some(row) =>
      if r.total < row.baseline then
        row.(baseline := Max(r.total - (row.observed - row.baseline), 0),
             observed := r.total,
             baselineUp := Max(r.uplink - (row.observedUp - row.baselineUp), 0),
             observedUp := r.uplink,
             limit := r.limit)
      else
        row.(observed := Max(row.observed, r.total),
             observedUp := Max(row.observedUp, r.uplink),
             limit := r.limit)
  }

  /** The second, conditional UPDATE: active to exhausted. */
  function Exhaust(row: Row): Row {
    if row.state.Active? && row.Used() >= row.limit
    then row.(state := Exhausted, revision := row.revision + 1)
    else row
  }

  function Observe(prev: Option<Row>, r: Report): Row {
    Exhaust(Upsert(prev, r))
  }

  /** UPDATE ... WHERE period_key <> key. */
  function ResetRow(row: Row, key: string, limit: int): Row {
    if row.periodKey == key then row
    else row.(periodKey := key, baseline := row.observed, limit := limit,
              state := Active, revision := row.revision + 1)
  }

  datatype Op = Heard(r: Report) | Reset(key: string, limit: int)

  /** What the source accepts: it refuses other reports and an empty key, and the policy
      loader refuses a non-positive limit. */
  predicate ValidOp(op: Op) {
    match op
    case Heard(r) => ValidReport(r)
    case Reset(key, limit) => key != "" && limit > 0
  }

  function Step(prev: Option<Row>, op: Op): Option<Row> {
    match op
    case Heard(r) => Some(Observe(prev, r))
    case Reset(key, limit) => if prev.None? then None else Some(ResetRow(prev.value, key, limit))
  }

  function Run(prev: Option<Row>, ops: seq<Op>): Option<Row>
    decreases |ops|
  {
    if ops == [] then prev else Run(Step(prev, ops[0]), ops[1..])
  }

  // ---------------------------------------------------------------- what every run keeps

  /** The CHECK constraints of the table. */
  predicate Sound(row: Row) {
    && 0 <= row.baseline <= row.observed
    && 0 <= row.baselineUp <= row.observedUp <= row.observed
    && row.limit > 0
  }

  /** An active row is under its limit. */
  predicate Latched(row: Row) {
    row.state.Active? ==> row.Used() < row.limit
  }

  /** No accepted report or reset ever trips a CHECK constraint, and no completed step
      leaves an active row at or over its limit. */
  lemma {:induction false} RunKeepsRowSound(prev: Option<Row>, ops: seq<Op>)
    requires prev.Some? ==> Sound(prev.value) && Latched(prev.value)
    requires forall op <- ops :: ValidOp(op)
    ensures Run(prev, ops).Some? ==> Sound(Run(prev, ops).value) && Latched(Run(prev, ops).value)
    decreases |ops|
  {
    if ops != [] {
      assert ValidOp(ops[0]);
      RunKeepsRowSound(Step(prev, ops[0]), ops[1..]);
    }
  }

  /** A reading below the baseline keeps of the charged usage what the reading can hold:
      the charge survives exactly when the reading is at least that large. */
  lemma RollbackCharge(row: Row, r: Report)
    requires Sound(row) && ValidReport(r) && r.total < row.baseline
    ensures var after := Observe(Some(row), r);
            && after.Used() == Min(row.Used(), r.total)
            && after.UsedUp() == Min(row.UsedUp(), r.uplink)
            && (after.Used() == row.Used() <==> r.total >= row.Used())
  {
  }

  /** Every accepted report: the row is judged by the limit it brings, becomes exhausted exactly when
      its usage then reaches that limit, and never comes back by a report; the usage rises to the
      reading's distance from the baseline, or after a rollback keeps what the reading can hold. */
  lemma ReportIsJudgedByItsLimit(prev: Option<Row>, r: Report)
    requires ValidReport(r) && (prev.Some? ==> Sound(prev.value) && Latched(prev.value))
    ensures var after := Observe(prev, r);
            && after.limit == r.limit
            && (after.state.Exhausted? <==> after.Used() >= r.limit || (prev.Some? && prev.value.state.Exhausted?))
            && after.observed == (if prev.None? || r.total < prev.value.baseline then r.total
                                  else Max(prev.value.observed, r.total))
            && match prev
               case None =>
                 && after.Used() == 0 && after.UsedUp() == 0 && after.periodKey == r.periodKey && after.revision == 0
               case Some(row) =>
                 && after.periodKey == row.periodKey
                 && after.revision == row.revision + (if row.state.Active? && after.state.Exhausted? then 1 else 0)
                 && (r.total < row.baseline ==>
                       after.Used() == Min(row.Used(), r.total) && after.UsedUp() == Min(row.UsedUp(), r.uplink))
                 && (r.total >= row.baseline ==>
                       && after.Used() == Max(row.Used(), r.total - row.baseline)
                       && after.UsedUp() == Max(row.UsedUp(), r.uplink - row.baselineUp))
  {
  }

  /** A reset to another period starts it active, at zero, under its own limit; a repeated one, or
      one without a row, does nothing. */
  lemma ResetOpensPeriod(prev: Option<Row>, key: string, limit: int)
    ensures var after := Step(prev, Reset(key, limit));
            if prev.None? || prev.value.periodKey == key then after == prev
            else
              && after.Some? && after.value.periodKey == key && after.value.limit == limit && after.value.state.Active?
              && after.value.Used() == 0 && after.value.observed == prev.value.observed
              && after.value.revision == prev.value.revision + 1
              && after.value.observedUp == prev.value.observedUp && after.value.baselineUp == prev.value.baselineUp
  {
  }

  /** The operation sets the limit of the row: a report, or a reset that takes effect. */
  predicate SetsLimit(prev: Option<Row>, op: Op) {
    op.Heard? || (prev.Some? && prev.value.periodKey != op.key)
  }

  function LimitOf(op: Op): int {
    if op.Heard? then op.r.limit else op.limit
  }

  lemma {:induction false} RunOn(prev: Option<Row>, ops: seq<Op>, k: nat)
    requires k <= |ops|
    ensures Run(prev, ops) == Run(Run(prev, ops[..k]), ops[k..])
    decreases |ops|
  {
    if k > 0 {
      assert ops[..k][1..] == ops[1..][..k - 1] && ops[1..][k - 1..] == ops[k..];
      RunOn(Step(prev, ops[0]), ops[1..], k - 1);
    } else {
      assert ops[0..] == ops;
    }
  }

  /** From operation k on nothing sets the limit. */
  predicate NoLimitFrom(prev: Option<Row>, ops: seq<Op>, k: nat)
    decreases |ops| - k
  {
    k < |ops| ==> !SetsLimit(Run(prev, ops[..k]), ops[k]) && NoLimitFrom(prev, ops, k + 1)
  }

  lemma {:induction false} LimitStays(prev: Option<Row>, ops: seq<Op>, k: nat)
    requires k <= |ops| && NoLimitFrom(prev, ops, k)
    ensures Run(prev, ops) == Run(prev, ops[..k])
    decreases |ops| - k
  {
    if k < |ops| {
      OneMore(prev, ops, k);
      LimitStays(prev, ops, k + 1);
    } else {
      assert ops[..k] == ops;
    }
  }

  lemma OneMore(prev: Option<Row>, ops: seq<Op>, k: nat)
    requires k < |ops|
    ensures Run(prev, ops[..k + 1]) == Step(Run(prev, ops[..k]), ops[k])
  {
    var front := ops[..k + 1];
    assert front[..k] == ops[..k] && front[k..] == [ops[k]] && [ops[k]][1..] == [];
    RunOn(prev, front, k);
    var row := Step(Run(prev, ops[..k]), ops[k]);
    assert Run(row, []) == row;
  }

  /** Over every run the stored limit is that of the last report or effective reset, whatever came
      before it. */
  lemma LimitIsLastGiven(prev: Option<Row>, ops: seq<Op>, k: nat)
    requires k < |ops| && SetsLimit(Run(prev, ops[..k]), ops[k]) && NoLimitFrom(prev, ops, k + 1)
    ensures Run(prev, ops).Some? && Run(prev, ops).value.limit == LimitOf(ops[k])
  {
    OneMore(prev, ops, k);
    LimitStays(prev, ops, k + 1);
  }

  // ---------------------------------------------------------------- exhaustion latch

  predicate Exhausts(prev: Option<Row>, op: Op) {
    && Step(prev, op).Some? && Step(prev, op).value.state.Exhausted?
    && (prev.Some? ==> prev.value.state.Active?)
  }

  predicate Resets(prev: Option<Row>, op: Op) {
    op.Reset? && prev.Some? && prev.value.periodKey != op.key
  }

  function Exhaustions(prev: Option<Row>, ops: seq<Op>): nat
    decreases |ops|
  {
    if ops == [] then 0
    else (if Exhausts(prev, ops[0]) then 1 else 0) + Exhaustions(Step(prev, ops[0]), ops[1..])
  }

  function EffectiveResets(prev: Option<Row>, ops: seq<Op>): nat
    decreases |ops|
  {
    if ops == [] then 0
    else (if Resets(prev, ops[0]) then 1 else 0) + EffectiveResets(Step(prev, ops[0]), ops[1..])
  }

  /** The revision counts exhaustions and effective resets and nothing else, and between
      two exhaustions there is a reset. */
  lemma {:induction false} RevisionCountsTransitions(prev: Option<Row>, ops: seq<Op>)
    requires prev.Some? ==> Sound(prev.value) && Latched(prev.value)
    requires forall op <- ops :: ValidOp(op)
    ensures Run(prev, ops).Some? ==>
              Run(prev, ops).value.revision
              == (if prev.Some? then prev.value.revision else 0)
                 + Exhaustions(prev, ops) + EffectiveResets(prev, ops)
    ensures Exhaustions(prev, ops)
            <= EffectiveResets(prev, ops) + (if prev.Some? && prev.value.state.Exhausted? then 0 else 1)
    decreases |ops|
  {
    if ops != [] {
      assert ValidOp(ops[0]);
      RunKeepsRowSound(prev, [ops[0]]);
      assert Run(prev, [ops[0]]) == Step(prev, ops[0]);
      RevisionCountsTransitions(Step(prev, ops[0]), ops[1..]);
    }
  }

  /** Without an effective reset an exhausted row stays exhausted, in the same period and
      at the same revision, whatever is reported. */
  lemma {:induction false} ExhaustedUntilReset(row: Row, ops: seq<Op>)
    requires row.state.Exhausted?
    requires EffectiveResets(Some(row), ops) == 0
    ensures Run(Some(row), ops).Some?
    ensures var after := Run(Some(row), ops).value;
            after.state.Exhausted? && after.periodKey == row.periodKey && after.revision == row.revision
    decreases |ops|
  {
    if ops != [] {
      ExhaustedUntilReset(Step(Some(row), ops[0]).value, ops[1..]);
    }
  }

  // ---------------------------------------------------------------- no overcharge

  /** A node counter next to the row. `counter` restarts at zero at will; `sinceOpen` is what
      moved since the period opened (at the first report or the last effective reset), `lead` by
      how much the counter was ahead of the row then. */
  datatype World = World(row: Option<Row>, counter: int, sinceOpen: int, lead: int)

  datatype Event =
    | Transfer(bytes: nat)
    | Restart
    | Deliver(uplink: int, limit: int, key: string)
    | OpenPeriod(newKey: string, newLimit: int)

  predicate Enabled(w: World, e: Event) {
    match e
    case Transfer(_) => true
    case Restart => true
    case Deliver(uplink, limit, _) => 0 <= uplink <= w.counter && limit > 0
    case OpenPeriod(key, limit) => key != "" && limit > 0
  }

  /** How far the counter has run ahead of the row. */
  function Ahead(w: World): int {
    if w.row.None? then 0 else Max(w.counter - w.row.value.observed, 0)
  }

  function Happen(w: World, e: Event): World {
    match e
    case Transfer(n) =>
      w.(counter := w.counter + n, sinceOpen := w.sinceOpen + n)
    case Restart => w.(counter := 0)
    case Deliver(uplink, limit, key) =>
      var row := Step(w.row, Heard(Report(w.counter, uplink, limit, key)));
      if w.row.None? then World(row, w.counter, 0, 0) else w.(row := row)
    case OpenPeriod(key, limit) =>
      if Resets(w.row, Reset(key, limit))
      then w.(row := Step(w.row, Reset(key, limit)), sinceOpen := 0, lead := Ahead(w))
      else w
  }

  predicate AllEnabled(w: World, es: seq<Event>)
    decreases |es|
  {
    es != [] ==> Enabled(w, es[0]) && AllEnabled(Happen(w, es[0]), es[1..])
  }

  function History(w: World, es: seq<Event>): World
    decreases |es|
  {
    if es == [] then w else History(Happen(w, es[0]), es[1..])
  }

  /** What is charged and what is still ahead of the row was moved since the period opened, or
      led the row when it did. */
  ghost predicate Accounted(w: World) {
    && 0 <= w.counter && 0 <= w.sinceOpen && 0 <= w.lead
    && (w.row.Some? ==> Sound(w.row.value) && w.row.value.Used() + Ahead(w) <= w.sinceOpen + w.lead)
  }

  const FRESH_NODE := World(None, 0, 0, 0)

  lemma {:induction false} HistoryAccounted(w: World, es: seq<Event>)
    requires Accounted(w) && AllEnabled(w, es)
    ensures Accounted(History(w, es))
    decreases |es|
  {
    if es != [] {
      HistoryAccounted(Happen(w, es[0]), es[1..]);
    }
  }

  /** Over every history of transfers, counter restarts, in-order reports and resets, a user is
      charged at most for what moved since the period opened plus the bytes by which the counter
      led the row at that moment; in the first period that lead is zero. */
  lemma NeverOvercharged(es: seq<Event>)
    requires AllEnabled(FRESH_NODE, es)
    ensures var w := History(FRESH_NODE, es);
            w.row.Some? ==> 0 <= w.row.value.baseline <= w.row.value.observed
                            && w.row.value.Used() <= w.sinceOpen + w.lead
  {
    HistoryAccounted(FRESH_NODE, es);
  }

  /** No event of the history opens a new period. */
  predicate SamePeriod(w: World, es: seq<Event>)
    decreases |es|
  {
    es != [] ==>
      && !(es[0].OpenPeriod? && Resets(w.row, Reset(es[0].newKey, es[0].newLimit)))
      && SamePeriod(Happen(w, es[0]), es[1..])
  }

  lemma {:induction false} LeadStays(w: World, es: seq<Event>)
    requires w.row.Some? && SamePeriod(w, es)
    ensures History(w, es).lead == w.lead && History(w, es).row.Some?
    decreases |es|
  {
    if es != [] {
      LeadStays(Happen(w, es[0]), es[1..]);
    }
  }

  /** Whatever happens in the period that starts in w, no more is charged than moved in it. */
  ghost predicate ChargesOnlyItsOwn(w: World) {
    forall es | AllEnabled(w, es) && SamePeriod(w, es) && History(w, es).row.Some? ::
      History(w, es).row.value.Used() <= History(w, es).sinceOpen
  }

  /** A reset opens a period that can only be charged for its own bytes exactly when the counter
      did not lead the row at the reset. */
  lemma FairPeriodIffNoLead(w: World, key: string, limit: int)
    requires Accounted(w) && w.row.Some? && Resets(w.row, Reset(key, limit)) && key != "" && limit > 0
    ensures ChargesOnlyItsOwn(Happen(w, OpenPeriod(key, limit))) <==> w.counter <= w.row.value.observed
  {
    var began := Happen(w, OpenPeriod(key, limit));
    HistoryAccounted(w, [OpenPeriod(key, limit)]);
    assert History(began, []) == began;
    if w.counter <= w.row.value.observed {
      forall es | AllEnabled(began, es) && SamePeriod(began, es) && History(began, es).row.Some?
        ensures History(began, es).row.value.Used() <= History(began, es).sinceOpen
      {
        HistoryAccounted(began, es);
        LeadStays(began, es);
      }
    } else {
      var es := [Deliver(0, limit, key)];
      ResetCarriesUnreported(w, key, limit, 0);
      assert [OpenPeriod(key, limit), Deliver(0, limit, key)][1..] == es;
      var after := Happen(began, es[0]);
      assert es[1..] == [] && SamePeriod(after, []) && AllEnabled(after, []);
      assert AllEnabled(began, es) && SamePeriod(began, es);
    }
  }

  /** The first period of a row is always fair. */
  lemma FirstPeriodIsFair(w: World, uplink: int, limit: int, key: string)
    requires Accounted(w) && w.row.None? && Enabled(w, Deliver(uplink, limit, key))
    ensures ChargesOnlyItsOwn(Happen(w, Deliver(uplink, limit, key)))
  {
    var began := Happen(w, Deliver(uplink, limit, key));
    forall es | AllEnabled(began, es) && SamePeriod(began, es) && History(began, es).row.Some?
      ensures History(began, es).row.value.Used() <= History(began, es).sinceOpen
    {
      HistoryAccounted(began, es);
      LeadStays(began, es);
    }
  }

  /** The lead is really charged: a report right after a reset, with no byte in between,
      bills exactly the lead of the counter. So a new period starts at zero
      exactly when the counter had not run ahead of the row at the reset. */
  lemma ResetCarriesUnreported(w: World, key: string, limit: int, uplink: int)
    requires Accounted(w) && w.row.Some? && Resets(w.row, Reset(key, limit))
    requires limit > 0 && 0 <= uplink <= w.counter
    ensures var after := History(w, [OpenPeriod(key, limit), Deliver(uplink, limit, key)]);
            && after.row.Some? && after.sinceOpen == 0
            && after.row.value.Used() == Max(w.counter - w.row.value.observed, 0)
            && (after.row.value.Used() <= after.sinceOpen <==> w.counter <= w.row.value.observed)
  {
    var freshPeriod := Happen(w, OpenPeriod(key, limit));
    var after := Happen(freshPeriod, Deliver(uplink, limit, key));
    assert [OpenPeriod(key, limit), Deliver(uplink, limit, key)][1..] == [Deliver(uplink, limit, key)];
    assert History(freshPeriod, [Deliver(uplink, limit, key)]) == History(after, []) == after;
  }

  // ---------------------------------------------------------------- order and repetition

  function Reports(rs: seq<Report>): seq<Op> {
    seq(|rs|, i requires 0 <= i < |rs| => Heard(rs[i]))
  }

  predicate AheadOfBaseline(row: Row, rs: seq<Report>) {
    forall r <- rs :: ValidReport(r) && r.total >= row.baseline && r.limit == row.limit
  }

  function HighWater(start: int, xs: seq<int>): int
    decreases |xs|
  {
    if xs == [] then start else HighWater(Max(start, xs[0]), xs[1..])
  }

  function Totals(rs: seq<Report>): seq<int> {
    seq(|rs|, i requires 0 <= i < |rs| => rs[i].total)
  }

  function Uplinks(rs: seq<Report>): seq<int> {
    seq(|rs|, i requires 0 <= i < |rs| => rs[i].uplink)
  }

  lemma {:induction false} HighWaterIsLargest(start: int, xs: seq<int>)
    ensures HighWater(start, xs) >= start && forall x <- xs :: HighWater(start, xs) >= x
    ensures HighWater(start, xs) == start || HighWater(start, xs) in xs
    decreases |xs|
  {
    if xs != [] {
      HighWaterIsLargest(Max(start, xs[0]), xs[1..]);
      assert xs == [xs[0]] + xs[1..];
    }
  }

  /** Folding reports is raising the two high-water marks and then latching once. */
  lemma {:induction false} FoldIsHighWater(row: Row, rs: seq<Report>)
    requires Sound(row) && Latched(row) && AheadOfBaseline(row, rs)
    ensures Run(Some(row), Reports(rs))
            == Some(Exhaust(row.(observed := HighWater(row.observed, Totals(rs)),
                                 observedUp := HighWater(row.observedUp, Uplinks(rs)))))
    decreases |rs|
  {
    if rs != [] {
      var next := Observe(Some(row), rs[0]);
      assert Reports(rs)[1..] == Reports(rs[1..]);
      assert Totals(rs)[1..] == Totals(rs[1..]) && Uplinks(rs)[1..] == Uplinks(rs[1..]);
      assert rs[0] in rs;
      FoldIsHighWater(next, rs[1..]);
      HighWaterIsLargest(next.observed, Totals(rs[1..]));
    }
  }

  lemma SameMembersSameHighWater(start: int, xs: seq<int>, ys: seq<int>)
    requires forall x :: x in xs <==> x in ys
    ensures HighWater(start, xs) == HighWater(start, ys)
  {
    HighWaterIsLargest(start, xs);
    HighWaterIsLargest(start, ys);
  }

  /** Reports that are not below the baseline may be reordered, dropped as duplicates or
      repeated: the whole row ends up the same. */
  lemma ReportsCommute(row: Row, rs: seq<Report>, rs': seq<Report>)
    requires Sound(row) && Latched(row)
    requires AheadOfBaseline(row, rs)
    requires forall r :: r in rs <==> r in rs'
    ensures Run(Some(row), Reports(rs)) == Run(Some(row), Reports(rs'))
    ensures Run(Some(row), Reports(rs)).Some?
    ensures var after := Run(Some(row), Reports(rs)).value;
            && after.baseline == row.baseline
            && (row.state.Active? ==> (after.state.Exhausted? <==> after.Used() >= after.limit))
  {
    FoldIsHighWater(row, rs);
    FoldIsHighWater(row, rs');
    MembersProject(rs, rs');
    MembersProject(rs', rs);
    SameMembersSameHighWater(row.observed, Totals(rs), Totals(rs'));
    SameMembersSameHighWater(row.observedUp, Uplinks(rs), Uplinks(rs'));
    HighWaterIsLargest(row.observed, Totals(rs));
  }

  lemma MembersProject(rs: seq<Report>, rs': seq<Report>)
    requires forall r <- rs :: r in rs'
    ensures forall x <- Totals(rs) :: x in Totals(rs')
    ensures forall x <- Uplinks(rs) :: x in Uplinks(rs')
  {
    forall i | 0 <= i < |rs|
      ensures Totals(rs)[i] in Totals(rs') && Uplinks(rs)[i] in Uplinks(rs')
    {
      assert rs[i] in rs';
      var j :| 0 <= j < |rs'| && rs'[j] == rs[i];
      assert Totals(rs')[j] == Totals(rs)[i] && Uplinks(rs')[j] == Uplinks(rs)[i];
    }
  }

  // ---------------------------------------------------------------- uplink and downlink

  /** What the user is shown over all his nodes, his rows listed in any order; nothing for user 0. */
  function ShownUp(user: int, rows: seq<Row>): int {
    if user == 0 || rows == [] then 0 else rows[0].UsedUp() + ShownUp(user, rows[1..])
  }

  function ShownDown(user: int, rows: seq<Row>): int {
    if user == 0 || rows == [] then 0 else rows[0].UsedDown() + ShownDown(user, rows[1..])
  }

  /** What these rows are charged with. */
  function Charged(rows: seq<Row>): int {
    if rows == [] then 0 else rows[0].Used() + Charged(rows[1..])
  }

  /** The uplink part of the period does not exceed its usage. */
  predicate UplinkFits(row: Row) {
    row.observedUp - row.baselineUp <= row.observed - row.baseline
  }

  lemma OneRowAddsUp(row: Row)
    requires Sound(row)
    ensures row.UsedUp() + row.UsedDown() >= row.Used()
    ensures row.UsedUp() + row.UsedDown() == row.Used() <==> UplinkFits(row)
  {
  }

  /** The two directions shown to a user never add up to less than he is charged, and to exactly
      that iff on none of his nodes the uplink part exceeds the usage. */
  lemma {:induction false} SplitAddsUp(user: int, rows: seq<Row>)
    requires user != 0 && forall row <- rows :: Sound(row)
    ensures ShownUp(user, rows) + ShownDown(user, rows) >= Charged(rows)
    ensures ShownUp(user, rows) + ShownDown(user, rows) == Charged(rows) <==> forall row <- rows :: UplinkFits(row)
    decreases |rows|
  {
    if rows != [] {
      assert rows[0] in rows && rows == [rows[0]] + rows[1..];
      OneRowAddsUp(rows[0]);
      SplitAddsUp(user, rows[1..]);
    }
  }

  /** A reset moves the baseline of the total and leaves the baseline of the uplink, so a
      fresh period shows zero in both directions exactly when no uplink had been counted. */
  lemma ResetSplit(row: Row, key: string, limit: int)
    requires Sound(row) && row.periodKey != key
    ensures var after := ResetRow(row, key, limit);
            && after.Used() == 0
            && after.UsedUp() == row.UsedUp()
            && (after.UsedUp() + after.UsedDown() == after.Used() <==> row.observedUp == row.baselineUp)
  {
  }

  /** A user who sent 3 of 10 bytes up and then opened a new period is shown 3 bytes of
      upload in a period in which nothing was charged. */
  lemma ResetSplitExample()
    ensures var ops := [Heard(Report(0, 0, 100, "cal:1")), Heard(Report(10, 3, 100, "cal:1")),
                        Reset("cal:2", 100)];
            && (forall op <- ops :: ValidOp(op))
            && Run(None, ops).Some?
            && Run(None, ops).value.Used() == 0
            && Run(None, ops).value.UsedUp() == 3
  {
    var first := Heard(Report(0, 0, 100, "cal:1"));
    var second := Heard(Report(10, 3, 100, "cal:1"));
    var third := Reset("cal:2", 100);
    var r1 := Step(None, first);
    var r2 := Step(r1, second);
    var r3 := Step(r2, third);
    assert [first, second, third][1..] == [second, third];
    assert [second, third][1..] == [third];
    assert "cal:1"[4] != "cal:2"[4];
    assert Run(r2, [third]) == Run(r3, []) == r3;
    assert Run(r1, [second, third]) == r3;
  }
}
