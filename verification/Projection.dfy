/** The orchestrator's copy of a user's access, written only by events whose revision is
    not older than the stored one. */
module Projection {
  import opened Prelude
  import S = Subscription
  import A = Access

  datatype Access = Access(status: S.Status, accessUntil: Option<int>, graceUntil: Option<int>, rev: int,
                           country: string, eventType: S.EventKind)

  function Normalised(e: Access): Access {
    if e.country == "" then e.(country := "ALL") else e
  }

  /** ON CONFLICT DO UPDATE ... WHERE stored.access_rev <= EXCLUDED.access_rev. */
  function Upsert(stored: Option<Access>, e: Access): Option<Access> {
    if stored.None? || stored.value.rev <= e.rev then Some(Normalised(e)) else stored
  }

  class ProjectionTable {
    var rows: map<int, Access>

    constructor ()
      ensures rows == map[]
    {
      rows := map[];
    }

    method UpsertAccessProjectionTx(user: int, state: Access)
      modifies this
      ensures var stored := if user in old(rows) then Some(old(rows)[user]) else None;
              rows == old(rows)[user := Upsert(stored, state).value]
    {
      var row := state;
      if row.country == "" {
        row := row.(country := "ALL");
      }
      if user !in rows || rows[user].rev <= row.rev {
        rows := rows[user := row];
      }
      assert user in rows ==> rows == rows[user := rows[user]];
    }
  }

  // ---------------------------------------------------------------- what deliveries leave

  function Deliver(stored: Option<Access>, es: seq<Access>): Option<Access>
    decreases |es|
  {
    if es == [] then stored else Upsert(Deliver(stored, es[..|es| - 1]), es[|es| - 1])
  }

  predicate Top(es: seq<Access>, i: nat) {
    i < |es| && forall j :: 0 <= j < |es| ==> es[j].rev <= es[i].rev
  }

  /** The stored row is the last delivered event among those of the highest revision. */
  lemma {:induction false} LastTopIsStored(es: seq<Access>) returns (i: nat)
    requires es != []
    ensures Top(es, i) && (forall j :: i < j < |es| ==> es[j].rev < es[i].rev)
    ensures Deliver(None, es) == Some(Normalised(es[i]))
    decreases |es|
  {
    var n := |es| - 1;
    if n == 0 {
      assert Deliver(None, es[..0]) == None;
      return 0;
    }
    i := LastTopIsStored(es[..n]);
    if es[i].rev <= es[n].rev {
      i := n;
    }
  }

  ghost predicate Lists(es: seq<Access>, all: set<Access>) {
    forall e :: e in es <==> e in all
  }

  /** However the events are ordered or repeated, the same row results. */
  ghost predicate Converges(all: set<Access>) {
    forall es, es' | Lists(es, all) && Lists(es', all) :: Deliver(None, es) == Deliver(None, es')
  }

  /** All events of the highest revision store the same row. */
  ghost predicate OneTopRow(all: set<Access>) {
    forall a <- all, b <- all | (forall e <- all :: e.rev <= a.rev) && (forall e <- all :: e.rev <= b.rev) ::
      Normalised(a) == Normalised(b)
  }

  lemma {:induction false} Listing(all: set<Access>) returns (es: seq<Access>)
    ensures Lists(es, all)
    decreases |all|
  {
    if all == {} {
      return [];
    }
    var x :| x in all;
    es := Listing(all - {x});
    es := es + [x];
  }

  /** Deliveries converge exactly when the highest revision names one row. */
  lemma ConvergesIffOneTopRow(all: set<Access>)
    ensures Converges(all) <==> OneTopRow(all)
  {
    if OneTopRow(all) {
      forall es, es' | Lists(es, all) && Lists(es', all) ensures Deliver(None, es) == Deliver(None, es') {
        TopRowDecides(all, es, es');
      }
    }
    if Converges(all) {
      forall a <- all, b <- all | (forall e <- all :: e.rev <= a.rev) && (forall e <- all :: e.rev <= b.rev)
        ensures Normalised(a) == Normalised(b)
      {
        var es := Listing(all);
        LastWins(es, a);
        LastWins(es, b);
        assert Lists(es + [a], all) && Lists(es + [b], all);
      }
    }
  }

  lemma TopRowDecides(all: set<Access>, es: seq<Access>, es': seq<Access>)
    requires OneTopRow(all) && Lists(es, all) && Lists(es', all)
    ensures Deliver(None, es) == Deliver(None, es')
  {
    assert es != [] ==> es[0] in all;
    assert es' != [] ==> es'[0] in all;
    if es != [] && es' != [] {
      var i := LastTopIsStored(es);
      var j := LastTopIsStored(es');
      assert es[i] in all && es'[j] in all;
    }
  }

  lemma LastWins(es: seq<Access>, a: Access)
    requires forall e <- es :: e.rev <= a.rev
    ensures Deliver(None, es + [a]) == Some(Normalised(a))
  {
    assert (es + [a])[..|es|] == es;
    if es != [] {
      var i := LastTopIsStored(es);
      assert es[i] in es;
    }
  }

  // ---------------------------------------------------------------- events of the ledger

  /** The rows that the five Apply methods write at processing time `now`. A cancellation at the
      period's end stores an active row while the period runs; a grace stores its own end in place
      of that of the period; only trials and activations name a country. */
  function Projected(e: S.Event, country: string, now: int): Access {
    match e.kind
    case TrialStarted => Access(S.Trial, e.until, None, e.rev, country, e.kind)
    case Activated => Access(S.Active, e.until, None, e.rev, country, e.kind)
    case Canceled =>
      var running := e.atPeriodEnd && e.until.Some? && e.until.value > now;
      Access(if running then S.Active else S.Expired, e.until, None, e.rev, "ALL", e.kind)
    case GraceStarted => Access(S.Grace, None, e.until, e.rev, "ALL", e.kind)
    case Suspended => Access(S.Expired, e.until, None, e.rev, "ALL", e.kind)
  }

  /** accessAllowed, on a projected row. */
  predicate Serves(row: Access, at: int) {
    match row.status
    case Trial => row.accessUntil.Some? && at < row.accessUntil.value
    case Active => row.accessUntil.Some? && at < row.accessUntil.value
    case Grace => row.graceUntil.Some? && at < row.graceUntil.value
    case _ => false
  }

  /** What a stored event means: a trial, an activation and a grace give access until the instant they
      name; a suspension none; a cancellation only if it leaves a period that still runs when it is
      processed, and then until its end. The row carries the event's revision and type, and the
      country of a trial or an activation that names one. */
  lemma ProjectedServes(e: S.Event, country: string, now: int, at: int)
    ensures var row := Normalised(Projected(e, country, now));
            var before := e.until.Some? && at < e.until.value;
            && (Serves(row, at) <==>
                  match e.kind
                  case TrialStarted => before
                  case Activated => before
                  case GraceStarted => before
                  case Suspended => false
                  case Canceled => before && e.atPeriodEnd && now < e.until.value)
            && row.rev == e.rev && row.eventType == e.kind
            && row.country == (if country != "" && (e.kind.TrialStarted? || e.kind.Activated?) then country else "ALL")
            && (row.status.Trial? <==> e.kind.TrialStarted?) && (row.status.Grace? <==> e.kind.GraceStarted?)
            && row.accessUntil == (if e.kind.GraceStarted? then None else e.until)
            && row.graceUntil == (if e.kind.GraceStarted? then e.until else None)
  {
  }

  /** The country an event names, if any. */
  function CountryIn(countries: map<S.Event, string>, e: S.Event): string {
    if e in countries then countries[e] else ""
  }

  datatype Delivery = Delivery(event: S.Event, now: int)

  function RowOf(d: Delivery, countries: map<S.Event, string>): Access {
    Projected(d.event, CountryIn(countries, d.event), d.now)
  }

  function ProjectedAll(ds: seq<Delivery>, countries: map<S.Event, string>): (rows: seq<Access>)
    ensures |rows| == |ds| && forall i :: 0 <= i < |ds| ==> rows[i] == RowOf(ds[i], countries)
  {
    if ds == [] then [] else ProjectedAll(ds[..|ds| - 1], countries) + [RowOf(ds[|ds| - 1], countries)]
  }

  predicate Arrives(ds: seq<Delivery>, e: S.Event) {
    exists i :: 0 <= i < |ds| && ds[i].event == e
  }

  /** These deliveries bring exactly these events, each once at least. */
  ghost predicate Brings(ds: seq<Delivery>, all: set<S.Event>) {
    && (forall i :: 0 <= i < |ds| ==> ds[i].event in all)
    && (forall e <- all :: Arrives(ds, e))
  }

  /** Whatever the order, the repetitions and the instants of processing, the same row results. */
  ghost predicate EventsConverge(all: set<S.Event>, countries: map<S.Event, string>) {
    forall ds, ds' | Brings(ds, all) && Brings(ds', all) ::
      Deliver(None, ProjectedAll(ds, countries)) == Deliver(None, ProjectedAll(ds', countries))
  }

  predicate IsTop(all: set<S.Event>, e: S.Event) {
    e in all && forall x <- all :: x.rev <= e.rev
  }

  /** Two events store one row, at whatever instants they are processed. */
  ghost predicate SameRow(a: S.Event, b: S.Event, countries: map<S.Event, string>) {
    forall now: int, now': int ::
      Normalised(RowOf(Delivery(a, now), countries)) == Normalised(RowOf(Delivery(b, now'), countries))
  }

  ghost predicate OneTopProjection(all: set<S.Event>, countries: map<S.Event, string>) {
    forall a <- all, b <- all | IsTop(all, a) && IsTop(all, b) :: SameRow(a, b, countries)
  }

  lemma StillArrives(ds: seq<Delivery>, d: Delivery, e: S.Event)
    requires e == d.event || Arrives(ds, e)
    ensures Arrives(ds + [d], e)
  {
    if e == d.event {
      assert (ds + [d])[|ds|].event == e;
    } else {
      var i :| 0 <= i < |ds| && ds[i].event == e;
      assert (ds + [d])[i].event == e;
    }
  }

  lemma {:induction false} Delivering(all: set<S.Event>) returns (ds: seq<Delivery>)
    ensures Brings(ds, all)
    decreases |all|
  {
    ds := [];
    if all != {} {
      var x :| x in all;
      var front := Delivering(all - {x});
      var d := Delivery(x, 0);
      ds := front + [d];
      forall e <- all ensures Arrives(ds, e) {
        StillArrives(front, d, e);
      }
    }
  }

  lemma ProjectedThen(ds: seq<Delivery>, d: Delivery, countries: map<S.Event, string>)
    ensures ProjectedAll(ds + [d], countries) == ProjectedAll(ds, countries) + [RowOf(d, countries)]
  {
    assert (ds + [d])[..|ds|] == ds;
  }

  /** Rows carry the revision of their event, and those of raising events nothing of the instant. */
  lemma RaisingRows(d: Delivery, d': Delivery, countries: map<S.Event, string>)
    ensures RowOf(d, countries).rev == d.event.rev && RowOf(d', countries).rev == d'.event.rev
    ensures d.event == d'.event && A.Raises(d.event.kind) ==> RowOf(d, countries) == RowOf(d', countries)
  {
  }

  lemma RowsBelow(all: set<S.Event>, countries: map<S.Event, string>, ds: seq<Delivery>, e: S.Event, row: Access)
    requires Brings(ds, all) && IsTop(all, e) && row in ProjectedAll(ds, countries)
    ensures row.rev <= e.rev
  {
    var rows := ProjectedAll(ds, countries);
    var i :| 0 <= i < |rows| && rows[i] == row;
    RaisingRows(ds[i], ds[i], countries);
  }

  /** Whatever was delivered before, a top event delivered last is what is stored. */
  lemma TopEventWins(all: set<S.Event>, countries: map<S.Event, string>, ds: seq<Delivery>, d: Delivery)
    requires Brings(ds, all) && IsTop(all, d.event)
    ensures Deliver(None, ProjectedAll(ds + [d], countries)) == Some(Normalised(RowOf(d, countries)))
  {
    var rows, last := ProjectedAll(ds, countries), RowOf(d, countries);
    RaisingRows(d, d, countries);
    forall row <- rows ensures row.rev <= last.rev {
      RowsBelow(all, countries, ds, d.event, row);
    }
    LastWins(rows, last);
    ProjectedThen(ds, d, countries);
  }

  lemma BringsStill(all: set<S.Event>, ds: seq<Delivery>, d: Delivery)
    requires Brings(ds, all) && d.event in all
    ensures Brings(ds + [d], all)
  {
    forall e <- all ensures Arrives(ds + [d], e) {
      StillArrives(ds, d, e);
    }
  }

  lemma RowsRevisions(ds: seq<Delivery>, countries: map<S.Event, string>, i: nat, e: S.Event)
    requires Top(ProjectedAll(ds, countries), i) && Arrives(ds, e)
    ensures e.rev <= ds[i].event.rev
  {
    var rows := ProjectedAll(ds, countries);
    var k :| 0 <= k < |ds| && ds[k].event == e;
    assert rows[k] == RowOf(ds[k], countries) && rows[i] == RowOf(ds[i], countries);
  }

  /** What is stored is the row of some delivered top event. */
  lemma TopEventStored(all: set<S.Event>, countries: map<S.Event, string>, ds: seq<Delivery>) returns (d: Delivery)
    requires Brings(ds, all) && ds != []
    ensures IsTop(all, d.event)
    ensures Deliver(None, ProjectedAll(ds, countries)) == Some(Normalised(RowOf(d, countries)))
  {
    var i := LastTopIsStored(ProjectedAll(ds, countries));
    d := ds[i];
    forall x <- all ensures x.rev <= d.event.rev {
      RowsRevisions(ds, countries, i, x);
    }
  }

  lemma SameRowAt(d: Delivery, d': Delivery, countries: map<S.Event, string>)
    requires SameRow(d.event, d'.event, countries)
    ensures Normalised(RowOf(d, countries)) == Normalised(RowOf(d', countries))
  {
    assert Delivery(d.event, d.now) == d && Delivery(d'.event, d'.now) == d';
  }

  lemma ConvergeIfOneTop(all: set<S.Event>, countries: map<S.Event, string>)
    requires OneTopProjection(all, countries)
    ensures EventsConverge(all, countries)
  {
    forall ds: seq<Delivery>, ds': seq<Delivery> | Brings(ds, all) && Brings(ds', all)
      ensures Deliver(None, ProjectedAll(ds, countries)) == Deliver(None, ProjectedAll(ds', countries))
    {
      assert ds != [] ==> ds[0].event in all && Arrives(ds', ds[0].event);
      assert ds' != [] ==> ds'[0].event in all && Arrives(ds, ds'[0].event);
      if ds != [] && ds' != [] {
        var d := TopEventStored(all, countries, ds);
        var d' := TopEventStored(all, countries, ds');
        SameRowAt(d, d', countries);
      }
    }
  }

  lemma OneTopIfConverge(all: set<S.Event>, countries: map<S.Event, string>)
    requires EventsConverge(all, countries)
    ensures OneTopProjection(all, countries)
  {
    forall a <- all, b <- all | IsTop(all, a) && IsTop(all, b)
      ensures SameRow(a, b, countries)
    {
      TopsSameRow(all, countries, a, b);
    }
  }

  lemma TopsSameRow(all: set<S.Event>, countries: map<S.Event, string>, a: S.Event, b: S.Event)
    requires EventsConverge(all, countries) && IsTop(all, a) && IsTop(all, b)
    ensures SameRow(a, b, countries)
  {
    var ds := Delivering(all);
    forall now: int, now': int
      ensures Normalised(RowOf(Delivery(a, now), countries)) == Normalised(RowOf(Delivery(b, now'), countries))
    {
      TopEventWins(all, countries, ds, Delivery(a, now));
      TopEventWins(all, countries, ds, Delivery(b, now'));
      BringsStill(all, ds, Delivery(a, now));
      BringsStill(all, ds, Delivery(b, now'));
    }
  }

  /** The events of a user in a run of the ledger. */
  function EventsOf(ops: seq<S.Op>, user: int): set<S.Event> {
    set e | e in S.Run(S.EMPTY, ops).events && e.user == user
  }

  /** A cancellation whose row depends on the instant of its processing. */
  predicate TimeBound(e: S.Event) {
    e.kind.Canceled? && e.atPeriodEnd && e.until.Some?
  }

  /** What two events of one revision must share to store one row. */
  predicate Alike(a: S.Event, b: S.Event) {
    a.kind == b.kind && a.until == b.until && !TimeBound(a) && !TimeBound(b)
  }

  lemma AlikeIffOneRow(a: S.Event, b: S.Event, countries: map<S.Event, string>)
    requires a.rev == b.rev && (A.Raises(a.kind) && a.kind == b.kind ==> a == b)
    ensures Alike(a, b) <==> SameRow(a, b, countries)
  {
    if SameRow(a, b, countries) {
      SameRowAt(Delivery(a, 0), Delivery(b, 0), countries);
      if TimeBound(a) {
        var end := a.until.value;
        SameRowAt(Delivery(a, end - 1), Delivery(b, 0), countries);
        SameRowAt(Delivery(a, end), Delivery(b, 0), countries);
      } else if TimeBound(b) {
        var end := b.until.value;
        SameRowAt(Delivery(a, 0), Delivery(b, end - 1), countries);
        SameRowAt(Delivery(a, 0), Delivery(b, end), countries);
      }
    }
  }

  /** A revision is raised by one event at most. */
  ghost predicate RaisedOnce(all: set<S.Event>) {
    forall a <- all, b <- all | IsTop(all, a) && IsTop(all, b) && A.Raises(a.kind) && A.Raises(b.kind) :: a == b
  }

  ghost predicate AlikeTops(all: set<S.Event>) {
    forall a <- all, b <- all | IsTop(all, a) && IsTop(all, b) :: Alike(a, b)
  }

  lemma AlikeTopsConverge(all: set<S.Event>, countries: map<S.Event, string>)
    requires RaisedOnce(all)
    ensures EventsConverge(all, countries) <==> AlikeTops(all)
  {
    forall a <- all, b <- all | IsTop(all, a) && IsTop(all, b)
      ensures Alike(a, b) <==> SameRow(a, b, countries)
    {
      AlikeIffOneRow(a, b, countries);
    }
    assert AlikeTops(all) <==> OneTopProjection(all, countries);
    if AlikeTops(all) {
      ConvergeIfOneTop(all, countries);
    } else if EventsConverge(all, countries) {
      OneTopIfConverge(all, countries);
    }
  }

  /** Over every run of the ledger, all five kinds of events included: deliveries of a user's
      events, in any order, repeated, processed at any instants, end in one row exactly if the
      events of his highest revision agree in kind and end and none of them is a cancellation
      that leaves a period running. */
  lemma UserConvergesIff(ops: seq<S.Op>, user: int, countries: map<S.Event, string>)
    ensures var all := EventsOf(ops, user);
            EventsConverge(all, countries)
            <==> forall a <- all, b <- all | IsTop(all, a) && IsTop(all, b) :: Alike(a, b)
  {
    var all := EventsOf(ops, user);
    forall a <- all, b <- all | IsTop(all, a) && IsTop(all, b) && A.Raises(a.kind) && A.Raises(b.kind)
      ensures a == b
    {
      TopRaisesOnce(ops, user, a, b);
    }
    AlikeTopsConverge(all, countries);
  }

  lemma TopRaisesOnce(ops: seq<S.Op>, user: int, a: S.Event, b: S.Event)
    requires IsTop(EventsOf(ops, user), a) && IsTop(EventsOf(ops, user), b)
    requires A.Raises(a.kind) && A.Raises(b.kind)
    ensures a == b
  {
    var events := S.Run(S.EMPTY, ops).events;
    var i :| 0 <= i < |events| && events[i] == a;
    var j :| 0 <= j < |events| && events[j] == b;
    if i < j {
      A.RaisingEventsAscend(ops, i, j);
    } else if j < i {
      A.RaisingEventsAscend(ops, j, i);
    }
  }

  /** In every run of the ledger, each event naming the country it likes: whatever selection of
      the user's events up to a trial, activation or suspension arrives, in whatever order and
      however often, as long as that one arrives it is what the projection ends with. */
  lemma {:induction false} LatestEventWins(ops: seq<S.Op>, user: int, last: nat, delivered: seq<Delivery>,
                                           countries: map<S.Event, string>)
    requires last < |S.Run(S.EMPTY, ops).events|
    requires var events := S.Run(S.EMPTY, ops).events;
             && events[last].user == user && A.Raises(events[last].kind)
             && Arrives(delivered, events[last])
             && (forall d <- delivered :: d.event in events[..last + 1] && d.event.user == user)
    ensures var e := S.Run(S.EMPTY, ops).events[last];
            Deliver(None, ProjectedAll(delivered, countries))
            == Some(Normalised(Projected(e, CountryIn(countries, e), 0)))
  {
    var top := S.Run(S.EMPTY, ops).events[last];
    forall i | 0 <= i < |delivered| && delivered[i].event != top
      ensures delivered[i].event.rev < top.rev
    {
      assert delivered[i] in delivered;
      EarlierIsLower(ops, user, last, delivered[i].event);
    }
    HighestWins(delivered, top, countries);
  }

  lemma HighestWins(delivered: seq<Delivery>, top: S.Event, countries: map<S.Event, string>)
    requires Arrives(delivered, top) && A.Raises(top.kind)
    requires forall i :: 0 <= i < |delivered| && delivered[i].event != top ==> delivered[i].event.rev < top.rev
    ensures Deliver(None, ProjectedAll(delivered, countries))
            == Some(Normalised(Projected(top, CountryIn(countries, top), 0)))
  {
    var rows := ProjectedAll(delivered, countries);
    var at :| 0 <= at < |delivered| && delivered[at].event == top;
    forall i | 0 <= i < |rows| ensures rows[i] == rows[at] || rows[i].rev < rows[at].rev {
      RaisingRows(delivered[i], delivered[at], countries);
    }
    TopRowWins(rows, at);
    RaisingRows(delivered[at], Delivery(top, 0), countries);
  }

  lemma {:induction false} EarlierIsLower(ops: seq<S.Op>, user: int, last: nat, e: S.Event)
    requires last < |S.Run(S.EMPTY, ops).events|
    requires var events := S.Run(S.EMPTY, ops).events;
             && events[last].user == user && A.Raises(events[last].kind)
             && e in events[..last + 1] && e.user == user && e != events[last]
    ensures e.rev < S.Run(S.EMPTY, ops).events[last].rev
  {
    var events := S.Run(S.EMPTY, ops).events;
    var k :| 0 <= k < last + 1 && events[k] == e;
    A.RaisingEventsAscend(ops, k, last);
  }

  /** A row above all others is what deliveries end with. */
  lemma {:induction false} TopRowWins(es: seq<Access>, at: nat)
    requires at < |es| && forall i :: 0 <= i < |es| ==> es[i] == es[at] || es[i].rev < es[at].rev
    ensures Deliver(None, es) == Some(Normalised(es[at]))
  {
    var i := LastTopIsStored(es);
    assert es[at].rev <= es[i].rev;
  }

  // ---------------------------------------------------------------- a run that does not converge

  const BOUGHT := S.PaymentSucceeded("m", S.Done, 1, "month", 30, "p", true, S.Clock(0, 0, 0))
  const GRACED := S.GraceStart(1, 100, S.Clock(50, 50, 50))

  lemma BoughtIsActive()
    ensures var w := S.Step(S.EMPTY, BOUGHT);
            && w.events == [S.Event(1, S.Activated, 1, Some(30 * S.DAY), false)]
            && S.RowOf(w, 1).status == S.Active && S.RowOf(w, 1).accessRev == 1
  {
  }

  lemma GraceKeepsTheRevision(w: S.World)
    requires S.RowOf(w, 1).status == S.Active && S.RowOf(w, 1).accessRev == 1
    ensures S.Step(w, GRACED).events == w.events + [S.Event(1, S.GraceStarted, 1, Some(100), false)]
  {
  }

  const PAID := S.Event(1, S.Activated, 1, Some(30 * S.DAY), false)
  const IN_GRACE := S.Event(1, S.GraceStarted, 1, Some(100), false)

  lemma TwoTops()
    ensures var all := {PAID, IN_GRACE};
            && IsTop(all, PAID) && IsTop(all, IN_GRACE) && RaisedOnce(all) && !AlikeTops(all)
  {
    assert !Alike(PAID, IN_GRACE);
  }

  lemma LastOfTwo(countries: map<S.Event, string>, ds: seq<Delivery>, d: Delivery)
    requires Brings(ds, {PAID, IN_GRACE}) && d.event in {PAID, IN_GRACE}
    ensures Deliver(None, ProjectedAll(ds + [d], countries)).Some?
    ensures Deliver(None, ProjectedAll(ds + [d], countries)).value.status
            == if d.event == PAID then S.Active else S.Grace
  {
    TwoTops();
    TopEventWins({PAID, IN_GRACE}, countries, ds, d);
  }

  /** A payment and then a grace: two events of one revision, and the projection is left active or
      in grace as the one or the other comes last. */
  lemma GraceDoesNotConverge(countries: map<S.Event, string>, ds: seq<Delivery>, d: Delivery)
    requires Brings(ds, EventsOf([BOUGHT, GRACED], 1)) && d.event in EventsOf([BOUGHT, GRACED], 1)
    ensures EventsOf([BOUGHT, GRACED], 1) == {PAID, IN_GRACE}
    ensures !EventsConverge(EventsOf([BOUGHT, GRACED], 1), countries)
    ensures Deliver(None, ProjectedAll(ds + [d], countries)).Some?
    ensures Deliver(None, ProjectedAll(ds + [d], countries)).value.status
            == if d.event == PAID then S.Active else S.Grace
  {
    TwoEvents();
    TwoTops();
    AlikeTopsConverge({PAID, IN_GRACE}, countries);
    LastOfTwo(countries, ds, d);
  }

  lemma TwoEvents()
    ensures EventsOf([BOUGHT, GRACED], 1) == {PAID, IN_GRACE}
  {
    BoughtIsActive();
    var w := S.Step(S.EMPTY, BOUGHT);
    GraceKeepsTheRevision(w);
    TwoSteps();
    assert S.Run(S.EMPTY, [BOUGHT, GRACED]).events == [PAID, IN_GRACE];
  }

  lemma TwoSteps()
    ensures S.Run(S.EMPTY, [BOUGHT, GRACED]) == S.Step(S.Step(S.EMPTY, BOUGHT), GRACED)
  {
    assert [BOUGHT, GRACED][1..] == [GRACED] && [GRACED][1..] == [];
    var w := S.Step(S.EMPTY, BOUGHT);
    assert S.Run(w, [GRACED]) == S.Run(S.Step(w, GRACED), []);
  }
}
