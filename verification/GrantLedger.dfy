/** What every run of the subscription ledger keeps: each payment and the trial prolong at
    most once, granted time is conserved, access revisions order the events. */
module GrantLedger {
  import opened Prelude
  import opened Subscription

  // ---------------------------------------------------------------- the shape of a transaction

  /** Trials and payments with an id go through the journal. */
  predicate Journaled(e: Extension) {
    e.source.FromTrial? || (e.source.FromPayment? && e.key != "")
  }

  function JournalKey(e: Extension): (int, Source, string) {
    (e.user, e.source, e.key)
  }

  /** What a granted extension `e` says about the row before and after. */
  ghost predicate Grants(w: World, after: World, e: Extension, now: int) {
    && e.days > 0
    && e.start == Base(RowOf(w, e.user).expiresAt, now)
    && e.until == e.start + e.days * DAY
    && RowOf(after, e.user).expiresAt == Some(e.until)
    && (Journaled(e) ==> JournalKey(e) !in w.grants && JournalKey(e) in after.grants)
    && (e.source.FromTrial? ==> e.key == "trial")
  }

  /** The end of a period stays, moves on, or appears. */
  predicate NoEarlier(before: Option<int>, after: Option<int>) {
    before.Some? ==> after.Some? && before.value <= after.value
  }

  /** Everything a transaction of `user` may do: it touches no other row, keeps the journal,
      and either grants once or leaves the log and, unless it cuts, moves no end back. */
  ghost predicate Shape(w: World, after: World, user: int, now: int, cuts: bool) {
    && (forall u :: u != user ==> RowOf(after, u) == RowOf(w, u))
    && w.grants <= after.grants
    && w.log <= after.log && |after.log| <= |w.log| + 1
    && (|after.log| == |w.log| ==>
          cuts || NoEarlier(RowOf(w, user).expiresAt, RowOf(after, user).expiresAt))
    && (|after.log| > |w.log| ==> after.log[|w.log|].user == user && Grants(w, after, after.log[|w.log|], now))
  }

  lemma TrialShape(w: World, user: int, days: int, t: Clock)
    ensures Shape(w, StartTrial(w, user, days, t).0, user, t.now, false)
  {
  }

  lemma PaidShape(w: World, user: int, plan: string, days: int, paymentId: string, autoRenew: bool, t: Clock)
    ensures Shape(w, ActivatePaid(w, user, plan, days, paymentId, autoRenew, t).0, user, t.now, false)
  {
  }

  lemma RedeemShape(w: World, user: int, usersPerMonth: int, daysPerMonth: int, now: int)
    ensures Shape(w, Redeem(w, user, usersPerMonth, daysPerMonth, now).0, user, now, false)
  {
    var months := Available(w, user, usersPerMonth);
    var perMonth := if daysPerMonth <= 0 then 30 else daysPerMonth;
    assert months > 0 ==> months * perMonth > 0;
  }

  function OpUser(op: Op): int {
    if op.Purge? then 0 else op.user
  }

  function OpNow(op: Op): int {
    if op.AttributeCmd? || op.Purge? then 0 else op.t.now
  }

  /** Steps that cut a running period short: a suspension or the cancellation of a trial, at an
      instant before the period's end. */
  predicate Cuts(w: World, op: Op) {
    && (op.AccessExpired? || (op.CancelCmd? && Seen(w, op.user, op.t.first).subs[op.user].status.Trial?))
    && RowOf(w, op.user).expiresAt.Some? && RowOf(w, op.user).expiresAt.value > op.t.now
  }

  lemma CancelShape(w: World, user: int, t: Clock)
    ensures Shape(w, HandleCancel(w, user, t), user, t.now, Cuts(w, CancelCmd(user, t)))
  {
  }

  /** The parts of the world a grant does not speak about. */
  ghost predicate SameLedger(a: World, b: World) {
    a.subs == b.subs && a.grants == b.grants && a.log == b.log
  }

  lemma DeliveryShape(w: World, op: Op)
    requires op.PaymentSucceeded?
    ensures Shape(w, Step(w, op), op.user, op.t.now, false)
  {
    PaidShape(w, op.user, op.plan, op.days, op.paymentId, op.autoRenew, op.t);
    var paid := ActivatePaid(w, op.user, op.plan, op.days, op.paymentId, op.autoRenew, op.t).0;
    DeliveryIsPayment(w, op, paid);
  }

  lemma DeliveryIsPayment(w: World, op: Op, paid: World)
    requires op.PaymentSucceeded?
    requires paid == ActivatePaid(w, op.user, op.plan, op.days, op.paymentId, op.autoRenew, op.t).0
    ensures SameLedger(Step(w, op), w) || SameLedger(Step(w, op), paid)
  {
    var handled := HandlePayment(w, op.user, op.plan, op.days, op.paymentId, op.autoRenew, op.t);
    assert SameLedger(handled, paid);
    assert SameLedger(ProcessOnce(w, op.messageId, op.fate, handled), w)
        || SameLedger(ProcessOnce(w, op.messageId, op.fate, handled), handled);
  }

  lemma RowOnlyShape(w: World, op: Op)
    requires op.AutoRenewDisabled? || op.GraceStart? || op.AccessExpired? || op.ReadStatus?
    ensures Shape(w, Step(w, op), op.user, op.t.now, Cuts(w, op))
  {
  }

  lemma StepShape(w: World, op: Op)
    ensures Shape(w, Step(w, op), OpUser(op), OpNow(op), Cuts(w, op))
  {
    match op
    case StartTrialCmd(user, days, t) => TrialShape(w, user, days, t);
    case PaymentSucceeded(_, _, _, _, _, _, _, _) => DeliveryShape(w, op);
    case RedeemCmd(user, usersPerMonth, daysPerMonth, t) =>
      RedeemShape(w, user, usersPerMonth, daysPerMonth, t.now);
    case CancelCmd(user, t) => CancelShape(w, user, t);
    case AutoRenewDisabled(_, _) => RowOnlyShape(w, op);
    case GraceStart(_, _, _) => RowOnlyShape(w, op);
    case AccessExpired(_, _, _) => RowOnlyShape(w, op);
    case ReadStatus(_, _) => RowOnlyShape(w, op);
    case AttributeCmd(_, _) =>
    case Purge(_) =>
  }

  // ---------------------------------------------------------------- at most once

  ghost predicate OncePerKey(w: World) {
    && (forall i :: 0 <= i < |w.log| ==> w.log[i].source.FromTrial? ==> w.log[i].key == "trial")
    && (forall i :: 0 <= i < |w.log| && Journaled(w.log[i]) ==> JournalKey(w.log[i]) in w.grants)
    && (forall i, j :: 0 <= i < j < |w.log| && Journaled(w.log[i]) && Journaled(w.log[j])
                       ==> JournalKey(w.log[i]) != JournalKey(w.log[j]))
  }

  lemma ShapeGrantsOnce(w: World, after: World, user: int, now: int, cuts: bool)
    requires OncePerKey(w) && Shape(w, after, user, now, cuts)
    ensures OncePerKey(after)
  {
  }

  lemma {:induction false} RunGrantsOnce(w: World, ops: seq<Op>)
    requires OncePerKey(w)
    ensures OncePerKey(Run(w, ops))
    decreases |ops|
  {
    if ops != [] {
      StepShape(w, ops[0]);
      ShapeGrantsOnce(w, Step(w, ops[0]), OpUser(ops[0]), OpNow(ops[0]), Cuts(w, ops[0]));
      RunGrantsOnce(Step(w, ops[0]), ops[1..]);
    }
  }

  /** Over every run, with redeliveries, crashes between the business commit and the inbox
      commit, and purges of the message table: no user's period is prolonged twice by his
      trial, nor twice under one non-empty payment id. */
  lemma EachPaymentProlongsOnce(ops: seq<Op>, i: nat, j: nat)
    requires i < j < |Run(EMPTY, ops).log|
    ensures var a, b := Run(EMPTY, ops).log[i], Run(EMPTY, ops).log[j];
            && !(a.user == b.user && a.source.FromTrial? && b.source.FromTrial?)
            && !(a.user == b.user && a.source.FromPayment? && b.source.FromPayment? && a.key == b.key && a.key != "")
  {
    RunGrantsOnce(EMPTY, ops);
  }

  /** An event without a payment id is not journaled: handled twice, it prolongs twice. A
      payment id blocks the second prolongation whatever happens to the message table. */
  lemma RepeatedPaymentProlongs(w: World, user: int, plan: string, days: int, paymentId: string, autoRenew: bool,
                                t: Clock, t': Clock, lost: set<string>)
    requires days > 0
    requires ActivatePaid(w, user, plan, days, paymentId, autoRenew, t).1.Applied?
    ensures var once := ActivatePaid(w, user, plan, days, paymentId, autoRenew, t).0;
            var purged := once.(processed := once.processed - lost);
            var twice := ActivatePaid(purged, user, plan, days, paymentId, autoRenew, t').0;
            |twice.log| == |once.log| + 1 <==> paymentId == ""
  {
  }

  // ---------------------------------------------------------------- granted time

  /** No step of the run cuts the period of this user; the others' may be cut at will. */
  predicate NeverCuts(w: World, ops: seq<Op>, user: int)
    decreases |ops|
  {
    ops != [] ==> !(OpUser(ops[0]) == user && Cuts(w, ops[0])) && NeverCuts(Step(w, ops[0]), ops[1..], user)
  }

  /** The intervals of the user follow each other, each is as long as its days, and the last
      ends no later than the period. */
  ghost predicate Conserved(w: World, user: int) {
    && (forall i :: 0 <= i < |w.log| ==> w.log[i].days > 0 && w.log[i].until - w.log[i].start == w.log[i].days * DAY)
    && (forall i, j :: 0 <= i < j < |w.log| && w.log[i].user == user && w.log[j].user == user ==>
          w.log[i].until <= w.log[j].start)
    && (forall i :: 0 <= i < |w.log| && w.log[i].user == user ==>
          RowOf(w, user).expiresAt.Some? && w.log[i].until <= RowOf(w, user).expiresAt.value)
  }

  lemma StepConserves(w: World, after: World, user: int, who: int, now: int, cuts: bool)
    requires Conserved(w, user) && Shape(w, after, who, now, cuts) && (who == user ==> !cuts)
    ensures Conserved(after, user)
  {
    if |after.log| > |w.log| {
      assert after.log == w.log + [after.log[|w.log|]];
    } else {
      assert after.log == w.log;
    }
  }

  lemma {:induction false} RunConserves(w: World, ops: seq<Op>, user: int)
    requires Conserved(w, user) && NeverCuts(w, ops, user)
    ensures Conserved(Run(w, ops), user)
    decreases |ops|
  {
    if ops != [] {
      StepShape(w, ops[0]);
      StepConserves(w, Step(w, ops[0]), user, OpUser(ops[0]), OpNow(ops[0]), Cuts(w, ops[0]));
      RunConserves(Step(w, ops[0]), ops[1..], user);
    }
  }

  function TotalDays(log: seq<Extension>, user: int): int {
    if log == [] then 0
    else TotalDays(log[..|log| - 1], user) + if log[|log| - 1].user == user then log[|log| - 1].days else 0
  }

  function TotalLength(log: seq<Extension>, user: int): int {
    if log == [] then 0
    else TotalLength(log[..|log| - 1], user)
         + if log[|log| - 1].user == user then log[|log| - 1].until - log[|log| - 1].start else 0
  }

  lemma {:induction false} LengthIsDays(log: seq<Extension>, user: int)
    requires forall e <- log :: e.until - e.start == e.days * DAY
    ensures TotalLength(log, user) == TotalDays(log, user) * DAY
  {
    if log != [] {
      LengthIsDays(log[..|log| - 1], user);
    }
  }

  /** Whatever the clocks read, and whatever befalls the others: while no running period of the
      user is cut, his granted intervals are in order and disjoint, and together exactly as long
      as the days granted. Lapsing, being suspended afterwards and paying again cuts nothing. */
  lemma GrantedTimeIsConserved(ops: seq<Op>, user: int)
    requires NeverCuts(EMPTY, ops, user)
    ensures var w := Run(EMPTY, ops);
            && TotalLength(w.log, user) == TotalDays(w.log, user) * DAY
            && (forall i, j :: 0 <= i < j < |w.log| && w.log[i].user == user && w.log[j].user == user ==>
                  w.log[i].start < w.log[i].until <= w.log[j].start)
            && (forall e <- w.log :: e.user == user ==> RowOf(w, user).expiresAt.Some?
                                                        && e.until <= RowOf(w, user).expiresAt.value)
  {
    RunConserves(EMPTY, ops, user);
    LengthIsDays(Run(EMPTY, ops).log, user);
  }

  /** The journal row of a payment spans `now` to `now` plus its days. It names the interval
      the days really cover exactly when the previous period was over (or never was). */
  lemma JournalIntervalIsReal(row: Row, now: int, plan: string, days: int, paymentId: string, autoRenew: bool)
    ensures var after := PaymentGranted(row, now, plan, days, paymentId, autoRenew);
            (Base(row.expiresAt, now), after.expiresAt) == (now, Some(now + days * DAY))
            <==> row.expiresAt.None? || row.expiresAt.value <= now
  {
  }

  // ---------------------------------------------------------------- grants commute

  predicate IsGrant(op: Op) {
    op.StartTrialCmd? || op.PaymentSucceeded? || op.RedeemCmd?
  }

  lemma SameDays(w: World, a: Op, b: Op)
    requires IsGrant(a) && IsGrant(b) && a.user == b.user
    requires NoSelfReferral(w) && !(a.RedeemCmd? && b.RedeemCmd?)
    ensures DaysOf(Step(w, b), a) == DaysOf(w, a)
  {
    if a.RedeemCmd? {
      AvailableAfter(w, b, a.usersPerMonth);
    }
  }

  lemma ShapesCommute(w: World, wa: World, wab: World, wb: World, wba: World, user: int, now: int)
    requires Shape(w, wa, user, now, false) && Shape(wa, wab, user, now, false)
    requires Shape(w, wb, user, now, false) && Shape(wb, wba, user, now, false)
    requires |wa.log| == |w.log| + 1 && |wab.log| == |wa.log| + 1
    requires |wb.log| == |w.log| + 1 && |wba.log| == |wb.log| + 1
    requires wa.log[|w.log|].days == wba.log[|wb.log|].days && wb.log[|w.log|].days == wab.log[|wa.log|].days
    ensures RowOf(wab, user).expiresAt == RowOf(wba, user).expiresAt
  {
  }

  /** chk_referral_not_self. */
  ghost predicate NoSelfReferral(w: World) {
    forall r <- w.referrals :: w.referrals[r].referrer != r
  }

  /** The days an operation grants when it grants. */
  function DaysOf(w: World, op: Op): int
    requires IsGrant(op)
  {
    if op.RedeemCmd?
    then Available(w, op.user, op.usersPerMonth) * (if op.daysPerMonth <= 0 then 30 else op.daysPerMonth)
    else op.days
  }

  lemma GrantedDays(w: World, op: Op)
    requires IsGrant(op) && |Step(w, op).log| == |w.log| + 1
    ensures Step(w, op).log[|w.log|].days == DaysOf(w, op)
    ensures op.RedeemCmd? ==> Available(w, op.user, op.usersPerMonth) > 0
  {
    if op.PaymentSucceeded? {
      DeliveryIsPayment(w, op, ActivatePaid(w, op.user, op.plan, op.days, op.paymentId, op.autoRenew, op.t).0);
    }
  }

  lemma PaymentReferrals(w: World, user: int, plan: string, days: int, paymentId: string, autoRenew: bool, t: Clock)
    ensures var handled := HandlePayment(w, user, plan, days, paymentId, autoRenew, t);
            && handled.rewards == w.rewards
            && (handled.referrals == w.referrals || handled.referrals == Convert(w, user).referrals)
  {
    var paid := ActivatePaid(w, user, plan, days, paymentId, autoRenew, t).0;
    assert paid.referrals == w.referrals && paid.rewards == w.rewards;
  }

  lemma OnceReferrals(w: World, messageId: string, fate: Fate, handled: World)
    ensures var after := ProcessOnce(w, messageId, fate, handled);
            (after.rewards == w.rewards && after.referrals == w.referrals)
            || (after.rewards == handled.rewards && after.referrals == handled.referrals)
  {
  }

  lemma ReferralsAfter(w: World, op: Op)
    requires op.StartTrialCmd? || op.PaymentSucceeded?
    ensures Step(w, op).rewards == w.rewards
    ensures Step(w, op).referrals == w.referrals || Step(w, op).referrals == Convert(w, op.user).referrals
  {
    if op.PaymentSucceeded? {
      PaymentReferrals(w, op.user, op.plan, op.days, op.paymentId, op.autoRenew, op.t);
      OnceReferrals(w, op.messageId, op.fate,
                    HandlePayment(w, op.user, op.plan, op.days, op.paymentId, op.autoRenew, op.t));
    }
  }

  /** A trial or a payment of the user leaves what his own referrals are worth. */
  lemma AvailableAfter(w: World, op: Op, usersPerMonth: int)
    requires NoSelfReferral(w)
    requires op.StartTrialCmd? || op.PaymentSucceeded?
    ensures Available(Step(w, op), op.user, usersPerMonth) == Available(w, op.user, usersPerMonth)
  {
    ReferralsAfter(w, op);
    SameConverted(w, Step(w, op), op.user);
  }

  lemma SameConverted(w: World, after: World, user: int)
    requires NoSelfReferral(w)
    requires after.referrals == w.referrals || after.referrals == Convert(w, user).referrals
    ensures ConvertedBy(after, user) == ConvertedBy(w, user)
  {
  }

  /** Redeeming takes everything that is available: a second press grants nothing. */
  lemma RedeemEmpties(w: World, user: int, usersPerMonth: int, daysPerMonth: int, now: int)
    ensures Available(Redeem(w, user, usersPerMonth, daysPerMonth, now).0, user, usersPerMonth) <= 0
  {
    assert ConvertedBy(Redeem(w, user, usersPerMonth, daysPerMonth, now).0, user) == ConvertedBy(w, user);
  }

  /** Two grants at one instant that both go through in either order leave the period ending
      at the same instant. A second redemption finds nothing left to grant. */
  lemma GrantsCommute(w: World, a: Op, b: Op)
    requires IsGrant(a) && IsGrant(b) && a.user == b.user && a.t.now == b.t.now
    requires NoSelfReferral(w) && !(a.RedeemCmd? && b.RedeemCmd?)
    ensures var wa, wb := Step(w, a), Step(w, b);
            GoesThrough(w, a) && GoesThrough(wa, b) && GoesThrough(w, b) && GoesThrough(wb, a) ==>
              RowOf(Step(wa, b), a.user).expiresAt == RowOf(Step(wb, a), a.user).expiresAt
  {
    var wa, wb := Step(w, a), Step(w, b);
    if GoesThrough(w, a) && GoesThrough(wa, b) && GoesThrough(w, b) && GoesThrough(wb, a) {
      StepShape(w, a);
      StepShape(w, b);
      StepShape(wa, b);
      StepShape(wb, a);
      GrantedDays(w, a);
      GrantedDays(w, b);
      GrantedDays(wa, b);
      GrantedDays(wb, a);
      SameDays(w, a, b);
      SameDays(w, b, a);
      ShapesCommute(w, wa, Step(wa, b), wb, Step(wb, a), a.user, a.t.now);
    }
  }

  /** The operation prolongs its user's period. */
  predicate GoesThrough(w: World, op: Op) {
    |Step(w, op).log| == |w.log| + 1
  }
}
