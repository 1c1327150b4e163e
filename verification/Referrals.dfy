/** Referral rewards: over every run no referrer is granted more months than his converted
    invitations are worth. */
module Referrals {
  import opened Prelude
  import opened Subscription
  import Ledger = GrantLedger

  /** An invitation keeps its referrer for good, and a conversion is never taken back. */
  ghost predicate Sticky(w: World, after: World) {
    forall r <- w.referrals ::
      r in after.referrals
      && after.referrals[r].referrer == w.referrals[r].referrer
      && (w.referrals[r].converted ==> after.referrals[r].converted)
  }

  lemma StepIsSticky(w: World, op: Op)
    ensures Sticky(w, Step(w, op))
  {
    if op.StartTrialCmd? || op.PaymentSucceeded? {
      Ledger.ReferralsAfter(w, op);
    }
  }

  lemma StepRewards(w: World, op: Op)
    ensures Step(w, op).rewards == w.rewards
            || (op.RedeemCmd? && Available(w, op.user, op.usersPerMonth) > 0
                && Step(w, op).rewards
                   == w.rewards[op.user := Rewarded(w, op.user) + Available(w, op.user, op.usersPerMonth)])
  {
    if op.StartTrialCmd? || op.PaymentSucceeded? {
      Ledger.ReferralsAfter(w, op);
    }
  }

  lemma ConvertedGrows(w: World, after: World, user: int)
    requires Sticky(w, after)
    ensures |ConvertedBy(w, user)| <= |ConvertedBy(after, user)|
  {
    var before, more := ConvertedBy(w, user), ConvertedBy(after, user);
    forall r <- before ensures r in more {
      assert r in w.referrals;
    }
    assert more == before + (more - before);
  }

  lemma {:induction false} MulStep(per: nat, x: nat, y: nat)
    requires x < y
    ensures per * x + per <= per * y
    decreases y
  {
    if x + 1 < y {
      MulStep(per, x, y - 1);
    }
  }

  lemma DivMonotone(a: nat, b: nat, per: nat)
    requires a <= b && per > 0
    ensures a / per <= b / per
  {
    var x, y := a / per, b / per;
    assert a == per * x + a % per && b == per * y + b % per;
    if y < x {
      MulStep(per, y, x);
    }
  }

  function Worth(w: World, user: int, usersPerMonth: int): int
    requires usersPerMonth > 0
  {
    |ConvertedBy(w, user)| / usersPerMonth
  }

  ghost predicate Covered(w: World, usersPerMonth: int)
    requires usersPerMonth > 0
  {
    forall u :: Rewarded(w, u) <= Worth(w, u, usersPerMonth)
  }

  predicate PricedAt(ops: seq<Op>, usersPerMonth: int) {
    forall op <- ops :: op.RedeemCmd? ==> op.usersPerMonth == usersPerMonth
  }

  lemma StepCovers(w: World, op: Op, usersPerMonth: int)
    requires usersPerMonth > 0 && Covered(w, usersPerMonth)
    requires op.RedeemCmd? ==> op.usersPerMonth == usersPerMonth
    ensures Covered(Step(w, op), usersPerMonth)
  {
    var after := Step(w, op);
    StepIsSticky(w, op);
    StepRewards(w, op);
    forall u ensures Rewarded(after, u) <= Worth(after, u, usersPerMonth) {
      ConvertedGrows(w, after, u);
      DivMonotone(|ConvertedBy(w, u)|, |ConvertedBy(after, u)|, usersPerMonth);
      assert Rewarded(w, u) <= Worth(w, u, usersPerMonth);
      assert Rewarded(after, u) == Rewarded(w, u) || Rewarded(after, u) == Worth(w, u, usersPerMonth);
    }
  }

  lemma {:induction false} RunCovers(w: World, ops: seq<Op>, usersPerMonth: int)
    requires usersPerMonth > 0 && Covered(w, usersPerMonth) && PricedAt(ops, usersPerMonth)
    ensures Covered(Run(w, ops), usersPerMonth)
    decreases |ops|
  {
    if ops != [] {
      assert ops[0] in ops;
      StepCovers(w, ops[0], usersPerMonth);
      RunCovers(Step(w, ops[0]), ops[1..], usersPerMonth);
    }
  }

  lemma RewardsNeverExceedConversions(ops: seq<Op>, usersPerMonth: int, user: int)
    requires usersPerMonth > 0 && PricedAt(ops, usersPerMonth)
    ensures Rewarded(Run(EMPTY, ops), user) <= |ConvertedBy(Run(EMPTY, ops), user)| / usersPerMonth
  {
    assert Covered(EMPTY, usersPerMonth) by {
      forall u ensures Rewarded(EMPTY, u) <= Worth(EMPTY, u, usersPerMonth) {
        DivMonotone(0, |ConvertedBy(EMPTY, u)|, usersPerMonth);
      }
    }
    RunCovers(EMPTY, ops, usersPerMonth);
    assert Rewarded(Run(EMPTY, ops), user) <= Worth(Run(EMPTY, ops), user, usersPerMonth);
  }
}
