/** Splitting one node report into total and CDN traffic per user. */
module TrafficClassify {

  datatype Item = Item(telegramId: int, uplink: int, downlink: int, inboundTag: string)

  datatype Aggregate = Aggregate(totalUplink: int, totalDownlink: int,
                                 perUser: map<int, (int, int)>, cdnPerUser: map<int, (int, int)>,
                                 unclassified: nat)

  predicate IsCdn(item: Item, cdnInbounds: set<string>) {
    item.inboundTag != "" && item.inboundTag in cdnInbounds
  }

  predicate IsUnclassified(item: Item, cdnInbounds: set<string>) {
    item.telegramId != 0 && cdnInbounds != {} && item.inboundTag == ""
  }

  function Users(items: seq<Item>): set<int> {
    if items == [] then {} else Users(items[..|items| - 1]) + UserOf(items[|items| - 1])
  }

  function UserOf(item: Item): set<int> {
    if item.telegramId == 0 then {} else {item.telegramId}
  }

  function CdnUsers(items: seq<Item>, cdn: set<string>): set<int> {
    if items == [] then {} else CdnUsers(items[..|items| - 1], cdn) + CdnUserOf(items[|items| - 1], cdn)
  }

  function CdnUserOf(item: Item, cdn: set<string>): set<int> {
    if IsCdn(item, cdn) then UserOf(item) else {}
  }

  /** The quantities that are summed over a report. */
  datatype Measure =
    | TotalUp
    | TotalDown
    | Up(user: int)
    | Down(user: int)
    | CdnUp(user: int, cdn: set<string>)
    | CdnDown(user: int, cdn: set<string>)
    | Untagged(cdn: set<string>)

  function Take(m: Measure, item: Item): int {
    match m
    case TotalUp => if item.telegramId != 0 then item.uplink else 0
    case TotalDown => if item.telegramId != 0 then item.downlink else 0
    case Up(u) => if item.telegramId == u then item.uplink else 0
    case Down(u) => if item.telegramId == u then item.downlink else 0
    case CdnUp(u, cdn) => if item.telegramId == u && IsCdn(item, cdn) then item.uplink else 0
    case CdnDown(u, cdn) => if item.telegramId == u && IsCdn(item, cdn) then item.downlink else 0
    case Untagged(cdn) => if IsUnclassified(item, cdn) then 1 else 0
  }

  function Sum(items: seq<Item>, m: Measure): int {
    if items == [] then 0 else Sum(items[..|items| - 1], m) + Take(m, items[|items| - 1])
  }

  /** What the report means, item order aside. */
  ghost predicate Describes(agg: Aggregate, items: seq<Item>, cdn: set<string>) {
    && agg.totalUplink == Sum(items, TotalUp) && agg.totalDownlink == Sum(items, TotalDown)
    && agg.unclassified == Sum(items, Untagged(cdn))
    && agg.perUser.Keys == Users(items)
    && (forall u <- agg.perUser :: agg.perUser[u] == (Sum(items, Up(u)), Sum(items, Down(u))))
    && agg.cdnPerUser.Keys == CdnUsers(items, cdn)
    && (forall u <- agg.cdnPerUser :: agg.cdnPerUser[u] == (Sum(items, CdnUp(u, cdn)), Sum(items, CdnDown(u, cdn))))
  }

  /** Who has no entry yet has nothing to add to. */
  lemma {:induction false} AbsentUserSumsToZero(items: seq<Item>, cdn: set<string>, u: int)
    ensures u != 0 && u !in Users(items) ==> Sum(items, Up(u)) == 0 && Sum(items, Down(u)) == 0
    ensures u != 0 && u !in CdnUsers(items, cdn) ==> Sum(items, CdnUp(u, cdn)) == 0 && Sum(items, CdnDown(u, cdn)) == 0
    ensures CdnUsers(items, cdn) <= Users(items) && 0 !in Users(items)
  {
    if items != [] {
      AbsentUserSumsToZero(items[..|items| - 1], cdn, u);
    }
  }

  function Plus(sums: map<int, (int, int)>, u: int, item: Item): map<int, (int, int)> {
    var was := if u in sums then sums[u] else (0, 0);
    sums[u := (was.0 + item.uplink, was.1 + item.downlink)]
  }

  /** The aggregate after one more item. */
  function Added(agg: Aggregate, item: Item, cdn: set<string>): Aggregate {
    if item.telegramId == 0 then agg
    else Aggregate(agg.totalUplink + item.uplink, agg.totalDownlink + item.downlink,
                   Plus(agg.perUser, item.telegramId, item),
                   if IsCdn(item, cdn) then Plus(agg.cdnPerUser, item.telegramId, item) else agg.cdnPerUser,
                   agg.unclassified + if IsUnclassified(item, cdn) then 1 else 0)
  }

  lemma SumSnoc(items: seq<Item>, item: Item, m: Measure, cdn: set<string>)
    ensures Sum(items + [item], m) == Sum(items, m) + Take(m, item)
    ensures Users(items + [item]) == Users(items) + UserOf(item)
    ensures CdnUsers(items + [item], cdn) == CdnUsers(items, cdn) + CdnUserOf(item, cdn)
  {
    assert (items + [item])[..|items|] == items;
  }

  lemma AddedPerUser(agg: Aggregate, items: seq<Item>, item: Item, cdn: set<string>)
    requires Describes(agg, items, cdn)
    ensures var after := Added(agg, item, cdn).perUser;
            && after.Keys == Users(items + [item])
            && forall u <- after :: after[u] == (Sum(items + [item], Up(u)), Sum(items + [item], Down(u)))
  {
    var after := Added(agg, item, cdn).perUser;
    SumSnoc(items, item, TotalUp, cdn);
    forall u <- after
      ensures after[u] == (Sum(items + [item], Up(u)), Sum(items + [item], Down(u)))
    {
      AbsentUserSumsToZero(items, cdn, u);
      SumSnoc(items, item, Up(u), cdn);
      SumSnoc(items, item, Down(u), cdn);
    }
  }

  lemma AddedCdnPerUser(agg: Aggregate, items: seq<Item>, item: Item, cdn: set<string>)
    requires Describes(agg, items, cdn)
    ensures var after := Added(agg, item, cdn).cdnPerUser;
            && after.Keys == CdnUsers(items + [item], cdn)
            && forall u <- after ::
                 after[u] == (Sum(items + [item], CdnUp(u, cdn)), Sum(items + [item], CdnDown(u, cdn)))
  {
    var after := Added(agg, item, cdn).cdnPerUser;
    SumSnoc(items, item, TotalUp, cdn);
    forall u <- after
      ensures after[u] == (Sum(items + [item], CdnUp(u, cdn)), Sum(items + [item], CdnDown(u, cdn)))
    {
      AbsentUserSumsToZero(items, cdn, u);
      SumSnoc(items, item, CdnUp(u, cdn), cdn);
      SumSnoc(items, item, CdnDown(u, cdn), cdn);
    }
  }

  lemma AddedDescribes(agg: Aggregate, items: seq<Item>, item: Item, cdn: set<string>)
    requires Describes(agg, items, cdn)
    ensures Describes(Added(agg, item, cdn), items + [item], cdn)
  {
    AddedPerUser(agg, items, item, cdn);
    AddedCdnPerUser(agg, items, item, cdn);
    SumSnoc(items, item, TotalUp, cdn);
    SumSnoc(items, item, TotalDown, cdn);
    SumSnoc(items, item, Untagged(cdn), cdn);
  }

  method ClassifyTrafficItems(items: seq<Item>, cdnInbounds: set<string>) returns (agg: Aggregate)
    ensures Describes(agg, items, cdnInbounds)
  {
    agg := Aggregate(0, 0, map[], map[], 0);
    assert items[..0] == [];
    for i := 0 to |items|
      invariant Describes(agg, items[..i], cdnInbounds)
    {
      var item := items[i];
      AddedDescribes(agg, items[..i], item, cdnInbounds);
      assert items[..i + 1] == items[..i] + [item];
      ghost var next := Added(agg, item, cdnInbounds);
      if item.telegramId == 0 {
        continue;
      }
      agg := agg.(perUser := Plus(agg.perUser, item.telegramId, item),
                  totalUplink := agg.totalUplink + item.uplink,
                  totalDownlink := agg.totalDownlink + item.downlink);
      if cdnInbounds == {} {
        assert agg == next;
        continue;
      }
      if item.inboundTag == "" {
        agg := agg.(unclassified := agg.unclassified + 1);
        assert agg == next;
        continue;
      }
      if item.inboundTag !in cdnInbounds {
        assert agg == next;
        continue;
      }
      agg := agg.(cdnPerUser := Plus(agg.cdnPerUser, item.telegramId, item));
      assert agg == next;
    }
    assert items[..|items|] == items;
  }

  // ---------------------------------------------------------------- item by item

  /** A report of one item: without a user it counts nowhere; with one it is part of the totals and of
      his bytes, and of his CDN bytes exactly if its tag is named in the allowlist; it is unclassified
      exactly if there is an allowlist and it has no tag. */
  lemma OneItemCounts(agg: Aggregate, item: Item, cdn: set<string>)
    requires Describes(agg, [item], cdn)
    ensures var bytes := (item.uplink, item.downlink);
            if item.telegramId == 0 then agg == Aggregate(0, 0, map[], map[], 0)
            else
              && (agg.totalUplink, agg.totalDownlink) == bytes && agg.perUser == map[item.telegramId := bytes]
              && agg.cdnPerUser
                 == (if item.inboundTag != "" && item.inboundTag in cdn then map[item.telegramId := bytes] else map[])
              && agg.unclassified == (if cdn != {} && item.inboundTag == "" then 1 else 0)
  {
    assert [item][..0] == [];
    forall m: Measure ensures Sum([item], m) == Take(m, item) {
      assert Sum([item][..0], m) == 0;
    }
    assert Users([item]) == UserOf(item) && CdnUsers([item], cdn) == CdnUserOf(item, cdn);
  }

  /** A report of two parts: every figure is the sum of those of its parts. */
  lemma {:induction false} PartsAddUp(items: seq<Item>, more: seq<Item>, m: Measure, cdn: set<string>)
    ensures Sum(items + more, m) == Sum(items, m) + Sum(more, m)
    ensures Users(items + more) == Users(items) + Users(more)
    ensures CdnUsers(items + more, cdn) == CdnUsers(items, cdn) + CdnUsers(more, cdn)
    decreases |more|
  {
    if more == [] {
      assert items + more == items;
    } else {
      var n := |more| - 1;
      assert (items + more)[..|items + more| - 1] == items + more[..n];
      PartsAddUp(items, more[..n], m, cdn);
    }
  }

  // ---------------------------------------------------------------- order of the items

  lemma {:induction false} SumWithout(items: seq<Item>, j: nat, m: Measure)
    requires j < |items|
    ensures Sum(items, m) == Sum(items[..j] + items[j + 1..], m) + Take(m, items[j])
    decreases |items|
  {
    var n := |items| - 1;
    if j == n {
      assert items[..j] + items[j + 1..] == items[..n];
    } else {
      var short := items[..n];
      SumWithout(short, j, m);
      var rest := items[..j] + items[j + 1..];
      assert rest[..|rest| - 1] == short[..j] + short[j + 1..];
    }
  }

  /** The last item of one listing sits somewhere in the other; without it both are still
      listings of the same items. */
  lemma Elsewhere(items: seq<Item>, other: seq<Item>) returns (j: nat)
    requires items != [] && multiset(items) == multiset(other)
    ensures j < |other| && other[j] == items[|items| - 1]
    ensures multiset(items[..|items| - 1]) == multiset(other[..j] + other[j + 1..])
  {
    var n := |items| - 1;
    assert items == items[..n] + [items[n]];
    assert items[n] in multiset(other);
    j :| 0 <= j < |other| && other[j] == items[n];
    var rest := other[..j] + other[j + 1..];
    assert multiset(other) == multiset(rest) + multiset{items[n]} by {
      assert other == other[..j] + [other[j]] + other[j + 1..];
    }
    assert multiset(items) == multiset(items[..n]) + multiset{items[n]};
    assert multiset(rest) == multiset(other) - multiset{items[n]};
  }

  lemma {:induction false} SumIgnoresOrder(items: seq<Item>, other: seq<Item>, m: Measure)
    requires multiset(items) == multiset(other)
    ensures Sum(items, m) == Sum(other, m)
    decreases |items|
  {
    if items == [] {
      assert |multiset(other)| == 0;
    } else {
      var j := Elsewhere(items, other);
      SumIgnoresOrder(items[..|items| - 1], other[..j] + other[j + 1..], m);
      SumWithout(other, j, m);
    }
  }

  lemma {:induction false} UsersWithout(items: seq<Item>, j: nat, cdn: set<string>)
    requires j < |items|
    ensures Users(items) == Users(items[..j] + items[j + 1..]) + UserOf(items[j])
    ensures CdnUsers(items, cdn) == CdnUsers(items[..j] + items[j + 1..], cdn) + CdnUserOf(items[j], cdn)
    decreases |items|
  {
    var n := |items| - 1;
    var rest := items[..j] + items[j + 1..];
    if j == n {
      assert rest == items[..n];
    } else {
      UsersWithout(items[..n], j, cdn);
      assert rest[..|rest| - 1] == items[..n][..j] + items[..n][j + 1..];
    }
  }

  lemma {:induction false} UsersIgnoreOrder(items: seq<Item>, other: seq<Item>, cdn: set<string>)
    requires multiset(items) == multiset(other)
    ensures Users(items) == Users(other) && CdnUsers(items, cdn) == CdnUsers(other, cdn)
    decreases |items|
  {
    if items == [] {
      assert |multiset(other)| == 0;
    } else {
      var j := Elsewhere(items, other);
      UsersIgnoreOrder(items[..|items| - 1], other[..j] + other[j + 1..], cdn);
      UsersWithout(other, j, cdn);
    }
  }

  /** Two listings of the same items classify to the same aggregate. */
  lemma ClassificationIgnoresOrder(items: seq<Item>, other: seq<Item>, cdn: set<string>, a: Aggregate, b: Aggregate)
    requires multiset(items) == multiset(other)
    requires Describes(a, items, cdn) && Describes(b, other, cdn)
    ensures a == b
  {
    forall m: Measure {
      SumIgnoresOrder(items, other, m);
    }
    UsersIgnoreOrder(items, other, cdn);
    assert a.perUser.Keys == b.perUser.Keys && a.cdnPerUser.Keys == b.cdnPerUser.Keys;
    forall u <- a.perUser ensures a.perUser[u] == b.perUser[u] {
      assert Sum(items, Up(u)) == Sum(other, Up(u)) && Sum(items, Down(u)) == Sum(other, Down(u));
    }
    forall u <- a.cdnPerUser ensures a.cdnPerUser[u] == b.cdnPerUser[u] {
      assert Sum(items, CdnUp(u, cdn)) == Sum(other, CdnUp(u, cdn));
      assert Sum(items, CdnDown(u, cdn)) == Sum(other, CdnDown(u, cdn));
    }
  }

  lemma {:induction false} PartOfTotal(items: seq<Item>, part: Measure, whole: Measure)
    requires forall item <- items :: 0 <= Take(part, item) <= Take(whole, item)
    ensures 0 <= Sum(items, part) <= Sum(items, whole)
  {
    if items != [] {
      PartOfTotal(items[..|items| - 1], part, whole);
    }
  }

  /** With non-negative counters nobody is charged CDN bytes beyond his whole traffic, and
      an empty allowlist charges nobody. */
  lemma CdnIsPartOfTotal(agg: Aggregate, items: seq<Item>, cdn: set<string>)
    requires Describes(agg, items, cdn)
    requires forall item <- items :: item.uplink >= 0 && item.downlink >= 0
    ensures forall u <- agg.cdnPerUser :: u in agg.perUser
              && 0 <= agg.cdnPerUser[u].0 <= agg.perUser[u].0 && 0 <= agg.cdnPerUser[u].1 <= agg.perUser[u].1
    ensures cdn == {} ==> agg.cdnPerUser == map[] && agg.unclassified == 0
  {
    AbsentUserSumsToZero(items, cdn, 1);
    forall u <- agg.cdnPerUser
      ensures u in agg.perUser && 0 <= agg.cdnPerUser[u].0 <= agg.perUser[u].0
              && 0 <= agg.cdnPerUser[u].1 <= agg.perUser[u].1
    {
      PartOfTotal(items, CdnUp(u, cdn), Up(u));
      PartOfTotal(items, CdnDown(u, cdn), Down(u));
    }
    if cdn == {} {
      NothingAllowed(items);
    }
  }

  lemma {:induction false} NothingAllowed(items: seq<Item>)
    ensures CdnUsers(items, {}) == {} && Sum(items, Untagged({})) == 0
  {
    if items != [] {
      NothingAllowed(items[..|items| - 1]);
    }
  }
}
