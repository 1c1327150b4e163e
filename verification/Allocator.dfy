/** Which server of each country a user gets. */
module Allocator {
  import opened Prelude

  datatype PoolItem = PoolItem(id: int, itemKey: string, serverKey: string, country: string, sortOrder: int,
                               enabled: bool)

  datatype ServerLoad = ServerLoad(
    serverKey: string, enabled: bool, maxUsers: int, activeUsers: int, onlineUsers: int,
    uplinkBps: int, downlinkBps: int, bandwidthMbps: int, weight: int, lastHeartbeatAt: Option<int>)
  {
    predicate AliveByHeartbeat(now: int, ttl: int) {
      enabled && (lastHeartbeatAt.Some? ==> now - lastHeartbeatAt.value <= ttl)
    }

    predicate HasCapacity() {
      maxUsers <= 0 || activeUsers < maxUsers
    }

    function Weight(): int {
      if weight <= 0 then 1 else weight
    }

    /** Pressure by users, or by the channel where that is known and larger. */
    function LoadScore(): real {
      var conns := if onlineUsers <= 0 then activeUsers else onlineUsers;
      var score := (conns + 1) as real / Weight() as real;
      var used := (uplinkBps + downlinkBps) as real;
      if bandwidthMbps > 0 && maxUsers > 0 && used > 0.0 then
        var bandwidth := used / (bandwidthMbps as real * 1000000.0) * (maxUsers + 1) as real / Weight() as real;
        if bandwidth > score then bandwidth else score
      else score
    }
  }

  /** What one call of Allocate sees: the loads, whom the user is bound to, and the policy. */
  datatype Context = Context(servers: seq<ServerLoad>, sticky: map<string, string>, now: int, ttl: int,
                             softOverflow: bool)
  {
    /** byKey: a later entry of the same key replaces an earlier one. */
    function Load(key: string): Option<ServerLoad> {
      LastLoad(servers, key)
    }

    predicate Alive(it: PoolItem) {
      it.enabled && Load(it.serverKey).Some? && Load(it.serverKey).value.AliveByHeartbeat(now, ttl)
    }

    predicate Roomy(it: PoolItem) {
      Alive(it) && Load(it.serverKey).value.HasCapacity()
    }

    predicate Bound(it: PoolItem) {
      it.itemKey in sticky && sticky[it.itemKey] != "" && sticky[it.itemKey] == it.serverKey
    }

    function Score(it: PoolItem): real {
      if Load(it.serverKey).Some? then Load(it.serverKey).value.LoadScore() else 0.0
    }
  }

  lemma RatioOfEquals(x: real, y: real)
    requires x == y && y > 0.0
    ensures x / y == 1.0
  {
  }

  lemma OneTimes(x: real, y: real)
    requires x == 1.0
    ensures x * y == y
  {
  }

  lemma RatioGrows(x: int, y: int, w: int)
    requires x <= y && w > 0
    ensures x as real / w as real <= y as real / w as real
  {
  }

  /** The score is the larger of two pressures, both relative to the weight: users, and the used
      share of the channel times the capacity, where bandwidth, capacity and traffic are known. */
  lemma ScoreIsLargerPressure(s: ServerLoad)
    ensures var w := s.Weight() as real;
            var users := ((if s.onlineUsers <= 0 then s.activeUsers else s.onlineUsers) + 1) as real / w;
            var used := (s.uplinkBps + s.downlinkBps) as real;
            && s.Weight() == Max(s.weight, 1) && users <= s.LoadScore()
            && (if s.bandwidthMbps > 0 && s.maxUsers > 0 && used > 0.0 then
                  var channel := used / (s.bandwidthMbps as real * 1000000.0) * (s.maxUsers + 1) as real / w;
                  channel <= s.LoadScore() && s.LoadScore() in {users, channel}
                else s.LoadScore() == users)
  {
  }

  /** A channel fully in use weighs as much as a node full of users, and a node with both weighs
      no more than with one. */
  lemma FullChannelWeighsAsFullNode(s: ServerLoad)
    requires s.bandwidthMbps > 0 && s.maxUsers > 0
    requires s.uplinkBps + s.downlinkBps == s.bandwidthMbps * 1000000
    requires s.onlineUsers <= s.maxUsers && s.activeUsers <= s.maxUsers
    ensures s.LoadScore() == (s.maxUsers + 1) as real / s.Weight() as real
    ensures s.(onlineUsers := s.maxUsers, uplinkBps := 0, downlinkBps := 0).LoadScore() == s.LoadScore()
  {
    var used, capacity := (s.uplinkBps + s.downlinkBps) as real, s.bandwidthMbps as real * 1000000.0;
    RatioOfEquals(used, capacity);
    OneTimes(used / capacity, (s.maxUsers + 1) as real);
    var conns := if s.onlineUsers <= 0 then s.activeUsers else s.onlineUsers;
    RatioGrows(conns + 1, s.maxUsers + 1, s.Weight());
  }

  function LastLoad(servers: seq<ServerLoad>, key: string): Option<ServerLoad> {
    if servers == [] then None
    else if servers[|servers| - 1].serverKey == key then Some(servers[|servers| - 1])
    else LastLoad(servers[..|servers| - 1], key)
  }

  // ---------------------------------------------------------------- stable sorting

  datatype Ordering = ByPlace | ByLoad(c: Context)

  predicate Less(o: Ordering, a: PoolItem, b: PoolItem) {
    if o.ByLoad? && o.c.Score(a) != o.c.Score(b) then o.c.Score(a) < o.c.Score(b)
    else a.sortOrder < b.sortOrder || (a.sortOrder == b.sortOrder && a.id < b.id)
  }

  ghost predicate Sorted(o: Ordering, s: seq<PoolItem>) {
    forall i, j :: 0 <= i < j < |s| ==> !Less(o, s[j], s[i])
  }

  function Insert(o: Ordering, s: seq<PoolItem>, x: PoolItem): seq<PoolItem> {
    if s == [] || !Less(o, x, s[|s| - 1]) then s + [x]
    else Insert(o, s[..|s| - 1], x) + [s[|s| - 1]]
  }

  /** The result of a stable sort. */
  function Sort(o: Ordering, s: seq<PoolItem>): seq<PoolItem> {
    if s == [] then [] else Insert(o, Sort(o, s[..|s| - 1]), s[|s| - 1])
  }

  lemma {:induction false} InsertKeeps(o: Ordering, s: seq<PoolItem>, x: PoolItem)
    ensures multiset(Insert(o, s, x)) == multiset(s) + multiset{x}
    decreases |s|
  {
    if s != [] && Less(o, x, s[|s| - 1]) {
      var n := |s| - 1;
      InsertKeeps(o, s[..n], x);
      assert s == s[..n] + [s[n]];
    }
  }

  lemma {:induction false} InsertSorts(o: Ordering, s: seq<PoolItem>, x: PoolItem)
    requires Sorted(o, s)
    ensures Sorted(o, Insert(o, s, x))
    decreases |s|
  {
    if s != [] && Less(o, x, s[|s| - 1]) {
      var n := |s| - 1;
      var r := Insert(o, s[..n], x);
      InsertSorts(o, s[..n], x);
      forall i | 0 <= i < |r| ensures !Less(o, s[n], r[i]) {
        InsertedMember(o, s[..n], x, r[i]);
      }
    }
  }

  lemma InsertedMember(o: Ordering, s: seq<PoolItem>, x: PoolItem, y: PoolItem)
    requires y in Insert(o, s, x)
    ensures y == x || y in s
  {
    InsertKeeps(o, s, x);
    assert y in multiset(Insert(o, s, x));
  }

  lemma {:induction false} SortSorts(o: Ordering, s: seq<PoolItem>)
    ensures Sorted(o, Sort(o, s)) && multiset(Sort(o, s)) == multiset(s)
    decreases |s|
  {
    if s != [] {
      var n := |s| - 1;
      SortSorts(o, s[..n]);
      InsertSorts(o, Sort(o, s[..n]), s[n]);
      InsertKeeps(o, Sort(o, s[..n]), s[n]);
      assert s == s[..n] + [s[n]];
    }
  }

  predicate Tied(o: Ordering, x: PoolItem, y: PoolItem) {
    !Less(o, x, y) && !Less(o, y, x)
  }

  lemma TiedToOne(o: Ordering, x: PoolItem, z: PoolItem, y: PoolItem)
    requires Less(o, x, z)
    ensures !Tied(o, x, y) || !Tied(o, z, y)
  {
  }

  /** The elements that tie with y, in order. */
  function Ties(o: Ordering, s: seq<PoolItem>, y: PoolItem): seq<PoolItem> {
    if s == [] then []
    else
      var x := s[|s| - 1];
      Ties(o, s[..|s| - 1], y) + if Tied(o, x, y) then [x] else []
  }

  lemma TiesThen(o: Ordering, s: seq<PoolItem>, x: PoolItem, y: PoolItem)
    ensures Ties(o, s + [x], y) == Ties(o, s, y) + if Tied(o, x, y) then [x] else []
  {
    assert (s + [x])[..|s|] == s;
  }

  lemma {:induction false} InsertIsStable(o: Ordering, s: seq<PoolItem>, x: PoolItem, y: PoolItem)
    ensures Ties(o, Insert(o, s, x), y) == Ties(o, s, y) + if Tied(o, x, y) then [x] else []
    decreases |s|
  {
    if s == [] || !Less(o, x, s[|s| - 1]) {
      TiesThen(o, s, x, y);
    } else {
      var front, last := s[..|s| - 1], s[|s| - 1];
      InsertIsStable(o, front, x, y);
      TiesThen(o, Insert(o, front, x), last, y);
      TiedToOne(o, x, last, y);
    }
  }

  /** Equal elements keep their order. */
  lemma {:induction false} SortIsStable(o: Ordering, s: seq<PoolItem>, y: PoolItem)
    ensures Ties(o, Sort(o, s), y) == Ties(o, s, y)
    decreases |s|
  {
    if s != [] {
      var front, last := s[..|s| - 1], s[|s| - 1];
      SortIsStable(o, front, y);
      InsertIsStable(o, Sort(o, front), last, y);
    }
  }

  lemma SameMembers(s: seq<PoolItem>, r: seq<PoolItem>)
    requires multiset(s) == multiset(r)
    ensures forall x :: x in s <==> x in r
  {
    forall x ensures x in s <==> x in r {
      assert x in multiset(s) <==> x in s;
      assert x in multiset(r) <==> x in r;
    }
  }

  // ---------------------------------------------------------------- the allocation

  /** byCountry: the enabled items of a country, in input order. */
  function OfCountry(items: seq<PoolItem>, country: string): seq<PoolItem> {
    if items == [] then []
    else
      var it := items[|items| - 1];
      OfCountry(items[..|items| - 1], country) + if it.enabled && it.country == country then [it] else []
  }

  /** The living candidates with room, or those without. */
  function Living(c: Context, candidates: seq<PoolItem>, roomy: bool): seq<PoolItem> {
    if candidates == [] then []
    else
      var it := candidates[|candidates| - 1];
      Living(c, candidates[..|candidates| - 1], roomy) + if c.Alive(it) && c.Roomy(it) == roomy then [it] else []
  }

  function PoolAmong(c: Context, candidates: seq<PoolItem>): seq<PoolItem> {
    var roomy := Living(c, candidates, true);
    if roomy == [] && c.softOverflow then Living(c, candidates, false) else roomy
  }

  function Pool(c: Context, items: seq<PoolItem>, country: string): seq<PoolItem> {
    PoolAmong(c, OfCountry(items, country))
  }

  function FirstBound(c: Context, pool: seq<PoolItem>): Option<PoolItem> {
    if pool == [] then None
    else if c.Bound(pool[0]) then Some(pool[0])
    else FirstBound(c, pool[1..])
  }

  function Pick(c: Context, pool: seq<PoolItem>): PoolItem
    requires pool != []
  {
    SortSorts(ByLoad(c), pool);
    assert |multiset(pool)| == |Sort(ByLoad(c), pool)|;
    if FirstBound(c, pool).Some? then FirstBound(c, pool).value else Sort(ByLoad(c), pool)[0]
  }

  /** Countries of enabled items in order of first appearance. */
  function Countries(items: seq<PoolItem>): seq<string> {
    if items == [] then []
    else
      var cs := Countries(items[..|items| - 1]);
      var it := items[|items| - 1];
      if it.enabled && it.country !in cs then cs + [it.country] else cs
  }

  function Chosen(c: Context, items: seq<PoolItem>, countries: seq<string>): seq<PoolItem> {
    if countries == [] then []
    else
      var pool := Pool(c, items, countries[|countries| - 1]);
      Chosen(c, items, countries[..|countries| - 1]) + if pool == [] then [] else [Pick(c, pool)]
  }

  function Allocation(c: Context, items: seq<PoolItem>): seq<PoolItem> {
    Sort(ByPlace, Chosen(c, items, Countries(items)))
  }

  lemma InsertSkips(o: Ordering, s: seq<PoolItem>, k: nat, x: PoolItem)
    requires 0 < k <= |s| && Less(o, x, s[k - 1])
    ensures Insert(o, s[..k], x) + s[k..] == Insert(o, s[..k - 1], x) + s[k - 1..]
  {
    assert s[..k][..k - 1] == s[..k - 1];
    assert [s[k - 1]] + s[k..] == s[k - 1..];
  }

  class AllocatorService {
    const heartbeatTTL: int
    const softOverflow: bool

    constructor (heartbeatTTL: int, softOverflow: bool)
      ensures this.heartbeatTTL == (if heartbeatTTL <= 0 then 90 else heartbeatTTL) && this.softOverflow == softOverflow
    {
      this.heartbeatTTL := if heartbeatTTL <= 0 then 90 else heartbeatTTL;
      this.softOverflow := softOverflow;
    }

    /** sort.SliceStable, by insertion. */
    static method SliceStable(o: Ordering, items: seq<PoolItem>) returns (out: seq<PoolItem>)
      ensures out == Sort(o, items) && Sorted(o, out) && multiset(out) == multiset(items)
      ensures forall y :: Ties(o, out, y) == Ties(o, items, y)
    {
      out := [];
      for i := 0 to |items|
        invariant out == Sort(o, items[..i])
      {
        assert items[..i + 1][..i] == items[..i];
        out := InsertOne(o, out, items[i]);
      }
      assert items[..|items|] == items;
      SortSorts(o, items);
      forall y ensures Ties(o, out, y) == Ties(o, items, y) {
        SortIsStable(o, items, y);
      }
    }

    static method InsertOne(o: Ordering, s: seq<PoolItem>, x: PoolItem) returns (out: seq<PoolItem>)
      ensures out == Insert(o, s, x)
    {
      var k := |s|;
      assert s[..k] == s && s[k..] == [];
      while k > 0 && Less(o, x, s[k - 1])
        invariant 0 <= k <= |s|
        invariant Insert(o, s, x) == Insert(o, s[..k], x) + s[k..]
      {
        InsertSkips(o, s, k, x);
        k := k - 1;
      }
      out := s[..k] + [x] + s[k..];
    }

    method SortPoolItems(items: seq<PoolItem>) returns (out: seq<PoolItem>)
      ensures out == Sort(ByPlace, items) && Sorted(ByPlace, out) && multiset(out) == multiset(items)
    {
      out := SliceStable(ByPlace, items);
    }

    static method IndexServers(servers: seq<ServerLoad>) returns (byKey: map<string, ServerLoad>)
      ensures forall key :: LastLoad(servers, key) == if key in byKey then Some(byKey[key]) else None
    {
      byKey := map[];
      for i := 0 to |servers|
        invariant forall key :: LastLoad(servers[..i], key) == if key in byKey then Some(byKey[key]) else None
      {
        assert servers[..i + 1][..i] == servers[..i];
        byKey := byKey[servers[i].serverKey := servers[i]];
      }
      assert servers[..|servers|] == servers;
    }

    static method GroupByCountry(items: seq<PoolItem>)
      returns (byCountry: map<string, seq<PoolItem>>, countryOrder: seq<string>)
      ensures countryOrder == Countries(items) && forall cc <- countryOrder :: cc in byCountry
      ensures forall cc :: OfCountry(items, cc) == if cc in byCountry then byCountry[cc] else []
    {
      byCountry, countryOrder := map[], [];
      for i := 0 to |items|
        invariant countryOrder == Countries(items[..i])
        invariant forall cc :: cc in countryOrder <==> cc in byCountry
        invariant forall cc :: OfCountry(items[..i], cc) == if cc in byCountry then byCountry[cc] else []
      {
        assert items[..i + 1][..i] == items[..i];
        var it := items[i];
        if it.enabled {
          if it.country !in countryOrder {
            countryOrder := countryOrder + [it.country];
            byCountry := byCountry[it.country := []];
          }
          byCountry := byCountry[it.country := byCountry[it.country] + [it]];
        }
      }
      assert items[..|items|] == items;
    }

    static method SplitByCapacity(c: Context, candidates: seq<PoolItem>, byKey: map<string, ServerLoad>)
      returns (withCapacity: seq<PoolItem>, overflow: seq<PoolItem>)
      requires forall key :: c.Load(key) == if key in byKey then Some(byKey[key]) else None
      requires forall it <- candidates :: it.enabled
      ensures withCapacity == Living(c, candidates, true) && overflow == Living(c, candidates, false)
    {
      withCapacity, overflow := [], [];
      for i := 0 to |candidates|
        invariant withCapacity == Living(c, candidates[..i], true)
        invariant overflow == Living(c, candidates[..i], false)
      {
        assert candidates[..i + 1][..i] == candidates[..i];
        var it := candidates[i];
        assert it.enabled;
        if it.serverKey !in byKey {
          continue;
        }
        var load := byKey[it.serverKey];
        if !load.AliveByHeartbeat(c.now, c.ttl) {
          continue;
        }
        if load.HasCapacity() {
          withCapacity := withCapacity + [it];
        } else {
          overflow := overflow + [it];
        }
      }
      assert candidates[..|candidates|] == candidates;
    }

    /** Those with room; when there are none and the policy allows it, those without. */
    static method PoolOf(c: Context, candidates: seq<PoolItem>, byKey: map<string, ServerLoad>)
      returns (pool: seq<PoolItem>)
      requires forall key :: c.Load(key) == if key in byKey then Some(byKey[key]) else None
      requires forall it <- candidates :: it.enabled
      ensures pool == PoolAmong(c, candidates)
    {
      var overflow;
      pool, overflow := SplitByCapacity(c, candidates, byKey);
      if |pool| == 0 && c.softOverflow && |overflow| > 0 {
        pool := overflow;
      }
    }

    static method PickFrom(c: Context, pool: seq<PoolItem>) returns (pick: PoolItem)
      requires pool != []
      ensures pick == Pick(c, pool)
    {
      var i := 0;
      while i < |pool|
        invariant 0 <= i <= |pool| && FirstBound(c, pool) == FirstBound(c, pool[i..])
      {
        if c.Bound(pool[i]) {
          return pool[i];
        }
        i := i + 1;
      }
      var sorted := SliceStable(ByLoad(c), pool);
      assert |multiset(pool)| == |sorted|;
      pick := sorted[0];
    }

    /** The pick of one country, if any. */
    static method Choose(c: Context, candidates: seq<PoolItem>, byKey: map<string, ServerLoad>)
      returns (chosen: seq<PoolItem>)
      requires forall key :: c.Load(key) == if key in byKey then Some(byKey[key]) else None
      requires forall it <- candidates :: it.enabled
      ensures var pool := PoolAmong(c, candidates); chosen == if pool == [] then [] else [Pick(c, pool)]
    {
      var pool := PoolOf(c, candidates, byKey);
      if |pool| == 0 {
        return [];
      }
      var pick := PickFrom(c, pool);
      chosen := [pick];
    }

    static method ChooseAll(c: Context, ghost items: seq<PoolItem>, countryOrder: seq<string>,
                            byCountry: map<string, seq<PoolItem>>, byKey: map<string, ServerLoad>)
      returns (chosen: seq<PoolItem>)
      requires forall key :: c.Load(key) == if key in byKey then Some(byKey[key]) else None
      requires forall cc <- countryOrder :: cc in byCountry && byCountry[cc] == OfCountry(items, cc)
      ensures chosen == Chosen(c, items, countryOrder)
    {
      chosen := [];
      for i := 0 to |countryOrder|
        invariant chosen == Chosen(c, items, countryOrder[..i])
      {
        assert countryOrder[..i + 1][..i] == countryOrder[..i];
        GroupedAreEnabled(items, countryOrder[i]);
        var pick := Choose(c, byCountry[countryOrder[i]], byKey);
        chosen := chosen + pick;
      }
      assert countryOrder[..|countryOrder|] == countryOrder;
    }

    method Allocate(items: seq<PoolItem>, servers: seq<ServerLoad>, sticky: map<string, string>, now: int)
      returns (out: seq<PoolItem>)
      ensures out == Allocation(Context(servers, sticky, now, heartbeatTTL, softOverflow), items)
    {
      var c := Context(servers, sticky, now, heartbeatTTL, softOverflow);
      var byKey := IndexServers(servers);
      var byCountry, countryOrder := GroupByCountry(items);
      var chosen := ChooseAll(c, items, countryOrder, byCountry, byKey);
      out := SortPoolItems(chosen);
    }
  }

  /** Grouping keeps exactly the enabled items of the country. */
  lemma {:induction false} GroupedAreEnabled(items: seq<PoolItem>, country: string)
    ensures forall it :: it in OfCountry(items, country) <==> it in items && it.enabled && it.country == country
    decreases |items|
  {
    if items != [] {
      GroupedAreEnabled(items[..|items| - 1], country);
    }
  }

  // ---------------------------------------------------------------- what an allocation is

  /** May be picked: enabled, known, alive, and with room unless no such server of the country
      has any and the policy is to overflow. */
  ghost predicate Eligible(c: Context, items: seq<PoolItem>, it: PoolItem) {
    && it in items && c.Alive(it)
    && (c.Roomy(it) || (c.softOverflow && forall other <- items :: other.country == it.country ==> !c.Roomy(other)))
  }

  lemma {:induction false} LivingExactly(c: Context, candidates: seq<PoolItem>, roomy: bool, it: PoolItem)
    ensures it in Living(c, candidates, roomy) <==> it in candidates && c.Alive(it) && c.Roomy(it) == roomy
    decreases |candidates|
  {
    if candidates != [] {
      LivingExactly(c, candidates[..|candidates| - 1], roomy, it);
    }
  }

  lemma PoolIsEligible(c: Context, items: seq<PoolItem>, country: string, it: PoolItem)
    ensures it in Pool(c, items, country) <==> Eligible(c, items, it) && it.country == country
  {
    var candidates := OfCountry(items, country);
    GroupedAreEnabled(items, country);
    LivingExactly(c, candidates, true, it);
    LivingExactly(c, candidates, false, it);
    forall other <- items | other.country == country
      ensures c.Roomy(other) <==> other in Living(c, candidates, true)
    {
      LivingExactly(c, candidates, true, other);
    }
    if Living(c, candidates, true) != [] {
      var some := Living(c, candidates, true)[0];
      assert some in Living(c, candidates, true);
      LivingExactly(c, candidates, true, some);
      assert c.Roomy(some) && some in items && some.country == country;
    }
  }

  lemma {:induction false} FirstBoundIsFirst(c: Context, pool: seq<PoolItem>)
    ensures FirstBound(c, pool).None? ==> forall it <- pool :: !c.Bound(it)
    ensures FirstBound(c, pool).Some? ==>
              exists i :: 0 <= i < |pool| && pool[i] == FirstBound(c, pool).value && c.Bound(pool[i])
                && forall j :: 0 <= j < i ==> !c.Bound(pool[j])
    decreases |pool|
  {
    if pool != [] && !c.Bound(pool[0]) {
      FirstBoundIsFirst(c, pool[1..]);
      if FirstBound(c, pool).Some? {
        var i :| 0 <= i < |pool| - 1 && pool[1..][i] == FirstBound(c, pool).value && c.Bound(pool[1..][i])
          && forall j :: 0 <= j < i ==> !c.Bound(pool[1..][j]);
        assert pool[i + 1] == pool[1..][i];
        forall j | 0 <= j < i + 1 ensures !c.Bound(pool[j]) {
          assert j > 0 ==> pool[j] == pool[1..][j - 1];
        }
      }
    }
  }

  /** The pick of a pool: one the user is bound to if there is one, else one that none beats on
      (load, place, id). */
  lemma PickIsBest(c: Context, pool: seq<PoolItem>)
    requires pool != []
    ensures var pick := Pick(c, pool);
            && pick in pool
            && ((exists it <- pool :: c.Bound(it)) ==> c.Bound(pick))
            && ((forall it <- pool :: !c.Bound(it)) ==> forall it <- pool :: !Less(ByLoad(c), it, pick))
  {
    FirstBoundIsFirst(c, pool);
    if FirstBound(c, pool).None? {
      var s := Sort(ByLoad(c), pool);
      SortSorts(ByLoad(c), pool);
      SameMembers(s, pool);
      assert |multiset(s)| == |s|;
      forall it <- pool ensures !Less(ByLoad(c), it, s[0]) {
        var k :| 0 <= k < |s| && s[k] == it;
      }
    }
  }

  lemma {:induction false} CountriesExactly(items: seq<PoolItem>)
    ensures forall cc :: cc in Countries(items) <==> exists it <- items :: it.enabled && it.country == cc
    ensures forall i, j :: 0 <= i < j < |Countries(items)| ==> Countries(items)[i] != Countries(items)[j]
    decreases |items|
  {
    if items != [] {
      CountriesExactly(items[..|items| - 1]);
      assert items == items[..|items| - 1] + [items[|items| - 1]];
    }
  }

  lemma {:induction false} ChosenExactly(c: Context, items: seq<PoolItem>, countries: seq<string>)
    requires forall i, j :: 0 <= i < j < |countries| ==> countries[i] != countries[j]
    ensures var chosen := Chosen(c, items, countries);
            && (forall it :: it in chosen <==>
                  it.country in countries && Pool(c, items, it.country) != []
                  && it == Pick(c, Pool(c, items, it.country)))
            && (forall i, j :: 0 <= i < j < |chosen| ==> chosen[i].country != chosen[j].country)
    decreases |countries|
  {
    if countries != [] {
      var n := |countries| - 1;
      ChosenExactly(c, items, countries[..n]);
      var pool := Pool(c, items, countries[n]);
      assert countries == countries[..n] + [countries[n]];
      if pool != [] {
        PickIsBest(c, pool);
        PoolIsEligible(c, items, countries[n], Pick(c, pool));
      }
    }
  }

  /** it is what the policy gives its country. */
  ghost predicate Given(c: Context, items: seq<PoolItem>, it: PoolItem) {
    Pool(c, items, it.country) != [] && it == Pick(c, Pool(c, items, it.country))
  }

  lemma AllocationGives(c: Context, items: seq<PoolItem>)
    ensures forall it :: it in Allocation(c, items) <==> Given(c, items, it)
    ensures Sorted(ByPlace, Allocation(c, items))
    ensures forall i, j :: 0 <= i < j < |Allocation(c, items)| ==>
              Allocation(c, items)[i].country != Allocation(c, items)[j].country
  {
    var countries := Countries(items);
    var chosen := Chosen(c, items, countries);
    CountriesExactly(items);
    ChosenExactly(c, items, countries);
    SortSorts(ByPlace, chosen);
    SameMembers(Allocation(c, items), chosen);
    forall it ensures it in chosen <==> Given(c, items, it) {
      if Given(c, items, it) {
        PickIsBest(c, Pool(c, items, it.country));
        PoolIsEligible(c, items, it.country, it);
        assert it in items && it.enabled;
      }
    }
    SameCountriesApart(chosen, Allocation(c, items));
  }

  lemma Twice(r: seq<PoolItem>, i: nat, j: nat)
    requires i < j < |r| && r[i] == r[j]
    ensures multiset(r)[r[i]] >= 2
  {
    assert r == r[..j] + [r[j]] + r[j + 1..];
    assert r[i] in r[..j];
  }

  lemma Once(s: seq<PoolItem>, a: nat)
    requires a < |s| && forall b :: 0 <= b < |s| && b != a ==> s[b] != s[a]
    ensures multiset(s)[s[a]] == 1
  {
    assert s == s[..a] + [s[a]] + s[a + 1..];
    assert s[a] !in s[..a] && s[a] !in s[a + 1..];
  }

  lemma SameCountriesApart(s: seq<PoolItem>, r: seq<PoolItem>)
    requires multiset(s) == multiset(r)
    requires forall i, j :: 0 <= i < j < |s| ==> s[i].country != s[j].country
    ensures forall i, j :: 0 <= i < j < |r| ==> r[i].country != r[j].country
  {
    SameMembers(s, r);
    forall i, j | 0 <= i < j < |r| ensures r[i].country != r[j].country {
      assert r[i] in s && r[j] in s;
      var a :| 0 <= a < |s| && s[a] == r[i];
      var b :| 0 <= b < |s| && s[b] == r[j];
      Once(s, a);
      if a == b {
        Twice(r, i, j);
      }
    }
  }

  /** Countries, each once: exactly those with an eligible server. */
  lemma CountryServedIffEligible(c: Context, items: seq<PoolItem>, country: string)
    ensures (exists it :: it in Allocation(c, items) && it.country == country)
            <==> exists it :: Eligible(c, items, it) && it.country == country
    ensures var out := Allocation(c, items);
            forall i, j :: 0 <= i < j < |out| ==> out[i].country != out[j].country
  {
    AllocationGives(c, items);
    var pool := Pool(c, items, country);
    forall it ensures it in pool <==> Eligible(c, items, it) && it.country == country {
      PoolIsEligible(c, items, country, it);
    }
    if pool != [] {
      PickIsBest(c, pool);
      assert Eligible(c, items, Pick(c, pool));
      assert Given(c, items, Pick(c, pool));
    } else {
      assert forall it :: Given(c, items, it) ==> it.country != country;
    }
  }

  /** The server given for a country is eligible; it is one the user is bound to if any
      eligible one of the country is, and otherwise none of them beats it on load, place, id. */
  lemma GivenIsBest(c: Context, items: seq<PoolItem>, it: PoolItem, other: PoolItem)
    requires it in Allocation(c, items) && Eligible(c, items, other) && other.country == it.country
    ensures Eligible(c, items, it)
    ensures c.Bound(other) ==> c.Bound(it)
    ensures !c.Bound(it) ==> !Less(ByLoad(c), other, it)
  {
    AllocationGives(c, items);
    var pool := Pool(c, items, it.country);
    PickIsBest(c, pool);
    PoolIsEligible(c, items, it.country, it);
    PoolIsEligible(c, items, it.country, other);
  }

  // ---------------------------------------------------------------- in terms of the node's report

  /** Entry i is the last one of the key, the one that counts. */
  predicate LastOf(servers: seq<ServerLoad>, i: nat, key: string) {
    i < |servers| && servers[i].serverKey == key && forall j :: i < j < |servers| ==> servers[j].serverKey != key
  }

  lemma {:induction false} LastLoadIs(servers: seq<ServerLoad>, key: string, i: nat)
    requires LastOf(servers, i, key)
    ensures LastLoad(servers, key) == Some(servers[i])
    decreases |servers|
  {
    if i < |servers| - 1 {
      LastLoadIs(servers[..|servers| - 1], key, i);
    }
  }

  lemma {:induction false} LastLoadAt(servers: seq<ServerLoad>, key: string) returns (i: nat)
    requires LastLoad(servers, key).Some?
    ensures LastOf(servers, i, key) && LastLoad(servers, key) == Some(servers[i])
    decreases |servers|
  {
    i := |servers| - 1;
    if servers[i].serverKey != key {
      i := LastLoadAt(servers[..i], key);
    }
  }

  /** The node is switched on, and was heard of no longer than the time to live ago, or never yet. */
  predicate Up(s: ServerLoad, now: int, ttl: int) {
    s.enabled && (s.lastHeartbeatAt.None? || now <= s.lastHeartbeatAt.value + ttl)
  }

  /** One user more fits under the node's limit, if it has one. */
  predicate HasRoom(s: ServerLoad) {
    s.maxUsers > 0 ==> s.activeUsers + 1 <= s.maxUsers
  }

  /** The item is enabled and its node, by the entry that counts, is up. */
  ghost predicate Running(c: Context, it: PoolItem, i: nat) {
    it.enabled && LastOf(c.servers, i, it.serverKey) && Up(c.servers[i], c.now, c.ttl)
  }

  lemma RunningIsAlive(c: Context, it: PoolItem, i: nat)
    requires Running(c, it, i)
    ensures c.Alive(it) && (c.Roomy(it) <==> HasRoom(c.servers[i])) && c.Load(it.serverKey) == Some(c.servers[i])
  {
    LastLoadIs(c.servers, it.serverKey, i);
  }

  lemma AliveIsRunning(c: Context, it: PoolItem) returns (i: nat)
    requires c.Alive(it)
    ensures Running(c, it, i) && (c.Roomy(it) <==> HasRoom(c.servers[i]))
  {
    i := LastLoadAt(c.servers, it.serverKey);
  }

  /** An item of the country that may be given at all: its node is up, and has room or may overflow. */
  ghost predicate Fit(c: Context, items: seq<PoolItem>, country: string, it: PoolItem, i: nat) {
    it in items && it.country == country && Running(c, it, i) && (c.softOverflow || HasRoom(c.servers[i]))
  }

  /** A country is served exactly if one of its enabled items sits on a node that is up and has room for
      one user more, or is up at all when overflowing is allowed. */
  lemma CountryServedIffNodeFit(c: Context, items: seq<PoolItem>, country: string)
    ensures (exists it :: it in Allocation(c, items) && it.country == country)
            <==> exists it, i: nat :: Fit(c, items, country, it, i)
  {
    CountryServedIffEligible(c, items, country);
    if it :| Eligible(c, items, it) && it.country == country {
      var i := AliveIsRunning(c, it);
      assert Fit(c, items, country, it, i);
    }
    if it, i: nat :| Fit(c, items, country, it, i) {
      RunningIsAlive(c, it, i);
      if other :| other in items && other.country == country && c.Roomy(other) {
        assert Eligible(c, items, other);
      } else {
        assert Eligible(c, items, it);
      }
    }
  }

  /** Bound to the item's server by name. */
  predicate Kept(c: Context, it: PoolItem) {
    it.itemKey in c.sticky && c.sticky[it.itemKey] == it.serverKey && it.serverKey != ""
  }

  /** Lighter, or as light and placed earlier, or there with a smaller id. */
  predicate NoWorse(c: Context, it: PoolItem, i: nat, other: PoolItem, j: nat)
    requires i < |c.servers| && j < |c.servers|
  {
    var a, b := c.servers[i].LoadScore(), c.servers[j].LoadScore();
    a < b || (a == b && (it.sortOrder < other.sortOrder || (it.sortOrder == other.sortOrder && it.id <= other.id)))
  }

  /** The item given for a country, against any other of the country whose node is up: it has room if the
      other has; and among those with the same room it is one the user is kept on if the other is, and
      otherwise, if he is kept on neither, no worse in load, place and id. */
  lemma GivenBeatsOthers(c: Context, items: seq<PoolItem>, it: PoolItem, i: nat, other: PoolItem, j: nat)
    requires it in Allocation(c, items) && other in items && other.country == it.country
    requires LastOf(c.servers, i, it.serverKey) && Running(c, other, j)
    ensures Fit(c, items, it.country, it, i)
    ensures HasRoom(c.servers[j]) ==> HasRoom(c.servers[i])
    ensures HasRoom(c.servers[j]) == HasRoom(c.servers[i]) ==>
              (Kept(c, other) ==> Kept(c, it)) && (!Kept(c, it) ==> NoWorse(c, it, i, other, j))
  {
    GivenIsEligible(c, items, it);
    LastLoadIs(c.servers, it.serverKey, i);
    RunningIsAlive(c, it, i);
    RunningIsAlive(c, other, j);
    if HasRoom(c.servers[j]) == HasRoom(c.servers[i]) {
      assert Eligible(c, items, other);
      GivenIsBest(c, items, it, other);
    }
  }

  lemma GivenIsEligible(c: Context, items: seq<PoolItem>, it: PoolItem)
    requires it in Allocation(c, items)
    ensures Eligible(c, items, it)
  {
    AllocationGives(c, items);
    PickIsBest(c, Pool(c, items, it.country));
    PoolIsEligible(c, items, it.country, it);
  }

  /** The output is in order of place, then id. */
  lemma AllocationIsOrdered(c: Context, items: seq<PoolItem>, a: nat, b: nat)
    requires a < b < |Allocation(c, items)|
    ensures var x, y := Allocation(c, items)[a], Allocation(c, items)[b];
            x.sortOrder < y.sortOrder || (x.sortOrder == y.sortOrder && x.id <= y.id)
  {
    AllocationGives(c, items);
    assert !Less(ByPlace, Allocation(c, items)[b], Allocation(c, items)[a]);
  }

  lemma FirstBoundThen(c: Context, s: seq<PoolItem>, x: PoolItem)
    ensures FirstBound(c, s + [x])
            == if FirstBound(c, s).Some? then FirstBound(c, s) else if c.Bound(x) then Some(x) else None
    decreases |s|
  {
    if s != [] {
      assert (s + [x])[1..] == s[1..] + [x];
      FirstBoundThen(c, s[1..], x);
    }
  }

  /** In the running for the binding of a country. */
  predicate Candidate(c: Context, country: string, roomy: bool, it: PoolItem) {
    it.enabled && it.country == country && c.Alive(it) && c.Roomy(it) == roomy && c.Bound(it)
  }

  lemma {:induction false} NoneBound(c: Context, items: seq<PoolItem>, country: string, roomy: bool)
    requires forall it <- items :: !Candidate(c, country, roomy, it)
    ensures FirstBound(c, Living(c, OfCountry(items, country), roomy)).None?
  {
    var pool := Living(c, OfCountry(items, country), roomy);
    FirstBoundIsFirst(c, pool);
    GroupedAreEnabled(items, country);
    if FirstBound(c, pool).Some? {
      LivingExactly(c, OfCountry(items, country), roomy, FirstBound(c, pool).value);
    }
  }

  lemma LivingThen(c: Context, s: seq<PoolItem>, x: PoolItem, roomy: bool)
    ensures Living(c, s + [x], roomy) == Living(c, s, roomy) + if c.Alive(x) && c.Roomy(x) == roomy then [x] else []
  {
    assert (s + [x])[..|s|] == s;
  }

  lemma {:induction false} FirstCandidateIsBound(c: Context, items: seq<PoolItem>, country: string, roomy: bool, i: nat)
    requires i < |items| && Candidate(c, country, roomy, items[i])
    requires forall j :: 0 <= j < i ==> !Candidate(c, country, roomy, items[j])
    ensures FirstBound(c, Living(c, OfCountry(items, country), roomy)) == Some(items[i])
    decreases |items|
  {
    var n := |items| - 1;
    var front, it := OfCountry(items[..n], country), items[n];
    if i < n {
      FirstCandidateIsBound(c, items[..n], country, roomy, i);
    } else {
      NoneBound(c, items[..n], country, roomy);
    }
    var living := Living(c, front, roomy);
    LivingThen(c, front, it, roomy);
    FirstBoundThen(c, living, it);
    assert living + [] == living && front + [] == front;
    assert OfCountry(items, country) == front + if it.enabled && it.country == country then [it] else [];
  }

  /** When the user is kept on several servers of a country, the first listed of those that may be
      given is given. */
  lemma FirstKeptIsGiven(c: Context, items: seq<PoolItem>, i: nat)
    requires i < |items| && Eligible(c, items, items[i]) && c.Bound(items[i])
    requires forall j :: 0 <= j < i && Eligible(c, items, items[j]) && items[j].country == items[i].country ==>
               !c.Bound(items[j])
    ensures items[i] in Allocation(c, items)
  {
    var it := items[i];
    var country := it.country;
    forall j | 0 <= j < i ensures !Candidate(c, country, c.Roomy(it), items[j]) {
      if Candidate(c, country, c.Roomy(it), items[j]) {
        assert items[j] in items && Eligible(c, items, items[j]);
      }
    }
    FirstCandidateIsBound(c, items, country, c.Roomy(it), i);
    if !c.Roomy(it) {
      NoneRoomy(c, items, country);
    }
    PoolIsEligible(c, items, country, it);
    AllocationGives(c, items);
    assert Given(c, items, it);
  }

  // ---------------------------------------------------------------- when input order matters

  ghost predicate SameItems(items: seq<PoolItem>, items': seq<PoolItem>) {
    forall it :: it in items <==> it in items'
  }

  predicate UniqueIds(items: seq<PoolItem>) {
    forall a <- items, b <- items :: a.id == b.id ==> a == b
  }

  ghost predicate OneBoundPerCountry(c: Context, items: seq<PoolItem>) {
    forall a, b ::
      Eligible(c, items, a) && Eligible(c, items, b) && a.country == b.country && c.Bound(a) && c.Bound(b) ==> a == b
  }

  ghost predicate OrderIsIrrelevant(c: Context, items: seq<PoolItem>) {
    forall items' :: SameItems(items, items') ==> Allocation(c, items') == Allocation(c, items)
  }

  /** With unique ids the order and the repetition of the input items make no difference
      exactly when no country has two eligible servers the user is bound to. */
  lemma OrderIrrelevantIffOneBound(c: Context, items: seq<PoolItem>)
    requires UniqueIds(items)
    ensures OrderIsIrrelevant(c, items) <==> OneBoundPerCountry(c, items)
  {
    if OneBoundPerCountry(c, items) {
      forall items' | SameItems(items, items') ensures Allocation(c, items') == Allocation(c, items) {
        ReorderedSame(c, items, items');
      }
    }
    if OrderIsIrrelevant(c, items) {
      forall a, b | Eligible(c, items, a) && Eligible(c, items, b) && a.country == b.country && c.Bound(a) && c.Bound(b)
        ensures a == b
      {
        BoundIsGiven(c, items, a);
        BoundIsGiven(c, items, b);
      }
    }
  }

  lemma BoundIsGiven(c: Context, items: seq<PoolItem>, a: PoolItem)
    requires OrderIsIrrelevant(c, items) && Eligible(c, items, a) && c.Bound(a)
    ensures Given(c, items, a)
  {
    var items' := [a] + items;
    FirstBoundWins(c, items, a);
    assert SameItems(items, items');
    assert Allocation(c, items') == Allocation(c, items);
    AllocationGives(c, items);
  }

  lemma SameEligible(c: Context, items: seq<PoolItem>, items': seq<PoolItem>, it: PoolItem)
    requires SameItems(items, items')
    ensures Eligible(c, items, it) <==> Eligible(c, items', it)
  {
  }

  lemma GivenBoth(c: Context, items: seq<PoolItem>, items': seq<PoolItem>, it: PoolItem)
    requires SameItems(items, items') && UniqueIds(items) && OneBoundPerCountry(c, items) && it in Allocation(c, items)
    ensures it in Allocation(c, items')
  {
    AllocationGives(c, items);
    AllocationGives(c, items');
    var pool, pool' := Pool(c, items, it.country), Pool(c, items', it.country);
    PickIsBest(c, pool);
    forall x ensures x in pool <==> x in pool' {
      PoolIsEligible(c, items, it.country, x);
      PoolIsEligible(c, items', it.country, x);
      SameEligible(c, items, items', x);
    }
    assert it in pool';
    PickIsBest(c, pool');
    var it' := Pick(c, pool');
    PoolIsEligible(c, items, it.country, it);
    PoolIsEligible(c, items, it.country, it');
    assert it in items && it' in items;
  }

  lemma ReorderedSame(c: Context, items: seq<PoolItem>, items': seq<PoolItem>)
    requires SameItems(items, items') && UniqueIds(items) && OneBoundPerCountry(c, items)
    ensures Allocation(c, items') == Allocation(c, items)
  {
    var out, out' := Allocation(c, items), Allocation(c, items');
    forall a, b | Eligible(c, items', a) && Eligible(c, items', b) && a.country == b.country && c.Bound(a) && c.Bound(b)
      ensures a == b
    {
      SameEligible(c, items, items', a);
      SameEligible(c, items, items', b);
    }
    forall it ensures it in out <==> it in out' {
      if it in out {
        GivenBoth(c, items, items', it);
      }
      if it in out' {
        GivenBoth(c, items', items, it);
      }
    }
    AllocationGives(c, items);
    AllocationGives(c, items');
    forall it | it in out ensures it in items {
      PickIsBest(c, Pool(c, items, it.country));
      PoolIsEligible(c, items, it.country, it);
    }
    SortedSame(out, out');
  }

  /** Two sorted lists without repetition and with the same members of distinct ids are equal. */
  lemma {:induction false} SortedSame(s: seq<PoolItem>, r: seq<PoolItem>)
    requires Sorted(ByPlace, s) && Sorted(ByPlace, r) && SameItems(s, r) && UniqueIds(s)
    requires forall i, j :: 0 <= i < j < |s| ==> s[i].country != s[j].country
    requires forall i, j :: 0 <= i < j < |r| ==> r[i].country != r[j].country
    ensures s == r
    decreases |s|
  {
    assert r != [] ==> r[0] in s;
    assert s != [] ==> s[0] in r;
    if s != [] {
      var n := |s| - 1;
      var m := |r| - 1;
      LastSame(s, r);
      forall it ensures it in s[..n] <==> it in r[..m] {
        InFront(s, it);
        InFront(r, it);
      }
      SortedSame(s[..n], r[..m]);
      assert s == s[..n] + [s[n]] && r == r[..m] + [r[m]];
    }
  }

  lemma LastSame(s: seq<PoolItem>, r: seq<PoolItem>)
    requires s != [] && r != [] && Sorted(ByPlace, s) && Sorted(ByPlace, r) && SameItems(s, r) && UniqueIds(s)
    ensures s[|s| - 1] == r[|r| - 1]
  {
    var a, b := s[|s| - 1], r[|r| - 1];
    assert a in s && b in r;
    var k :| 0 <= k < |s| && s[k] == b;
    var l :| 0 <= l < |r| && r[l] == a;
    assert !Less(ByPlace, a, b) && !Less(ByPlace, b, a);
  }

  lemma InFront(s: seq<PoolItem>, it: PoolItem)
    requires s != [] && forall i, j :: 0 <= i < j < |s| ==> s[i].country != s[j].country
    ensures it in s[..|s| - 1] <==> it in s && it != s[|s| - 1]
  {
    assert s == s[..|s| - 1] + [s[|s| - 1]];
  }

  lemma {:induction false} OfCountryFront(a: PoolItem, items: seq<PoolItem>)
    requires a.enabled
    ensures OfCountry([a] + items, a.country) == [a] + OfCountry(items, a.country)
    decreases |items|
  {
    var n := |items| - 1;
    if items != [] {
      OfCountryFront(a, items[..n]);
      assert ([a] + items)[..n + 1] == [a] + items[..n];
    }
  }

  lemma {:induction false} LivingFront(c: Context, a: PoolItem, s: seq<PoolItem>, roomy: bool)
    ensures Living(c, [a] + s, roomy) == (if c.Alive(a) && c.Roomy(a) == roomy then [a] else []) + Living(c, s, roomy)
    decreases |s|
  {
    var n := |s| - 1;
    if s != [] {
      LivingFront(c, a, s[..n], roomy);
      assert ([a] + s)[..n + 1] == [a] + s[..n];
    }
  }

  lemma PoolAmongFront(c: Context, candidates: seq<PoolItem>, a: PoolItem)
    requires c.Alive(a) && (c.Roomy(a) || (c.softOverflow && Living(c, candidates, true) == []))
    ensures PoolAmong(c, [a] + candidates) != [] && PoolAmong(c, [a] + candidates)[0] == a
  {
    LivingFront(c, a, candidates, true);
    if !c.Roomy(a) {
      LivingFront(c, a, candidates, false);
    }
  }

  lemma PoolFront(c: Context, items: seq<PoolItem>, a: PoolItem)
    requires Eligible(c, items, a)
    ensures Pool(c, [a] + items, a.country) != [] && Pool(c, [a] + items, a.country)[0] == a
  {
    OfCountryFront(a, items);
    if !c.Roomy(a) {
      NoneRoomy(c, items, a.country);
    }
    PoolAmongFront(c, OfCountry(items, a.country), a);
  }

  lemma NoneRoomy(c: Context, items: seq<PoolItem>, country: string)
    requires forall other <- items :: other.country == country ==> !c.Roomy(other)
    ensures Living(c, OfCountry(items, country), true) == []
  {
    GroupedAreEnabled(items, country);
    var roomy := Living(c, OfCountry(items, country), true);
    if roomy != [] {
      LivingExactly(c, OfCountry(items, country), true, roomy[0]);
    }
  }

  /** An eligible server the user is bound to is given when it comes first. */
  lemma FirstBoundWins(c: Context, items: seq<PoolItem>, a: PoolItem)
    requires Eligible(c, items, a) && c.Bound(a)
    ensures a in Allocation(c, [a] + items)
  {
    AllocationGives(c, [a] + items);
    PoolFront(c, items, a);
    assert Given(c, [a] + items, a);
  }

  /** Nor does the order in which servers are listed matter, as long as no key is listed twice. */
  lemma ServersInAnyOrder(servers: seq<ServerLoad>, servers': seq<ServerLoad>, key: string)
    requires forall s :: s in servers <==> s in servers'
    requires forall s <- servers, r <- servers :: s.serverKey == r.serverKey ==> s == r
    ensures LastLoad(servers, key) == LastLoad(servers', key)
  {
    LastLoadFound(servers, key);
    LastLoadFound(servers', key);
  }

  lemma {:induction false} LastLoadFound(servers: seq<ServerLoad>, key: string)
    ensures LastLoad(servers, key).Some?
            ==> LastLoad(servers, key).value in servers && LastLoad(servers, key).value.serverKey == key
    ensures LastLoad(servers, key).None? ==> forall s <- servers :: s.serverKey != key
    decreases |servers|
  {
    if servers != [] {
      LastLoadFound(servers[..|servers| - 1], key);
      assert servers == servers[..|servers| - 1] + [servers[|servers| - 1]];
    }
  }
}
