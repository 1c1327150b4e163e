/** One routing manifest, compiled for two families of clients. A destination is known by the
    list entries that match it: which domain entries and which address entries do is up to the
    client's matcher and left open, also for blank entries. */
module Routing {
  import opened Prelude

  datatype Manifest = Manifest(
    directDomains: seq<string>, directIPs: seq<string>, proxyDomains: seq<string>, proxyIPs: seq<string>,
    blockDomains: seq<string>, geoEnabled: bool, geoDirectSites: seq<string>, geoDirectIPs: seq<string>)

  datatype Destination = Destination(sites: set<string>, ips: set<string>)

  datatype Decision = Block | Proxy | Direct

  predicate Hit(list: seq<string>, entries: set<string>) {
    exists e :: e in list && e in entries
  }

  function DirectSites(m: Manifest): seq<string> {
    m.directDomains + if m.geoEnabled then m.geoDirectSites else []
  }

  function DirectIPs(m: Manifest): seq<string> {
    m.directIPs + if m.geoEnabled then m.geoDirectIPs else []
  }

  /** What the manifest says: block, else force proxy, else direct, else the proxy default. */
  function Decide(m: Manifest, d: Destination): Decision {
    if Hit(m.blockDomains, d.sites) then Block
    else if Hit(m.proxyDomains, d.sites) || Hit(m.proxyIPs, d.ips) then Proxy
    else if Hit(DirectSites(m), d.sites) || Hit(DirectIPs(m), d.ips) then Direct
    else Proxy
  }

  predicate HasRules(m: Manifest) {
    |m.directDomains| + |m.directIPs| + |m.proxyDomains| + |m.proxyIPs| + |m.blockDomains|
    + (if m.geoEnabled then |m.geoDirectSites| + |m.geoDirectIPs| else 0) > 0
  }

  /** Entry by entry: a destination is blocked exactly if it matches a block domain; it goes direct exactly
      if it matches no block or proxy entry and some direct one, the geo lists included only when they are
      enabled; everything else goes by the proxy. */
  lemma DecidedByEntries(m: Manifest, d: Destination)
    ensures var blocked := exists e :: e in m.blockDomains && e in d.sites;
            var forced := (exists e :: e in m.proxyDomains && e in d.sites)
                          || (exists e :: e in m.proxyIPs && e in d.ips);
            var plain := (exists e :: e in d.sites && (e in m.directDomains || (m.geoEnabled && e in m.geoDirectSites)))
                         || (exists e :: e in d.ips && (e in m.directIPs || (m.geoEnabled && e in m.geoDirectIPs)));
            && (Decide(m, d) == Block <==> blocked)
            && (Decide(m, d) == Direct <==> !blocked && !forced && plain)
  {
    var geoSites, geoIPs := if m.geoEnabled then m.geoDirectSites else [], if m.geoEnabled then m.geoDirectIPs else [];
    assert forall e :: e in DirectSites(m) <==> e in m.directDomains || e in geoSites;
    assert forall e :: e in DirectIPs(m) <==> e in m.directIPs || e in geoIPs;
    if e :| e in d.sites && (e in m.directDomains || (m.geoEnabled && e in m.geoDirectSites)) {
      assert e in DirectSites(m);
    }
    if e :| e in d.ips && (e in m.directIPs || (m.geoEnabled && e in m.geoDirectIPs)) {
      assert e in DirectIPs(m);
    }
  }

  // ---------------------------------------------------------------- Xray

  datatype XrayRule = XrayRule(tag: Decision, domain: seq<string>, ip: seq<string>)

  /** An Xray rule applies when all its non-empty conditions do. */
  predicate Applies(r: XrayRule, d: Destination) {
    (r.domain == [] || Hit(r.domain, d.sites)) && (r.ip == [] || Hit(r.ip, d.ips))
  }

  /** First match; the proxy when none applies, and also when no routing was delivered. */
  function XrayDecides(rules: seq<XrayRule>, d: Destination): Decision {
    if rules == [] then Proxy else if Applies(rules[0], d) then rules[0].tag else XrayDecides(rules[1..], d)
  }

  function RulesFor(tag: Decision, domains: seq<string>, ips: seq<string>): seq<XrayRule> {
    (if |domains| > 0 then [XrayRule(tag, domains, [])] else [])
    + if |ips| > 0 then [XrayRule(tag, [], ips)] else []
  }

  method AppendXrayRules(rules: seq<XrayRule>, tag: Decision, domains: seq<string>, ips: seq<string>)
    returns (out: seq<XrayRule>)
    ensures out == rules + RulesFor(tag, domains, ips)
  {
    out := rules;
    if |domains| > 0 {
      out := out + [XrayRule(tag, domains, [])];
    }
    if |ips| > 0 {
      out := out + [XrayRule(tag, [], ips)];
    }
  }

  function XrayRules(m: Manifest): seq<XrayRule> {
    RulesFor(Block, m.blockDomains, []) + RulesFor(Proxy, m.proxyDomains, m.proxyIPs)
    + RulesFor(Direct, DirectSites(m), DirectIPs(m))
  }

  /** The header payload; None is the empty string. */
  function XrayPayload(m: Manifest): Option<seq<XrayRule>> {
    if XrayRules(m) == [] then None else Some(XrayRules(m))
  }

  /** A client without the payload proxies everything. */
  function XrayClient(payload: Option<seq<XrayRule>>, d: Destination): Decision {
    if payload.None? then Proxy else XrayDecides(payload.value, d)
  }

  method CompileXrayRouting(m: Manifest) returns (payload: Option<seq<XrayRule>>)
    ensures payload == XrayPayload(m) && (payload.Some? <==> HasRules(m))
    ensures forall d :: XrayClient(payload, d) == Decide(m, d)
  {
    var directDomains, directIPs := m.directDomains, m.directIPs;
    if m.geoEnabled {
      directDomains := directDomains + m.geoDirectSites;
      directIPs := directIPs + m.geoDirectIPs;
    }
    var rules := AppendXrayRules([], Block, m.blockDomains, []);
    rules := AppendXrayRules(rules, Proxy, m.proxyDomains, m.proxyIPs);
    rules := AppendXrayRules(rules, Direct, directDomains, directIPs);
    assert directDomains == DirectSites(m) && directIPs == DirectIPs(m);
    assert rules == XrayRules(m);
    forall d ensures XrayDecides(rules, d) == Decide(m, d) {
      XrayMeansManifest(m, d);
    }
    payload := if |rules| == 0 then None else Some(rules);
  }

  lemma {:induction false} FirstMatchOfTwo(a: seq<XrayRule>, b: seq<XrayRule>, d: Destination)
    ensures XrayDecides(a + b, d)
            == if exists r :: r in a && Applies(r, d) then XrayDecides(a, d) else XrayDecides(b, d)
    decreases |a|
  {
    if a == [] {
      assert a + b == b;
    } else {
      assert (a + b)[1..] == a[1..] + b;
      FirstMatchOfTwo(a[1..], b, d);
      assert a == [a[0]] + a[1..];
    }
  }

  lemma GroupDecides(tag: Decision, domains: seq<string>, ips: seq<string>, rest: seq<XrayRule>, d: Destination)
    ensures XrayDecides(RulesFor(tag, domains, ips) + rest, d)
            == if Hit(domains, d.sites) || Hit(ips, d.ips) then tag else XrayDecides(rest, d)
  {
    var sites, addresses := XrayRule(tag, domains, []), XrayRule(tag, [], ips);
    FirstMatchOfTwo(RulesFor(tag, domains, ips), rest, d);
    assert Applies(sites, d) <==> domains == [] || Hit(domains, d.sites);
    assert Applies(addresses, d) <==> ips == [] || Hit(ips, d.ips);
    if |domains| > 0 && |ips| > 0 {
      assert RulesFor(tag, domains, ips) == [sites, addresses];
      assert RulesFor(tag, domains, ips)[1..] == [addresses];
    } else if |domains| > 0 {
      assert RulesFor(tag, domains, ips) == [sites];
    } else if |ips| > 0 {
      assert RulesFor(tag, domains, ips) == [addresses];
    }
  }

  /** First match over the compiled rules decides as the manifest, for every manifest and
      every destination. */
  lemma XrayMeansManifest(m: Manifest, d: Destination)
    ensures XrayDecides(XrayRules(m), d) == Decide(m, d)
  {
    var proxy := RulesFor(Proxy, m.proxyDomains, m.proxyIPs);
    var direct := RulesFor(Direct, DirectSites(m), DirectIPs(m));
    assert XrayRules(m) == RulesFor(Block, m.blockDomains, []) + (proxy + direct);
    GroupDecides(Block, m.blockDomains, [], proxy + direct, d);
    GroupDecides(Proxy, m.proxyDomains, m.proxyIPs, direct, d);
    assert direct + [] == direct;
    GroupDecides(Direct, DirectSites(m), DirectIPs(m), [], d);
  }

  /** Why domains and addresses get rules of their own: in one rule they would direct only
      what both match. */
  lemma JoinedRuleNeedsBoth(domains: seq<string>, ips: seq<string>, d: Destination)
    requires domains != [] && ips != []
    ensures XrayDecides([XrayRule(Direct, domains, ips)], d) == XrayDecides(RulesFor(Direct, domains, ips), d)
            <==> (Hit(domains, d.sites) <==> Hit(ips, d.ips))
  {
    assert RulesFor(Direct, domains, ips) + [] == RulesFor(Direct, domains, ips);
    GroupDecides(Direct, domains, ips, [], d);
  }

  // ---------------------------------------------------------------- Happ

  datatype HappProfile = HappProfile(
    directSites: seq<string>, directIp: seq<string>, proxySites: seq<string>, proxyIp: seq<string>,
    blockSites: seq<string>, blockIp: seq<string>)

  /** RouteOrder block-proxy-direct, GlobalProxy true. */
  function HappDecides(p: Option<HappProfile>, d: Destination): Decision {
    if p.None? then Proxy
    else if Hit(p.value.blockSites, d.sites) || Hit(p.value.blockIp, d.ips) then Block
    else if Hit(p.value.proxySites, d.sites) || Hit(p.value.proxyIp, d.ips) then Proxy
    else if Hit(p.value.directSites, d.sites) || Hit(p.value.directIp, d.ips) then Direct
    else Proxy
  }

  function Values(list: seq<string>): (out: seq<string>) {
    if list == [] then []
    else
      var v := TrimSpace(list[|list| - 1]);
      Values(list[..|list| - 1]) + if v == "" then [] else [v]
  }

  method HappValues(list: seq<string>) returns (out: seq<string>)
    ensures out == Values(list)
  {
    out := [];
    for i := 0 to |list|
      invariant out == Values(list[..i])
    {
      assert list[..i + 1][..i] == list[..i];
      var v := TrimSpace(list[i]);
      if v == "" {
        continue;
      }
      out := out + [v];
    }
    assert list[..|list|] == list;
  }

  /** Entry by entry: a blank one is dropped, another trimmed, and the order stays. */
  lemma {:induction false} ValuesOneByOne(a: seq<string>, b: seq<string>, e: string)
    ensures Values(a + b) == Values(a) + Values(b)
    ensures Values([e]) == if TrimSpace(e) == "" then [] else [TrimSpace(e)]
    decreases |b|
  {
    assert [e][..0] == [];
    if b == [] {
      assert a + b == a;
    } else {
      var n := |b| - 1;
      assert (a + b)[..|a + b| - 1] == a + b[..n];
      ValuesOneByOne(a, b[..n], e);
    }
  }

  /** The manifest as the Happ compiler reads it; the lists for the geo files stay raw. */
  function Trimmed(m: Manifest): Manifest {
    Manifest(Values(m.directDomains), Values(m.directIPs), Values(m.proxyDomains), Values(m.proxyIPs),
             Values(m.blockDomains), m.geoEnabled, m.geoDirectSites, m.geoDirectIPs)
  }

  /** The test for the empty string looks at the raw proxy and block lists, and not at the
      proxy addresses at all. */
  function HappPayload(m: Manifest): Option<HappProfile> {
    var t := Trimmed(m);
    if DirectSites(t) == [] && DirectIPs(t) == [] && m.proxyDomains == [] && m.blockDomains == [] then None
    else Some(HappProfile(DirectSites(t), DirectIPs(t), t.proxyDomains, t.proxyIPs, t.blockDomains, []))
  }

  method CompileHappRouting(m: Manifest) returns (payload: Option<HappProfile>)
    ensures payload == HappPayload(m)
    ensures forall d :: HappDecides(payload, d) == Decide(Trimmed(m), d)
  {
    var directSites := HappValues(m.directDomains);
    var directIPs := HappValues(m.directIPs);
    if m.geoEnabled {
      directSites := directSites + m.geoDirectSites;
      directIPs := directIPs + m.geoDirectIPs;
    }
    assert directSites == DirectSites(Trimmed(m)) && directIPs == DirectIPs(Trimmed(m));
    if |directSites| == 0 && |directIPs| == 0 && |m.proxyDomains| == 0 && |m.blockDomains| == 0 {
      return None;
    }
    var proxySites := HappValues(m.proxyDomains);
    var proxyIp := HappValues(m.proxyIPs);
    var blockSites := HappValues(m.blockDomains);
    payload := Some(HappProfile(directSites, directIPs, proxySites, proxyIp, blockSites, []));
  }

  /** When a routing payload is delivered at all: to Xray clients exactly if some list has an entry, the
      geo lists counting when enabled; to Happ clients exactly if a direct list keeps one after trimming,
      or an enabled geo list, the proxy domains or the block domains have one, blank or not. */
  lemma PayloadDeliveredIff(m: Manifest)
    ensures var geo := m.geoEnabled && (m.geoDirectSites != [] || m.geoDirectIPs != []);
            && (XrayPayload(m).Some? <==>
                  m.directDomains != [] || m.directIPs != [] || m.proxyDomains != [] || m.proxyIPs != []
                  || m.blockDomains != [] || geo)
            && (XrayPayload(m).Some? <==> HasRules(m))
            && (HappPayload(m).Some? <==>
                  (exists e :: (e in m.directDomains || e in m.directIPs) && TrimSpace(e) != "")
                  || m.proxyDomains != [] || m.blockDomains != [] || geo)
  {
    RulesEmptyIff(m);
    KeptIff(m.directDomains);
    KeptIff(m.directIPs);
  }

  lemma RulesEmptyIff(m: Manifest)
    ensures XrayRules(m) == []
            <==> m.blockDomains == [] && m.proxyDomains == [] && m.proxyIPs == []
                 && DirectSites(m) == [] && DirectIPs(m) == []
  {
    var block, proxy := RulesFor(Block, m.blockDomains, []), RulesFor(Proxy, m.proxyDomains, m.proxyIPs);
    var direct := RulesFor(Direct, DirectSites(m), DirectIPs(m));
    assert |XrayRules(m)| == |block| + |proxy| + |direct|;
  }

  lemma {:induction false} KeptIff(list: seq<string>)
    ensures Values(list) != [] <==> exists e :: e in list && TrimSpace(e) != ""
    decreases |list|
  {
    if list != [] {
      var front, last := list[..|list| - 1], list[|list| - 1];
      KeptIff(front);
      assert list == front + [last];
      assert (exists e :: e in list && TrimSpace(e) != "")
          <==> (exists e :: e in front && TrimSpace(e) != "") || TrimSpace(last) != "" by {
        assert last in list;
      }
    }
  }

  // ---------------------------------------------------------------- do the clients agree?

  function Elems(list: seq<string>): set<string> {
    set e | e in list
  }

  function Blocked(m: Manifest): set<string> { Elems(m.blockDomains) }

  function ProxySites(m: Manifest): set<string> { Elems(m.proxyDomains) - Blocked(m) }

  function ProxyIPs(m: Manifest): set<string> { Elems(m.proxyIPs) }

  function PlainSites(m: Manifest): set<string> { Elems(DirectSites(m)) - Elems(m.proxyDomains) - Blocked(m) }

  function PlainIPs(m: Manifest): set<string> { Elems(DirectIPs(m)) - ProxyIPs(m) }

  /** The same blocks, the same effective direct entries, and the same forced proxies as far as
      there is anything direct to force. */
  predicate SameRules(m: Manifest, n: Manifest) {
    && Blocked(m) == Blocked(n) && PlainSites(m) == PlainSites(n) && PlainIPs(m) == PlainIPs(n)
    && (PlainSites(m) != {} || PlainIPs(m) != {} ==> ProxySites(m) == ProxySites(n) && ProxyIPs(m) == ProxyIPs(n))
  }

  ghost predicate DecideAlike(m: Manifest, n: Manifest) {
    forall d :: Decide(m, d) == Decide(n, d)
  }

  /** The decision read off the effective entries. */
  lemma DecidedByEffectiveEntries(m: Manifest, d: Destination)
    ensures Decide(m, d) == Block <==> d.sites * Blocked(m) != {}
    ensures Decide(m, d) == Direct <==>
              && d.sites * Blocked(m) == {} && d.sites * ProxySites(m) == {} && d.ips * ProxyIPs(m) == {}
              && (d.sites * PlainSites(m) != {} || d.ips * PlainIPs(m) != {})
  {
    HitMeets(m.blockDomains, d.sites);
    HitMeets(m.proxyDomains, d.sites);
    HitMeets(m.proxyIPs, d.ips);
    HitMeets(DirectSites(m), d.sites);
    HitMeets(DirectIPs(m), d.ips);
  }

  lemma HitMeets(list: seq<string>, entries: set<string>)
    ensures Hit(list, entries) <==> entries * Elems(list) != {}
  {
    if Hit(list, entries) {
      var e :| e in list && e in entries;
      assert e in entries * Elems(list);
    }
    if entries * Elems(list) != {} {
      var e :| e in entries * Elems(list);
    }
  }

  /** The table of decisions determines the effective entries. */
  lemma AlikeHasSameRules(m: Manifest, n: Manifest)
    requires DecideAlike(m, n)
    ensures Elems(m.blockDomains) <= Elems(n.blockDomains) && PlainSites(m) <= PlainSites(n)
            && PlainIPs(m) <= PlainIPs(n)
    ensures PlainSites(m) != {} || PlainIPs(m) != {} ==> ProxySites(m) <= ProxySites(n) && ProxyIPs(m) <= ProxyIPs(n)
  {
    forall e | e in Blocked(m) ensures e in Blocked(n) {
      Witness(m, n, Destination({e}, {}));
      assert e in {e} * Blocked(m);
    }
    forall e | e in PlainSites(m) ensures e in PlainSites(n) {
      Witness(m, n, Destination({e}, {}));
      assert e in {e} * PlainSites(m);
    }
    forall e | e in PlainIPs(m) ensures e in PlainIPs(n) {
      Witness(m, n, Destination({}, {e}));
      assert e in {e} * PlainIPs(m);
    }
    if PlainSites(m) != {} || PlainIPs(m) != {} {
      var free := Plain(m);
      forall e | e in ProxySites(m) ensures e in ProxySites(n) {
        ForcedSite(m, n, free, e);
      }
      forall e | e in ProxyIPs(m) ensures e in ProxyIPs(n) {
        ForcedIP(m, n, free, e);
      }
    }
  }

  lemma Witness(m: Manifest, n: Manifest, d: Destination)
    requires DecideAlike(m, n)
    ensures d.sites * Blocked(m) != {} <==> d.sites * Blocked(n) != {}
    ensures (d.sites * Blocked(m) == {} && d.sites * ProxySites(m) == {} && d.ips * ProxyIPs(m) == {}
             && (d.sites * PlainSites(m) != {} || d.ips * PlainIPs(m) != {}))
        <==> (d.sites * Blocked(n) == {} && d.sites * ProxySites(n) == {} && d.ips * ProxyIPs(n) == {}
              && (d.sites * PlainSites(n) != {} || d.ips * PlainIPs(n) != {}))
  {
    DecidedByEffectiveEntries(m, d);
    DecidedByEffectiveEntries(n, d);
    assert Decide(m, d) == Decide(n, d);
  }

  /** A destination that goes direct. */
  lemma Plain(m: Manifest) returns (d: Destination)
    requires PlainSites(m) != {} || PlainIPs(m) != {}
    ensures Decide(m, d) == Direct
  {
    if PlainSites(m) != {} {
      var e :| e in PlainSites(m);
      d := Destination({e}, {});
      assert e in d.sites * PlainSites(m);
    } else {
      var e :| e in PlainIPs(m);
      d := Destination({}, {e});
      assert e in d.ips * PlainIPs(m);
    }
    DecidedByEffectiveEntries(m, d);
  }

  lemma ForcedSite(m: Manifest, n: Manifest, free: Destination, e: string)
    requires DecideAlike(m, n) && Decide(m, free) == Direct && e in ProxySites(m)
    ensures e in ProxySites(n)
  {
    var d := Destination(free.sites + {e}, free.ips);
    Witness(m, n, d);
    Witness(m, n, free);
    Witness(m, n, Destination({e}, {}));
    DecidedByEffectiveEntries(m, free);
    assert e in d.sites * ProxySites(m);
    assert {e} * Blocked(m) == {};
    assert d.sites * Blocked(n) == free.sites * Blocked(n) + {e} * Blocked(n);
    assert d.sites * PlainSites(n) == free.sites * PlainSites(n) + {e} * PlainSites(n);
    assert d.sites * ProxySites(n) == free.sites * ProxySites(n) + {e} * ProxySites(n);
  }

  lemma ForcedIP(m: Manifest, n: Manifest, free: Destination, e: string)
    requires DecideAlike(m, n) && Decide(m, free) == Direct && e in ProxyIPs(m)
    ensures e in ProxyIPs(n)
  {
    var d := Destination(free.sites, free.ips + {e});
    Witness(m, n, d);
    Witness(m, n, free);
    DecidedByEffectiveEntries(m, free);
    assert e in d.ips * ProxyIPs(m);
    assert d.ips * PlainIPs(n) == free.ips * PlainIPs(n) + {e} * PlainIPs(n);
    assert d.ips * ProxyIPs(n) == free.ips * ProxyIPs(n) + {e} * ProxyIPs(n);
  }

  /** Two manifests decide alike on every destination exactly when their effective entries
      are the same. */
  lemma AlikeIffSameRules(m: Manifest, n: Manifest)
    ensures DecideAlike(m, n) <==> SameRules(m, n)
  {
    if DecideAlike(m, n) {
      AlikeHasSameRules(m, n);
      AlikeHasSameRules(n, m);
    }
    if SameRules(m, n) {
      forall d ensures Decide(m, d) == Decide(n, d) {
        DecidedByEffectiveEntries(m, d);
        DecidedByEffectiveEntries(n, d);
      }
    }
  }

  ghost predicate ClientsAgree(m: Manifest) {
    forall d :: XrayClient(XrayPayload(m), d) == HappDecides(HappPayload(m), d)
  }

  /** The Happ profile decides as the trimmed manifest, also when it is left out. */
  lemma HappMeansTrimmed(m: Manifest, d: Destination)
    ensures HappDecides(HappPayload(m), d) == Decide(Trimmed(m), d)
  {
    var t := Trimmed(m);
    if HappPayload(m).None? {
      assert t.proxyDomains == [] && t.blockDomains == [];
    }
  }

  lemma BothMeanings(m: Manifest, d: Destination)
    ensures XrayClient(XrayPayload(m), d) == Decide(m, d) && HappDecides(HappPayload(m), d) == Decide(Trimmed(m), d)
  {
    XrayMeansManifest(m, d);
    HappMeansTrimmed(m, d);
  }

  /** The Xray client does what the manifest says, the Happ client what the trimmed one says;
      so they route every destination alike exactly when trimming leaves the effective entries
      as they are. Destinations may hit any set of entries here; matchers that tie entries to
      each other, or never match some, leave the `if` half and may void the `only if`. */
  lemma ClientsAgreeIff(m: Manifest)
    ensures ClientsAgree(m) <==> SameRules(m, Trimmed(m))
  {
    AlikeIffSameRules(m, Trimmed(m));
    forall d
      ensures XrayClient(XrayPayload(m), d) == HappDecides(HappPayload(m), d) <==> Decide(m, d) == Decide(Trimmed(m), d)
    {
      BothMeanings(m, d);
    }
  }

  predicate Clean(list: seq<string>) {
    forall e <- list :: e != "" && !IsSpace(e[0]) && !IsSpace(e[|e| - 1])
  }

  lemma {:induction false} CleanStays(list: seq<string>)
    requires Clean(list)
    ensures Values(list) == list
    decreases |list|
  {
    if list != [] {
      var front, last := list[..|list| - 1], list[|list| - 1];
      assert last in list && list == front + [last];
      CleanStays(front);
      ValuesOneByOne(front, [last], last);
    }
  }

  /** Both clients route a manifest of trimmed, non-blank entries as it says. */
  lemma CleanManifestsAgree(m: Manifest, d: Destination)
    requires Clean(m.directDomains) && Clean(m.directIPs) && Clean(m.proxyDomains) && Clean(m.proxyIPs)
             && Clean(m.blockDomains)
    ensures XrayClient(XrayPayload(m), d) == Decide(m, d) == HappDecides(HappPayload(m), d)
  {
    CleanStays(m.directDomains);
    CleanStays(m.directIPs);
    CleanStays(m.proxyDomains);
    CleanStays(m.proxyIPs);
    CleanStays(m.blockDomains);
    assert Trimmed(m) == m;
    BothMeanings(m, d);
  }

  /** The empty entry, which Xray's substring matcher finds in every name, stays in the Xray
      rules and is dropped from the Happ profile: one sends every named host direct, the other
      none. */
  lemma EmptyEntryDivides(d: Destination)
    requires "" in d.sites
    ensures var m := Manifest([""], [], [], [], [], false, [], []);
            XrayClient(XrayPayload(m), d) == Direct && HappDecides(HappPayload(m), d) == Proxy
  {
    var m := Manifest([""], [], [], [], [], false, [], []);
    assert Values([]) == [] && Values([""]) == [];
    assert "" in DirectSites(m);
    BothMeanings(m, d);
  }

  /** A padded entry is a plain substring no name contains for Xray, and a working rule once Happ
      has trimmed it: the host it names goes direct there only. */
  lemma PaddedEntryDivides()
    ensures var m := Manifest([" domain:a.ru"], [], [], [], [], false, [], []);
            var host := Destination({"domain:a.ru"}, {});
            XrayClient(XrayPayload(m), host) == Proxy && HappDecides(HappPayload(m), host) == Direct
  {
    var m := Manifest([" domain:a.ru"], [], [], [], [], false, [], []);
    assert " domain:a.ru"[1..] == "domain:a.ru";
    assert TrimSpace(" domain:a.ru") == "domain:a.ru";
    assert Values([]) == [] && Values([" domain:a.ru"]) == ["domain:a.ru"];
    assert "domain:a.ru" in DirectSites(Trimmed(m));
    assert |" domain:a.ru"| != |"domain:a.ru"|;
    BothMeanings(m, Destination({"domain:a.ru"}, {}));
  }
}
