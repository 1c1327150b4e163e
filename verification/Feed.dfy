/** Subscription lines and node registrations of one user: every link handed out must find the
    user registered behind it. A link is a record of transport, server, UUID and flow. */
module Feed {
  import opened Prelude

  datatype Transport = Cdn | Grpc | Hysteria | Reality

  /** What matters of an endpoint of any transport. */
  datatype Endpoint = Endpoint(serverKey: string, inboundTag: string, address: string, publicKey: string,
                               serverName: string, flow: string)

  datatype Endpoints = Endpoints(cdn: seq<Endpoint>, grpc: seq<Endpoint>, hysteria: seq<Endpoint>,
                                 reality: seq<Endpoint>)

  datatype FeedItem = FeedItem(serverKey: string, inboundTag: string, email: string, uuid: string, flow: string,
                               url: string)

  datatype Line = Main(url: string) | Alternate(transport: Transport, server: string, uuid: string, flow: string)

  datatype Profile = Profile(inboundTag: string, email: string, uuid: string, flow: string, optional: bool)

  // ---------------------------------------------------------------- selection and links

  /** The first endpoint bound to the server; no fallback to another one. */
  function Select(endpoints: seq<Endpoint>, serverKey: string): Option<Endpoint> {
    if endpoints == [] || serverKey == "" then None
    else if endpoints[0].serverKey == serverKey then Some(endpoints[0])
    else Select(endpoints[1..], serverKey)
  }

  method SelectForServer(endpoints: seq<Endpoint>, serverKey: string) returns (e: Option<Endpoint>)
    ensures e == Select(endpoints, serverKey)
    ensures e.Some? ==> e.value in endpoints && e.value.serverKey == serverKey && serverKey != ""
    ensures e.None? ==> serverKey == "" || forall x <- endpoints :: x.serverKey != serverKey
  {
    if |endpoints| == 0 || serverKey == "" {
      return None;
    }
    for i := 0 to |endpoints|
      invariant Select(endpoints, serverKey) == Select(endpoints[i..], serverKey)
      invariant forall k :: 0 <= k < i ==> endpoints[k].serverKey != serverKey
    {
      if endpoints[i].serverKey == serverKey {
        return Some(endpoints[i]);
      }
    }
    return None;
  }

  /** Whether the link builder returns a link and not the empty string. */
  predicate Linkable(t: Transport, e: Endpoint, uuid: string) {
    && TrimSpace(e.address) != "" && TrimSpace(uuid) != ""
    && (t.Reality? ==> TrimSpace(e.publicKey) != "" && TrimSpace(e.serverName) != "")
  }

  function Link(t: Transport, e: Endpoint, serverKey: string, uuid: string): Line {
    Alternate(t, serverKey, uuid, if t.Reality? then TrimSpace(e.flow) else "")
  }

  function EndpointsOf(es: Endpoints, t: Transport): seq<Endpoint> {
    match t
    case Cdn => es.cdn
    case Grpc => es.grpc
    case Hysteria => es.hysteria
    case Reality => es.reality
  }

  function LinksFor(es: Endpoints, t: Transport, item: FeedItem): seq<Line> {
    var e := Select(EndpointsOf(es, t), item.serverKey);
    if e.Some? && Linkable(t, e.value, item.uuid) then [Link(t, e.value, item.serverKey, item.uuid)] else []
  }

  /** The order of the transports behind the main link. */
  function Nth(n: nat): Transport
    requires n < 4
  {
    if n == 0 then Cdn else if n == 1 then Grpc else if n == 2 then Hysteria else Reality
  }

  /** The links of the first n transports in their order. */
  function Alternates(es: Endpoints, item: FeedItem, n: nat): seq<Line>
    requires n <= 4
  {
    if n == 0 then [] else Alternates(es, item, n - 1) + LinksFor(es, Nth(n - 1), item)
  }

  function Seen(items: seq<FeedItem>): set<string> {
    if items == [] then {}
    else
      var it := items[|items| - 1];
      Seen(items[..|items| - 1]) + if it.serverKey != "" && it.uuid != "" then {it.serverKey} else {}
  }

  predicate FirstOfServer(items: seq<FeedItem>, it: FeedItem) {
    it.serverKey != "" && it.uuid != "" && it.serverKey !in Seen(items)
  }

  function MainLine(it: FeedItem): seq<Line> {
    if TrimSpace(it.url) != "" then [Main(TrimSpace(it.url))] else []
  }

  function Lines(es: Endpoints, items: seq<FeedItem>): seq<Line> {
    if items == [] then []
    else
      var front, it := items[..|items| - 1], items[|items| - 1];
      Lines(es, front) + (MainLine(it) + if FirstOfServer(front, it) then Alternates(es, it, 4) else [])
  }

  function CdnServers(es: Endpoints, items: seq<FeedItem>): set<string> {
    if items == [] then {}
    else
      var front, it := items[..|items| - 1], items[|items| - 1];
      CdnServers(es, front) + if FirstOfServer(front, it) && LinksFor(es, Cdn, it) != [] then {it.serverKey} else {}
  }

  method BuildGroupedFeedLines(items: seq<FeedItem>, es: Endpoints) returns (lines: seq<Line>, cdnServers: set<string>)
    ensures lines == Lines(es, items) && cdnServers == CdnServers(es, items)
  {
    lines, cdnServers := [], {};
    var seenServers: set<string> := {};
    for i := 0 to |items|
      invariant lines == Lines(es, items[..i])
      invariant cdnServers == CdnServers(es, items[..i]) && seenServers == Seen(items[..i])
    {
      var extra, counted := LinesOf(es, items[i], seenServers);
      OneItemMore(es, items, i);
      lines := lines + extra;
      if items[i].serverKey != "" && items[i].uuid != "" {
        seenServers := seenServers + {items[i].serverKey};
      }
      if counted {
        cdnServers := cdnServers + {items[i].serverKey};
      }
    }
    assert items[..|items|] == items;
  }

  /** The lines of one item; alternatives only for a server not seen before. */
  method LinesOf(es: Endpoints, item: FeedItem, seenServers: set<string>) returns (lines: seq<Line>, counted: bool)
    ensures var first := item.serverKey != "" && item.uuid != "" && item.serverKey !in seenServers;
            && lines == MainLine(item) + (if first then Alternates(es, item, 4) else [])
            && counted == (first && LinksFor(es, Cdn, item) != [])
  {
    lines, counted := [], false;
    var url := TrimSpace(item.url);
    if url != "" {
      lines := lines + [Main(url)];
    }
    if item.serverKey == "" || item.uuid == "" || item.serverKey in seenServers {
      return;
    }
    var extra;
    extra, counted := AlternatesFor(es, item);
    lines := lines + extra;
  }

  lemma OneItemMore(es: Endpoints, items: seq<FeedItem>, i: nat)
    requires i < |items|
    ensures var front, it := items[..i], items[i];
            var first := FirstOfServer(front, it);
            && Seen(items[..i + 1])
               == Seen(front) + (if it.serverKey != "" && it.uuid != "" then {it.serverKey} else {})
            && CdnServers(es, items[..i + 1])
               == CdnServers(es, front) + (if first && LinksFor(es, Cdn, it) != [] then {it.serverKey} else {})
            && Lines(es, items[..i + 1])
               == Lines(es, front) + (MainLine(it) + if first then Alternates(es, it, 4) else [])
  {
    assert items[..i + 1][..i] == items[..i];
  }

  /** CDN, then gRPC, then Hysteria, then Reality. */
  method AlternatesFor(es: Endpoints, item: FeedItem) returns (lines: seq<Line>, counted: bool)
    ensures lines == Alternates(es, item, 4) && counted == (LinksFor(es, Cdn, item) != [])
  {
    lines := LinkFor(es, Cdn, item, 0, []);
    counted := |lines| > 0;
    lines := LinkFor(es, Grpc, item, 1, lines);
    lines := LinkFor(es, Hysteria, item, 2, lines);
    lines := LinkFor(es, Reality, item, 3, lines);
  }

  method LinkFor(es: Endpoints, t: Transport, item: FeedItem, ghost n: nat, before: seq<Line>)
    returns (lines: seq<Line>)
    requires n < 4 && Nth(n) == t && before == Alternates(es, item, n)
    ensures lines == Alternates(es, item, n + 1) && lines == before + LinksFor(es, t, item)
  {
    lines := before;
    var endpoint := SelectForServer(EndpointsOf(es, t), item.serverKey);
    if endpoint.Some? && Linkable(t, endpoint.value, item.uuid) {
      lines := lines + [Link(t, endpoint.value, item.serverKey, item.uuid)];
    }
  }

  // ---------------------------------------------------------------- counting lines

  function Count(lines: seq<Line>, t: Transport, server: Option<string>): nat {
    if lines == [] then 0
    else
      var l := lines[|lines| - 1];
      Count(lines[..|lines| - 1], t, server)
      + if l.Alternate? && l.transport == t && (server.None? || l.server == server.value) then 1 else 0
  }

  lemma {:induction false} CountOfBoth(a: seq<Line>, b: seq<Line>, t: Transport, server: Option<string>)
    ensures Count(a + b, t, server) == Count(a, t, server) + Count(b, t, server)
    decreases |b|
  {
    if b == [] {
      assert a + b == a;
    } else {
      CountOfBoth(a, b[..|b| - 1], t, server);
      assert (a + b)[..|a + b| - 1] == a + b[..|b| - 1];
    }
  }

  lemma CountOfAlternates(es: Endpoints, it: FeedItem, t: Transport, server: Option<string>)
    ensures Count(Alternates(es, it, 4), t, server)
            == if server.None? || server.value == it.serverKey then |LinksFor(es, t, it)| else 0
  {
    CountOfOneMore(es, it, 0, t, server);
    CountOfOneMore(es, it, 1, t, server);
    CountOfOneMore(es, it, 2, t, server);
    CountOfOneMore(es, it, 3, t, server);
  }

  lemma CountOfOneMore(es: Endpoints, it: FeedItem, n: nat, t: Transport, server: Option<string>)
    requires n < 4
    ensures Count(Alternates(es, it, n + 1), t, server)
            == Count(Alternates(es, it, n), t, server)
               + if t == Nth(n) && (server.None? || server.value == it.serverKey) then |LinksFor(es, t, it)| else 0
  {
    CountOfBoth(Alternates(es, it, n), LinksFor(es, Nth(n), it), t, server);
    CountOfLinks(es, it, Nth(n), t, server);
  }

  lemma CountOfLinks(es: Endpoints, it: FeedItem, u: Transport, t: Transport, server: Option<string>)
    ensures Count(LinksFor(es, u, it), t, server)
            == if t == u && (server.None? || server.value == it.serverKey) then |LinksFor(es, u, it)| else 0
  {
    var links := LinksFor(es, u, it);
    if links != [] {
      assert links[..|links| - 1] == [];
    }
  }

  /** The lines of one item added: how the counts grow. */
  lemma CountGrows(es: Endpoints, items: seq<FeedItem>, t: Transport, server: Option<string>)
    requires items != []
    ensures var front, it := items[..|items| - 1], items[|items| - 1];
            Count(Lines(es, items), t, server) == Count(Lines(es, front), t, server)
              + if FirstOfServer(front, it) && (server.None? || server.value == it.serverKey)
                then |LinksFor(es, t, it)| else 0
  {
    var front, it := items[..|items| - 1], items[|items| - 1];
    var main := MainLine(it);
    var extra := if FirstOfServer(front, it) then Alternates(es, it, 4) else [];
    CountOfBoth(Lines(es, front), main + extra, t, server);
    CountOfBoth(main, extra, t, server);
    CountOfAlternates(es, it, t, server);
    assert main != [] ==> main[..|main| - 1] == [];
  }

  /** No server gets an alternative transport twice, however many items it stands behind. */
  lemma {:induction false} OncePerServer(es: Endpoints, items: seq<FeedItem>, t: Transport, server: string)
    ensures Count(Lines(es, items), t, Some(server)) <= if server in Seen(items) then 1 else 0
    decreases |items|
  {
    if items != [] {
      OncePerServer(es, items[..|items| - 1], t, server);
      CountGrows(es, items, t, Some(server));
    }
  }

  /** The servers counted for the quota header are exactly the CDN lines handed out. */
  lemma {:induction false} CdnLinesAreCounted(es: Endpoints, items: seq<FeedItem>)
    ensures Count(Lines(es, items), Cdn, None) == |CdnServers(es, items)| && CdnServers(es, items) <= Seen(items)
    ensures forall server ::
              Count(Lines(es, items), Cdn, Some(server)) == if server in CdnServers(es, items) then 1 else 0
    decreases |items|
  {
    if items != [] {
      var front, it := items[..|items| - 1], items[|items| - 1];
      CdnLinesAreCounted(es, front);
      CountGrows(es, items, Cdn, None);
      forall server
        ensures Count(Lines(es, items), Cdn, Some(server)) == if server in CdnServers(es, items) then 1 else 0
      {
        CountGrows(es, items, Cdn, Some(server));
      }
      if FirstOfServer(front, it) && LinksFor(es, Cdn, it) != [] {
        assert it.serverKey !in CdnServers(es, front);
      }
    }
  }

  // ---------------------------------------------------------------- which lines appear

  /** Endpoint k is the first bound to the server. */
  predicate FirstBoundTo(endpoints: seq<Endpoint>, k: nat, server: string) {
    k < |endpoints| && endpoints[k].serverKey == server && forall j :: 0 <= j < k ==> endpoints[j].serverKey != server
  }

  lemma {:induction false} SelectIsFirst(endpoints: seq<Endpoint>, server: string, k: nat)
    requires server != "" && FirstBoundTo(endpoints, k, server)
    ensures Select(endpoints, server) == Some(endpoints[k])
    decreases k
  {
    if k > 0 {
      assert endpoints[0].serverKey != server;
      SelectIsFirst(endpoints[1..], server, k - 1);
    }
  }

  lemma {:induction false} SelectedIsFirst(endpoints: seq<Endpoint>, server: string) returns (k: nat)
    requires Select(endpoints, server).Some?
    ensures server != "" && FirstBoundTo(endpoints, k, server) && Select(endpoints, server) == Some(endpoints[k])
    decreases |endpoints|
  {
    k := 0;
    if endpoints[0].serverKey != server {
      k := SelectedIsFirst(endpoints[1..], server);
      k := k + 1;
    }
  }

  /** Endpoint k is the first of the line's transport on its server, and has all the link needs: an
      address, for Reality also a key and a server name, none of them blank; and the flow is the
      endpoint's, trimmed, for Reality, and none for the others. */
  predicate ServedBy(es: Endpoints, l: Line, k: nat)
    requires l.Alternate?
  {
    FirstBoundTo(EndpointsOf(es, l.transport), k, l.server)
    && var e := EndpointsOf(es, l.transport)[k];
       && TrimSpace(e.address) != "" && TrimSpace(l.uuid) != ""
       && (l.transport == Reality ==> TrimSpace(e.publicKey) != "" && TrimSpace(e.serverName) != "")
       && l.flow == if l.transport == Reality then TrimSpace(e.flow) else ""
  }

  ghost predicate Served(es: Endpoints, l: Line)
    requires l.Alternate?
  {
    exists k: nat :: ServedBy(es, l, k)
  }

  lemma LinkIff(es: Endpoints, t: Transport, it: FeedItem, l: Line)
    requires l.Alternate? && it.serverKey != ""
    ensures l in LinksFor(es, t, it)
            <==> t == l.transport && it.serverKey == l.server && it.uuid == l.uuid && Served(es, l)
  {
    if l in LinksFor(es, t, it) {
      var k := SelectedIsFirst(EndpointsOf(es, t), it.serverKey);
      assert ServedBy(es, l, k);
    }
    if t == l.transport && it.serverKey == l.server && it.uuid == l.uuid && Served(es, l) {
      var k: nat :| ServedBy(es, l, k);
      SelectIsFirst(EndpointsOf(es, t), l.server, k);
    }
  }

  lemma AlternateIff(es: Endpoints, it: FeedItem, l: Line)
    requires l.Alternate? && it.serverKey != ""
    ensures l in Alternates(es, it, 4) <==> it.serverKey == l.server && it.uuid == l.uuid && Served(es, l)
  {
    FourTransports(es, it);
    LinkIff(es, Cdn, it, l);
    LinkIff(es, Grpc, it, l);
    LinkIff(es, Hysteria, it, l);
    LinkIff(es, Reality, it, l);
  }

  /** The transports of one server: CDN, gRPC, Hysteria, Reality. */
  lemma FourTransports(es: Endpoints, it: FeedItem)
    ensures Alternates(es, it, 4)
            == LinksFor(es, Cdn, it) + LinksFor(es, Grpc, it) + LinksFor(es, Hysteria, it) + LinksFor(es, Reality, it)
  {
    assert Alternates(es, it, 1) == LinksFor(es, Cdn, it);
    assert Alternates(es, it, 2) == Alternates(es, it, 1) + LinksFor(es, Grpc, it);
    assert Alternates(es, it, 3) == Alternates(es, it, 2) + LinksFor(es, Hysteria, it);
    assert Alternates(es, it, 4) == Alternates(es, it, 3) + LinksFor(es, Reality, it);
  }

  /** Item i is the first with a UUID on this server, and that is its UUID. */
  predicate Stands(items: seq<FeedItem>, i: nat, server: string, uuid: string) {
    && i < |items| && items[i].serverKey == server && items[i].uuid == uuid && server != "" && uuid != ""
    && forall j :: 0 <= j < i && items[j].serverKey == server ==> items[j].uuid == ""
  }

  lemma {:induction false} SeenIff(items: seq<FeedItem>, server: string)
    ensures server in Seen(items)
            <==> server != "" && exists j :: 0 <= j < |items| && items[j].serverKey == server && items[j].uuid != ""
    decreases |items|
  {
    if items != [] {
      SeenIff(items[..|items| - 1], server);
    }
  }

  lemma StandsLast(items: seq<FeedItem>, server: string, uuid: string)
    requires items != []
    ensures var n := |items| - 1;
            && (Stands(items, n, server, uuid)
                <==> FirstOfServer(items[..n], items[n]) && items[n].serverKey == server && items[n].uuid == uuid)
            && (forall i: nat :: i < n ==> (Stands(items, i, server, uuid) <==> Stands(items[..n], i, server, uuid)))
  {
    SeenIff(items[..|items| - 1], server);
  }

  /** Every line of every feed: an alternative appears exactly if some item is the first of its server to
      have a UUID, with this UUID, and the first endpoint of its transport there has what the link needs. */
  lemma {:induction false} LineAppearsIff(es: Endpoints, items: seq<FeedItem>, l: Line)
    requires l.Alternate?
    ensures l in Lines(es, items) <==> Served(es, l) && exists i: nat :: Stands(items, i, l.server, l.uuid)
    decreases |items|
  {
    if items != [] {
      var n := |items| - 1;
      LineAppearsIff(es, items[..n], l);
      StandsLast(items, l.server, l.uuid);
      LastItemAdds(es, items, l);
    }
  }

  lemma LastItemAdds(es: Endpoints, items: seq<FeedItem>, l: Line)
    requires items != [] && l.Alternate?
    ensures var n := |items| - 1;
            l in Lines(es, items)
            <==> l in Lines(es, items[..n])
                 || (FirstOfServer(items[..n], items[n]) && items[n].serverKey == l.server && items[n].uuid == l.uuid
                     && Served(es, l))
  {
    var it := items[|items| - 1];
    if it.serverKey != "" {
      AlternateIff(es, it, l);
    }
  }

  /** A main line appears exactly if some item's URL, trimmed, is it and not blank. */
  lemma {:induction false} MainLineAppearsIff(es: Endpoints, items: seq<FeedItem>, url: string)
    ensures Main(url) in Lines(es, items) <==> url != "" && exists it :: it in items && TrimSpace(it.url) == url
    decreases |items|
  {
    if items != [] {
      var n := |items| - 1;
      MainLineAppearsIff(es, items[..n], url);
      LastMainLine(es, items, url);
      assert items == items[..n] + [items[n]];
    }
  }

  lemma LastMainLine(es: Endpoints, items: seq<FeedItem>, url: string)
    requires items != []
    ensures var n := |items| - 1;
            Main(url) in Lines(es, items)
            <==> Main(url) in Lines(es, items[..n]) || (url != "" && TrimSpace(items[n].url) == url)
  {
    var it := items[|items| - 1];
    if Main(url) in Alternates(es, it, 4) {
      OnlyAlternates(es, it, 4, Main(url));
    }
  }

  lemma {:induction false} OnlyAlternates(es: Endpoints, it: FeedItem, n: nat, l: Line)
    requires n <= 4 && l in Alternates(es, it, n)
    ensures l.Alternate?
    decreases n
  {
    if n > 0 && l in Alternates(es, it, n - 1) {
      OnlyAlternates(es, it, n - 1, l);
    }
  }

  lemma Regroup(a: seq<Line>, b: seq<Line>, c: seq<Line>)
    ensures a + (b + c) == a + b + c
  {
  }

  lemma LinesThen(es: Endpoints, items: seq<FeedItem>, it: FeedItem)
    ensures Lines(es, items + [it])
            == Lines(es, items) + MainLine(it) + if FirstOfServer(items, it) then Alternates(es, it, 4) else []
  {
    assert (items + [it])[..|items|] == items;
    Regroup(Lines(es, items), MainLine(it), if FirstOfServer(items, it) then Alternates(es, it, 4) else []);
  }

  /** Item by item: an item's lines follow those of the items before it, its main line first, then
      the CDN, gRPC, Hysteria and Reality links of its server, if no earlier item brought them. */
  lemma LinesInOrder(es: Endpoints, items: seq<FeedItem>, it: FeedItem, main: seq<Line>, links: seq<Line>)
    requires main == if TrimSpace(it.url) != "" then [Main(TrimSpace(it.url))] else []
    requires links == LinksFor(es, Cdn, it) + LinksFor(es, Grpc, it) + LinksFor(es, Hysteria, it)
                      + LinksFor(es, Reality, it)
    ensures var first := it.serverKey != "" && it.uuid != ""
                         && forall x <- items :: x.serverKey == it.serverKey ==> x.uuid == "";
            Lines(es, items + [it]) == Lines(es, items) + main + if first then links else []
  {
    FourTransports(es, it);
    UnseenIff(items, it);
    LinesThen(es, items, it);
  }

  lemma UnseenIff(items: seq<FeedItem>, it: FeedItem)
    ensures FirstOfServer(items, it)
            <==> && it.serverKey != "" && it.uuid != ""
                 && forall x <- items :: x.serverKey == it.serverKey ==> x.uuid == ""
  {
    SeenIff(items, it.serverKey);
    if it.serverKey in Seen(items) {
      var j :| 0 <= j < |items| && items[j].serverKey == it.serverKey && items[j].uuid != "";
      assert items[j] in items;
    }
  }

  // ---------------------------------------------------------------- the CDN account's address

  const SUFFIX := "-cdn"

  /** strings.LastIndex(s, "@"), or -1. */
  function LastAt(s: string): (i: int)
    ensures -1 <= i < |s| && (i >= 0 ==> s[i] == '@') && forall k :: i < k < |s| ==> s[k] != '@'
  {
    if s == "" then -1 else if s[|s| - 1] == '@' then |s| - 1 else LastAt(s[..|s| - 1])
  }

  predicate EndsWith(s: string, suffix: string) {
    |s| >= |suffix| && s[|s| - |suffix|..] == suffix
  }

  /** A local part and a domain around the last at sign. */
  predicate Addressed(s: string) {
    0 < LastAt(s) < |s| - 1
  }

  function CdnEmail(base: string): string {
    var e := TrimSpace(base);
    if !Addressed(e) then ""
    else
      var at := LastAt(e);
      if EndsWith(e[..at], SUFFIX) then e else e[..at] + SUFFIX + e[at..]
  }

  lemma LastAtOf(local: string, tail: string)
    requires tail != "" && tail[0] == '@' && forall k :: 0 < k < |tail| ==> tail[k] != '@'
    ensures LastAt(local + tail) == |local|
  {
    var s := local + tail;
    assert s[|local|] == '@';
    assert forall k :: |local| < k < |s| ==> s[k] == tail[k - |local|];
  }

  /** An address and its marked form, by the local part and the rest from the at sign on. */
  lemma MarkedForm(email: string) returns (local: string, tail: string)
    requires CdnEmail(email) != ""
    ensures local == TrimSpace(email)[..LastAt(TrimSpace(email))] && local != ""
    ensures |tail| > 1 && tail[0] == '@' && forall k :: 0 < k < |tail| ==> tail[k] != '@'
    ensures TrimSpace(email) == local + tail
    ensures CdnEmail(email) == if EndsWith(local, SUFFIX) then local + tail else local + SUFFIX + tail
  {
    var t := TrimSpace(email);
    local, tail := t[..LastAt(t)], t[LastAt(t)..];
    assert t == local + tail;
  }

  /** The marked form is trimmed, and split at the same place. */
  lemma CdnEmailParts(email: string)
    requires CdnEmail(email) != ""
    ensures var c := CdnEmail(email);
            TrimSpace(c) == c && Addressed(c) && !IsSpace(c[|c| - 1]) && EndsWith(c[..LastAt(c)], SUFFIX)
  {
    var local, tail := MarkedForm(email);
    var marked := if EndsWith(local, SUFFIX) then local else local + SUFFIX;
    LastAtOf(marked, tail);
    SameEnds(local, marked, tail);
    assert (marked + tail)[..|marked|] == marked;
  }

  lemma SameEnds(local: string, marked: string, tail: string)
    requires local != "" && tail != "" && local <= marked
    ensures (marked + tail)[0] == (local + tail)[0]
    ensures (marked + tail)[|marked + tail| - 1] == tail[|tail| - 1] == (local + tail)[|local + tail| - 1]
  {
  }

  /** Marking twice is marking once; the mark changes every address that does not carry it, and
      an address gets none only when it has no local part or no domain. */
  lemma CdnEmailIsolates(base: string)
    ensures CdnEmail(base) != "" <==> Addressed(TrimSpace(base))
    ensures CdnEmail(base) != "" ==> CdnEmail(CdnEmail(base)) == CdnEmail(base)
    ensures CdnEmail(base) != "" ==>
              (CdnEmail(base) == TrimSpace(base) <==> EndsWith(TrimSpace(base)[..LastAt(TrimSpace(base))], SUFFIX))
  {
    if CdnEmail(base) != "" {
      CdnEmailParts(base);
    }
  }

  /** The mark goes between the local part and the last at sign, unless it is there. */
  lemma MarkedAddress(local: string, domain: string)
    requires local != "" && domain != "" && !IsSpace(local[0]) && !IsSpace(domain[|domain| - 1]) && '@' !in domain
    ensures CdnEmail(local + "@" + domain)
            == if EndsWith(local, "-cdn") then local + "@" + domain else local + "-cdn@" + domain
  {
    var tail := "@" + domain;
    assert local + "@" + domain == local + tail;
    assert tail[|tail| - 1] == domain[|domain| - 1];
    LastAtOf(local, tail);
    SameEnds(local, local, tail);
    assert (local + tail)[..|local|] == local && (local + tail)[|local|..] == tail;
    assert local + "-cdn" + tail == local + "-cdn@" + domain;
  }

  // ---------------------------------------------------------------- registrations

  function TagOf(t: Transport, e: Endpoint): string {
    if e.inboundTag != "" then e.inboundTag
    else
      match t
      case Cdn => "vless-xhttp-cdn-in"
      case Grpc => "vless-grpc-cdn-in"
      case _ => "vless-reality-in"
  }

  function Key(p: Profile): string {
    p.inboundTag + "|" + p.email
  }

  /** The profile of one transport; Hysteria registers nobody. */
  function ProfileFor(t: Transport, e: Endpoint, base: Profile): Profile {
    var p := base.(inboundTag := TagOf(t, e), optional := true);
    match t
    case Cdn => if CdnEmail(base.email) != "" then p.(email := CdnEmail(base.email)) else p
    case Reality => p.(flow := TrimSpace(e.flow))
    case _ => p
  }

  function Added(ps: seq<Profile>, p: Profile): seq<Profile> {
    if exists q :: q in ps && Key(q) == Key(p) then ps else ps + [p]
  }

  function AddedFor(ps: seq<Profile>, es: Endpoints, t: Transport, base: Profile, serverKey: string): seq<Profile> {
    var e := Select(EndpointsOf(es, t), serverKey);
    if e.Some? then Added(ps, ProfileFor(t, e.value, base)) else ps
  }

  function Profiles(base: Profile, serverKey: string, es: Endpoints, skipCDN: bool): seq<Profile> {
    var ps := if skipCDN then [base] else AddedFor([base], es, Cdn, base, serverKey);
    AddedFor(AddedFor(ps, es, Grpc, base, serverKey), es, Reality, base, serverKey)
  }

  class ProfileList {
    var seen: set<string>
    var out: seq<Profile>

    ghost predicate Valid()
      reads this
    {
      forall key :: key in seen <==> exists p :: p in out && Key(p) == key
    }

    constructor ()
      ensures Valid() && out == []
    {
      seen, out := {}, [];
    }

    method Add(p: Profile)
      requires Valid()
      modifies this
      ensures Valid() && out == Added(old(out), p)
    {
      var key := p.inboundTag + "|" + p.email;
      if key in seen {
        return;
      }
      seen := seen + {key};
      out := out + [p];
      assert p in out;
    }

    method AddFor(es: Endpoints, t: Transport, base: Profile, serverKey: string)
      requires Valid()
      modifies this
      ensures Valid() && out == AddedFor(old(out), es, t, base, serverKey)
    {
      var endpoint := SelectForServer(EndpointsOf(es, t), serverKey);
      if endpoint.Some? {
        Add(ProfileFor(t, endpoint.value, base));
      }
    }
  }

  method BuildUserProfiles(base: Profile, serverKey: string, es: Endpoints, skipCDN: bool) returns (out: seq<Profile>)
    ensures out == Profiles(base, serverKey, es, skipCDN)
  {
    var list := new ProfileList();
    list.Add(base);
    assert list.out == [base];
    if !skipCDN {
      list.AddFor(es, Cdn, base, serverKey);
    }
    ghost var ps := list.out;
    assert ps == if skipCDN then [base] else AddedFor([base], es, Cdn, base, serverKey);
    list.AddFor(es, Grpc, base, serverKey);
    list.AddFor(es, Reality, base, serverKey);
    assert list.out == AddedFor(AddedFor(ps, es, Grpc, base, serverKey), es, Reality, base, serverKey);
    out := list.out;
  }

  // ---------------------------------------------------------------- keys do not collide

  /** A piece that starts right after a blank, if not at the start, and is followed by a last
      blank, if by anything. */
  predicate Cut(s: string, a: nat, b: nat) {
    a <= b <= |s| && (a > 0 ==> IsSpace(s[a - 1])) && (b < |s| ==> IsSpace(s[|s| - 1]))
  }

  lemma CutAfterBlank(s: string, a: nat, b: nat)
    requires s != "" && IsSpace(s[0]) && Cut(s[1..], a, b)
    ensures Cut(s, a + 1, b + 1) && s[1..][a..b] == s[a + 1..b + 1]
  {
  }

  lemma CutBeforeBlank(s: string, a: nat, b: nat)
    requires s != "" && IsSpace(s[|s| - 1]) && Cut(s[..|s| - 1], a, b)
    ensures Cut(s, a, b) && s[..|s| - 1][a..b] == s[a..b]
  {
  }

  /** Trimming leaves such a piece. */
  lemma {:induction false} TrimBounds(s: string) returns (a: nat, b: nat)
    ensures Cut(s, a, b) && TrimSpace(s) == s[a..b]
    decreases |s|
  {
    a, b := 0, |s|;
    if s != "" && IsSpace(s[0]) {
      a, b := TrimBounds(s[1..]);
      CutAfterBlank(s, a, b);
      a, b := a + 1, b + 1;
    } else if s != "" && IsSpace(s[|s| - 1]) {
      a, b := TrimBounds(s[..|s| - 1]);
      CutBeforeBlank(s, a, b);
    }
  }

  /** When what stands before a local part ends in a bar or a blank, a suffix of the whole is a
      suffix of the local part. */
  lemma SuffixShows(x: string, local: string)
    requires x != "" && (x[|x| - 1] == '|' || IsSpace(x[|x| - 1])) && EndsWith(x + local, SUFFIX)
    ensures EndsWith(local, SUFFIX)
  {
    var z := x + local;
    assert forall j :: 0 <= j < 4 ==> SUFFIX[j] != '|' && !IsSpace(SUFFIX[j]);
    assert forall j :: 0 <= j < 4 ==> z[|z| - 4..][j] == SUFFIX[j];
    assert forall k :: |z| - 4 <= k < |z| ==> z[k] == z[|z| - 4..][k - (|z| - 4)];
    assert z[|x| - 1] == x[|x| - 1];
    assert |x| - 1 < |z| - 4;
    assert local[|local| - 4..] == z[|z| - 4..];
  }

  /** What ends like a visible character has no blank at the end. */
  lemma NoBlankAtTheEnd(front: string, w: string, y: string, c: string)
    requires EndsInBlank(w) && c != "" && !IsSpace(c[|c| - 1]) && front + w == y + c
    ensures w == ""
  {
    assert (y + c)[|y + c| - 1] == c[|c| - 1];
    LastOfBoth(front, w);
  }

  predicate EndsInBlank(w: string) {
    w == "" || IsSpace(w[|w| - 1])
  }

  lemma LastOfBoth(front: string, w: string)
    ensures w != "" ==> (front + w)[|front + w| - 1] == w[|w| - 1]
  {
  }

  lemma SameTail(x: string, y: string, tail: string)
    requires x + tail == y + tail
    ensures x == y
  {
    assert x == (x + tail)[..|x + tail| - |tail|];
    assert y == (y + tail)[..|y + tail| - |tail|];
  }

  /** Read from the right, a local part whose marked form fits after something else would have to
      end in the mark itself. */
  lemma MarkShows(x: string, y: string, local: string, tail: string)
    requires x != "" && (x[|x| - 1] == '|' || IsSpace(x[|x| - 1]))
    requires x + (local + tail) == y + (local + SUFFIX + tail)
    ensures EndsWith(local, SUFFIX)
  {
    assert x + local + tail == x + (local + tail);
    assert y + local + SUFFIX + tail == y + (local + SUFFIX + tail);
    SameTail(x + local, y + local + SUFFIX, tail);
    assert EndsWith(x + local, SUFFIX);
    SuffixShows(x, local);
  }

  /** tag|email tells the plain account from the marked one, whatever the tags contain. */
  lemma MarkedKeysDiffer(tag: string, tag': string, email: string)
    requires CdnEmail(email) != "" && tag + "|" + email == tag' + "|" + CdnEmail(email)
    ensures email == CdnEmail(email)
  {
    var a, b := TrimBounds(email);
    CdnEmailParts(email);
    var local, tail := MarkedForm(email);
    CutKeysDiffer(tag, tag', email, a, b, local, tail, CdnEmail(email));
  }

  lemma CutKeysDiffer(tag: string, tag': string, email: string, a: nat, b: nat, local: string, tail: string, c: string)
    requires Cut(email, a, b) && email[a..b] == local + tail
    requires c == if EndsWith(local, SUFFIX) then local + tail else local + SUFFIX + tail
    requires c != "" && !IsSpace(c[|c| - 1])
    requires tag + "|" + email == tag' + "|" + c
    ensures email == c
  {
    KeySplits(tag, email, b);
    NoBlankAtTheEnd(tag + "|" + email[..b], email[b..], tag' + "|", c);
    KeyInParts(tag, email, a, b);
    AfterBlank(tag, tag', email[..a], local, tail, c);
  }

  lemma KeySplits(tag: string, email: string, b: nat)
    requires b <= |email|
    ensures tag + "|" + email == (tag + "|" + email[..b]) + email[b..]
  {
  }

  lemma KeyInParts(tag: string, email: string, a: nat, b: nat)
    requires a <= b == |email|
    ensures tag + "|" + email == tag + "|" + email[..a] + email[a..b] && email == email[..a] + email[a..b]
  {
  }

  lemma AfterBlank(tag: string, tag': string, w: string, local: string, tail: string, c: string)
    requires c == if EndsWith(local, SUFFIX) then local + tail else local + SUFFIX + tail
    requires EndsInBlank(w) && tag + "|" + w + (local + tail) == tag' + "|" + c
    ensures w + (local + tail) == c
  {
    if EndsWith(local, SUFFIX) {
      SameTail(tag + "|" + w, tag' + "|", local + tail);
      NoBlankAtTheEnd(tag + "|", w, tag', "|");
    } else {
      PlainShows(tag, tag', w, local, tail);
    }
  }

  lemma PlainShows(tag: string, tag': string, w: string, local: string, tail: string)
    requires EndsInBlank(w) && tag + "|" + w + (local + tail) == tag' + "|" + (local + SUFFIX + tail)
    ensures EndsWith(local, SUFFIX)
  {
    LastBarOrBlank(tag, w);
    MarkShows(tag + "|" + w, tag' + "|", local, tail);
  }

  lemma LastBarOrBlank(tag: string, w: string)
    requires EndsInBlank(w)
    ensures var x := tag + "|" + w; x[|x| - 1] == '|' || IsSpace(x[|x| - 1])
  {
    LastOfBoth(tag + "|", w);
  }

  predicate Derived(p: Profile, base: Profile) {
    p.uuid == base.uuid && (p.email == base.email || (CdnEmail(base.email) != "" && p.email == CdnEmail(base.email)))
  }

  /** Among the accounts made from one base, equal keys mean equal tag and address. */
  lemma KeyIsFaithful(p: Profile, q: Profile, base: Profile)
    requires Derived(p, base) && Derived(q, base) && Key(p) == Key(q)
    ensures p.inboundTag == q.inboundTag && p.email == q.email
  {
    if p.email == base.email && q.email != base.email {
      MarkedKeysDiffer(p.inboundTag, q.inboundTag, base.email);
    } else if q.email == base.email && p.email != base.email {
      MarkedKeysDiffer(q.inboundTag, p.inboundTag, base.email);
    }
    var n := |p.inboundTag|;
    assert p.email == q.email;
    assert |Key(p)| == |p.inboundTag| + 1 + |p.email| && |Key(q)| == |q.inboundTag| + 1 + |q.email|;
    assert p.inboundTag == Key(p)[..n] && q.inboundTag == Key(q)[..n];
  }

  // ---------------------------------------------------------------- every link is registered

  ghost predicate AllDerived(ps: seq<Profile>, base: Profile) {
    forall p <- ps :: Derived(p, base)
  }

  /** The list after an addition: it grew at most at the end, and the wanted account is in it. */
  lemma AddingRegisters(ps: seq<Profile>, p: Profile, base: Profile)
    requires AllDerived(ps, base) && Derived(p, base)
    ensures ps <= Added(ps, p) && AllDerived(Added(ps, p), base)
    ensures exists q :: q in Added(ps, p) && q.inboundTag == p.inboundTag && q.email == p.email && q.uuid == p.uuid
  {
    if exists q :: q in ps && Key(q) == Key(p) {
      var q :| q in ps && Key(q) == Key(p);
      KeyIsFaithful(p, q, base);
    } else {
      assert p in ps + [p];
    }
  }

  predicate Registered(ps: seq<Profile>, tag: string, email: string, uuid: string) {
    exists q :: q in ps && q.inboundTag == tag && q.email == email && q.uuid == uuid
  }

  lemma AddingForRegisters(ps: seq<Profile>, es: Endpoints, t: Transport, base: Profile, serverKey: string)
    requires AllDerived(ps, base)
    ensures var out := AddedFor(ps, es, t, base, serverKey);
            var e := Select(EndpointsOf(es, t), serverKey);
            && AllDerived(out, base) && ps <= out
            && (e.Some? ==> Registered(out, TagOf(t, e.value), ProfileFor(t, e.value, base).email, base.uuid))
  {
    var e := Select(EndpointsOf(es, t), serverKey);
    if e.Some? {
      AddingRegisters(ps, ProfileFor(t, e.value, base), base);
    }
  }

  lemma MoreStaysRegistered(ps: seq<Profile>, more: seq<Profile>, tag: string, email: string, uuid: string)
    requires ps <= more && Registered(ps, tag, email, uuid)
    ensures Registered(more, tag, email, uuid)
  {
  }

  /** The base account and one for every endpoint bound to the server, CDN unless skipped. */
  lemma ProfilesRegister(base: Profile, serverKey: string, es: Endpoints, skipCDN: bool, t: Transport)
    requires !t.Hysteria? && (skipCDN ==> !t.Cdn?)
    ensures var ps := Profiles(base, serverKey, es, skipCDN);
            var e := Select(EndpointsOf(es, t), serverKey);
            && base in ps && AllDerived(ps, base)
            && (e.Some? ==> Registered(ps, TagOf(t, e.value), ProfileFor(t, e.value, base).email, base.uuid))
  {
    var p1 := if skipCDN then [base] else AddedFor([base], es, Cdn, base, serverKey);
    var p2 := AddedFor(p1, es, Grpc, base, serverKey);
    var p3 := AddedFor(p2, es, Reality, base, serverKey);
    AddingForRegisters([base], es, Cdn, base, serverKey);
    AddingForRegisters(p1, es, Grpc, base, serverKey);
    AddingForRegisters(p2, es, Reality, base, serverKey);
    assert [base][0] in p1 && [base] <= p1;
    var e := Select(EndpointsOf(es, t), serverKey);
    if e.Some? {
      var email := ProfileFor(t, e.value, base).email;
      if t.Cdn? {
        MoreStaysRegistered(p1, p2, TagOf(t, e.value), email, base.uuid);
      }
      if !t.Reality? {
        MoreStaysRegistered(p2, p3, TagOf(t, e.value), email, base.uuid);
      }
    }
    assert p3[0] == base;
  }

  /** What an account of a transport carries: the configured tag or the default of its inbound, the
      base's UUID, the marked address for CDN if there is one, the endpoint's flow for Reality. */
  lemma AccountCarries(t: Transport, e: Endpoint, base: Profile)
    ensures var p := ProfileFor(t, e, base);
            && p.uuid == base.uuid && p.optional
            && (e.inboundTag != "" ==> p.inboundTag == e.inboundTag)
            && (e.inboundTag == "" ==> (t.Cdn? ==> p.inboundTag == "vless-xhttp-cdn-in")
                                       && (t.Grpc? ==> p.inboundTag == "vless-grpc-cdn-in")
                                       && (t.Reality? ==> p.inboundTag == "vless-reality-in"))
            && p.email == (if t.Cdn? && CdnEmail(base.email) != "" then CdnEmail(base.email) else base.email)
            && p.flow == if t.Reality? then TrimSpace(e.flow) else base.flow
  {
  }

  predicate KeysApart(ps: seq<Profile>) {
    forall i, j :: 0 <= i < j < |ps| ==> Key(ps[i]) != Key(ps[j])
  }

  lemma AddingKeepsApart(ps: seq<Profile>, es: Endpoints, t: Transport, base: Profile, serverKey: string)
    requires KeysApart(ps)
    ensures KeysApart(AddedFor(ps, es, t, base, serverKey))
  {
    var e := Select(EndpointsOf(es, t), serverKey);
    if e.Some? {
      var p := ProfileFor(t, e.value, base);
      assert forall i :: 0 <= i < |ps| ==> ps[i] in ps;
    }
  }

  /** No two accounts of a list share tag and address, and none is the CDN account when that is skipped:
      all keep the base's address then. */
  lemma AccountsApart(base: Profile, serverKey: string, es: Endpoints, skipCDN: bool)
    ensures var ps := Profiles(base, serverKey, es, skipCDN);
            KeysApart(ps) && (skipCDN ==> forall p <- ps :: p.email == base.email)
  {
    var p1 := if skipCDN then [base] else AddedFor([base], es, Cdn, base, serverKey);
    AddingKeepsApart([base], es, Cdn, base, serverKey);
    AddingKeepsApart(p1, es, Grpc, base, serverKey);
    AddingKeepsApart(AddedFor(p1, es, Grpc, base, serverKey), es, Reality, base, serverKey);
  }

  function BaseOf(it: FeedItem): Profile {
    Profile(it.inboundTag, it.email, it.uuid, it.flow, false)
  }

  /** A link that some account registered for one of the items answers. */
  ghost predicate Answered(es: Endpoints, items: seq<FeedItem>, l: Line)
    requires l.Alternate?
  {
    exists it :: it in items && it.serverKey == l.server && it.uuid == l.uuid
      && var e := Select(EndpointsOf(es, l.transport), l.server);
         e.Some? && exists q :: q in Profiles(BaseOf(it), l.server, es, false)
                      && q.inboundTag == TagOf(l.transport, e.value) && q.uuid == l.uuid
  }

  lemma AlternateAnswered(es: Endpoints, it: FeedItem, items: seq<FeedItem>, t: Transport, l: Line)
    requires it in items && l in LinksFor(es, t, it) && !t.Hysteria?
    ensures l.Alternate? && l.transport == t && Answered(es, items, l)
  {
    ProfilesRegister(BaseOf(it), it.serverKey, es, false, t);
  }

  lemma {:induction false} InSomeTransport(es: Endpoints, it: FeedItem, n: nat, l: Line)
    requires n <= 4
    ensures l in Alternates(es, it, n) ==> exists t :: l in LinksFor(es, t, it)
  {
    if n > 0 {
      InSomeTransport(es, it, n - 1, l);
    }
  }

  /** Every CDN, gRPC or Reality line of a feed has, on the server it points to, an account with
      that endpoint's inbound tag and the very UUID of the line. */
  lemma {:induction false} LinksAreRegistered(es: Endpoints, items: seq<FeedItem>, l: Line)
    requires l in Lines(es, items) && l.Alternate? && !l.transport.Hysteria?
    ensures Answered(es, items, l)
    decreases |items|
  {
    var front, it := items[..|items| - 1], items[|items| - 1];
    if l in Lines(es, front) {
      LinksAreRegistered(es, front, l);
      assert forall x <- front :: x in items;
    } else {
      InSomeTransport(es, it, 4, l);
      var t :| l in LinksFor(es, t, it);
      assert l.transport == t && it in items;
      AlternateAnswered(es, it, items, t, l);
    }
  }

  // ---------------------------------------------------------------- revoking

  predicate MadeFor(t: Transport, base: Profile, serverKey: string, es: Endpoints, p: Profile) {
    var e := Select(EndpointsOf(es, t), serverKey);
    !t.Hysteria? && e.Some? && p == ProfileFor(t, e.value, base)
  }

  /** Every account of a list is the base or one made for an endpoint. */
  lemma ProfilesAreKnown(base: Profile, serverKey: string, es: Endpoints, skipCDN: bool, p: Profile)
    requires p in Profiles(base, serverKey, es, skipCDN)
    ensures p == base || exists t :: MadeFor(t, base, serverKey, es, p)
  {
    var p1 := if skipCDN then [base] else AddedFor([base], es, Cdn, base, serverKey);
    var p2 := AddedFor(p1, es, Grpc, base, serverKey);
    if p !in p2 {
      assert MadeFor(Reality, base, serverKey, es, p);
    } else if p !in p1 {
      assert MadeFor(Grpc, base, serverKey, es, p);
    } else if p != base {
      assert MadeFor(Cdn, base, serverKey, es, p);
    }
  }

  /** What a revocation lists covers what any synchronisation listed, also one that skipped or
      one that included the CDN account: same tag, same address, same UUID. */
  lemma RevokeCoversSync(base: Profile, revoked: Profile, serverKey: string, es: Endpoints, skipCDN: bool, p: Profile)
    requires p in Profiles(base, serverKey, es, skipCDN)
    requires revoked.inboundTag == base.inboundTag && revoked.email == base.email && revoked.uuid == base.uuid
    ensures Registered(Profiles(revoked, serverKey, es, false), p.inboundTag, p.email, p.uuid)
  {
    ProfilesAreKnown(base, serverKey, es, skipCDN, p);
    if p == base {
      ProfilesRegister(revoked, serverKey, es, false, Grpc);
    } else {
      var t :| MadeFor(t, base, serverKey, es, p);
      ProfilesRegister(revoked, serverKey, es, false, t);
    }
  }

  // ---------------------------------------------------------------- the CDN allowlist

  function AllowedTag(e: Endpoint): string {
    if TrimSpace(e.inboundTag) == "" then "vless-xhttp-cdn-in" else TrimSpace(e.inboundTag)
  }

  method CdnInboundAllowlist(endpoints: seq<Endpoint>) returns (out: set<string>)
    ensures forall tag :: tag in out <==> exists e :: e in endpoints && AllowedTag(e) == tag
    ensures forall e <- endpoints :: TagOf(Cdn, e) in out <==> TrimSpace(TagOf(Cdn, e)) == TagOf(Cdn, e)
  {
    out := {};
    for i := 0 to |endpoints|
      invariant forall tag :: tag in out <==> exists k :: 0 <= k < i && AllowedTag(endpoints[k]) == tag
    {
      var tag := TrimSpace(endpoints[i].inboundTag);
      if tag == "" {
        tag := "vless-xhttp-cdn-in";
      }
      assert tag == AllowedTag(endpoints[i]);
      out := out + {tag};
    }
    assert forall tag :: tag in out <==> exists e :: e in endpoints && AllowedTag(e) == tag;
    forall e <- endpoints
      ensures (exists x :: x in endpoints && AllowedTag(x) == TagOf(Cdn, e))
              <==> TrimSpace(TagOf(Cdn, e)) == TagOf(Cdn, e)
    {
      TagCountedIffTrimmed(endpoints, e);
    }
  }

  /** Traffic through the inbound a CDN account is registered in counts against the quota
      exactly when the configured tag has no white space around it: the allowlist trims the tag,
      the registration does not. */
  lemma TagCountedIffTrimmed(endpoints: seq<Endpoint>, e: Endpoint)
    requires e in endpoints
    ensures (exists x :: x in endpoints && AllowedTag(x) == TagOf(Cdn, e))
            <==> TrimSpace(TagOf(Cdn, e)) == TagOf(Cdn, e)
  {
    forall x: Endpoint ensures TrimSpace(AllowedTag(x)) == AllowedTag(x) {
    }
    if TrimSpace(TagOf(Cdn, e)) == TagOf(Cdn, e) {
      assert AllowedTag(e) == TagOf(Cdn, e);
    }
  }

  // ---------------------------------------------------------------- the flow of Reality accounts

  /** An account made before the Reality one carries its tag and address already. */
  predicate TagTaken(base: Profile, serverKey: string, es: Endpoints, skipCDN: bool, tag: string) {
    || base.inboundTag == tag
    || (!skipCDN && Select(es.cdn, serverKey).Some? && TagOf(Cdn, Select(es.cdn, serverKey).value) == tag
        && CdnEmail(base.email) in {"", base.email})
    || (Select(es.grpc, serverKey).Some? && TagOf(Grpc, Select(es.grpc, serverKey).value) == tag)
  }

  predicate HasAccount(ps: seq<Profile>, tag: string, email: string, flow: string) {
    exists q :: q in ps && q.inboundTag == tag && q.email == email && q.flow == flow
  }

  function BeforeReality(base: Profile, serverKey: string, es: Endpoints, skipCDN: bool): seq<Profile> {
    AddedFor(if skipCDN then [base] else AddedFor([base], es, Cdn, base, serverKey), es, Grpc, base, serverKey)
  }

  /** Before Reality all accounts keep the base flow. */
  lemma BaseFlowBefore(base: Profile, serverKey: string, es: Endpoints, skipCDN: bool)
    ensures AllDerived(BeforeReality(base, serverKey, es, skipCDN), base)
    ensures forall p <- BeforeReality(base, serverKey, es, skipCDN) :: p.flow == base.flow
  {
    var p1 := if skipCDN then [base] else AddedFor([base], es, Cdn, base, serverKey);
    AddingForRegisters([base], es, Cdn, base, serverKey);
    AddingForRegisters(p1, es, Grpc, base, serverKey);
  }

  lemma TagTakenExactly(base: Profile, serverKey: string, es: Endpoints, skipCDN: bool, tag: string)
    ensures Registered(BeforeReality(base, serverKey, es, skipCDN), tag, base.email, base.uuid)
            <==> TagTaken(base, serverKey, es, skipCDN, tag)
  {
    var p1 := if skipCDN then [base] else AddedFor([base], es, Cdn, base, serverKey);
    var ps := BeforeReality(base, serverKey, es, skipCDN);
    AddingForRegisters([base], es, Cdn, base, serverKey);
    AddingForRegisters(p1, es, Grpc, base, serverKey);
    assert p1[0] == base && ps[0] == base;
    if Registered(p1, tag, base.email, base.uuid) {
      MoreStaysRegistered(p1, ps, tag, base.email, base.uuid);
    }
    assert Registered(p1, tag, base.email, base.uuid) <==> TagTaken(base, serverKey, es.(grpc := []), skipCDN, tag) by {
      FirstTaken(base, serverKey, es, skipCDN, tag);
    }
  }

  lemma FirstTaken(base: Profile, serverKey: string, es: Endpoints, skipCDN: bool, tag: string)
    ensures var p1 := if skipCDN then [base] else AddedFor([base], es, Cdn, base, serverKey);
            Registered(p1, tag, base.email, base.uuid) <==> TagTaken(base, serverKey, es.(grpc := []), skipCDN, tag)
  {
    var p1 := if skipCDN then [base] else AddedFor([base], es, Cdn, base, serverKey);
    AddingForRegisters([base], es, Cdn, base, serverKey);
    assert p1[0] == base;
  }

  /** The Reality link and its account carry the same flow exactly when no account of the same
      tag was registered first, or the base flow happens to be the endpoint's. */
  lemma RealityFlowMatchesIff(base: Profile, serverKey: string, es: Endpoints, skipCDN: bool)
    requires Select(es.reality, serverKey).Some?
    ensures var e := Select(es.reality, serverKey).value;
            HasAccount(Profiles(base, serverKey, es, skipCDN), TagOf(Reality, e), base.email, TrimSpace(e.flow))
            <==> !TagTaken(base, serverKey, es, skipCDN, TagOf(Reality, e)) || base.flow == TrimSpace(e.flow)
  {
    var e := Select(es.reality, serverKey).value;
    var p := ProfileFor(Reality, e, base);
    var ps := BeforeReality(base, serverKey, es, skipCDN);
    BaseFlowBefore(base, serverKey, es, skipCDN);
    TagTakenExactly(base, serverKey, es, skipCDN, p.inboundTag);
    assert Profiles(base, serverKey, es, skipCDN) == Added(ps, p);
    if q :| q in ps && Key(q) == Key(p) {
      KeyIsFaithful(p, q, base);
    } else {
      assert p in Added(ps, p);
      assert forall q :: q in ps && q.inboundTag == p.inboundTag && q.email == p.email ==> Key(q) == Key(p);
    }
  }
}
