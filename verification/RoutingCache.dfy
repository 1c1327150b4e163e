/** The hot-reload cache of the compiled manifest against simply reading the file again. */
module RoutingCache {
  import opened Prelude
  import opened Routing

  const CHECK_INTERVAL := 10

  datatype Content = Unreadable | Broken | Good(manifest: Manifest)

  /** What a look at the path finds: nothing, or a file with its stamp (mtime and size). */
  datatype Disk = Missing | Present(stamp: int, content: Content)

  datatype Payload = Payload(xray: Option<seq<XrayRule>>, happ: Option<HappProfile>)

  const EMPTY := Payload(None, None)

  function Compiled(m: Manifest): Payload {
    Payload(XrayPayload(m), HappPayload(m))
  }

  /** The fields of the cache; an unset path or stamp is None. */
  datatype Cache = Cache(path: Option<string>, lastChecked: int, stamp: Option<int>, manifest: Option<Manifest>,
                         payload: Payload)

  const NEW := Cache(None, 0, None, None, EMPTY)

  predicate Fresh(c: Cache, path: string, now: int) {
    c.path == Some(path) && now - c.lastChecked < CHECK_INTERVAL
  }

  predicate Unchanged(c: Cache, path: string, disk: Disk) {
    disk.Present? && c.path == Some(path) && c.stamp == Some(disk.stamp) && c.manifest.Some?
  }

  function Checked(c: Cache, path: string, now: int, disk: Disk): Cache {
    var c := c.(lastChecked := now);
    if Unchanged(c, path, disk) then c
    else if disk.Missing? || disk.content.Unreadable? then Cache(Some(path), now, None, None, EMPTY)
    else
      match disk.content
      case Broken => c.(path := Some(path), stamp := Some(disk.stamp))
      case Good(m) =>
        if HasRules(m) then Cache(Some(path), now, Some(disk.stamp), Some(m), Compiled(m))
        else Cache(Some(path), now, Some(disk.stamp), None, EMPTY)
  }

  function After(c: Cache, path: string, now: int, disk: Disk): Cache {
    if path == "" || Fresh(c, path, now) then c else Checked(c, path, now, disk)
  }

  function Served(c: Cache, path: string): Payload {
    if path == "" then EMPTY else c.payload
  }

  class CachedRouting {
    var path: Option<string>
    var lastChecked: int
    var stamp: Option<int>
    var manifest: Option<Manifest>
    var xrayB64: Option<seq<XrayRule>>
    var happB64: Option<HappProfile>

    function State(): Cache
      reads this
    {
      Cache(path, lastChecked, stamp, manifest, Payload(xrayB64, happB64))
    }

    constructor ()
      ensures State() == NEW
    {
      path, lastChecked, stamp, manifest, xrayB64, happB64 := None, 0, None, None, None, None;
    }

    method Load(envPath: string, now: int, disk: Disk) returns (x: Option<seq<XrayRule>>, h: Option<HappProfile>)
      modifies this
      ensures State() == After(old(State()), envPath, now, disk)
      ensures Payload(x, h) == Served(State(), envPath)
    {
      if envPath == "" {
        return None, None;
      }
      if path == Some(envPath) && now - lastChecked < CHECK_INTERVAL {
        return xrayB64, happB64;
      }
      lastChecked := now;
      if disk.Missing? {
        path, stamp := Some(envPath), None;
        manifest, xrayB64, happB64 := None, None, None;
        return None, None;
      }
      if path == Some(envPath) && stamp == Some(disk.stamp) && manifest != None {
        return xrayB64, happB64;
      }
      if disk.content.Unreadable? {
        path, stamp := Some(envPath), None;
        manifest, xrayB64, happB64 := None, None, None;
        return None, None;
      }
      path, stamp := Some(envPath), Some(disk.stamp);
      if disk.content.Broken? {
        return xrayB64, happB64;
      }
      var m := disk.content.manifest;
      if !HasRules(m) {
        manifest, xrayB64, happB64 := None, None, None;
        return None, None;
      }
      manifest := Some(m);
      xrayB64 := CompileXrayRouting(m);
      happB64 := CompileHappRouting(m);
      return xrayB64, happB64;
    }
  }

  // ---------------------------------------------------------------- the uncached reference

  /** Reading the file again: a broken file keeps what was served before. */
  function Reread(before: Payload, disk: Disk): Payload {
    match disk
    case Missing => EMPTY
    case Present(_, Unreadable) => EMPTY
    case Present(_, Broken) => before
    case Present(_, Good(m)) => if HasRules(m) then Compiled(m) else EMPTY
  }

  datatype Load = Load(now: int, disk: Disk)

  function Cached(path: string, loads: seq<Load>): Cache
    decreases |loads|
  {
    if loads == [] then NEW
    else After(Cached(path, loads[..|loads| - 1]), path, loads[|loads| - 1].now, loads[|loads| - 1].disk)
  }

  /** The reference: re-read at the same instants, at least the interval apart, no stamps. */
  datatype Reference = Reference(checkedAt: Option<int>, payload: Payload)

  function Referred(loads: seq<Load>): Reference
    decreases |loads|
  {
    if loads == [] then Reference(None, EMPTY)
    else
      var r, l := Referred(loads[..|loads| - 1]), loads[|loads| - 1];
      if r.checkedAt.Some? && l.now - r.checkedAt.value < CHECK_INTERVAL then r
      else Reference(Some(l.now), Reread(r.payload, l.disk))
  }

  /** Equal stamps mean equal files. */
  predicate StampsTell(loads: seq<Load>) {
    forall a <- loads, b <- loads ::
      a.disk.Present? && b.disk.Present? && a.disk.stamp == b.disk.stamp ==> a.disk.content == b.disk.content
  }

  /** The cache serves what the reference does, and what it compiled is what its stamp names:
      some load saw that stamp, and re-reading the file seen then would change nothing. */
  ghost predicate InStep(path: string, loads: seq<Load>, c: Cache, r: Reference) {
    && c.payload == r.payload
    && (r.checkedAt.None? ==> c == NEW)
    && (r.checkedAt.Some? ==> c.path == Some(path) && c.lastChecked == r.checkedAt.value)
    && (c.manifest.Some? ==>
          exists i :: 0 <= i < |loads| && loads[i].disk.Present? && c.stamp == Some(loads[i].disk.stamp)
            && Reread(c.payload, loads[i].disk) == c.payload)
  }

  /** With stamps that tell files apart, after any loads at any times the cache serves what the
      uncached reference serves. */
  lemma {:induction false} CacheIsTransparent(path: string, loads: seq<Load>)
    requires path != "" && StampsTell(loads)
    ensures InStep(path, loads, Cached(path, loads), Referred(loads))
    ensures Served(Cached(path, loads), path) == Referred(loads).payload
    decreases |loads|
  {
    if loads != [] {
      var n := |loads| - 1;
      var before, l := loads[..n], loads[n];
      assert StampsTell(before);
      CacheIsTransparent(path, before);
      var c, r := Cached(path, before), Referred(before);
      StepInStep(path, loads, c, r);
    }
  }

  lemma StepInStep(path: string, loads: seq<Load>, c: Cache, r: Reference)
    requires path != "" && loads != [] && StampsTell(loads)
    requires InStep(path, loads[..|loads| - 1], c, r) && r == Referred(loads[..|loads| - 1])
    ensures InStep(path, loads, After(c, path, loads[|loads| - 1].now, loads[|loads| - 1].disk), Referred(loads))
  {
    var l := loads[|loads| - 1];
    EarlierLoads(path, loads, c, r);
    if !Fresh(c, path, l.now) {
      CheckInStep(path, loads, c, r, l);
    }
  }

  lemma EarlierLoads(path: string, loads: seq<Load>, c: Cache, r: Reference)
    requires loads != [] && InStep(path, loads[..|loads| - 1], c, r)
    ensures InStep(path, loads, c, r)
  {
    var front := loads[..|loads| - 1];
    if c.manifest.Some? {
      var i :| 0 <= i < |front| && front[i].disk.Present? && c.stamp == Some(front[i].disk.stamp)
        && Reread(c.payload, front[i].disk) == c.payload;
      assert loads[i] == front[i];
    }
  }

  lemma CheckInStep(path: string, loads: seq<Load>, c: Cache, r: Reference, l: Load)
    requires l in loads && StampsTell(loads) && InStep(path, loads, c, r)
    ensures InStep(path, loads, Checked(c, path, l.now, l.disk), Reference(Some(l.now), Reread(r.payload, l.disk)))
  {
    var after := Checked(c, path, l.now, l.disk);
    if Unchanged(c, path, l.disk) {
      var i :| 0 <= i < |loads| && loads[i].disk.Present? && c.stamp == Some(loads[i].disk.stamp)
        && Reread(c.payload, loads[i].disk) == c.payload;
      assert loads[i] in loads && loads[i].disk.content == l.disk.content;
    } else if after.manifest.Some? {
      var k :| 0 <= k < |loads| && loads[k] == l;
    }
  }

  /** One check strays from the reference exactly when the stamp hides a file that would have
      given something else. */
  lemma StaleIffHidden(c: Cache, path: string, now: int, disk: Disk)
    requires path != "" && !Fresh(c, path, now)
    ensures After(c, path, now, disk).payload != Reread(c.payload, disk)
            <==> Unchanged(c, path, disk) && Reread(c.payload, disk) != c.payload
  {
  }

  /** A file of another path is always read, and the file of the same path again at the first load ten
      seconds after the last look, not before; a look remembers path, instant and, of a file it could
      read, the stamp and the rules, if it has any. Without a path nothing is served or remembered. */
  lemma LooksAgainIff(c: Cache, path: string, now: int, disk: Disk)
    requires path != ""
    ensures var after := After(c, path, now, disk);
            var same := c.path == Some(path);
            var hidden := same && disk.Present? && c.stamp == Some(disk.stamp) && c.manifest.Some?;
            && (same && now < c.lastChecked + 10 ==> after == c)
            && (!same || now >= c.lastChecked + 10 ==>
                  && after.lastChecked == now
                  && (hidden ==> after == c.(lastChecked := now))
                  && (!hidden ==>
                        && after.path == Some(path) && after.payload == Reread(c.payload, disk)
                        && after.stamp == (if disk.Missing? || disk.content.Unreadable? then None else Some(disk.stamp))
                        && (disk.Present? && disk.content.Good? && HasRules(disk.content.manifest) ==>
                              after.manifest == Some(disk.content.manifest))))
            && Served(after, path) == after.payload
            && After(c, "", now, disk) == c && Served(c, "") == EMPTY
  {
  }

  const ALL := Manifest(["domain:a"], [], [], [], [], false, [], [])
  const NONE := Manifest([], [], [], [], [], false, [], [])

  /** An edit that keeps mtime and size is not seen: the premise of CacheIsTransparent counts. */
  lemma SameStampServesOldRules()
    ensures var loads := [Load(0, Present(1, Good(ALL))), Load(60, Present(1, Good(NONE)))];
            Cached("m", loads).payload == Compiled(ALL) != Referred(loads).payload
  {
    var loads := [Load(0, Present(1, Good(ALL))), Load(60, Present(1, Good(NONE)))];
    assert loads[..1] == [loads[0]] && loads[..1][..0] == [];
    assert Cached("m", loads[..1]) == Cache(Some("m"), 0, Some(1), Some(ALL), Compiled(ALL));
    assert Referred(loads[..1]) == Reference(Some(0), Compiled(ALL));
    assert Referred(loads) == Reference(Some(60), EMPTY);
    assert XrayRules(ALL)[0] == XrayRule(Direct, ["domain:a"], []);
  }

  /** Nor does the promise survive another path: a broken file there is answered with the rules
      of the file here. */
  lemma BrokenElsewhereServesOldPath(c: Cache, path: string, now: int, stamp: int)
    requires path != "" && c.path != Some(path)
    ensures Served(After(c, path, now, Present(stamp, Broken)), path) == c.payload
  {
  }
}
