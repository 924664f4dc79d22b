/**
 Building the continuum and dispatching on it, as the code does it: counting loops, nested fill loops, a sort, a
 binary search, and rebuilds triggered by retry times.
 */
module Continuum {
  import opened ContinuumModel
  import opened ClientModel

  const CONTINUUM_ADDITION: nat := 10

  ghost predicate SamePoints(a: seq<Point>, b: seq<Point>) {
    multiset(a) == multiset(b)
  }

  lemma SamePointsMembers(a: seq<Point>, b: seq<Point>)
    requires SamePoints(a, b)
    ensures |a| == |b| && forall p :: p in a <==> p in b
  {
    assert |a| == |multiset(a)| && |b| == |multiset(b)|;
    forall p
      ensures p in a <==> p in b
    {
      assert p in a <==> p in multiset(a);
      assert p in b <==> p in multiset(b);
    }
  }

  // ----- qsort with continuum_item_cmp; ties may come out in any order -----

  function Insert(p: Point, c: seq<Point>): seq<Point> {
    if c == [] || p.value <= c[0].value then [p] + c else [c[0]] + Insert(p, c[1..])
  }

  function SortPoints(c: seq<Point>): seq<Point> {
    if c == [] then [] else Insert(c[0], SortPoints(c[1..]))
  }

  lemma SortedCons(p: Point, c: seq<Point>)
    requires Sorted(c) && forall q :: q in c ==> p.value <= q.value
    ensures Sorted([p] + c)
  {
  }

  lemma {:induction false} InsertSorts(p: Point, c: seq<Point>)
    requires Sorted(c)
    ensures Sorted(Insert(p, c)) && multiset(Insert(p, c)) == multiset(c) + multiset{p}
  {
    if c == [] || p.value <= c[0].value {
      SortedCons(p, c);
    } else {
      InsertSorts(p, c[1..]);
      assert c == [c[0]] + c[1..];
      forall q | q in Insert(p, c[1..])
        ensures c[0].value <= q.value
      {
        assert q in multiset(Insert(p, c[1..]));
        assert q == p || q in c[1..];
      }
      SortedCons(c[0], Insert(p, c[1..]));
    }
  }

  lemma {:induction false} SortSorts(c: seq<Point>)
    ensures Sorted(SortPoints(c)) && SamePoints(SortPoints(c), c)
  {
    if c != [] {
      SortSorts(c[1..]);
      InsertSorts(c[0], SortPoints(c[1..]));
      assert c == [c[0]] + c[1..];
    }
  }

  method QSort(a: array<Point>, n: nat)
    requires n <= a.Length
    modifies a
    ensures Sorted(a[..n]) && SamePoints(a[..n], old(a[..n]))
    ensures a[n..] == old(a[n..])
  {
    var sorted := SortPoints(a[..n]);
    SortSorts(a[..n]);
    SamePointsMembers(sorted, a[..n]);
    forall i | 0 <= i < n {
      a[i] := sorted[i];
    }
    assert a[..n] == sorted;
  }

  /** The first point at or after the hash, or the first of all, owns it. */
  lemma OwnerAt(c: seq<Point>, hash: nat, r: nat)
    requires Sorted(c) && r < |c| && forall i :: 0 <= i < r ==> c[i].value < hash
    requires c[r].value >= hash || (r == 0 && forall i :: 0 <= i < |c| ==> c[i].value < hash)
    ensures Owns(PointSet(c), hash, c[r])
  {
    var all := PointSet(c);
    if c[r].value >= hash {
      assert c[r] in all;
    }
    forall q | q in all && (q.value >= hash || c[r].value < hash)
      ensures c[r].value <= q.value
    {
      var i :| 0 <= i < |c| && c[i] == q;
    }
  }

  /** dispatch_host on a continuum: the binary search finds the owner of the hash. */
  method DispatchHost(c: seq<Point>, hash: nat) returns (index: nat, ghost owner: Point)
    requires Sorted(c) && c != []
    ensures Owns(PointSet(c), hash, owner) && index == owner.index
    ensures exists p :: Owns(PointSet(c), hash, p) && index == p.index
  {
    var left, right := 0, |c|;
    while left < right
      invariant 0 <= left <= right <= |c|
      invariant forall i :: 0 <= i < left ==> c[i].value < hash
      invariant forall i :: right <= i < |c| ==> c[i].value >= hash
    {
      var middle := left + (right - left) / 2;
      if c[middle].value < hash {
        left := middle + 1;
      } else {
        right := middle;
      }
    }
    if right == |c| {
      right := 0;
    }
    OwnerAt(c, hash, right);
    return c[right].index, c[right];
  }

  class Memcached {
    const cfg: Config
    var servers: seq<Server>
    var continuum: array<Point>
    var continuumCount: nat
    var continuumPointsCounter: nat
    var nextDistributionRebuild: nat
    ghost var due: map<nat, nat>  // the servers that were dead at the last rebuild, with their retry times then

    constructor (cfg: Config, servers: seq<Server>)
      ensures Valid() && fresh(continuum) && this.cfg == cfg && this.servers == servers && Ring() == []
      ensures View() == Client(servers, {}, 0, map[])
    {
      this.cfg, this.servers := cfg, servers;
      continuum := new Point[0];
      continuumCount, continuumPointsCounter, nextDistributionRebuild, due := 0, 0, 0, map[];
    }

    function PointsPerServer(): nat {
      if cfg.weighted then POINTS_PER_SERVER_KETAMA else POINTS_PER_SERVER
    }

    ghost function Ring(): seq<Point>
      requires continuumPointsCounter <= continuum.Length
      reads this, continuum
    {
      continuum[..continuumPointsCounter]
    }

    ghost function View(): Client
      requires continuumPointsCounter <= continuum.Length
      reads this, continuum
    {
      Client(servers, PointSet(Ring()), nextDistributionRebuild, due)
    }

    /** The continuum was allocated for continuumCount servers under the same weighting, and is sorted. */
    ghost predicate Valid()
      reads this, continuum
    {
      && continuum.Length == continuumCount * PointsPerServer()
      && continuumPointsCounter <= continuum.Length
      && Sorted(Ring())
      && forall p :: p in Ring() ==> p.index < |servers|
    }

    /** The counting loop: live servers, and the earliest retry of the others. */
    method CountLiveServers(now: nat) returns (live: nat)
      requires cfg.autoEject
      modifies `nextDistributionRebuild
      ensures live == CountLive(cfg, servers, now) && nextDistributionRebuild == Earliest(servers, now)
      ensures EarliestRetry(servers, now, nextDistributionRebuild)
    {
      live := 0;
      nextDistributionRebuild := 0;
      for host := 0 to |servers|
        invariant live == CountLive(cfg, servers[..host], now)
        invariant nextDistributionRebuild == Earliest(servers[..host], now)
      {
        assert servers[..host + 1] == servers[..host] + [servers[host]];
        if servers[host].nextRetry <= now {
          live := live + 1;
        } else if nextDistributionRebuild == 0 || servers[host].nextRetry < nextDistributionRebuild {
          nextDistributionRebuild := servers[host].nextRetry;
        }
      }
      assert servers[..|servers|] == servers;
      EarliestIsLeast(servers, now);
    }

    /** The weighting loop: default weights, and the total of the live ones. */
    method TotalWeight(now: nat) returns (total: nat)
      modifies `servers
      ensures servers == AllDefaulted(old(servers))
      ensures forall i :: 0 <= i < |servers| ==>
                servers[i].weight == if old(servers)[i].weight == 0 then 1 else old(servers)[i].weight
      ensures total == LiveWeight(cfg, servers, now)
    {
      total := 0;
      for host := 0 to |servers|
        invariant |servers| == |old(servers)|
        invariant forall i :: 0 <= i < |servers| ==>
                    servers[i] == if i < host then Defaulted(old(servers)[i]) else old(servers)[i]
        invariant total == LiveWeight(cfg, servers[..host], now)
      {
        ghost var before := servers[..host];
        if servers[host].weight == 0 {
          servers := servers[host := servers[host].(weight := 1)];
        }
        if Live(cfg, servers[host], now) {
          total := total + servers[host].weight;
        }
        assert servers[..host + 1][..host] == before;
      }
      assert servers[..|servers|] == servers;
    }

    /** The entries for one label. */
    method WriteLabel(host: nat, tag: nat, at: nat)
      requires host < |servers| && at + PerHash(cfg) <= continuum.Length
      modifies continuum
      ensures continuum[..at + PerHash(cfg)] == old(continuum[..at]) + LabelPoints(cfg, servers[host], host, tag)
    {
      ghost var was, mine := continuum[..at], LabelPoints(cfg, servers[host], host, tag);
      for x := 0 to PerHash(cfg)
        invariant continuum[..at + x] == was + mine[..x]
      {
        continuum[at + x] := Point(host, cfg.hash(servers[host].hostname, servers[host].port, tag, x));
        assert continuum[..at + x + 1] == continuum[..at + x] + [continuum[at + x]];
      }
    }

    /** The inner loops for one host: its points, label after label. */
    method WriteServer(host: nat, at: nat, n: nat)
      requires host < |servers| && at + n <= continuum.Length && n % PerHash(cfg) == 0
      modifies continuum
      ensures continuum[..at + n] == old(continuum[..at]) + ServerPoints(cfg, servers[host], host, n)
    {
      ghost var was := continuum[..at];
      var done, tag := 0, 0;
      while done < n
        invariant done <= n && done % PerHash(cfg) == 0 && tag == done / PerHash(cfg)
        invariant continuum[..at + done] == was + ServerPoints(cfg, servers[host], host, done)
      {
        Aligned(done, n, PerHash(cfg));
        OneMoreLabel(cfg, servers[host], host, done);
        WriteLabel(host, tag, at + done);
        done, tag := done + PerHash(cfg), tag + 1;
      }
    }

    /** The loop over the hosts: writes exactly the points of a rebuild, and counts what it writes. */
    method WritePoints(now: nat, share: Server -> nat) returns (pointerCounter: nat)
      requires |AllPoints(cfg, servers, now, share, |servers|)| <= continuum.Length
      requires forall s :: share(s) % PerHash(cfg) == 0
      modifies continuum
      ensures pointerCounter <= continuum.Length
      ensures continuum[..pointerCounter] == AllPoints(cfg, servers, now, share, |servers|)
    {
      pointerCounter := 0;
      for host := 0 to |servers|
        invariant pointerCounter <= continuum.Length
        invariant continuum[..pointerCounter] == AllPoints(cfg, servers, now, share, host)
      {
        MorePoints(cfg, servers, now, share, host + 1);
        if Live(cfg, servers[host], now) {
          var pointerPerServer := share(servers[host]);
          WriteServer(host, pointerCounter, pointerPerServer);
          pointerCounter := pointerCounter + pointerPerServer;
        }
      }
    }

    /** The allocation step: enlarges the continuum when there are more live servers than it was made for. */
    method Grow(live: nat)
      requires Valid()
      modifies `continuum, `continuumCount
      ensures Valid() && live <= continuumCount && Ring() == old(Ring())
      ensures continuum == old(continuum) || fresh(continuum)
    {
      if live > continuumCount {
        var more := live + CONTINUUM_ADDITION;
        LongerProduct(continuumCount, more, PointsPerServer());
        var newPtr := new Point[more * PointsPerServer()](_ => Point(0, 0));
        forall i | 0 <= i < continuum.Length {
          newPtr[i] := continuum[i];
        }
        assert newPtr[..continuumPointsCounter] == Ring();
        continuum, continuumCount := newPtr, more;
      }
    }

    /** Writing and sorting, once the room is there. */
    method Rebuild(now: nat, live: nat, total: nat)
      requires continuum.Length == continuumCount * PointsPerServer() && |Build(cfg, servers, now)| <= continuum.Length
      requires live == CountLive(cfg, servers, now) > 0 && (cfg.weighted ==> total == LiveWeight(cfg, servers, now))
      modifies `continuumPointsCounter, continuum
      ensures Valid() && SamePoints(Ring(), Build(cfg, servers, now))
      ensures View() == Client(servers, PointSet(Build(cfg, servers, now)), nextDistributionRebuild, due)
      ensures forall p :: p in Ring() ==> Live(cfg, servers[p.index], now)
    {
      SameShares(cfg, servers, now, live, total, LiveWeight(cfg, servers, now), |servers|);
      AlignedShares(cfg, live, total);
      continuumPointsCounter := WritePoints(now, Shares(cfg, live, total));
      SortRing(Build(cfg, servers, now));
      assert PointSet(Ring()) == PointSet(Build(cfg, servers, now));
      BuildIsLive(cfg, servers, now);
    }

    method SortRing(ghost built: seq<Point>)
      requires continuumPointsCounter <= continuum.Length && Ring() == built
      modifies continuum
      ensures Sorted(Ring()) && SamePoints(Ring(), built) && forall p :: p in Ring() <==> p in built
    {
      QSort(continuum, continuumPointsCounter);
      SamePointsMembers(Ring(), built);
    }

    /** update_continuum.  With no live server the old continuum is kept. */
    method UpdateContinuum(now: nat)
      requires Valid() && (cfg.weighted ==> Exact(cfg))
      modifies this, continuum
      ensures Valid() && (continuum == old(continuum) || fresh(continuum))
      ensures View() == Rebuilt(cfg, old(View()), now)
      ensures CountLive(cfg, old(servers), now) == 0 ==> Ring() == old(Ring()) && servers == old(servers)
      ensures CountLive(cfg, old(servers), now) > 0 ==>
                && SamePoints(Ring(), Build(cfg, servers, now))
                && (cfg.weighted ==> forall i :: 0 <= i < |servers| ==> servers[i].weight > 0)
    {
      ghost var a := View();
      due := map i | 0 <= i < |servers| && !Live(cfg, servers[i], now) :: servers[i].nextRetry;
      var live := LiveServers(now);
      if live == 0 {
        return;
      }
      Grow(live);
      var total := 0;
      if cfg.weighted {
        DefaultedFacts(cfg, servers, now);
        total := TotalWeight(now);
      }
      Fits(cfg, servers, now, continuumCount);
      Rebuild(now, live, total);
      RebuiltIs(cfg, a, now, View());
    }

    method LiveServers(now: nat) returns (live: nat)
      modifies `nextDistributionRebuild
      ensures live == CountLive(cfg, servers, now)
      ensures cfg.autoEject ==> nextDistributionRebuild == Earliest(servers, now)
      ensures cfg.autoEject ==> EarliestRetry(servers, now, nextDistributionRebuild)
      ensures !cfg.autoEject ==> nextDistributionRebuild == old(nextDistributionRebuild)
    {
      if cfg.autoEject {
        live := CountLiveServers(now);
      } else {
        live := |servers|;
        AllLive(cfg, servers, now);
      }
    }

    // ----- what makes it rebuild -----

    /** run_distribution for the consistent distributions, without host sorting. */
    method RunDistribution(now: nat)
      requires Valid() && (cfg.weighted ==> Exact(cfg))
      modifies this, continuum
      ensures Valid() && (continuum == old(continuum) || fresh(continuum))
      ensures View() == Rebuilt(cfg, old(View()), now)
      ensures Ring() == [] ==> old(Ring()) == [] && CountLive(cfg, old(servers), now) == 0
    {
      SameLive(cfg, servers, now);
      UpdateContinuum(now);
      if CountLive(cfg, servers, now) > 0 {
        SamePointsMembers(Ring(), Build(cfg, servers, now));
        BuildNotEmpty(cfg, servers, now, Ring());
      }
    }

    /** memcached_connect, as far as dispatch goes. */
    method MemcachedConnect(s: nat, now: nat, at: nat, outcome: Outcome)
      requires Valid() && (cfg.weighted ==> Exact(cfg)) && s < |servers|
      modifies this, continuum
      ensures Valid() && (continuum == old(continuum) || fresh(continuum))
      ensures View() == Step(cfg, old(View()), Connect(s, now, at, outcome)) && (Ring() == [] ==> old(Ring()) == [])
    {
      var server := servers[s];
      if server.open {
        return;
      }
      if cfg.retryTimeout != 0 && server.nextRetry != 0 {
        if server.nextRetry > now {
          return;
        }
      }
      if cfg.failureLimit != 0 && server.failures >= cfg.failureLimit {
        if cfg.autoEject {
          RunDistribution(at);
        }
        return;
      }
      match outcome {
        case Reached =>
          servers := servers[s := server.(failures := 0, nextRetry := 0, open := true)];
        case Unreached(t) =>
          if cfg.retryTimeout != 0 {
            server := server.(nextRetry := t + cfg.retryTimeout);
          }
          servers := servers[s := server.(failures := server.failures + 1)];
        case Broken =>
          servers := servers[s := server.(failures := server.failures + 1)];
      }
    }

    /** memcached_quit_server: a lost connection counts as a failure, one closed on purpose wipes the failures out. */
    method QuitServer(s: nat, ioDeath: bool)
      requires Valid() && s < |servers|
      modifies `servers
      ensures Valid() && View() == Step(cfg, old(View()), if ioDeath then Lost(s) else Closed(s))
    {
      var server := servers[s];
      if server.open && !ioDeath {
        server := server.(failures := 0);
      }
      server := server.(open := false);
      if ioDeath {
        server := server.(failures := server.failures + 1);
      }
      servers := servers[s := server];
    }

    /** A read that succeeds. */
    method ReadSome(s: nat)
      requires Valid() && s < |servers|
      modifies `servers
      ensures Valid() && View() == Step(cfg, old(View()), Heard(s))
    {
      if servers[s].open {
        servers := servers[s := servers[s].(failures := 0)];
      }
    }

    /** server_add: a new server may not be tried before retryTimeout, which any real clock has passed. */
    method ServerAdd(hostname: string, port: nat, weight: nat, at: nat)
      requires Valid() && (cfg.weighted ==> Exact(cfg))
      modifies this, continuum
      ensures Valid() && (continuum == old(continuum) || fresh(continuum))
      ensures View() == Step(cfg, old(View()), Added(hostname, port, weight, at))
      ensures Ring() == [] ==> old(Ring()) == []
      ensures cfg.retryTimeout <= at ==> Ring() != []
    {
      servers := servers + [Server(hostname, port, weight, cfg.retryTimeout, 0, false)];
      assert cfg.retryTimeout <= at ==> Live(cfg, servers[|servers| - 1], at);
      NoneLive(cfg, servers, at);
      RunDistribution(at);
    }

    /** memcached_generate_hash_with_redistribution: rebuild if the rebuild time has passed, then dispatch. */
    method GenerateHashWithRedistribution(hash: nat, now: nat) returns (index: nat, ghost owner: Point)
      requires Valid() && (cfg.weighted ==> Exact(cfg)) && Ring() != []
      modifies this, continuum
      ensures Valid() && Ring() != [] && (continuum == old(continuum) || fresh(continuum))
      ensures View() == Step(cfg, old(View()), Lookup(hash, now))
      ensures old(Watched(cfg, View())) ==> Watched(cfg, View()) && Fresh(cfg, View(), now)
      ensures Owns(View().points, hash, owner) && index == owner.index < |servers|
    {
      ghost var a := View();
      if cfg.autoEject && nextDistributionRebuild != 0 && now > nextDistributionRebuild {
        RunDistribution(now);
      }
      index, owner := DispatchHost(continuum[..continuumPointsCounter], hash);
      if Watched(cfg, a) {
        StepKeepsWatched(cfg, a, Lookup(hash, now));
        LookupIsFresh(cfg, a, hash, now);
      }
    }
  }

  /** Two rebuilds, with server s live and with it ejected, dispatch alike every hash that does not go to s; read
      the other way, letting s join moves hashes to s only. */
  lemma EjectionMovesOnlyItsOwn(cfg: Config, servers: seq<Server>, after: seq<Server>, now: nat, s: nat,
                                c: set<Point>, c': set<Point>, h: nat, p: Point, p': Point)
    requires !cfg.weighted && s < |servers| == |after|
    requires forall i :: 0 <= i < |servers| ==>
               servers[i].hostname == after[i].hostname && servers[i].port == after[i].port
    requires forall i :: 0 <= i < |servers| && i != s ==> (Live(cfg, after[i], now) <==> Live(cfg, servers[i], now))
    requires Live(cfg, servers[s], now) && !Live(cfg, after[s], now)
    requires c == PointSet(Build(cfg, servers, now)) && c' == PointSet(Build(cfg, after, now)) && DistinctValues(c)
    requires Owns(c, h, p) && Owns(c', h, p')
    ensures p.index != s ==> p'.index == p.index
    ensures p'.index != p.index ==> p.index == s
  {
    EjectedBuild(cfg, servers, after, now, s);
    MinimalDisruption(c, c', s, h, p, p');
  }

  method OneEvent(m: Memcached, e: Event) returns (index: nat)
    requires m.Valid() && (m.cfg.weighted ==> Exact(m.cfg)) && m.Ring() != []
    modifies m, m.continuum
    ensures m.Valid() && m.Ring() != [] && (m.continuum == old(m.continuum) || fresh(m.continuum))
    ensures m.View() == Step(m.cfg, old(m.View()), e)
    ensures e.Lookup? ==> index < |m.servers| && exists p :: Owns(m.View().points, e.hash, p) && index == p.index
  {
    index := 0;
    match e {
      case Lookup(hash, now) =>
        ghost var owner;
        index, owner := m.GenerateHashWithRedistribution(hash, now);
      case Connect(s, now, at, outcome) =>
        if s < |m.servers| { m.MemcachedConnect(s, now, at, outcome); }
      case Lost(s) =>
        if s < |m.servers| { m.QuitServer(s, true); }
      case Heard(s) =>
        if s < |m.servers| { m.ReadSome(s); }
      case Closed(s) =>
        if s < |m.servers| { m.QuitServer(s, false); }
      case Added(hostname, port, weight, at) =>
        m.ServerAdd(hostname, port, weight, at);
      case Redistribute(at) =>
        m.RunDistribution(at);
    }
  }

  /** Over every run, every lookup is answered by the owner of its hash, the client ends as the events say, and after
      every lookup ejection is not stale. */
  method Run(m: Memcached, events: seq<Event>) returns (answers: seq<nat>)
    requires m.Valid() && (m.cfg.weighted ==> Exact(m.cfg)) && m.Ring() != []
    modifies m, m.continuum
    ensures m.Valid() && m.Ring() != []
    ensures m.View() == AfterAll(m.cfg, old(m.View()), events)
    ensures |answers| == |events| && AllAnswered(m.cfg, old(m.View()), events, answers)
    ensures old(Watched(m.cfg, m.View())) ==> NeverStale(m.cfg, old(m.View()), events)
  {
    answers := [];
    ghost var start := m.View();
    for n := 0 to |events|
      invariant m.Valid() && m.Ring() != [] && (m.continuum == old(m.continuum) || fresh(m.continuum))
      invariant m.View() == AfterAll(m.cfg, start, events[..n])
      invariant |answers| == n && AllAnswered(m.cfg, start, events, answers)
    {
      AfterOneMore(m.cfg, start, events, n);
      var index := OneEvent(m, events[n]);
      OneMoreAnswer(m.cfg, start, events, answers, index);
      answers := answers + [index];
    }
    assert events[..|events|] == events;
    if Watched(m.cfg, start) {
      RunIsNeverStale(m.cfg, start, events);
    }
  }

  /** The client that a first server makes. */
  function FirstServer(cfg: Config, hostname: string, port: nat, weight: nat, at: nat): Client {
    Step(cfg, NewClient(), Added(hostname, port, weight, at))
  }

  /** From a new client on, with a first server added at a time at which it may be tried: all lookups are answered
      by the owner of their hash, and ejection is never stale. */
  method NewClientRun(cfg: Config, hostname: string, port: nat, weight: nat, at: nat, events: seq<Event>)
    returns (answers: seq<nat>)
    requires (cfg.weighted ==> Exact(cfg)) && cfg.retryTimeout <= at
    ensures |answers| == |events|
    ensures AllAnswered(cfg, FirstServer(cfg, hostname, port, weight, at), events, answers)
    ensures NeverStale(cfg, FirstServer(cfg, hostname, port, weight, at), events)
    ensures Monotone(events, at) ==> NeverLate(cfg, FirstServer(cfg, hostname, port, weight, at), events)
  {
    var m := new Memcached(cfg, []);
    assert Watched(cfg, m.View());
    m.ServerAdd(hostname, port, weight, at);
    StepKeepsWatched(cfg, NewClient(), Added(hostname, port, weight, at));
    if Monotone(events, at) {
      StepKeepsTimely(cfg, NewClient(), Added(hostname, port, weight, at), 0);
      RunIsNeverLate(cfg, FirstServer(cfg, hostname, port, weight, at), events, at);
    }
    answers := Run(m, events);
  }

  lemma BuildNotEmpty(cfg: Config, servers: seq<Server>, now: nat, c: seq<Point>)
    requires CountLive(cfg, servers, now) > 0 && (cfg.weighted ==> Exact(cfg)) && |c| == |Build(cfg, servers, now)|
    requires cfg.weighted ==> forall i :: 0 <= i < |servers| ==> servers[i].weight > 0
    ensures c != []
  {
    if cfg.weighted {
      BuildSize(cfg, servers, now);
    } else {
      assert servers[..|servers|] == servers;
      PlainCount(cfg, servers, now, CountLive(cfg, servers, now), LiveWeight(cfg, servers, now), |servers|);
    }
  }

  function LabelPoints(cfg: Config, s: Server, h: nat, tag: nat): seq<Point> {
    seq(PerHash(cfg), x requires 0 <= x < PerHash(cfg) => Point(h, cfg.hash(s.hostname, s.port, tag, x)))
  }

  lemma Aligned(done: nat, n: nat, p: nat)
    requires (p == 1 || p == 4) && done < n && done % p == 0 && n % p == 0
    ensures done + p <= n && (done + p) % p == 0 && (done + p) / p == done / p + 1
  {
    if p == 4 {
      assert done % 4 == 0 && n % 4 == 0;
      assert done + 4 <= n && (done + 4) % 4 == 0 && (done + 4) / 4 == done / 4 + 1;
    } else {
      assert done / 1 == done && (done + 1) / 1 == done + 1 && (done + 1) % 1 == 0;
    }
  }

  lemma OneMoreLabel(cfg: Config, s: Server, h: nat, n: nat)
    requires n % PerHash(cfg) == 0
    ensures ServerPoints(cfg, s, h, n + PerHash(cfg)) ==
            ServerPoints(cfg, s, h, n) + LabelPoints(cfg, s, h, n / PerHash(cfg))
  {
  }

  lemma {:induction false} MorePoints(cfg: Config, servers: seq<Server>, now: nat, share: Server -> nat, n: nat)
    requires n <= |servers|
    ensures |AllPoints(cfg, servers, now, share, n)| <= |AllPoints(cfg, servers, now, share, |servers|)|
    decreases |servers| - n
  {
    if n < |servers| {
      MorePoints(cfg, servers, now, share, n + 1);
    }
  }

  /** Default weights change neither who is live nor who is dead and until when. */
  lemma DefaultedFacts(cfg: Config, servers: seq<Server>, now: nat)
    ensures CountLive(cfg, AllDefaulted(servers), now) == CountLive(cfg, servers, now)
    ensures forall i :: 0 <= i < |servers| ==> AllDefaulted(servers)[i].weight > 0
  {
    SameLive(cfg, servers, now);
  }

  lemma RebuiltIs(cfg: Config, a: Client, now: nat, b: Client)
    requires CountLive(cfg, a.servers, now) > 0
    requires b.servers == if cfg.weighted then AllDefaulted(a.servers) else a.servers
    requires b.rebuild == if cfg.autoEject then Earliest(a.servers, now) else a.rebuild
    requires b.points == PointSet(Build(cfg, b.servers, now))
    requires b.due == map i | 0 <= i < |a.servers| && !Live(cfg, a.servers[i], now) :: a.servers[i].nextRetry
    ensures b == Rebuilt(cfg, a, now)
  {
  }

  lemma BuildIsLive(cfg: Config, servers: seq<Server>, now: nat)
    ensures forall p :: p in Build(cfg, servers, now) ==> p.index < |servers| && Live(cfg, servers[p.index], now)
  {
    PointsAreLive(cfg, servers, now, Shares(cfg, CountLive(cfg, servers, now), LiveWeight(cfg, servers, now)),
                  |servers|);
  }

  lemma AlignedShares(cfg: Config, live: nat, total: nat)
    ensures forall s :: Shares(cfg, live, total)(s) % PerHash(cfg) == 0
  {
  }

  lemma LongerProduct(a: nat, b: nat, t: nat)
    requires a <= b
    ensures a * t <= b * t
  {
  }

  /** What a rebuild writes fits an array made for at least as many servers under the same weighting. */
  lemma Fits(cfg: Config, servers: seq<Server>, now: nat, count: nat)
    requires cfg.weighted ==> Exact(cfg) && forall i :: 0 <= i < |servers| ==> servers[i].weight > 0
    requires 0 < CountLive(cfg, servers, now) <= count
    ensures |Build(cfg, servers, now)| <= count * (if cfg.weighted then POINTS_PER_SERVER_KETAMA else POINTS_PER_SERVER)
  {
    if cfg.weighted {
      BuildSize(cfg, servers, now);
    } else {
      assert servers[..|servers|] == servers;
      PlainCount(cfg, servers, now, CountLive(cfg, servers, now), LiveWeight(cfg, servers, now), |servers|);
    }
  }

  /** Without weighting the total weight plays no part. */
  lemma {:induction false} SameShares(cfg: Config, servers: seq<Server>, now: nat, live: nat, a: nat, b: nat, n: nat)
    requires n <= |servers| && (cfg.weighted ==> a == b)
    ensures AllPoints(cfg, servers, now, Shares(cfg, live, a), n) ==
              AllPoints(cfg, servers, now, Shares(cfg, live, b), n)
  {
    if n != 0 {
      SameShares(cfg, servers, now, live, a, b, n - 1);
    }
  }

  /** Default weights do not change who is live. */
  lemma {:induction false} SameLive(cfg: Config, servers: seq<Server>, now: nat)
    ensures CountLive(cfg, AllDefaulted(servers), now) == CountLive(cfg, servers, now)
  {
    if servers != [] {
      var n := |servers| - 1;
      assert AllDefaulted(servers)[..n] == AllDefaulted(servers[..n]);
      SameLive(cfg, servers[..n], now);
    }
  }

  lemma {:induction false} AllLive(cfg: Config, servers: seq<Server>, now: nat)
    requires !cfg.autoEject
    ensures CountLive(cfg, servers, now) == |servers|
  {
    if servers != [] {
      AllLive(cfg, servers[..|servers| - 1], now);
    }
  }
}
