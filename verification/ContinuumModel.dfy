/**
 Consistent hashing on values: which points the servers contribute, who owns a hash, and what that implies when a
 server leaves or joins.
 */
module ContinuumModel {

  const POINTS_PER_SERVER: nat := 100
  const POINTS_PER_SERVER_KETAMA: nat := 160

  datatype Server = Server(hostname: string, port: nat, weight: nat, nextRetry: nat, failures: nat, open: bool)

  datatype Point = Point(index: nat, value: nat)

  /** `hash` stands for the digest of the label made of hostname, port and point number, and in weighted mode the
      position within the MD5 signature.  `quota` is the code's floating-point computation of how many labels a
      server of a given weight gets, out of the number of live servers and their total weight.  The last two are the
      seconds before a failed server is tried again and the number of failures after which it is not, 0 for never. */
  datatype Config = Config(autoEject: bool, weighted: bool, hash: (string, nat, nat, nat) -> nat,
                           quota: (nat, nat, nat) -> nat, retryTimeout: nat, failureLimit: nat)

  /** The quota in exact arithmetic: the whole part of a server's share of 40 labels per live server. */
  ghost predicate Exact(cfg: Config) {
    forall weight: nat, live: nat, total: nat :: total > 0 ==>
      cfg.quota(weight, live, total) == 40 * live * weight / total
  }

  predicate Live(cfg: Config, s: Server, now: nat) {
    !cfg.autoEject || s.nextRetry <= now
  }

  // ----- the points -----

  function CountLive(cfg: Config, servers: seq<Server>, now: nat): nat {
    if servers == [] then 0
    else CountLive(cfg, servers[..|servers| - 1], now) + (if Live(cfg, servers[|servers| - 1], now) then 1 else 0)
  }

  function LiveWeight(cfg: Config, servers: seq<Server>, now: nat): nat {
    if servers == [] then 0
    else LiveWeight(cfg, servers[..|servers| - 1], now)
         + (if Live(cfg, servers[|servers| - 1], now) then servers[|servers| - 1].weight else 0)
  }

  /** Points of one live server: a fixed number, or four for each label of its quota. */
  function Share(cfg: Config, s: Server, live: nat, total: nat): nat {
    if cfg.weighted then 4 * cfg.quota(s.weight, live, total) else POINTS_PER_SERVER
  }

  function PerHash(cfg: Config): nat { if cfg.weighted then 4 else 1 }

  function ServerPoints(cfg: Config, s: Server, h: nat, n: nat): seq<Point> {
    seq(n, j requires 0 <= j < n => Point(h, cfg.hash(s.hostname, s.port, j / PerHash(cfg), j % PerHash(cfg))))
  }

  /** All points of the first n hosts, host after host, as the code writes them before sorting. */
  function AllPoints(cfg: Config, servers: seq<Server>, now: nat, share: Server -> nat, n: nat): seq<Point>
    requires n <= |servers|
  {
    if n == 0 then []
    else
      AllPoints(cfg, servers, now, share, n - 1)
      + (if Live(cfg, servers[n - 1], now) then ServerPoints(cfg, servers[n - 1], n - 1, share(servers[n - 1])) else [])
  }

  function Shares(cfg: Config, live: nat, total: nat): Server -> nat {
    (s: Server) => Share(cfg, s, live, total)
  }

  /** What a rebuild at time `now` puts on the continuum. */
  function Build(cfg: Config, servers: seq<Server>, now: nat): seq<Point> {
    AllPoints(cfg, servers, now, Shares(cfg, CountLive(cfg, servers, now), LiveWeight(cfg, servers, now)), |servers|)
  }

  /** Every point names a live server and is one of that server's own. */
  lemma {:induction false} PointsAreLive(cfg: Config, servers: seq<Server>, now: nat, share: Server -> nat, n: nat)
    requires n <= |servers|
    ensures forall p :: p in AllPoints(cfg, servers, now, share, n) <==>
              p.index < n && Live(cfg, servers[p.index], now)
              && p in ServerPoints(cfg, servers[p.index], p.index, share(servers[p.index]))
  {
    if n != 0 {
      PointsAreLive(cfg, servers, now, share, n - 1);
      assert forall p :: p in ServerPoints(cfg, servers[n - 1], n - 1, share(servers[n - 1])) ==> p.index == n - 1;
    }
  }

  // ----- label by label -----

  /** Label t of server i and the position x in its signature give the server one of its entries: in weighted mode there
      are as many labels as the quota and four positions, otherwise 100 labels with one. */
  ghost predicate IsEntry(cfg: Config, servers: seq<Server>, now: nat, i: nat, t: nat, x: nat) {
    && i < |servers| && Live(cfg, servers[i], now)
    && if cfg.weighted
       then t < cfg.quota(servers[i].weight, CountLive(cfg, servers, now), LiveWeight(cfg, servers, now)) && x < 4
       else t < 100 && x == 0
  }

  function EntryPoint(cfg: Config, servers: seq<Server>, i: nat, t: nat, x: nat): Point
    requires i < |servers|
  {
    Point(i, cfg.hash(servers[i].hostname, servers[i].port, t, x))
  }

  /** Where the rebuild writes it. */
  function Position(cfg: Config, servers: seq<Server>, now: nat, i: nat, t: nat, x: nat): nat
    requires i <= |servers|
  {
    var share := Shares(cfg, CountLive(cfg, servers, now), LiveWeight(cfg, servers, now));
    |AllPoints(cfg, servers, now, share, i)| + (if cfg.weighted then 4 * t + x else t)
  }

  lemma {:induction false} AllPointsPrefix(cfg: Config, servers: seq<Server>, now: nat, share: Server -> nat, m: nat,
                                           n: nat)
    requires m <= n <= |servers|
    ensures AllPoints(cfg, servers, now, share, m) <= AllPoints(cfg, servers, now, share, n)
  {
    if m < n {
      AllPointsPrefix(cfg, servers, now, share, m, n - 1);
    }
  }

  lemma EntryIn(cfg: Config, s: Server, h: nat, n: nat, t: nat, x: nat)
    requires if cfg.weighted then 4 * t + x < n && x < 4 else t < n && x == 0
    ensures var j := if cfg.weighted then 4 * t + x else t;
            ServerPoints(cfg, s, h, n)[j] == Point(h, cfg.hash(s.hostname, s.port, t, x))
  {
    var j, p := if cfg.weighted then 4 * t + x else t, PerHash(cfg);
    assert j / p == t && j % p == x;
    assert ServerPoints(cfg, s, h, n)[j] == Point(h, cfg.hash(s.hostname, s.port, j / p, j % p));
  }

  lemma NextServer(cfg: Config, servers: seq<Server>, now: nat, share: Server -> nat, i: nat, j: nat)
    requires i < |servers| && Live(cfg, servers[i], now) && j < share(servers[i])
    ensures var before := AllPoints(cfg, servers, now, share, i);
            var all := AllPoints(cfg, servers, now, share, |servers|);
            && |AllPoints(cfg, servers, now, share, i + 1)| == |before| + share(servers[i]) <= |all|
            && all[|before| + j] == ServerPoints(cfg, servers[i], i, share(servers[i]))[j]
  {
    AllPointsPrefix(cfg, servers, now, share, i + 1, |servers|);
    var next := AllPoints(cfg, servers, now, share, i + 1);
    assert next == AllPoints(cfg, servers, now, share, i) + ServerPoints(cfg, servers[i], i, share(servers[i]));
  }

  /** Every entry is written, at its own place. */
  lemma EntryWritten(cfg: Config, servers: seq<Server>, now: nat, i: nat, t: nat, x: nat)
    requires IsEntry(cfg, servers, now, i, t, x)
    ensures var at := Position(cfg, servers, now, i, t, x);
            && at < Position(cfg, servers, now, i + 1, 0, 0) <= |Build(cfg, servers, now)|
            && Build(cfg, servers, now)[at] == EntryPoint(cfg, servers, i, t, x)
  {
    var share := Shares(cfg, CountLive(cfg, servers, now), LiveWeight(cfg, servers, now));
    EntryIn(cfg, servers[i], i, share(servers[i]), t, x);
    NextServer(cfg, servers, now, share, i, if cfg.weighted then 4 * t + x else t);
  }

  /** And nothing else is: each place is that of exactly one entry. */
  lemma {:induction false} PlaceOf(cfg: Config, servers: seq<Server>, now: nat, n: nat, at: nat)
    returns (i: nat, t: nat, x: nat)
    requires n <= |servers| && at < Position(cfg, servers, now, n, 0, 0)
    ensures i < n && IsEntry(cfg, servers, now, i, t, x) && at == Position(cfg, servers, now, i, t, x)
  {
    var share := Shares(cfg, CountLive(cfg, servers, now), LiveWeight(cfg, servers, now));
    var start := |AllPoints(cfg, servers, now, share, n - 1)|;
    if at < start {
      i, t, x := PlaceOf(cfg, servers, now, n - 1, at);
    } else {
      i := n - 1;
      t, x := if cfg.weighted then (at - start) / 4 else at - start, if cfg.weighted then (at - start) % 4 else 0;
    }
  }

  lemma EarlierServer(cfg: Config, servers: seq<Server>, now: nat, i: nat, t: nat, x: nat, i': nat, t': nat, x': nat)
    requires IsEntry(cfg, servers, now, i, t, x) && i < i' < |servers|
    ensures Position(cfg, servers, now, i, t, x) < Position(cfg, servers, now, i', t', x')
  {
    EntryWritten(cfg, servers, now, i, t, x);
    var share := Shares(cfg, CountLive(cfg, servers, now), LiveWeight(cfg, servers, now));
    AllPointsPrefix(cfg, servers, now, share, i + 1, i');
  }

  lemma OnePlaceEach(cfg: Config, servers: seq<Server>, now: nat, i: nat, t: nat, x: nat, i': nat, t': nat, x': nat)
    requires IsEntry(cfg, servers, now, i, t, x) && IsEntry(cfg, servers, now, i', t', x')
    requires Position(cfg, servers, now, i, t, x) == Position(cfg, servers, now, i', t', x')
    ensures i == i' && t == t' && x == x'
  {
    if i < i' {
      EarlierServer(cfg, servers, now, i, t, x, i', t', x');
    } else if i' < i {
      EarlierServer(cfg, servers, now, i', t', x', i, t, x);
    }
  }

  /** The continuum holds, for every live server, the hash values of all its labels, and no others. */
  lemma BuildIsLabels(cfg: Config, servers: seq<Server>, now: nat, p: Point)
    ensures p in Build(cfg, servers, now) <==>
            exists i: nat, t: nat, x: nat ::
              IsEntry(cfg, servers, now, i, t, x) && p == EntryPoint(cfg, servers, i, t, x)
  {
    if p in Build(cfg, servers, now) {
      var at :| 0 <= at < |Build(cfg, servers, now)| && Build(cfg, servers, now)[at] == p;
      var i, t, x := PlaceOf(cfg, servers, now, |servers|, at);
      EntryWritten(cfg, servers, now, i, t, x);
    }
    forall i: nat, t: nat, x: nat | IsEntry(cfg, servers, now, i, t, x)
      ensures EntryPoint(cfg, servers, i, t, x) in Build(cfg, servers, now)
    {
      EntryWritten(cfg, servers, now, i, t, x);
    }
  }

  // ----- the number of points -----

  lemma {:induction false} PlainCount(cfg: Config, servers: seq<Server>, now: nat, live: nat, total: nat, n: nat)
    requires n <= |servers| && !cfg.weighted
    ensures |AllPoints(cfg, servers, now, Shares(cfg, live, total), n)| ==
              POINTS_PER_SERVER * CountLive(cfg, servers[..n], now)
  {
    if n != 0 {
      PlainCount(cfg, servers, now, live, total, n - 1);
      assert servers[..n][..n - 1] == servers[..n - 1];
    }
  }

  /** How far the written points lag behind the exact share: less than four per server. */
  ghost predicate Near(len: nat, count: nat, exact: nat, total: nat) {
    len * total <= exact && exact <= (len + 4 * count) * total && (count > 0 ==> exact < (len + 4 * count) * total)
  }

  lemma NearStep(len: nat, count: nat, exact: nat, total: nat, x: nat)
    requires total > 0 && Near(len, count, exact, total)
    ensures Near(len + 4 * (x / total), count + 1, exact + 4 * x, total)
  {
    var q := x / total;
    assert q * total <= x < q * total + total;
    assert (len + 4 * q) * total == len * total + 4 * (q * total);
    assert (len + 4 * q + 4 * (count + 1)) * total == (len + 4 * count) * total + 4 * (q * total) + 4 * total;
  }

  lemma ShareSum(live: nat, before: nat, w: nat)
    ensures 160 * live * (before + w) == 160 * live * before + 4 * (40 * live * w)
  {
    assert 160 * live * (before + w) == 160 * live * before + 160 * live * w;
  }

  lemma {:induction false} WeightedCount(cfg: Config, servers: seq<Server>, now: nat, live: nat, total: nat, n: nat)
    requires n <= |servers| && cfg.weighted && Exact(cfg) && total > 0
    ensures Near(|AllPoints(cfg, servers, now, Shares(cfg, live, total), n)|, CountLive(cfg, servers[..n], now),
                 160 * live * LiveWeight(cfg, servers[..n], now), total)
  {
    if n != 0 {
      WeightedCount(cfg, servers, now, live, total, n - 1);
      assert servers[..n][..n - 1] == servers[..n - 1];
      var s, before := servers[n - 1], LiveWeight(cfg, servers[..n - 1], now);
      if Live(cfg, s, now) {
        NearStep(|AllPoints(cfg, servers, now, Shares(cfg, live, total), n - 1)|, CountLive(cfg, servers[..n - 1], now),
                 160 * live * before, total, 40 * live * s.weight);
        ShareSum(live, before, s.weight);
      }
    }
  }

  lemma {:induction false} LiveWeightPositive(cfg: Config, servers: seq<Server>, now: nat)
    requires forall i :: 0 <= i < |servers| ==> servers[i].weight > 0
    ensures CountLive(cfg, servers, now) <= LiveWeight(cfg, servers, now)
  {
    if servers != [] {
      LiveWeightPositive(cfg, servers[..|servers| - 1], now);
    }
  }

  /** With L live servers a rebuild writes 100 L points, or in weighted mode at most 160 L and more than 156 L. */
  lemma BuildSize(cfg: Config, servers: seq<Server>, now: nat)
    requires cfg.weighted ==> Exact(cfg)
    requires forall i :: 0 <= i < |servers| ==> servers[i].weight > 0
    requires CountLive(cfg, servers, now) > 0
    ensures var live := CountLive(cfg, servers, now);
            var size := |Build(cfg, servers, now)|;
            if cfg.weighted then 156 * live < size <= 160 * live else size == 100 * live
  {
    var live, total := CountLive(cfg, servers, now), LiveWeight(cfg, servers, now);
    assert servers[..|servers|] == servers;
    if cfg.weighted {
      LiveWeightPositive(cfg, servers, now);
      WeightedCount(cfg, servers, now, live, total, |servers|);
      var len := |Build(cfg, servers, now)|;
      assert len * total <= (160 * live) * total < (len + 4 * live) * total;
      Larger(len, 160 * live, total);
      Larger(160 * live + 1, len + 4 * live, total);
      Larger(160 * live, len + 4 * live, total);
    } else {
      PlainCount(cfg, servers, now, live, total, |servers|);
    }
  }

  // ----- when a rebuild overflows -----

  /** The whole part of a server's share of 40 labels per live server. */
  function Part(weight: nat, live: nat, total: nat): nat
    requires total > 0
  {
    40 * live * weight / total
  }

  /** The labels of the live servers. */
  function Labels(cfg: Config, servers: seq<Server>, now: nat, live: nat, total: nat): nat
    requires total > 0
  {
    if servers == [] then 0
    else
      Labels(cfg, servers[..|servers| - 1], now, live, total)
      + (if Live(cfg, servers[|servers| - 1], now) then Part(servers[|servers| - 1].weight, live, total) else 0)
  }

  lemma {:induction false} FourPerLabel(cfg: Config, servers: seq<Server>, now: nat, live: nat, total: nat, n: nat)
    requires n <= |servers| && cfg.weighted && Exact(cfg) && total > 0
    ensures |AllPoints(cfg, servers, now, Shares(cfg, live, total), n)| ==
              4 * Labels(cfg, servers[..n], now, live, total)
  {
    if n != 0 {
      FourPerLabel(cfg, servers, now, live, total, n - 1);
      assert servers[..n][..n - 1] == servers[..n - 1];
    }
  }

  /** Switching to weighted mode keeps an array made for `count` servers at 100 points each as long as no more than
      `count` are live.  A rebuild then writes behind its end exactly when it has more than 25 labels per server the
      array was made for. */
  lemma SwitchOverflows(cfg: Config, servers: seq<Server>, now: nat, count: nat)
    requires cfg.weighted && Exact(cfg) && forall i :: 0 <= i < |servers| ==> servers[i].weight > 0
    requires 0 < CountLive(cfg, servers, now) <= count
    ensures LiveWeight(cfg, servers, now) > 0
    ensures |Build(cfg, servers, now)| > POINTS_PER_SERVER * count <==>
            Labels(cfg, servers, now, CountLive(cfg, servers, now), LiveWeight(cfg, servers, now)) > 25 * count
    ensures 39 * CountLive(cfg, servers, now) >= 25 * count ==> |Build(cfg, servers, now)| > POINTS_PER_SERVER * count
  {
    LiveWeightPositive(cfg, servers, now);
    BuildSize(cfg, servers, now);
    FourPerLabel(cfg, servers, now, CountLive(cfg, servers, now), LiveWeight(cfg, servers, now), |servers|);
    assert servers[..|servers|] == servers;
  }

  /** The same servers with other weights. */
  ghost predicate Reweighted(servers: seq<Server>, others: seq<Server>) {
    && |others| == |servers|
    && forall i :: 0 <= i < |servers| ==> others[i].weight > 0 && others[i].(weight := servers[i].weight) == servers[i]
  }

  lemma {:induction false} SameLiveCount(cfg: Config, servers: seq<Server>, others: seq<Server>, now: nat)
    requires Reweighted(servers, others)
    ensures CountLive(cfg, others, now) == CountLive(cfg, servers, now)
  {
    if servers != [] {
      var n := |servers| - 1;
      assert others[n].(weight := servers[n].weight) == servers[n];
      SameLiveCount(cfg, servers[..n], others[..n], now);
    }
  }

  function WeightOne(servers: seq<Server>): seq<Server> {
    seq(|servers|, i requires 0 <= i < |servers| => servers[i].(weight := 1))
  }

  lemma NoRemainder(live: nat)
    requires live > 0
    ensures Part(1, live, live) == 40
  {
    var q, r := Part(1, live, live), 40 * live % live;
    assert 40 * live == q * live + r;
    Larger(40, q, live);
    Larger(q, 40, live);
  }

  lemma {:induction false} EqualLabels(cfg: Config, servers: seq<Server>, now: nat, live: nat)
    requires live > 0 && forall i :: 0 <= i < |servers| ==> servers[i].weight == 1
    ensures LiveWeight(cfg, servers, now) == CountLive(cfg, servers, now)
    ensures Labels(cfg, servers, now, live, live) == 40 * CountLive(cfg, servers, now)
  {
    if servers != [] {
      EqualLabels(cfg, servers[..|servers| - 1], now, live);
      NoRemainder(live);
    }
  }

  /** Equal weights leave no remainder. */
  lemma EqualWeightsFill(cfg: Config, servers: seq<Server>, now: nat)
    requires cfg.weighted && Exact(cfg) && CountLive(cfg, servers, now) > 0
    ensures Reweighted(servers, WeightOne(servers))
    ensures |Build(cfg, WeightOne(servers), now)| == 160 * CountLive(cfg, servers, now)
  {
    var others, live := WeightOne(servers), CountLive(cfg, servers, now);
    assert Reweighted(servers, others);
    SameLiveCount(cfg, servers, others, now);
    EqualLabels(cfg, others, now, live);
    FourPerLabel(cfg, others, now, live, live, |others|);
    assert others[..|others|] == others;
  }

  /** Whatever the weights, the rebuild fits: that holds exactly while eight live servers come on five the array was
      made for. */
  lemma NoWeightingOverflows(cfg: Config, servers: seq<Server>, now: nat, count: nat)
    requires cfg.weighted && Exact(cfg) && 0 < CountLive(cfg, servers, now) <= count
    ensures (forall others :: Reweighted(servers, others) ==> |Build(cfg, others, now)| <= POINTS_PER_SERVER * count)
            <==> 8 * CountLive(cfg, servers, now) <= 5 * count
  {
    EqualWeightsFill(cfg, servers, now);
    forall others | Reweighted(servers, others)
      ensures |Build(cfg, others, now)| <= 160 * CountLive(cfg, servers, now)
    {
      SameLiveCount(cfg, servers, others, now);
      BuildSize(cfg, others, now);
    }
  }

  lemma Larger(a: nat, b: nat, t: nat)
    ensures a > b ==> a * t >= b * t + t
    ensures a == b ==> a * t == b * t
  {
    if a > b {
      var d: nat := a - b - 1;
      Distribute(b, d, t);
    }
  }

  lemma Distribute(b: nat, d: nat, t: nat)
    ensures (b + 1 + d) * t == b * t + t + d * t && d * t >= 0
  {
  }

  /** A live server has a point exactly when its share is not empty. */
  lemma HasPoints(cfg: Config, servers: seq<Server>, now: nat, h: nat)
    requires h < |servers| && Live(cfg, servers[h], now)
    ensures (exists p :: p in Build(cfg, servers, now) && p.index == h) <==>
            Share(cfg, servers[h], CountLive(cfg, servers, now), LiveWeight(cfg, servers, now)) > 0
  {
    var live, total := CountLive(cfg, servers, now), LiveWeight(cfg, servers, now);
    PointsAreLive(cfg, servers, now, Shares(cfg, live, total), |servers|);
    var own := ServerPoints(cfg, servers[h], h, Share(cfg, servers[h], live, total));
    if own != [] {
      assert own[0] in own && own[0].index == h;
      assert own[0] in Build(cfg, servers, now);
    }
  }

  /** A live server can still end up without a point: in weighted mode, exactly when its weight is too small a
      part of the total. */
  lemma PointlessServer(cfg: Config, servers: seq<Server>, now: nat, h: nat)
    requires Exact(cfg) && forall i :: 0 <= i < |servers| ==> servers[i].weight > 0
    requires h < |servers| && Live(cfg, servers[h], now) && CountLive(cfg, servers, now) > 0
    ensures !(exists p :: p in Build(cfg, servers, now) && p.index == h) <==>
            cfg.weighted && 40 * CountLive(cfg, servers, now) * servers[h].weight < LiveWeight(cfg, servers, now)
  {
    HasPoints(cfg, servers, now, h);
    LiveWeightPositive(cfg, servers, now);
    var live, total := CountLive(cfg, servers, now), LiveWeight(cfg, servers, now);
    assert cfg.quota(servers[h].weight, live, total) == 40 * live * servers[h].weight / total;
    ZeroQuotient(40 * live * servers[h].weight, total);
  }

  lemma ZeroQuotient(x: nat, t: nat)
    requires t > 0
    ensures x / t == 0 <==> x < t
  {
    assert x == (x / t) * t + x % t;
  }

  // ----- who owns a hash -----

  ghost predicate Sorted(c: seq<Point>) {
    forall i, j :: 0 <= i < j < |c| ==> c[i].value <= c[j].value
  }

  /** On the circle of values, p is the first point at or after h; behind the last one the circle starts over. */
  ghost predicate Owns(c: set<Point>, h: nat, p: Point) {
    && p in c
    && if exists q :: q in c && q.value >= h
       then p.value >= h && forall q :: q in c && q.value >= h ==> p.value <= q.value
       else forall q :: q in c ==> p.value <= q.value
  }

  function PointSet(c: seq<Point>): set<Point> {
    set p | p in c
  }

  ghost predicate DistinctValues(c: set<Point>) {
    forall p, q :: p in c && q in c && p.value == q.value ==> p == q
  }

  lemma OwnerIsUnique(c: set<Point>, h: nat, p: Point, q: Point)
    requires DistinctValues(c) && Owns(c, h, p) && Owns(c, h, q)
    ensures p == q
  {
  }

  /** Rebuilding without server s (in unweighted mode) takes away exactly its points. */
  lemma EjectedBuild(cfg: Config, servers: seq<Server>, after: seq<Server>, now: nat, s: nat)
    requires !cfg.weighted && s < |servers| == |after|
    requires forall i :: 0 <= i < |servers| ==>
               servers[i].hostname == after[i].hostname && servers[i].port == after[i].port
    requires forall i :: 0 <= i < |servers| && i != s ==> (Live(cfg, after[i], now) <==> Live(cfg, servers[i], now))
    requires Live(cfg, servers[s], now) && !Live(cfg, after[s], now)
    ensures forall p :: p in Build(cfg, after, now) <==> p in Build(cfg, servers, now) && p.index != s
  {
    PointsAreLive(cfg, servers, now, Shares(cfg, CountLive(cfg, servers, now), LiveWeight(cfg, servers, now)),
                  |servers|);
    PointsAreLive(cfg, after, now, Shares(cfg, CountLive(cfg, after, now), LiveWeight(cfg, after, now)), |servers|);
    forall p: Point | p.index < |servers|
      ensures ServerPoints(cfg, servers[p.index], p.index, POINTS_PER_SERVER)
           == ServerPoints(cfg, after[p.index], p.index, POINTS_PER_SERVER)
    {
    }
  }

  /** A server appended to the list brings its own points and changes no others. */
  lemma AppendedBuild(cfg: Config, servers: seq<Server>, s: Server, now: nat)
    requires !cfg.weighted
    ensures forall p :: p in Build(cfg, servers + [s], now) <==>
              || p in Build(cfg, servers, now)
              || (Live(cfg, s, now) && p in ServerPoints(cfg, s, |servers|, POINTS_PER_SERVER))
    ensures forall p :: p in Build(cfg, servers, now) ==> p.index < |servers|
  {
    var more := servers + [s];
    PointsAreLive(cfg, servers, now, Shares(cfg, CountLive(cfg, servers, now), LiveWeight(cfg, servers, now)),
                  |servers|);
    PointsAreLive(cfg, more, now, Shares(cfg, CountLive(cfg, more, now), LiveWeight(cfg, more, now)), |more|);
    assert forall i :: 0 <= i < |servers| ==> more[i] == servers[i];
    assert forall p :: p in ServerPoints(cfg, s, |servers|, POINTS_PER_SERVER) ==> p.index == |servers|;
  }

  /** Minimal disruption: if c holds the points of more than c' by those of server s alone, then a hash that c does
      not send to s is sent to the same server by both, and one that c' sends elsewhere than c goes to s in c. */
  lemma MinimalDisruption(c: set<Point>, c': set<Point>, s: nat, h: nat, p: Point, p': Point)
    requires DistinctValues(c)
    requires forall q :: q in c' <==> q in c && q.index != s
    requires Owns(c, h, p) && Owns(c', h, p')
    ensures p.index != s ==> p' == p
    ensures p'.index != p.index ==> p.index == s
  {
    if p.index != s {
      assert p in c';
      OwnerIsUnique(c', h, p, p');
    }
  }

  /** So it takes hashes to itself and moves none between the others. */
  lemma JoiningMovesOnlyToItself(cfg: Config, servers: seq<Server>, s: Server, now: nat, h: nat, p: Point, p': Point)
    requires !cfg.weighted && DistinctValues(PointSet(Build(cfg, servers + [s], now)))
    requires Owns(PointSet(Build(cfg, servers, now)), h, p)
    requires Owns(PointSet(Build(cfg, servers + [s], now)), h, p')
    ensures p'.index != p.index ==> p'.index == |servers| && Live(cfg, s, now)
  {
    AppendedBuild(cfg, servers, s, now);
    assert forall q :: q in ServerPoints(cfg, s, |servers|, POINTS_PER_SERVER) ==> q.index == |servers|;
    var c, c' := PointSet(Build(cfg, servers + [s], now)), PointSet(Build(cfg, servers, now));
    MinimalDisruption(c, c', |servers|, h, p', p);
  }
}
