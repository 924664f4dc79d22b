/**
 A client over time, as far as dispatch goes: lookups, connections that fail or succeed, servers that are added, and the
 rebuilds of the continuum that come of it.
 */
module ClientModel {
  import opened ContinuumModel

  /** r is the earliest retry time of the servers that are dead at `now`, or 0 if none is. */
  ghost predicate EarliestRetry(servers: seq<Server>, now: nat, r: nat) {
    if r == 0 then forall i :: 0 <= i < |servers| ==> servers[i].nextRetry <= now
    else
      && r > now
      && (exists i :: 0 <= i < |servers| && servers[i].nextRetry == r)
      && (forall i :: 0 <= i < |servers| && servers[i].nextRetry > now ==> r <= servers[i].nextRetry)
  }

  function Earliest(servers: seq<Server>, now: nat): nat {
    if servers == [] then 0
    else
      var r, last := Earliest(servers[..|servers| - 1], now), servers[|servers| - 1].nextRetry;
      if last > now && (r == 0 || last < r) then last else r
  }

  lemma {:induction false} EarliestIsLeast(servers: seq<Server>, now: nat)
    ensures EarliestRetry(servers, now, Earliest(servers, now))
  {
    if servers != [] {
      var n := |servers| - 1;
      EarliestIsLeast(servers[..n], now);
      assert servers[..n + 1] == servers;
      EarliestMore(servers, now, n, Earliest(servers[..n], now), Earliest(servers, now));
    }
  }

  lemma EarliestMore(servers: seq<Server>, now: nat, n: nat, r: nat, r': nat)
    requires n < |servers| && EarliestRetry(servers[..n], now, r)
    requires r' == if servers[n].nextRetry > now && (r == 0 || servers[n].nextRetry < r)
                   then servers[n].nextRetry else r
    ensures EarliestRetry(servers[..n + 1], now, r')
  {
    assert forall i :: 0 <= i < n ==> servers[..n + 1][i] == servers[..n][i];
    if r' != r {
      assert servers[..n + 1][n].nextRetry == r';
    } else if r != 0 {
      var i :| 0 <= i < n && servers[..n][i].nextRetry == r;
      assert servers[..n + 1][i].nextRetry == r;
    }
  }

  /** Weights of 0 are turned into 1 for good. */
  function Defaulted(s: Server): Server { if s.weight == 0 then s.(weight := 1) else s }

  function AllDefaulted(servers: seq<Server>): seq<Server> {
    seq(|servers|, i requires 0 <= i < |servers| => Defaulted(servers[i]))
  }

  // ----- the client -----

  /** The servers, the continuum, the rebuild time, and the retry times that the servers which were dead at the last
      rebuild had then. */
  datatype Client = Client(servers: seq<Server>, points: set<Point>, rebuild: nat, due: map<nat, nat>)

  /** How connecting ends: connected, refused by every address at some time, or failed in another way. */
  datatype Outcome = Reached | Unreached(at: nat) | Broken

  /** The code reads the clock twice in a connect: `now` to see whether to try, `at` for a rebuild. */
  datatype Event =
    | Lookup(hash: nat, now: nat)
    | Connect(server: nat, now: nat, at: nat, outcome: Outcome)
    | Lost(server: nat)
    | Heard(server: nat)
    | Closed(server: nat)
    | Added(hostname: string, port: nat, weight: nat, at: nat)
    | Redistribute(at: nat)

  function NewClient(): Client { Client([], {}, 0, map[]) }

  function NewServer(cfg: Config, hostname: string, port: nat, weight: nat): Server {
    Server(hostname, port, weight, cfg.retryTimeout, 0, false)
  }

  /** A rebuild at time `now`: with nobody live the points stay. */
  function Rebuilt(cfg: Config, a: Client, now: nat): Client {
    var rebuild := if cfg.autoEject then Earliest(a.servers, now) else a.rebuild;
    var due := map i | 0 <= i < |a.servers| && !Live(cfg, a.servers[i], now) :: a.servers[i].nextRetry;
    if CountLive(cfg, a.servers, now) == 0 then a.(rebuild := rebuild, due := due)
    else
      var servers := if cfg.weighted then AllDefaulted(a.servers) else a.servers;
      Client(servers, PointSet(Build(cfg, servers, now)), rebuild, due)
  }

  lemma RebuiltKeeps(cfg: Config, a: Client, now: nat)
    ensures |Rebuilt(cfg, a, now).servers| == |a.servers|
    ensures forall i :: 0 <= i < |a.servers| ==>
              Rebuilt(cfg, a, now).servers[i].(weight := a.servers[i].weight) == a.servers[i]
  {
  }

  predicate TooEarly(cfg: Config, s: Server, now: nat) {
    cfg.retryTimeout != 0 && s.nextRetry != 0 && s.nextRetry > now
  }

  predicate AtLimit(cfg: Config, s: Server) {
    cfg.failureLimit != 0 && s.failures >= cfg.failureLimit
  }

  function Tried(cfg: Config, s: Server, outcome: Outcome): Server {
    match outcome
    case Reached => s.(failures := 0, nextRetry := 0, open := true)
    case Unreached(at) =>
      s.(failures := s.failures + 1, nextRetry := if cfg.retryTimeout != 0 then at + cfg.retryTimeout else s.nextRetry)
    case Broken => s.(failures := s.failures + 1)
  }

  /** memcached_connect: a server whose time has not come is left alone, one that has failed too often brings about a
      rebuild instead of a connection. */
  function Connected(cfg: Config, a: Client, s: nat, now: nat, at: nat, outcome: Outcome): Client
    requires s < |a.servers|
  {
    var server := a.servers[s];
    if server.open || TooEarly(cfg, server, now) then a
    else if AtLimit(cfg, server) then if cfg.autoEject then Rebuilt(cfg, a, at) else a
    else a.(servers := a.servers[s := Tried(cfg, server, outcome)])
  }

  function Step(cfg: Config, a: Client, e: Event): Client {
    match e
    case Lookup(_, now) =>
      if cfg.autoEject && a.rebuild != 0 && now > a.rebuild then Rebuilt(cfg, a, now) else a
    case Connect(s, now, at, outcome) =>
      if s < |a.servers| then Connected(cfg, a, s, now, at, outcome) else a
    case Lost(s) =>
      if s < |a.servers|
      then a.(servers := a.servers[s := a.servers[s].(failures := a.servers[s].failures + 1, open := false)]) else a
    case Heard(s) =>
      if s < |a.servers| && a.servers[s].open then a.(servers := a.servers[s := a.servers[s].(failures := 0)]) else a
    case Closed(s) =>
      if s < |a.servers| && a.servers[s].open
      then a.(servers := a.servers[s := a.servers[s].(failures := 0, open := false)]) else a
    case Added(hostname, port, weight, at) =>
      Rebuilt(cfg, a.(servers := a.servers + [NewServer(cfg, hostname, port, weight)]), at)
    case Redistribute(at) => Rebuilt(cfg, a, at)
  }

  function AfterAll(cfg: Config, a: Client, events: seq<Event>): Client {
    if events == [] then a else Step(cfg, AfterAll(cfg, a, events[..|events| - 1]), events[|events| - 1])
  }

  lemma AfterOneMore(cfg: Config, a: Client, events: seq<Event>, n: nat)
    requires n < |events|
    ensures AfterAll(cfg, a, events[..n + 1]) == Step(cfg, AfterAll(cfg, a, events[..n]), events[n])
  {
    assert events[..n + 1][..n] == events[..n];
  }

  // ----- ejection is never stale -----

  ghost predicate HasPoint(c: set<Point>, s: nat) {
    exists p :: p in c && p.index == s
  }

  /** The rebuild time guards every server that was dead at the last rebuild; every other one has points (weights
      aside). */
  ghost predicate Watched(cfg: Config, a: Client) {
    && (forall s :: s in a.due ==> s < |a.servers| && cfg.autoEject && 0 < a.rebuild <= a.due[s])
    && (!cfg.weighted ==> forall s :: 0 <= s < |a.servers| && s !in a.due ==> HasPoint(a.points, s))
  }

  lemma {:induction false} NoneLive(cfg: Config, servers: seq<Server>, now: nat)
    ensures CountLive(cfg, servers, now) == 0 <==> forall i :: 0 <= i < |servers| ==> !Live(cfg, servers[i], now)
  {
    if servers != [] {
      var n := |servers| - 1;
      NoneLive(cfg, servers[..n], now);
      assert forall i :: 0 <= i < n ==> servers[..n][i] == servers[i];
    }
  }

  lemma EveryLiveHasPoint(cfg: Config, servers: seq<Server>, now: nat)
    requires !cfg.weighted
    ensures forall s :: 0 <= s < |servers| && Live(cfg, servers[s], now) ==>
              HasPoint(PointSet(Build(cfg, servers, now)), s)
  {
    forall s | 0 <= s < |servers| && Live(cfg, servers[s], now)
      ensures HasPoint(PointSet(Build(cfg, servers, now)), s)
    {
      HasPoints(cfg, servers, now, s);
      var p :| p in Build(cfg, servers, now) && p.index == s;
      assert p in PointSet(Build(cfg, servers, now));
    }
  }

  lemma RebuiltIsWatched(cfg: Config, a: Client, now: nat)
    ensures Watched(cfg, Rebuilt(cfg, a, now))
  {
    EarliestIsLeast(a.servers, now);
    NoneLive(cfg, a.servers, now);
    if !cfg.weighted {
      EveryLiveHasPoint(cfg, a.servers, now);
    }
  }

  lemma StepKeepsWatched(cfg: Config, a: Client, e: Event)
    requires Watched(cfg, a)
    ensures Watched(cfg, Step(cfg, a, e))
  {
    match e
    case Lookup(_, now) => RebuiltIsWatched(cfg, a, now);
    case Connect(s, now, at, outcome) => RebuiltIsWatched(cfg, a, at);
    case Added(hostname, port, weight, at) =>
      RebuiltIsWatched(cfg, a.(servers := a.servers + [NewServer(cfg, hostname, port, weight)]), at);
    case Redistribute(at) => RebuiltIsWatched(cfg, a, at);
    case _ =>
  }

  /** Every server that is out was, at the last rebuild, not to be retried before `now`. */
  ghost predicate Fresh(cfg: Config, a: Client, now: nat) {
    && (forall s :: s in a.due ==> a.due[s] >= now)
    && (!cfg.weighted ==> forall s :: 0 <= s < |a.servers| && !HasPoint(a.points, s) ==> s in a.due)
  }

  /** After a lookup ejection is never stale. */
  lemma LookupIsFresh(cfg: Config, a: Client, hash: nat, now: nat)
    requires Watched(cfg, a)
    ensures Fresh(cfg, Step(cfg, a, Lookup(hash, now)), now)
  {
    RebuiltIsWatched(cfg, a, now);
  }

  /** Over every run, after every lookup. */
  lemma {:induction false} RunIsFresh(cfg: Config, a: Client, events: seq<Event>, n: nat)
    requires Watched(cfg, a) && n <= |events|
    ensures Watched(cfg, AfterAll(cfg, a, events[..n]))
    ensures n > 0 && events[n - 1].Lookup? ==> Fresh(cfg, AfterAll(cfg, a, events[..n]), events[n - 1].now)
  {
    if n > 0 {
      RunIsFresh(cfg, a, events, n - 1);
      AfterOneMore(cfg, a, events, n - 1);
      var b := AfterAll(cfg, a, events[..n - 1]);
      StepKeepsWatched(cfg, b, events[n - 1]);
      if events[n - 1].Lookup? {
        LookupIsFresh(cfg, b, events[n - 1].hash, events[n - 1].now);
      }
    }
  }

  // ----- what that means for the present retry times -----

  /** The event does not read a clock earlier than `clock`; a connect reads it twice. */
  predicate Ticks(e: Event, clock: nat) {
    match e
    case Lookup(_, now) => clock <= now
    case Connect(_, now, at, _) => clock <= now <= at
    case Added(_, _, _, at) => clock <= at
    case Redistribute(at) => clock <= at
    case _ => true
  }

  function Clock(e: Event, clock: nat): nat {
    match e
    case Lookup(_, now) => now
    case Connect(_, _, at, _) => at
    case Added(_, _, _, at) => at
    case Redistribute(at) => at
    case _ => clock
  }

  function ClockAfter(events: seq<Event>, clock: nat): nat {
    if events == [] then clock else Clock(events[|events| - 1], ClockAfter(events[..|events| - 1], clock))
  }

  /** The clock never goes back. */
  predicate Monotone(events: seq<Event>, clock: nat) {
    events != [] ==>
      var before := events[..|events| - 1];
      Monotone(before, clock) && Ticks(events[|events| - 1], ClockAfter(before, clock))
  }

  /** Since the last rebuild a retry time has been changed only when it had come. */
  ghost predicate Timely(cfg: Config, a: Client, clock: nat) {
    && (forall s :: s in a.due ==> s < |a.servers| && (a.servers[s].nextRetry >= a.due[s] || a.due[s] <= clock))
    && (cfg.retryTimeout == 0 ==> forall i :: 0 <= i < |a.servers| ==> a.servers[i].nextRetry == 0)
  }

  lemma RebuiltIsTimely(cfg: Config, a: Client, clock: nat, at: nat)
    requires Timely(cfg, a, clock)
    ensures Timely(cfg, Rebuilt(cfg, a, at), at)
  {
    RebuiltKeeps(cfg, a, at);
  }

  lemma ConnectKeepsTimely(cfg: Config, a: Client, s: nat, now: nat, at: nat, outcome: Outcome, clock: nat)
    requires Timely(cfg, a, clock) && clock <= now <= at && s < |a.servers|
    ensures Timely(cfg, Connected(cfg, a, s, now, at, outcome), at)
  {
    RebuiltIsTimely(cfg, a, clock, at);
  }

  lemma AddedKeepsTimely(cfg: Config, a: Client, s: Server, clock: nat, at: nat)
    requires Timely(cfg, a, clock) && s.nextRetry == cfg.retryTimeout
    ensures Timely(cfg, Rebuilt(cfg, a.(servers := a.servers + [s]), at), at)
  {
    RebuiltIsTimely(cfg, a.(servers := a.servers + [s]), clock, at);
  }

  lemma StepKeepsTimely(cfg: Config, a: Client, e: Event, clock: nat)
    requires Timely(cfg, a, clock) && Ticks(e, clock)
    ensures Timely(cfg, Step(cfg, a, e), Clock(e, clock))
  {
    match e
    case Lookup(_, now) => RebuiltIsTimely(cfg, a, clock, now);
    case Connect(s, now, at, outcome) =>
      if s < |a.servers| {
        ConnectKeepsTimely(cfg, a, s, now, at, outcome, clock);
      }
    case Added(hostname, port, weight, at) =>
      AddedKeepsTimely(cfg, a, NewServer(cfg, hostname, port, weight), clock, at);
    case Redistribute(at) => RebuiltIsTimely(cfg, a, clock, at);
    case _ =>
  }

  /** A server that is out is not to be retried before `now`, unless `now` is the very second up to which it was put
      off when it went out. */
  ghost predicate Current(cfg: Config, a: Client, now: nat) {
    !cfg.weighted ==> forall s :: 0 <= s < |a.servers| && !HasPoint(a.points, s) ==>
      a.servers[s].nextRetry >= now || (s in a.due && a.due[s] == now)
  }

  lemma {:induction false} TicksAt(events: seq<Event>, clock: nat, n: nat)
    requires Monotone(events, clock) && n < |events|
    ensures Ticks(events[n], ClockAfter(events[..n], clock))
    ensures ClockAfter(events[..n + 1], clock) == Clock(events[n], ClockAfter(events[..n], clock))
  {
    var last := |events| - 1;
    assert events[..n + 1][..n] == events[..n];
    if n < last {
      TicksAt(events[..last], clock, n);
      assert events[..last][..n] == events[..n] && events[..last][n] == events[n];
    }
  }

  /** With a clock that never goes back, that holds after every lookup of every run. */
  lemma {:induction false} RunIsCurrent(cfg: Config, a: Client, events: seq<Event>, clock: nat, n: nat)
    requires Watched(cfg, a) && Timely(cfg, a, clock) && Monotone(events, clock) && n <= |events|
    ensures Timely(cfg, AfterAll(cfg, a, events[..n]), ClockAfter(events[..n], clock))
    ensures n > 0 && events[n - 1].Lookup? ==> Current(cfg, AfterAll(cfg, a, events[..n]), events[n - 1].now)
  {
    if n > 0 {
      var b, c := AfterAll(cfg, a, events[..n - 1]), ClockAfter(events[..n - 1], clock);
      RunIsCurrent(cfg, a, events, clock, n - 1);
      TicksAt(events, clock, n - 1);
      AfterOneMore(cfg, a, events, n - 1);
      StepKeepsTimely(cfg, b, events[n - 1], c);
      RunIsFresh(cfg, a, events, n);
    }
  }

  ghost predicate NeverLate(cfg: Config, a: Client, events: seq<Event>) {
    forall i :: 0 <= i < |events| && events[i].Lookup? ==>
      Current(cfg, AfterAll(cfg, a, events[..i + 1]), events[i].now)
  }

  lemma RunIsNeverLate(cfg: Config, a: Client, events: seq<Event>, clock: nat)
    requires Watched(cfg, a) && Timely(cfg, a, clock) && Monotone(events, clock)
    ensures NeverLate(cfg, a, events)
  {
    forall i | 0 <= i < |events| && events[i].Lookup?
      ensures Current(cfg, AfterAll(cfg, a, events[..i + 1]), events[i].now)
    {
      RunIsCurrent(cfg, a, events, clock, i + 1);
    }
  }

  // ----- answers -----

  /** The answer to lookup i is the server that owns its hash on the continuum the events up to it have made. */
  ghost predicate Answered(cfg: Config, a: Client, events: seq<Event>, i: nat, answer: nat)
    requires i < |events| && events[i].Lookup?
  {
    && answer < |AfterAll(cfg, a, events[..i + 1]).servers|
    && exists p :: Owns(AfterAll(cfg, a, events[..i + 1]).points, events[i].hash, p) && answer == p.index
  }

  ghost predicate AllAnswered(cfg: Config, a: Client, events: seq<Event>, answers: seq<nat>) {
    && |answers| <= |events|
    && forall i :: 0 <= i < |answers| && events[i].Lookup? ==> Answered(cfg, a, events, i, answers[i])
  }

  lemma OneMoreAnswer(cfg: Config, a: Client, events: seq<Event>, answers: seq<nat>, answer: nat)
    requires AllAnswered(cfg, a, events, answers) && |answers| < |events|
    requires events[|answers|].Lookup? ==> Answered(cfg, a, events, |answers|, answer)
    ensures AllAnswered(cfg, a, events, answers + [answer])
  {
  }

  /** After every lookup of the run ejection is not stale. */
  ghost predicate NeverStale(cfg: Config, a: Client, events: seq<Event>) {
    forall i :: 0 <= i < |events| && events[i].Lookup? ==> Fresh(cfg, AfterAll(cfg, a, events[..i + 1]), events[i].now)
  }

  lemma RunIsNeverStale(cfg: Config, a: Client, events: seq<Event>)
    requires Watched(cfg, a)
    ensures NeverStale(cfg, a, events)
  {
    forall i | 0 <= i < |events| && events[i].Lookup?
      ensures Fresh(cfg, AfterAll(cfg, a, events[..i + 1]), events[i].now)
    {
      RunIsFresh(cfg, a, events, i + 1);
    }
  }

  // ----- what a failing server does to itself -----

  /** Nothing goes wrong with another server than s, no server is added and no rebuild is asked for. */
  predicate OnlyHarms(e: Event, s: nat) {
    match e
    case Connect(o, _, _, outcome) => o == s || outcome.Reached?
    case Lost(o) => o == s
    case Added(_, _, _, _) => false
    case Redistribute(_) => false
    case _ => true
  }

  /** Nobody is out, and the servers other than s may be tried. */
  ghost predicate Lone(cfg: Config, a: Client, s: nat, clock: nat) {
    && s < |a.servers| && a.due == map[] && a.rebuild == 0
    && (forall o :: 0 <= o < |a.servers| && o != s ==>
          a.servers[o].nextRetry <= clock && !AtLimit(cfg, a.servers[o]))
    && (cfg.retryTimeout == 0 ==> a.servers[s].nextRetry == 0)
  }

  lemma NobodyOut(cfg: Config, a: Client, at: nat)
    requires forall o :: 0 <= o < |a.servers| ==> a.servers[o].nextRetry <= at
    ensures Rebuilt(cfg, a, at).due == map[] && (a.rebuild == 0 ==> Rebuilt(cfg, a, at).rebuild == 0)
  {
    EarliestIsLeast(a.servers, at);
  }

  lemma ConnectKeepsLone(cfg: Config, a: Client, s: nat, o: nat, now: nat, at: nat, outcome: Outcome, clock: nat)
    requires Lone(cfg, a, s, clock) && clock <= now <= at && o < |a.servers| && (o == s || outcome.Reached?)
    ensures Lone(cfg, Connected(cfg, a, o, now, at, outcome), s, at)
  {
    var server := a.servers[o];
    if !server.open && !TooEarly(cfg, server, now) && AtLimit(cfg, server) && cfg.autoEject {
      NobodyOut(cfg, a, at);
      RebuiltKeeps(cfg, a, at);
    }
  }

  lemma StepKeepsLone(cfg: Config, a: Client, e: Event, s: nat, clock: nat)
    requires Lone(cfg, a, s, clock) && Ticks(e, clock) && OnlyHarms(e, s)
    ensures Lone(cfg, Step(cfg, a, e), s, Clock(e, clock))
  {
    match e
    case Connect(o, now, at, outcome) =>
      if o < |a.servers| {
        ConnectKeepsLone(cfg, a, s, o, now, at, outcome, clock);
      }
    case _ =>
  }

  /** A server that fails alone is never ejected, however often and in whatever way it fails: it keeps its points over
      every run.  A connect to it either comes too early and does nothing, or late enough for it to count as live. */
  lemma {:induction false} LoneFailureStays(cfg: Config, a: Client, events: seq<Event>, s: nat, clock: nat, n: nat)
    requires Watched(cfg, a) && Lone(cfg, a, s, clock) && Monotone(events, clock) && n <= |events|
    requires forall i :: 0 <= i < |events| ==> OnlyHarms(events[i], s)
    ensures Lone(cfg, AfterAll(cfg, a, events[..n]), s, ClockAfter(events[..n], clock))
    ensures !cfg.weighted ==> HasPoint(AfterAll(cfg, a, events[..n]).points, s)
  {
    RunIsFresh(cfg, a, events, n);
    if n > 0 {
      LoneFailureStays(cfg, a, events, s, clock, n - 1);
      TicksAt(events, clock, n - 1);
      AfterOneMore(cfg, a, events, n - 1);
      StepKeepsLone(cfg, AfterAll(cfg, a, events[..n - 1]), events[n - 1], s, ClockAfter(events[..n - 1], clock));
    }
  }

  /** Closed, and at the limit of its failures. */
  predicate Stuck(cfg: Config, a: Client, s: nat) {
    s < |a.servers| && !a.servers[s].open && AtLimit(cfg, a.servers[s])
  }

  lemma StuckStep(cfg: Config, a: Client, e: Event, s: nat)
    requires Stuck(cfg, a, s)
    ensures Stuck(cfg, Step(cfg, a, e), s)
    ensures Step(cfg, a, e).servers[s].nextRetry == a.servers[s].nextRetry
  {
    match e
    case Lookup(_, now) => RebuiltKeeps(cfg, a, now);
    case Connect(_, now, at, outcome) => RebuiltKeeps(cfg, a, at);
    case Added(hostname, port, weight, at) =>
      RebuiltKeeps(cfg, a.(servers := a.servers + [NewServer(cfg, hostname, port, weight)]), at);
    case Redistribute(at) => RebuiltKeeps(cfg, a, at);
    case _ =>
  }

  /** Whatever happens, such a server is never connected to again, and its retry time never changes; so every later
      rebuild from that time on takes it for live and gives it points. */
  lemma {:induction false} StuckForever(cfg: Config, a: Client, events: seq<Event>, s: nat)
    requires Stuck(cfg, a, s)
    ensures var b := AfterAll(cfg, a, events);
            && Stuck(cfg, b, s) && b.servers[s].nextRetry == a.servers[s].nextRetry
            && forall at: nat :: at >= a.servers[s].nextRetry ==> s !in Rebuilt(cfg, b, at).due
  {
    if events != [] {
      var n := |events| - 1;
      StuckForever(cfg, a, events[..n], s);
      StuckStep(cfg, AfterAll(cfg, a, events[..n]), events[n], s);
    }
  }

  // ----- a server that is ejected and comes back -----

  /** Two servers fail, one second after the other.  When the first is tried again it is at its limit: the rebuild
      ejects the second.  Two seconds later a lookup takes the second back. */
  function EjectionRun(n: nat, timeout: nat, hash: nat): seq<Event> {
    [Added("a", 1, 1, n), Added("b", 2, 1, n),
     Connect(1, n, n, Unreached(n)), Connect(0, n + 1, n + 1, Unreached(n + 1)),
     Connect(1, n + timeout, n + timeout, Broken), Lookup(hash, n + timeout + 1), Lookup(hash, n + timeout + 2)]
  }

  ghost predicate Typical(cfg: Config) {
    cfg.autoEject && !cfg.weighted && cfg.failureLimit == 1 && cfg.retryTimeout >= 2
  }

  lemma AddedServers(cfg: Config, a: Client, hostname: string, port: nat, weight: nat, at: nat)
    requires !cfg.weighted
    ensures Step(cfg, a, Added(hostname, port, weight, at)).servers ==
              a.servers + [NewServer(cfg, hostname, port, weight)]
  {
  }

  lemma FirstFailure(cfg: Config, a: Client, s: nat, n: nat)
    requires Typical(cfg) && s < |a.servers| && !a.servers[s].open && a.servers[s].failures == 0
    requires a.servers[s].nextRetry <= n
    ensures Step(cfg, a, Connect(s, n, n, Unreached(n)))
         == a.(servers := a.servers[s := a.servers[s].(failures := 1, nextRetry := n + cfg.retryTimeout)])
  {
  }

  /** Both servers have failed. */
  lemma BothFail(cfg: Config, n: nat, hash: nat)
    requires Typical(cfg) && cfg.retryTimeout <= n
    ensures Failed(cfg, n, AfterAll(cfg, NewClient(), EjectionRun(n, cfg.retryTimeout, hash)[..4]))
  {
    var es, c := EjectionRun(n, cfg.retryTimeout, hash), NewClient();
    var a, b := NewServer(cfg, "a", 1, 1), NewServer(cfg, "b", 2, 1);
    AfterOneMore(cfg, c, es, 0);
    AddedServers(cfg, c, "a", 1, 1, n);
    assert es[..0] == [] && [] + [a] == [a];
    AfterOneMore(cfg, c, es, 1);
    AddedServers(cfg, AfterAll(cfg, c, es[..1]), "b", 2, 1, n);
    assert [a] + [b] == [a, b];
    AfterOneMore(cfg, c, es, 2);
    FirstFailure(cfg, AfterAll(cfg, c, es[..2]), 1, n);
    AfterOneMore(cfg, c, es, 3);
    FirstFailure(cfg, AfterAll(cfg, c, es[..3]), 0, n + 1);
  }

  /** Server 1 failed at time n and server 0 one second later; neither has been tried again. */
  ghost predicate Failed(cfg: Config, n: nat, a: Client) {
    && |a.servers| == 2
    && a.servers[0].nextRetry == n + 1 + cfg.retryTimeout
    && a.servers[1].nextRetry == n + cfg.retryTimeout && a.servers[1].failures == 1 && !a.servers[1].open
  }

  lemma DeadHasNoPoint(cfg: Config, servers: seq<Server>, now: nat, s: nat)
    requires s < |servers| && !Live(cfg, servers[s], now)
    ensures !HasPoint(PointSet(Build(cfg, servers, now)), s)
  {
    PointsAreLive(cfg, servers, now, Shares(cfg, CountLive(cfg, servers, now), LiveWeight(cfg, servers, now)),
                  |servers|);
  }

  lemma EarliestOfTwo(servers: seq<Server>, now: nat)
    requires |servers| == 2 && servers[0].nextRetry == now + 1 && servers[1].nextRetry <= now
    ensures Earliest(servers, now) == now + 1
  {
    assert servers[..1][..0] == [] && servers[..1][0] == servers[0];
    assert Earliest(servers[..1], now) == now + 1;
  }

  /** Server 0 is out until one second has passed. */
  ghost predicate Out(a: Client, now: nat) {
    && 0 in a.due && !HasPoint(a.points, 0) && HasPoint(a.points, 1) && a.rebuild == now + 1
    && |a.servers| == 2 && a.servers[0].nextRetry == now + 1 && a.servers[1].nextRetry <= now
  }

  lemma Ejects(cfg: Config, n: nat, now: nat, a: Client, b: Client)
    requires Typical(cfg) && Failed(cfg, n, a) && now == n + cfg.retryTimeout
    requires b == Step(cfg, a, Connect(1, now, now, Broken))
    ensures Out(b, now)
  {
    assert b == Rebuilt(cfg, a, now);
    assert Live(cfg, a.servers[1], now);
    NoneLive(cfg, a.servers, now);
    DeadHasNoPoint(cfg, a.servers, now, 0);
    EveryLiveHasPoint(cfg, a.servers, now);
    EarliestOfTwo(a.servers, now);
  }

  ghost predicate BothIn(a: Client) {
    a.due == map[] && HasPoint(a.points, 0) && HasPoint(a.points, 1)
  }

  lemma ComesBack(cfg: Config, a: Client, now: nat, hash: nat)
    requires Typical(cfg) && Out(a, now)
    ensures Step(cfg, a, Lookup(hash, now + 1)) == a && BothIn(Step(cfg, a, Lookup(hash, now + 2)))
  {
    assert Live(cfg, a.servers[0], now + 2) && Live(cfg, a.servers[1], now + 2);
    NoneLive(cfg, a.servers, now + 2);
    EveryLiveHasPoint(cfg, a.servers, now + 2);
  }

  lemma Back(cfg: Config, c: Client, events: seq<Event>, now: nat, hash: nat)
    requires Typical(cfg) && |events| == 7 && Out(AfterAll(cfg, c, events[..5]), now)
    requires events[5] == Lookup(hash, now + 1) && events[6] == Lookup(hash, now + 2)
    ensures Out(AfterAll(cfg, c, events[..6]), now) && BothIn(AfterAll(cfg, c, events))
  {
    AfterOneMore(cfg, c, events, 5);
    ComesBack(cfg, AfterAll(cfg, c, events[..5]), now, hash);
    AfterOneMore(cfg, c, events, 6);
    assert events[..7] == events;
  }

  lemma OneOut(cfg: Config, c: Client, events: seq<Event>, n: nat, now: nat)
    requires Typical(cfg) && |events| > 4 && now == n + cfg.retryTimeout && events[4] == Connect(1, now, now, Broken)
    requires Failed(cfg, n, AfterAll(cfg, c, events[..4]))
    ensures Out(AfterAll(cfg, c, events[..5]), now)
  {
    AfterOneMore(cfg, c, events, 4);
    Ejects(cfg, n, now, AfterAll(cfg, c, events[..4]), AfterAll(cfg, c, events[..5]));
  }

  /** So a server is ejected and comes back. */
  lemma EjectionComesBack(cfg: Config, n: nat, hash: nat)
    requires Typical(cfg) && cfg.retryTimeout <= n
    ensures var es := EjectionRun(n, cfg.retryTimeout, hash);
            && Out(AfterAll(cfg, NewClient(), es[..6]), n + cfg.retryTimeout)
            && BothIn(AfterAll(cfg, NewClient(), es))
  {
    var es, now := EjectionRun(n, cfg.retryTimeout, hash), n + cfg.retryTimeout;
    BothFail(cfg, n, hash);
    OneOut(cfg, NewClient(), es, n, now);
    Back(cfg, NewClient(), es, now, hash);
  }
}
