/**
 What a client knows of one server after any run: how often it has failed since it last answered, and when it may be
 tried again.
 */
module ServerHistory {
  import opened ContinuumModel
  import opened ClientModel

  /** The event makes the client connect to s. */
  predicate Tries(cfg: Config, a: Client, e: Event, s: nat) {
    && e.Connect? && e.server == s < |a.servers|
    && !a.servers[s].open && !TooEarly(cfg, a.servers[s], e.now) && !AtLimit(cfg, a.servers[s])
  }

  /** A connection attempt that comes to nothing, or a connection that breaks. */
  predicate FailsAt(cfg: Config, a: Client, e: Event, s: nat) {
    (Tries(cfg, a, e, s) && !e.outcome.Reached?) || (e == Lost(s) && s < |a.servers|)
  }

  /** A connection that is made, an answer read on one, or one closed on purpose; or the server is new. */
  predicate StartsAfresh(cfg: Config, a: Client, e: Event, s: nat) {
    || (Tries(cfg, a, e, s) && e.outcome.Reached?)
    || ((e == Heard(s) || e == Closed(s)) && s < |a.servers| && a.servers[s].open)
    || (e.Added? && s == |a.servers|)
  }

  predicate SetsRetry(cfg: Config, a: Client, e: Event, s: nat) {
    || (Tries(cfg, a, e, s) && (e.outcome.Reached? || (e.outcome.Unreached? && cfg.retryTimeout != 0)))
    || (e.Added? && s == |a.servers|)
  }

  predicate Opens(cfg: Config, a: Client, e: Event, s: nat) {
    Tries(cfg, a, e, s) && e.outcome.Reached?
  }

  predicate Closes(a: Client, e: Event, s: nat) {
    (e == Lost(s) || e == Closed(s)) && s < |a.servers|
  }

  /** When it may be tried again: at once, some time after it was not reached, or the same time after the epoch. */
  function RetryTime(cfg: Config, e: Event): nat {
    match e
    case Connect(_, _, _, Unreached(at)) => at + cfg.retryTimeout
    case Added(_, _, _, _) => cfg.retryTimeout
    case _ => 0
  }

  // What one event does to what the client knows of a server.

  lemma OnFailures(cfg: Config, a: Client, e: Event, s: nat)
    requires s < |a.servers|
    ensures |Step(cfg, a, e).servers| >= |a.servers|
    ensures Step(cfg, a, e).servers[s].failures ==
            if StartsAfresh(cfg, a, e, s) then 0
            else a.servers[s].failures + if FailsAt(cfg, a, e, s) then 1 else 0
  {
    match e
    case Lookup(_, now) => RebuiltKeeps(cfg, a, now);
    case Connect(_, now, at, outcome) => RebuiltKeeps(cfg, a, at);
    case Added(hostname, port, weight, at) =>
      RebuiltKeeps(cfg, a.(servers := a.servers + [NewServer(cfg, hostname, port, weight)]), at);
    case Redistribute(at) => RebuiltKeeps(cfg, a, at);
    case _ =>
  }

  lemma OnRetry(cfg: Config, a: Client, e: Event, s: nat)
    requires s < |a.servers|
    ensures |Step(cfg, a, e).servers| >= |a.servers|
    ensures Step(cfg, a, e).servers[s].nextRetry ==
            if SetsRetry(cfg, a, e, s) then RetryTime(cfg, e) else a.servers[s].nextRetry
  {
    match e
    case Lookup(_, now) => RebuiltKeeps(cfg, a, now);
    case Connect(_, now, at, outcome) => RebuiltKeeps(cfg, a, at);
    case Added(hostname, port, weight, at) =>
      RebuiltKeeps(cfg, a.(servers := a.servers + [NewServer(cfg, hostname, port, weight)]), at);
    case Redistribute(at) => RebuiltKeeps(cfg, a, at);
    case _ =>
  }

  lemma OnConnection(cfg: Config, a: Client, e: Event, s: nat)
    requires s < |a.servers| <= |Step(cfg, a, e).servers|
    ensures Step(cfg, a, e).servers[s].open ==
            (Opens(cfg, a, e, s) || (a.servers[s].open && !Closes(a, e, s)))
  {
    match e
    case Lookup(_, now) => RebuiltKeeps(cfg, a, now);
    case Connect(_, now, at, outcome) => RebuiltKeeps(cfg, a, at);
    case Added(hostname, port, weight, at) =>
      RebuiltKeeps(cfg, a.(servers := a.servers + [NewServer(cfg, hostname, port, weight)]), at);
    case Redistribute(at) => RebuiltKeeps(cfg, a, at);
    case _ =>
  }

  lemma OnNewServer(cfg: Config, a: Client, e: Event)
    requires e.Added?
    ensures var (s, c) := (|a.servers|, Step(cfg, a, e));
            && |c.servers| == s + 1 && c.servers[s].failures == 0 && c.servers[s].nextRetry == cfg.retryTimeout
            && c.servers[s].hostname == e.hostname && c.servers[s].port == e.port
  {
    RebuiltKeeps(cfg, a.(servers := a.servers + [NewServer(cfg, e.hostname, e.port, e.weight)]), e.at);
  }

  lemma FreshNow(cfg: Config, a: Client, e: Event, s: nat)
    requires StartsAfresh(cfg, a, e, s)
    ensures s < |Step(cfg, a, e).servers| && Step(cfg, a, e).servers[s].failures == 0
  {
    if e.Added? && s == |a.servers| {
      OnNewServer(cfg, a, e);
    } else {
      OnFailures(cfg, a, e, s);
    }
  }

  lemma OneMore(cfg: Config, a: Client, e: Event, s: nat, b: Client)
    requires s < |a.servers| && !StartsAfresh(cfg, a, e, s) && b == Step(cfg, a, e)
    ensures s < |b.servers| && b.servers[s].failures == a.servers[s].failures + if FailsAt(cfg, a, e, s) then 1 else 0
  {
    OnFailures(cfg, a, e, s);
  }

  lemma TimedNow(cfg: Config, a: Client, e: Event, s: nat)
    requires SetsRetry(cfg, a, e, s)
    ensures s < |Step(cfg, a, e).servers| && Step(cfg, a, e).servers[s].nextRetry == RetryTime(cfg, e)
  {
    if e.Added? && s == |a.servers| {
      OnNewServer(cfg, a, e);
    } else {
      OnRetry(cfg, a, e, s);
    }
  }

  /** How many of the events from one up to another were failures of s. */
  function Failures(cfg: Config, a: Client, events: seq<Event>, s: nat, from: nat, to: nat): nat
    requires from <= to <= |events|
  {
    if from == to then 0
    else
      Failures(cfg, a, events, s, from, to - 1)
      + (if FailsAt(cfg, AfterAll(cfg, a, events[..to - 1]), events[to - 1], s) then 1 else 0)
  }

  ghost predicate FreshAt(cfg: Config, a: Client, events: seq<Event>, s: nat, i: nat)
    requires i < |events|
  {
    StartsAfresh(cfg, AfterAll(cfg, a, events[..i]), events[i], s)
  }

  /** The c-th event is the last before the n-th with which s starts afresh. */
  ghost predicate LastFresh(cfg: Config, a: Client, events: seq<Event>, s: nat, c: nat, n: nat) {
    c < n <= |events| && FreshAt(cfg, a, events, s, c) && forall i :: c < i < n ==> !FreshAt(cfg, a, events, s, i)
  }

  /** After n events the failures of s are those from one event on. */
  ghost predicate Counted(cfg: Config, a: Client, events: seq<Event>, s: nat, from: nat, n: nat)
    requires from <= n <= |events|
  {
    var b := AfterAll(cfg, a, events[..n]);
    s < |b.servers| && b.servers[s].failures == Failures(cfg, a, events, s, from, n)
  }

  lemma CountedNext(cfg: Config, a: Client, events: seq<Event>, s: nat, from: nat, n: nat, b: Client)
    requires from <= n < |events| && b == AfterAll(cfg, a, events[..n])
    requires s < |Step(cfg, b, events[n]).servers|
    requires Step(cfg, b, events[n]).servers[s].failures == Failures(cfg, a, events, s, from, n + 1)
    ensures Counted(cfg, a, events, s, from, n + 1)
  {
    AfterOneMore(cfg, a, events, n);
  }

  lemma FailuresFirst(cfg: Config, a: Client, events: seq<Event>, s: nat, c: nat)
    requires c < |events| && FreshAt(cfg, a, events, s, c)
    ensures Counted(cfg, a, events, s, c + 1, c + 1)
  {
    var b := AfterAll(cfg, a, events[..c]);
    FreshNow(cfg, b, events[c], s);
    AfterOneMore(cfg, a, events, c);
  }

  lemma FailuresStep(cfg: Config, a: Client, events: seq<Event>, s: nat, c: nat, n: nat)
    requires c < n < |events| && !FreshAt(cfg, a, events, s, n) && Counted(cfg, a, events, s, c + 1, n)
    ensures Counted(cfg, a, events, s, c + 1, n + 1)
  {
    var b := AfterAll(cfg, a, events[..n]);
    OneMore(cfg, b, events[n], s, Step(cfg, b, events[n]));
    CountedNext(cfg, a, events, s, c + 1, n, b);
  }

  /** After every run a server's failures are those since it last answered, or was added. */
  lemma {:induction false} FailuresCounted(cfg: Config, a: Client, events: seq<Event>, s: nat, c: nat, n: nat)
    requires LastFresh(cfg, a, events, s, c, n)
    ensures Counted(cfg, a, events, s, c + 1, n)
    decreases n
  {
    if n - 1 > c {
      FailuresCounted(cfg, a, events, s, c, n - 1);
      FailuresStep(cfg, a, events, s, c, n - 1);
    } else {
      FailuresFirst(cfg, a, events, s, c);
    }
  }

  ghost predicate LastTimed(cfg: Config, a: Client, events: seq<Event>, s: nat, c: nat, n: nat) {
    && c < n <= |events| && SetsRetry(cfg, AfterAll(cfg, a, events[..c]), events[c], s)
    && forall i :: c < i < n ==> !SetsRetry(cfg, AfterAll(cfg, a, events[..i]), events[i], s)
  }

  /** And its retry time is that of the last event that set one. */
  lemma {:induction false} RetryTimeKept(cfg: Config, a: Client, events: seq<Event>, s: nat, c: nat, n: nat)
    requires LastTimed(cfg, a, events, s, c, n)
    ensures var b := AfterAll(cfg, a, events[..n]);
            s < |b.servers| && b.servers[s].nextRetry == RetryTime(cfg, events[c])
    decreases n
  {
    var b := AfterAll(cfg, a, events[..n - 1]);
    AfterOneMore(cfg, a, events, n - 1);
    if n - 1 > c {
      RetryTimeKept(cfg, a, events, s, c, n - 1);
      assert !SetsRetry(cfg, b, events[n - 1], s);
      OnRetry(cfg, b, events[n - 1], s);
    } else {
      TimedNow(cfg, b, events[c], s);
    }
  }

  /** A connect to a server that is not connected is tried exactly when the time set by the last event that set one has
      come, or no time or no timeout is set, and it has failed fewer times since than the limit, if there is one. */
  lemma TriedIff(cfg: Config, a: Client, events: seq<Event>, s: nat, c: nat, d: nat, n: nat)
    requires LastFresh(cfg, a, events, s, c, n) && LastTimed(cfg, a, events, s, d, n) && n < |events|
    requires events[n].Connect? && events[n].server == s
    requires s < |AfterAll(cfg, a, events[..n]).servers| && !AfterAll(cfg, a, events[..n]).servers[s].open
    ensures var at := RetryTime(cfg, events[d]);
            Tries(cfg, AfterAll(cfg, a, events[..n]), events[n], s) <==>
            && (cfg.retryTimeout == 0 || at == 0 || at <= events[n].now)
            && (cfg.failureLimit == 0 || Failures(cfg, a, events, s, c + 1, n) < cfg.failureLimit)
  {
    FailuresCounted(cfg, a, events, s, c, n);
    RetryTimeKept(cfg, a, events, s, d, n);
  }
}
