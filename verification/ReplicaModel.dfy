/**
 Fan-out of a binary multi-get over replicas, as a state machine. Each round offers every key that is still unsent to
 one of its servers; what connecting and writing give is up to the environment.
 */
module ReplicaModel {

  /** Where key hashes lead in a round, and whether connecting and writing succeed for a key in a round. */
  datatype Env = Env(servers: nat, target: (nat, nat) -> nat, connects: (nat, nat) -> bool, writes: (nat, nat) -> bool)

  datatype Event = Sent(key: nat, server: nat) | Died(server: nat)

  /** The arrays of the source, what has happened so far, and whether the round has been a success. */
  datatype State = State(hash: seq<nat>, dead: seq<bool>, pending: seq<nat>, events: seq<Event>, success: bool)

  ghost predicate Shaped(env: Env, s: State) {
    && |s.dead| == |s.pending| == env.servers
    && forall x, r :: 0 <= x < |s.hash| && s.hash[x] != env.servers ==> env.target(s.hash[x], r) < env.servers
  }

  function Kill(s: State, v: nat): State
    requires v < |s.dead| == |s.pending|
  {
    s.(dead := s.dead[v := true], pending := s.pending[v := 0], events := s.events + [Died(v)], success := false)
  }

  function Send(env: Env, s: State, x: nat, v: nat): State
    requires v < |s.pending| && x < |s.hash|
  {
    s.(hash := s.hash[x := env.servers], pending := s.pending[v := s.pending[v] + 1], events := s.events + [Sent(x, v)])
  }

  /** One turn of the inner loop. */
  function Attempt(env: Env, r: nat, s: State, x: nat): State
    requires Shaped(env, s) && x < |s.hash|
  {
    if s.hash[x] == env.servers then s
    else
      var v := env.target(s.hash[x], r);
      if s.dead[v] then s
      else if s.pending[v] == 0 && !env.connects(r, x) then Kill(s, v)
      else if !env.writes(r, x) then Kill(s, v)
      else Send(env, s, x, v)
  }

  /** The first k turns of a round. */
  function Turns(env: Env, r: nat, s: State, k: nat): (t: State)
    requires Shaped(env, s) && k <= |s.hash|
    ensures Shaped(env, t) && |t.hash| == |s.hash|
  {
    if k == 0 then s else Attempt(env, r, Turns(env, r, s, k - 1), k - 1)
  }

  function Round(env: Env, r: nat, s: State): (t: State)
    requires Shaped(env, s)
    ensures Shaped(env, t) && |t.hash| == |s.hash|
  {
    Turns(env, r, s.(success := true), |s.hash|)
  }

  /** The rounds from r up to the last, unless one is a success before; also the number of rounds done. */
  function Rounds(env: Env, s: State, r: nat, last: nat): (State, nat)
    requires Shaped(env, s) && r <= last + 1
    decreases last + 1 - r
  {
    if r > last then (s, r)
    else
      var t := Round(env, r, s);
      if t.success then (t, r + 1) else Rounds(env, t, r + 1, last)
  }

  function Begin(servers: nat, hashes: seq<nat>): State {
    State(hashes, seq(servers, _ => false), seq(servers, _ => 0), [], true)
  }

  // ----- what every run keeps -----

  function SentTo(events: seq<Event>, v: nat): nat {
    if events == [] then 0
    else
      var e := events[|events| - 1];
      SentTo(events[..|events| - 1], v) + if e.Sent? && e.server == v then 1 else 0
  }

  ghost predicate HasSent(events: seq<Event>, x: nat) {
    exists i :: 0 <= i < |events| && events[i].Sent? && events[i].key == x
  }

  ghost predicate HasDied(events: seq<Event>, v: nat) {
    exists i :: 0 <= i < |events| && events[i] == Died(v)
  }

  /** No key is sent twice, and a dead server neither receives anything nor dies again. */
  ghost predicate Orderly(events: seq<Event>) {
    && (forall i, j :: 0 <= i < j < |events| && events[i].Sent? && events[j].Sent? ==> events[i].key != events[j].key)
    && (forall i, j :: 0 <= i < j < |events| && events[i].Died? ==> events[j].server != events[i].server)
  }

  /** Connecting or writing for key x in round i fails. */
  ghost predicate Fails(env: Env, x: nat, i: nat) {
    !env.connects(i, x) || !env.writes(i, x)
  }

  /** Every event is about a server that some key leads to in a round before r; keys are sent to servers of their
      own, and a server that dies has failed that key. */
  ghost predicate Aimed(env: Env, hashes: seq<nat>, r: nat, e: Event) {
    match e
    case Sent(x, v) => x < |hashes| && exists i :: 0 <= i < r && v == env.target(hashes[x], i)
    case Died(v) => exists x, i :: 0 <= x < |hashes| && 0 <= i < r && v == env.target(hashes[x], i) && Fails(env, x, i)
  }

  /** The arrays say what the events say. */
  ghost predicate Recorded(env: Env, hashes: seq<nat>, s: State) {
    && |s.hash| == |hashes| && |s.dead| == |s.pending| == env.servers
    && (forall x :: 0 <= x < |hashes| ==> s.hash[x] == if HasSent(s.events, x) then env.servers else hashes[x])
    && (forall v :: 0 <= v < env.servers ==> s.dead[v] == HasDied(s.events, v))
    && (forall v :: 0 <= v < env.servers ==> s.pending[v] == if s.dead[v] then 0 else SentTo(s.events, v))
  }

  ghost predicate Inv(env: Env, hashes: seq<nat>, r: nat, s: State) {
    && (forall x, i :: 0 <= x < |hashes| ==> env.target(hashes[x], i) < env.servers)
    && (forall x :: 0 <= x < |hashes| ==> hashes[x] < env.servers)
    && Recorded(env, hashes, s) && Orderly(s.events)
    && (forall i :: 0 <= i < |s.events| ==> Aimed(env, hashes, r, s.events[i]))
  }

  lemma InvShaped(env: Env, hashes: seq<nat>, r: nat, s: State)
    requires Inv(env, hashes, r, s)
    ensures Shaped(env, s) && |s.hash| == |hashes|
  {
  }

  lemma Snoc(events: seq<Event>, e: Event)
    ensures forall x :: HasSent(events + [e], x) <==> HasSent(events, x) || (e.Sent? && e.key == x)
    ensures forall v :: HasDied(events + [e], v) <==> HasDied(events, v) || e == Died(v)
    ensures forall v :: SentTo(events + [e], v) == SentTo(events, v) + if e.Sent? && e.server == v then 1 else 0
  {
    var all := events + [e];
    assert all[..|all| - 1] == events && all[|events|] == e;
    forall x ensures HasSent(all, x) <==> HasSent(events, x) || (e.Sent? && e.key == x) {
      if HasSent(events, x) {
        var i :| 0 <= i < |events| && events[i].Sent? && events[i].key == x;
        assert all[i] == events[i];
      }
    }
    forall v ensures HasDied(all, v) <==> HasDied(events, v) || e == Died(v) {
      if HasDied(events, v) {
        var i :| 0 <= i < |events| && events[i] == Died(v);
        assert all[i] == events[i];
      }
    }
  }

  lemma KillKeeps(env: Env, hashes: seq<nat>, r: nat, s: State, x: nat, v: nat)
    requires Inv(env, hashes, r + 1, s) && x < |hashes| && v == env.target(hashes[x], r) && !s.dead[v]
    requires Fails(env, x, r)
    ensures Inv(env, hashes, r + 1, Kill(s, v))
  {
    Snoc(s.events, Died(v));
    var t := Kill(s, v);
    assert Recorded(env, hashes, t);
    assert Aimed(env, hashes, r + 1, Died(v));
    assert Orderly(t.events);
  }

  lemma SendKeeps(env: Env, hashes: seq<nat>, r: nat, s: State, x: nat, v: nat)
    requires Inv(env, hashes, r + 1, s) && x < |hashes| && v == env.target(hashes[x], r) && !s.dead[v]
    requires s.hash[x] != env.servers
    ensures Inv(env, hashes, r + 1, Send(env, s, x, v))
  {
    Snoc(s.events, Sent(x, v));
    var t := Send(env, s, x, v);
    assert Recorded(env, hashes, t);
    assert Aimed(env, hashes, r + 1, Sent(x, v));
    assert Orderly(t.events);
  }

  lemma AttemptKeeps(env: Env, hashes: seq<nat>, r: nat, s: State, x: nat)
    requires Inv(env, hashes, r + 1, s) && x < |hashes|
    ensures Shaped(env, s) && |s.hash| == |hashes| && Inv(env, hashes, r + 1, Attempt(env, r, s, x))
  {
    InvShaped(env, hashes, r + 1, s);
    if s.hash[x] != env.servers {
      var v := env.target(s.hash[x], r);
      if !s.dead[v] {
        if Fails(env, x, r) {
          KillKeeps(env, hashes, r, s, x, v);
        }
        SendKeeps(env, hashes, r, s, x, v);
      }
    }
  }

  /** What every turn carries on to the next holds after all of them. */
  lemma {:induction false} TurnsInduct(env: Env, r: nat, s: State, k: nat, P: (State, nat) -> bool)
    requires Shaped(env, s) && k <= |s.hash| && P(s, 0)
    requires forall t: State, x: nat ::
               Shaped(env, t) && |t.hash| == |s.hash| && x < |t.hash| && P(t, x) ==> P(Attempt(env, r, t, x), x + 1)
    ensures P(Turns(env, r, s, k), k)
  {
    if k > 0 {
      TurnsInduct(env, r, s, k - 1, P);
    }
  }

  lemma TurnsKeep(env: Env, hashes: seq<nat>, r: nat, s: State, k: nat)
    requires Inv(env, hashes, r + 1, s) && k <= |hashes|
    ensures Shaped(env, s) && |s.hash| == |hashes| && Inv(env, hashes, r + 1, Turns(env, r, s, k))
  {
    InvShaped(env, hashes, r + 1, s);
    forall t: State, x: nat | Shaped(env, t) && |t.hash| == |s.hash| && x < |t.hash| && Inv(env, hashes, r + 1, t)
      ensures Inv(env, hashes, r + 1, Attempt(env, r, t, x))
    {
      AttemptKeeps(env, hashes, r, t, x);
    }
    TurnsInduct(env, r, s, k, (t: State, x: nat) => Inv(env, hashes, r + 1, t));
  }

  lemma LaterRound(env: Env, hashes: seq<nat>, r: nat, s: State, q: nat, ok: bool)
    requires Inv(env, hashes, r, s) && r <= q
    ensures Inv(env, hashes, q, s.(success := ok))
  {
    forall i | 0 <= i < |s.events|
      ensures Aimed(env, hashes, q, s.events[i])
    {
      assert Aimed(env, hashes, r, s.events[i]);
    }
  }

  lemma RoundKeeps(env: Env, hashes: seq<nat>, r: nat, s: State)
    requires Inv(env, hashes, r, s)
    ensures Shaped(env, s) && Inv(env, hashes, r + 1, Round(env, r, s))
  {
    LaterRound(env, hashes, r, s, r + 1, true);
    InvShaped(env, hashes, r, s);
    TurnsKeep(env, hashes, r, s.(success := true), |s.hash|);
  }

  /** A server that is dead was reached by some key in an earlier round, and failed it. */
  lemma WhoKilled(env: Env, hashes: seq<nat>, r: nat, s: State, v: nat) returns (y: nat, i: nat)
    requires Inv(env, hashes, r, s) && v < |s.dead| && s.dead[v]
    ensures y < |hashes| && i < r && v == env.target(hashes[y], i) && Fails(env, y, i)
  {
    assert HasDied(s.events, v);
    var e :| 0 <= e < |s.events| && s.events[e] == Died(v);
    assert Aimed(env, hashes, r, s.events[e]);
    y, i :| 0 <= y < |hashes| && 0 <= i < r && v == env.target(hashes[y], i) && Fails(env, y, i);
  }

  // ----- progress -----

  /** Nothing is taken back. */
  ghost predicate Grows(env: Env, s: State, t: State) {
    && |s.hash| == |t.hash| && |s.dead| == |t.dead|
    && (forall x :: 0 <= x < |s.hash| && s.hash[x] == env.servers ==> t.hash[x] == env.servers)
    && (forall v :: 0 <= v < |s.dead| && s.dead[v] ==> t.dead[v])
    && s.events <= t.events
    && (s.success && t.success ==> t.dead == s.dead)
    && (t.success ==> s.success)
  }

  /** The key has been sent, or the server it leads to in round i is dead. */
  ghost predicate Settled(env: Env, hashes: seq<nat>, s: State, x: nat, i: nat) {
    x < |hashes| == |s.hash| && env.target(hashes[x], i) < |s.dead|
    && (s.hash[x] == env.servers || s.dead[env.target(hashes[x], i)])
  }

  lemma AttemptGrows(env: Env, r: nat, s: State, x: nat)
    requires Shaped(env, s) && x < |s.hash|
    ensures Grows(env, s, Attempt(env, r, s, x))
  {
  }

  lemma AttemptSettles(env: Env, hashes: seq<nat>, r: nat, s: State, x: nat)
    requires Inv(env, hashes, r + 1, s) && Shaped(env, s) && x < |hashes|
    ensures Settled(env, hashes, Attempt(env, r, s, x), x, r)
  {
  }

  /** The keys before k are settled for round r. */
  ghost predicate SettledUpTo(env: Env, hashes: seq<nat>, s: State, r: nat, k: nat) {
    forall x :: 0 <= x < k ==> Settled(env, hashes, s, x, r)
  }

  lemma AttemptSettlesNext(env: Env, hashes: seq<nat>, r: nat, s: State, t: State, x: nat)
    requires Inv(env, hashes, r + 1, t) && Shaped(env, t) && x < |t.hash|
    requires Grows(env, s, t) && SettledUpTo(env, hashes, t, r, x)
    ensures var u := Attempt(env, r, t, x); Grows(env, s, u) && SettledUpTo(env, hashes, u, r, x + 1)
  {
    var u := Attempt(env, r, t, x);
    AttemptGrows(env, r, t, x);
    GrowsTwice(env, s, t, u);
    AttemptSettles(env, hashes, r, t, x);
    forall y | 0 <= y < x
      ensures Settled(env, hashes, u, y, r)
    {
      StaysSettled(env, hashes, t, u, y, r);
    }
  }

  lemma TurnsSettle(env: Env, hashes: seq<nat>, r: nat, s: State, k: nat)
    requires Inv(env, hashes, r + 1, s) && Shaped(env, s) && k <= |hashes| == |s.hash|
    ensures Grows(env, s, Turns(env, r, s, k))
    ensures SettledUpTo(env, hashes, Turns(env, r, s, k), r, k)
  {
    var P := (t: State, x: nat) =>
      Inv(env, hashes, r + 1, t) && Grows(env, s, t) && SettledUpTo(env, hashes, t, r, x);
    forall t: State, x: nat | Shaped(env, t) && |t.hash| == |s.hash| && x < |t.hash| && P(t, x)
      ensures P(Attempt(env, r, t, x), x + 1)
    {
      AttemptKeeps(env, hashes, r, t, x);
      AttemptSettlesNext(env, hashes, r, s, t, x);
    }
    assert Grows(env, s, s);
    assert SettledUpTo(env, hashes, s, r, 0);
    assert P(s, 0);
    TurnsInduct(env, r, s, k, P);
  }

  lemma GrowsTwice(env: Env, s: State, t: State, u: State)
    requires Grows(env, s, t) && Grows(env, t, u)
    ensures Grows(env, s, u)
  {
  }

  lemma StaysSettled(env: Env, hashes: seq<nat>, s: State, t: State, x: nat, i: nat)
    requires Settled(env, hashes, s, x, i) && Grows(env, s, t)
    ensures Settled(env, hashes, t, x, i)
  {
  }

  /** Every key has been offered to its servers of the first r rounds. */
  ghost predicate AllSettled(env: Env, hashes: seq<nat>, s: State, r: nat) {
    forall x, i :: 0 <= x < |hashes| && 0 <= i < r ==> Settled(env, hashes, s, x, i)
  }

  lemma RoundSettles(env: Env, hashes: seq<nat>, r: nat, s: State)
    requires Inv(env, hashes, r, s) && Shaped(env, s) && AllSettled(env, hashes, s, r)
    ensures AllSettled(env, hashes, Round(env, r, s), r + 1)
    ensures Grows(env, s.(success := true), Round(env, r, s))
  {
    var u, t := s.(success := true), Round(env, r, s);
    LaterRound(env, hashes, r, s, r + 1, true);
    TurnsSettle(env, hashes, r, u, |s.hash|);
    forall x, i | 0 <= x < |hashes| && 0 <= i < r + 1
      ensures Settled(env, hashes, t, x, i)
    {
      if i < r {
        assert Settled(env, hashes, s, x, i);
        StaysSettled(env, hashes, u, t, x, i);
      }
    }
  }

  /** The invariant and what is settled after n rounds, as a function of the state and of what has happened before. */
  ghost function SafeAfter(env: Env, hashes: seq<nat>, n: nat): (State, seq<Event>) -> bool {
    (t: State, events: seq<Event>) => Inv(env, hashes, n, t) && AllSettled(env, hashes, t, n) && events <= t.events
  }

  lemma OneMoreRound(env: Env, hashes: seq<nat>, s: State, r: nat)
    requires Inv(env, hashes, r, s) && Shaped(env, s) && AllSettled(env, hashes, s, r)
    ensures SafeAfter(env, hashes, r + 1)(Round(env, r, s), s.events)
  {
    RoundKeeps(env, hashes, r, s);
    RoundSettles(env, hashes, r, s);
  }

  lemma EventsGrow(env: Env, hashes: seq<nat>, n: nat, t: State, earlier: seq<Event>, events: seq<Event>)
    requires SafeAfter(env, hashes, n)(t, events) && earlier <= events
    ensures SafeAfter(env, hashes, n)(t, earlier)
  {
  }

  /**
   What a whole run guarantees, for every pattern of failures: the invariant, and that a key left unsent has met only
   dead servers in all the rounds there were. A run that stops early does so after a round in which no server died.
   */
  lemma {:induction false} RunIsSafe(env: Env, hashes: seq<nat>, s: State, r: nat, last: nat)
    requires Inv(env, hashes, r, s) && Shaped(env, s) && AllSettled(env, hashes, s, r) && r <= last + 1
    ensures var (t, n) := Rounds(env, s, r, last);
            n <= last + 1 && SafeAfter(env, hashes, n)(t, s.events)
    decreases last + 1 - r
  {
    if r <= last {
      var t := Round(env, r, s);
      OneMoreRound(env, hashes, s, r);
      if !t.success {
        RunIsSafe(env, hashes, t, r + 1, last);
        var (u, n) := Rounds(env, t, r + 1, last);
        EventsGrow(env, hashes, n, u, s.events, t.events);
      }
    }
  }

  // ----- keys that are sent -----

  lemma {:induction false} TurnsOnKey(env: Env, r: nat, s: State, x: nat, k: nat)
    requires Shaped(env, s) && x < |s.hash| && k <= |s.hash|
    ensures Turns(env, r, s, k).hash[x] == if k <= x then s.hash[x] else Turns(env, r, s, x + 1).hash[x]
  {
    if k > 0 {
      TurnsOnKey(env, r, s, x, k - 1);
    }
  }

  /** A round sends a key exactly when, at its turn, its server is alive, has a response due already or can be connected
      to, and can be written to. */
  lemma RoundSendsIff(env: Env, r: nat, s: State, x: nat)
    requires Shaped(env, s) && x < |s.hash| && s.hash[x] != env.servers
    ensures var (t, v) := (Turns(env, r, s.(success := true), x), env.target(s.hash[x], r));
            Round(env, r, s).hash[x] == env.servers <==>
            !t.dead[v] && (t.pending[v] > 0 || env.connects(r, x)) && env.writes(r, x)
  {
    TurnsOnKey(env, r, s.(success := true), x, x);
    TurnsOnKey(env, r, s.(success := true), x, |s.hash|);
  }

  lemma FaultlessRound(env: Env, r: nat, s: State)
    requires Shaped(env, s) && forall x :: 0 <= x < |s.hash| ==> !Fails(env, x, r)
    ensures Round(env, r, s).success
  {
    forall t: State, x: nat | Shaped(env, t) && |t.hash| == |s.hash| && x < |t.hash| && t.success
      ensures Attempt(env, r, t, x).success
    {
      assert !Fails(env, x, r);
    }
    TurnsInduct(env, r, s.(success := true), |s.hash|, (t: State, k: nat) => t.success);
  }

  /** A key that is left unsent met, in every round there was, a server that had failed some key. */
  lemma UnsentWasFailed(env: Env, hashes: seq<nat>, s: State, last: nat, x: nat, i: nat) returns (y: nat, j: nat)
    requires Inv(env, hashes, 0, s) && Shaped(env, s) && AllSettled(env, hashes, s, 0)
    requires var (t, n) := Rounds(env, s, 0, last); x < |hashes| == |t.hash| && t.hash[x] != env.servers && i < n
    ensures y < |hashes| && j < Rounds(env, s, 0, last).1
    ensures env.target(hashes[x], i) == env.target(hashes[y], j) && Fails(env, y, j)
  {
    RunIsSafe(env, hashes, s, 0, last);
    var (t, n) := Rounds(env, s, 0, last);
    assert Settled(env, hashes, t, x, i);
    y, j := WhoKilled(env, hashes, n, t, env.target(hashes[x], i));
  }

  lemma SentWhere(env: Env, hashes: seq<nat>, n: nat, t: State, x: nat) returns (i: nat)
    requires Inv(env, hashes, n, t) && x < |hashes| && t.hash[x] == env.servers
    ensures i < n && Sent(x, env.target(hashes[x], i)) in t.events
  {
    assert hashes[x] < env.servers && HasSent(t.events, x);
    var e :| 0 <= e < |t.events| && t.events[e].Sent? && t.events[e].key == x;
    assert Aimed(env, hashes, n, t.events[e]);
    i :| 0 <= i < n && t.events[e].server == env.target(hashes[x], i);
    assert t.events[e] == Sent(x, env.target(hashes[x], i));
  }

  /** So without failures one round sends every key to its first server. */
  lemma FaultlessRun(env: Env, hashes: seq<nat>, s: State, last: nat, x: nat)
    requires Inv(env, hashes, 0, s) && Shaped(env, s) && AllSettled(env, hashes, s, 0) && x < |hashes|
    requires forall y, j :: !Fails(env, y, j)
    ensures var (t, n) := Rounds(env, s, 0, last);
            && n == 1 && |t.hash| == |hashes| && t.hash[x] == env.servers
            && Sent(x, env.target(hashes[x], 0)) in t.events
  {
    FaultlessRound(env, 0, s);
    RunIsSafe(env, hashes, s, 0, last);
    var (t, n) := Rounds(env, s, 0, last);
    assert Settled(env, hashes, t, x, 0);
    if t.hash[x] != env.servers {
      var y, j := WhoKilled(env, hashes, n, t, env.target(hashes[x], 0));
    } else {
      var i := SentWhere(env, hashes, n, t, x);
    }
  }
}
