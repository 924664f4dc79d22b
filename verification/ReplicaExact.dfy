/**
 Exactly when a multi-get over replicas keeps its promise: that a key is left unsent only if all its replicas are dead.
 */
module ReplicaExact {
  import opened ReplicaModel
  import opened ReplicaReach

  /** How many servers on from x's own server y's is. */
  function Distance(hx: nat, hy: nat, n: nat): nat
    requires hx < n && hy < n
  {
    if hx <= hy then hy - hx else hy + n - hx
  }

  /** y's server is one of the replicas of x that are neither the first nor the last x can reach. */
  predicate Close(hx: nat, hy: nat, n: nat, replicas: nat)
    requires hx < n && hy < n
  {
    1 <= Distance(hx, hy, n) < replicas && Distance(hx, hy, n) < n - 1
  }

  ghost predicate Spread(hashes: seq<nat>, n: nat, replicas: nat)
    requires forall x :: 0 <= x < |hashes| ==> hashes[x] < n
  {
    forall x, y :: 0 <= x < |hashes| && 0 <= y < |hashes| ==> !Close(hashes[x], hashes[y], n, replicas)
  }

  /** The first rounds lead to one server after the other: the start is none, goes once around, or leaves room for as
      many rounds as there are servers. */
  predicate Covering(c: Config)
    requires c.servers > 0 && c.start <= c.replicas
  {
    !c.randomize || Wrap(c.start, c.servers) == 0 || c.replicas - c.start + 1 >= c.servers
  }

  function Shift(c: Config): nat
    requires c.servers > 0
  {
    if !c.randomize || Wrap(c.start, c.servers) == 0 then 0 else c.start
  }

  lemma Consecutive(c: Config, h: nat, r: nat)
    requires c.servers > 0 && c.start <= c.replicas && Covering(c) && r <= c.replicas
    requires r < c.servers || Shift(c) == 0
    ensures Target(c, h, r) == Wrap(h + Shift(c) + r, c.servers)
  {
    if Wrap(c.start, c.servers) == 0 {
      WrapSum(h + r, c.start, c.servers);
    }
    assert h + Offset(c, r) == h + Shift(c) + r || h + Offset(c, r) == h + r + c.start;
  }

  // ----- spread keys: no key is given up while a replica is alive -----

  ghost predicate Sound(c: Config, env: Env, hashes: seq<nat>) {
    && c.servers > 0 && c.start <= c.replicas && HashesOk(c, hashes) && Follows(c, env)
    && Covering(c) && Spread(hashes, c.servers, c.replicas)
  }

  /** Two keys that meet at a server in different rounds are close, unless x has seen its last replica. */
  lemma MeetingIsClose(hx: nat, hy: nat, n: nat, replicas: nat, i: nat, r: nat, b: nat)
    requires hx < n && hy < n && i < r < replicas && r < n - 1
    requires Wrap(hy + b + i, n) == Wrap(hx + b + r, n)
    ensures Close(hx, hy, n, replicas)
  {
    Cancel(hy + i, hx + r, b, n);
    assert hy + i + b == hy + b + i && hx + r + b == hx + b + r;
    WrapOnce(hy + i, n);
    WrapOnce(hx + r, n);
  }

  /** A round without a death that leaves a key behind has nothing more to offer it. */
  lemma QuietRoundIsLast(c: Config, env: Env, hashes: seq<nat>, r: nat, s: State, t: State, x: nat)
    requires Sound(c, env, hashes) && Inv(env, hashes, r, s) && |t.dead| == |s.dead| && t.dead == s.dead
    requires x < |hashes| && Settled(env, hashes, t, x, r) && t.hash[x] != env.servers
    ensures r >= c.replicas || r >= c.servers - 1
  {
    var y, i := WhoKilled(env, hashes, r, s, env.target(hashes[x], r));
    if r < c.replicas && r < c.servers - 1 {
      Consecutive(c, hashes[x], r);
      Consecutive(c, hashes[y], i);
      MeetingIsClose(hashes[x], hashes[y], c.servers, c.replicas, i, r, Shift(c));
    }
  }

  /** As many rounds as there are servers lead everywhere. */
  lemma SomeRound(c: Config, h: nat, v: nat) returns (i: nat)
    requires 0 < c.servers <= c.replicas + 1 && c.start <= c.replicas && Covering(c) && v < c.servers
    ensures i < c.servers && Target(c, h, i) == v
  {
    var from := Wrap(h + Shift(c), c.servers);
    i := Distance(from, v, c.servers);
    Consecutive(c, h, i);
    WrapSum(i, h + Shift(c), c.servers);
    assert h + Shift(c) + i == i + (h + Shift(c));
    WrapOnce(i + from, c.servers);
  }

  lemma QuietRoundSettlesAll(c: Config, env: Env, hashes: seq<nat>, r: nat, s: State)
    requires Sound(c, env, hashes) && Inv(env, hashes, r, s) && Shaped(env, s) && AllSettled(env, hashes, s, r)
    requires r <= c.replicas && Round(env, r, s).success
    ensures AllSettled(env, hashes, Round(env, r, s), c.replicas + 1)
  {
    var t := Round(env, r, s);
    RoundSettles(env, hashes, r, s);
    forall x, j | 0 <= x < |hashes| && 0 <= j < c.replicas + 1
      ensures Settled(env, hashes, t, x, j)
    {
      assert Settled(env, hashes, t, x, r);
      assert env.target(hashes[x], j) == Target(c, hashes[x], j);
      if t.hash[x] != env.servers && j > r {
        QuietRoundIsLast(c, env, hashes, r, s, t, x);
        var i := SomeRound(c, hashes[x], env.target(hashes[x], j));
        assert Settled(env, hashes, t, x, i) && env.target(hashes[x], i) == Target(c, hashes[x], i);
      }
    }
  }

  lemma {:induction false} SpreadRunSettlesAll(c: Config, env: Env, hashes: seq<nat>, s: State, r: nat)
    requires Sound(c, env, hashes) && Inv(env, hashes, r, s) && Shaped(env, s) && AllSettled(env, hashes, s, r)
    requires r <= c.replicas + 1
    ensures AllSettled(env, hashes, Rounds(env, s, r, c.replicas).0, c.replicas + 1)
    decreases c.replicas + 1 - r
  {
    if r <= c.replicas {
      var t := Round(env, r, s);
      RoundKeeps(env, hashes, r, s);
      RoundSettles(env, hashes, r, s);
      if t.success {
        QuietRoundSettlesAll(c, env, hashes, r, s);
      } else {
        SpreadRunSettlesAll(c, env, hashes, t, r + 1);
      }
    }
  }

  function Replica(c: Config, h: nat, j: nat): (v: nat)
    requires c.servers > 0
    ensures v < c.servers
  {
    Wrap(h + j, c.servers)
  }

  /** All the servers a key may be read from are dead. */
  ghost predicate ReplicasDead(c: Config, h: nat, t: State)
    requires c.servers > 0
  {
    |t.dead| == c.servers && forall j :: 0 <= j <= c.replicas ==> t.dead[Replica(c, h, j)]
  }

  ghost predicate Kept(c: Config, hashes: seq<nat>, t: State)
    requires c.servers > 0
  {
    |t.hash| == |hashes| && forall x :: 0 <= x < |hashes| && t.hash[x] != c.servers ==> ReplicasDead(c, hashes[x], t)
  }

  lemma RoundOf(c: Config, h: nat, j: nat) returns (i: nat)
    requires c.servers > 0 && c.start <= c.replicas && Covering(c) && j <= c.replicas
    ensures i <= c.replicas && Target(c, h, i) == Replica(c, h, j)
  {
    if c.replicas >= c.servers - 1 {
      i := SomeRound(c, h, Replica(c, h, j));
    } else {
      i := j;
      Consecutive(c, h, j);
    }
  }

  /** When the keys are spread and the start covers, a key is left unsent only if all its replicas are dead. */
  lemma SpreadRunReachesAll(c: Config, env: Env, hashes: seq<nat>, s: State)
    requires Sound(c, env, hashes) && Inv(env, hashes, 0, s) && Shaped(env, s)
    ensures Kept(c, hashes, Rounds(env, s, 0, c.replicas).0)
  {
    var t := Rounds(env, s, 0, c.replicas).0;
    RunIsSafe(env, hashes, s, 0, c.replicas);
    SpreadRunSettlesAll(c, env, hashes, s, 0);
    forall x | 0 <= x < |hashes| && t.hash[x] != c.servers
      ensures ReplicasDead(c, hashes[x], t)
    {
      forall j | 0 <= j <= c.replicas
        ensures t.dead[Replica(c, hashes[x], j)]
      {
        var i := RoundOf(c, hashes[x], j);
        assert Settled(env, hashes, t, x, i) && env.target(hashes[x], i) == Target(c, hashes[x], i);
      }
    }
  }

  // ----- close keys: some failures make the run give up on one of them -----

  /** Servers fail x's writes in the first d rounds and y's first write, and nothing else. */
  function Failures(x: nat, y: nat, d: nat): (nat, nat) -> bool {
    (r: nat, z: nat) => !((z == x && r < d) || (z == y && r == 0))
  }

  /** The servers x visits up to round d + 1 are different; in round d it meets the server y begins with. */
  ghost predicate Crossing(env: Env, hashes: seq<nat>, x: nat, y: nat, d: nat) {
    && x < |hashes| && y < |hashes| && x != y && d >= 1
    && (forall z :: 0 <= z < |hashes| ==> hashes[z] < env.servers)
    && (forall z, i :: 0 <= z < |hashes| ==> env.target(hashes[z], i) < env.servers)
    && (forall i, j :: 0 <= i < j <= d + 1 ==> env.target(hashes[x], i) != env.target(hashes[x], j))
    && env.target(hashes[x], d) == env.target(hashes[y], 0)
    && (forall r, z :: env.connects(r, z)) && env.writes == Failures(x, y, d)
  }

  /** Who dies in round r, once the first k keys have had their turn. */
  ghost predicate DiesIn(env: Env, hashes: seq<nat>, x: nat, y: nat, d: nat, r: nat, k: nat, v: nat)
    requires x < |hashes| && y < |hashes|
  {
    (r < d && x < k && v == env.target(hashes[x], r)) || (r == 0 && y < k && v == env.target(hashes[y], 0))
  }

  ghost predicate During(env: Env, hashes: seq<nat>, x: nat, y: nat, d: nat, r: nat, s: State, t: State, k: nat)
    requires x < |hashes| && y < |hashes|
  {
    && |t.hash| == |hashes| && |s.dead| == |t.dead| == |t.pending| == env.servers
    && (forall z :: 0 <= z < |hashes| ==> t.hash[z] == hashes[z] || t.hash[z] == env.servers)
    && t.hash[x] == hashes[x] && (r == 0 && k <= y ==> t.hash[y] == hashes[y])
    && (forall v :: 0 <= v < env.servers ==> t.dead[v] == (s.dead[v] || DiesIn(env, hashes, x, y, d, r, k, v)))
    && (r < d && x < k ==> !t.success) && (r == d ==> t.success)
  }

  /** The dead at the beginning of round r. */
  ghost predicate DeadBefore(env: Env, hashes: seq<nat>, x: nat, y: nat, r: nat, v: nat)
    requires x < |hashes| && y < |hashes|
  {
    (exists i :: 0 <= i < r && v == env.target(hashes[x], i)) || (r > 0 && v == env.target(hashes[y], 0))
  }

  ghost predicate Before(env: Env, hashes: seq<nat>, x: nat, y: nat, r: nat, s: State)
    requires x < |hashes| && y < |hashes|
  {
    && |s.hash| == |hashes| && |s.dead| == |s.pending| == env.servers
    && (forall z :: 0 <= z < |hashes| ==> s.hash[z] == hashes[z] || s.hash[z] == env.servers)
    && s.hash[x] == hashes[x] && (r == 0 ==> s.hash[y] == hashes[y])
    && (forall v :: 0 <= v < env.servers ==> s.dead[v] == DeadBefore(env, hashes, x, y, r, v))
  }

  lemma TurnOfX(env: Env, hashes: seq<nat>, x: nat, y: nat, d: nat, r: nat, s: State, t: State, k: nat)
    requires Crossing(env, hashes, x, y, d) && Before(env, hashes, x, y, r, s) && r <= d
    requires During(env, hashes, x, y, d, r, s, t, k) && Shaped(env, t) && k < |hashes| && k == x
    ensures During(env, hashes, x, y, d, r, s, Attempt(env, r, t, k), k + 1)
  {
    var v := env.target(hashes[k], r);
    assert v < env.servers;
    assert s.dead[v] == DeadBefore(env, hashes, x, y, r, v);
  }

  lemma TurnOfY(env: Env, hashes: seq<nat>, x: nat, y: nat, d: nat, r: nat, s: State, t: State, k: nat)
    requires Crossing(env, hashes, x, y, d) && Before(env, hashes, x, y, r, s) && r <= d
    requires During(env, hashes, x, y, d, r, s, t, k) && Shaped(env, t) && k < |hashes| && k == y && r == 0
    ensures During(env, hashes, x, y, d, r, s, Attempt(env, r, t, k), k + 1)
  {
    var v := env.target(hashes[k], r);
    assert v < env.servers;
    assert s.dead[v] == DeadBefore(env, hashes, x, y, r, v);
  }

  lemma TurnOfOther(env: Env, hashes: seq<nat>, x: nat, y: nat, d: nat, r: nat, s: State, t: State, k: nat)
    requires Crossing(env, hashes, x, y, d) && Before(env, hashes, x, y, r, s) && r <= d
    requires During(env, hashes, x, y, d, r, s, t, k) && Shaped(env, t) && k < |hashes| && k != x && (k != y || r > 0)
    ensures During(env, hashes, x, y, d, r, s, Attempt(env, r, t, k), k + 1)
  {
    assert env.writes(r, k) && env.connects(r, k);
  }

  lemma TurnDuring(env: Env, hashes: seq<nat>, x: nat, y: nat, d: nat, r: nat, s: State, t: State, k: nat)
    requires Crossing(env, hashes, x, y, d) && Before(env, hashes, x, y, r, s) && r <= d
    requires During(env, hashes, x, y, d, r, s, t, k) && Shaped(env, t) && k < |hashes|
    ensures During(env, hashes, x, y, d, r, s, Attempt(env, r, t, k), k + 1)
  {
    if k == x {
      TurnOfX(env, hashes, x, y, d, r, s, t, k);
    } else if k == y && r == 0 {
      TurnOfY(env, hashes, x, y, d, r, s, t, k);
    } else {
      TurnOfOther(env, hashes, x, y, d, r, s, t, k);
    }
  }

  lemma RoundDuring(env: Env, hashes: seq<nat>, x: nat, y: nat, d: nat, r: nat, s: State)
    requires Crossing(env, hashes, x, y, d) && Before(env, hashes, x, y, r, s) && r <= d && Shaped(env, s)
    ensures During(env, hashes, x, y, d, r, s, Round(env, r, s), |hashes|)
  {
    var u := s.(success := true);
    forall t: State, k: nat |
      Shaped(env, t) && |t.hash| == |u.hash| && k < |t.hash| && During(env, hashes, x, y, d, r, s, t, k)
      ensures During(env, hashes, x, y, d, r, s, Attempt(env, r, t, k), k + 1)
    {
      TurnDuring(env, hashes, x, y, d, r, s, t, k);
    }
    TurnsInduct(env, r, u, |hashes|, (t: State, k: nat) => During(env, hashes, x, y, d, r, s, t, k));
  }

  lemma NextRound(env: Env, hashes: seq<nat>, x: nat, y: nat, d: nat, r: nat, s: State, t: State)
    requires Crossing(env, hashes, x, y, d) && Before(env, hashes, x, y, r, s) && r < d
    requires During(env, hashes, x, y, d, r, s, t, |hashes|)
    ensures Before(env, hashes, x, y, r + 1, t)
  {
    forall v | 0 <= v < env.servers
      ensures t.dead[v] == DeadBefore(env, hashes, x, y, r + 1, v)
    {
      assert s.dead[v] == DeadBefore(env, hashes, x, y, r, v);
    }
  }

  /** The run ends with round d: x is unsent, and the next of its servers is alive. */
  lemma {:induction false} CrossingRunGivesUp(env: Env, hashes: seq<nat>, x: nat, y: nat, d: nat, last: nat, r: nat,
                                              s: State)
    requires Crossing(env, hashes, x, y, d) && Before(env, hashes, x, y, r, s) && Shaped(env, s) && r <= d < last
    ensures var t := Rounds(env, s, r, last).0;
            var v := env.target(hashes[x], d + 1);
            x < |t.hash| && v < |t.dead| && t.hash[x] != env.servers && !t.dead[v]
    decreases d - r
  {
    var t := Round(env, r, s);
    RoundDuring(env, hashes, x, y, d, r, s);
    if r < d {
      NextRound(env, hashes, x, y, d, r, s, t);
      CrossingRunGivesUp(env, hashes, x, y, d, last, r + 1, t);
    } else {
      var v := env.target(hashes[x], d + 1);
      assert s.dead[v] == DeadBefore(env, hashes, x, y, r, v);
    }
  }

  lemma CloseKeysCross(c: Config, hashes: seq<nat>, x: nat, y: nat)
    requires c.servers > 0 && c.start <= c.replicas && Covering(c)
    requires HashesOk(c, hashes) && x < |hashes| && y < |hashes|
    requires Close(hashes[x], hashes[y], c.servers, c.replicas)
    ensures var d := Distance(hashes[x], hashes[y], c.servers);
            Crossing(EnvOf(c, (r, z) => true, Failures(x, y, d)), hashes, x, y, d)
  {
    var n, d, b := c.servers, Distance(hashes[x], hashes[y], c.servers), Shift(c);
    forall i, j | 0 <= i < j <= d + 1
      ensures Target(c, hashes[x], i) != Target(c, hashes[x], j)
    {
      Consecutive(c, hashes[x], i);
      Consecutive(c, hashes[x], j);
      Cancel(i, j, hashes[x] + b, n);
      assert i + (hashes[x] + b) == hashes[x] + b + i && j + (hashes[x] + b) == hashes[x] + b + j;
    }
    Consecutive(c, hashes[x], d);
    Consecutive(c, hashes[y], 0);
    WrapOnce(hashes[x] + d, n);
    Cancel(hashes[x] + d, hashes[y], b, n);
    assert hashes[x] + d + b == hashes[x] + b + d;
  }

  /** What a call makes of its keys when connecting and writing go as given. */
  function Final(c: Config, hashes: seq<nat>, connects: (nat, nat) -> bool, writes: (nat, nat) -> bool): State
    requires c.servers > 0 && HashesOk(c, hashes)
  {
    Rounds(EnvOf(c, connects, writes), Begin(c.servers, hashes), 0, c.replicas).0
  }

  /** When two keys are close, there are failures after which a key is unsent although one of its replicas is alive. */
  lemma CloseRunGivesUp(c: Config, hashes: seq<nat>, x: nat, y: nat)
    returns (connects: (nat, nat) -> bool, writes: (nat, nat) -> bool)
    requires c.servers > 0 && c.start <= c.replicas && Covering(c)
    requires HashesOk(c, hashes) && x < |hashes| && y < |hashes|
    requires Close(hashes[x], hashes[y], c.servers, c.replicas)
    ensures !Kept(c, hashes, Final(c, hashes, connects, writes))
  {
    var d := Distance(hashes[x], hashes[y], c.servers);
    connects, writes := (r, z) => true, Failures(x, y, d);
    var env, s := EnvOf(c, connects, writes), Begin(c.servers, hashes);
    BeginIsInv(c, hashes, connects, writes);
    CloseKeysCross(c, hashes, x, y);
    assert Before(env, hashes, x, y, 0, s);
    CrossingRunGivesUp(env, hashes, x, y, d, c.replicas, 0, s);
    assert env.target(hashes[x], d + 1) == Replica(c, hashes[x], Offset(c, d + 1));
  }

  // ----- a start that does not cover: every key can be given up -----

  /** Servers fail all of x's writes, and nothing else. */
  ghost predicate OnlyFails(env: Env, hashes: seq<nat>, x: nat) {
    && x < |hashes| && hashes[x] < env.servers && (forall i :: env.target(hashes[x], i) < env.servers)
    && (forall r, z :: env.connects(r, z)) && forall r, z :: env.writes(r, z) <==> z != x
  }

  /** In round r, which began with s, after k turns. */
  ghost predicate Lonely(env: Env, hashes: seq<nat>, x: nat, r: nat, s: State, t: State, k: nat)
    requires OnlyFails(env, hashes, x)
  {
    && |t.hash| == |hashes| && |s.dead| == |t.dead| == env.servers && t.hash[x] == hashes[x]
    && var mine := env.target(hashes[x], r);
       if x < k && !s.dead[mine] then t.dead == s.dead[mine := true] && !t.success else t.dead == s.dead && t.success
  }

  lemma LonelyRound(env: Env, hashes: seq<nat>, x: nat, r: nat, s: State)
    requires OnlyFails(env, hashes, x) && Shaped(env, s) && |s.hash| == |hashes| && s.hash[x] == hashes[x]
    ensures Lonely(env, hashes, x, r, s, Round(env, r, s), |hashes|)
  {
    var u := s.(success := true);
    TurnsInduct(env, r, u, |hashes|, (t: State, k: nat) => Lonely(env, hashes, x, r, s, t, k));
  }

  /** A round that leads to v comes only after one that leads where an earlier one has led. */
  ghost predicate Shunned(env: Env, h: nat, v: nat, last: nat) {
    forall q :: 0 <= q <= last && env.target(h, q) == v ==> q > 0 && Again(env, h, q - 1)
  }

  ghost predicate Again(env: Env, h: nat, q: nat) {
    exists i :: 0 <= i < q && env.target(h, i) == env.target(h, q)
  }

  /** So v is never reached: the round before is a success, and the run is over. */
  lemma {:induction false} LonelyRunGivesUp(env: Env, hashes: seq<nat>, x: nat, v: nat, last: nat, r: nat, s: State)
    requires OnlyFails(env, hashes, x) && Shaped(env, s) && |s.hash| == |hashes| && s.hash[x] == hashes[x]
    requires v < env.servers && !s.dead[v] && Shunned(env, hashes[x], v, last) && r <= last + 1
    requires forall i :: 0 <= i < r ==> s.dead[env.target(hashes[x], i)] && !Again(env, hashes[x], i)
    ensures var t := Rounds(env, s, r, last).0;
            x < |t.hash| && |t.dead| == env.servers && t.hash[x] != env.servers && !t.dead[v]
    decreases last + 1 - r
  {
    if r <= last {
      var t := Round(env, r, s);
      LonelyRound(env, hashes, x, r, s);
      assert env.target(hashes[x], r) != v;
      if !t.success {
        assert !Again(env, hashes[x], r);
        LonelyRunGivesUp(env, hashes, x, v, last, r + 1, t);
      }
    }
  }

  lemma Apart(u: nat, v: nat, n: nat)
    requires u < v < u + n
    ensures Wrap(u, n) != Wrap(v, n)
  {
    Cancel(0, v - u, u, n);
  }

  /** The server behind the last replica is led to late. */
  lemma NextServerShunned(c: Config, env: Env, h: nat)
    requires 0 < c.servers <= c.replicas && c.start <= c.replicas && !Covering(c) && Follows(c, env)
    ensures Shunned(env, h, Wrap(h + c.replicas + 1, c.servers), c.replicas)
  {
    var n, R, a := c.servers, c.replicas, c.start;
    forall q | 0 <= q <= R && env.target(h, q) == Wrap(h + R + 1, n)
      ensures q > 0 && Again(env, h, q - 1)
    {
      Cancel(Offset(c, q), R + 1, h, n);
      if q + a <= R {
        Apart(q + a, R + 1, n);
      } else {
        NotRightAfter(c, q);
        LastServerAgain(c, h, q - 1);
        assert env.target(h, R - a) == env.target(h, q - 1);
      }
    }
  }

  lemma LastServerAgain(c: Config, h: nat, q: nat)
    requires c.servers > 0 && c.start <= c.replicas && c.randomize && c.replicas - c.start < q <= c.replicas
    requires Wrap(q + 1, c.servers) == Wrap(c.replicas + 1, c.servers)
    ensures Target(c, h, q) == Target(c, h, c.replicas - c.start)
  {
    Cancel(q, c.replicas, 1, c.servers);
    Cancel(q, c.replicas, h, c.servers);
    assert h + Offset(c, q) == q + h && h + Offset(c, c.replicas - c.start) == c.replicas + h;
  }

  lemma NotRightAfter(c: Config, q: nat)
    requires c.servers > 0 && c.start <= c.replicas && !Covering(c) && c.replicas - c.start < q
    requires Wrap(q, c.servers) == Wrap(c.replicas + 1, c.servers)
    ensures q - 1 > c.replicas - c.start
  {
    if q == c.replicas - c.start + 1 {
      Cancel(0, c.start, q, c.servers);
    }
  }

  /** With fewer replicas than servers the own server is never led to. */
  lemma OwnServerShunned(c: Config, env: Env, h: nat)
    requires c.replicas < c.servers && c.start <= c.replicas && !Covering(c) && Follows(c, env) && h < c.servers
    ensures Shunned(env, h, h, c.replicas)
  {
    forall q | 0 <= q <= c.replicas
      ensures env.target(h, q) != h
    {
      WrapsHome(h, Offset(c, q), c.servers);
    }
  }

  /** When the start does not cover, any key of any call can be left unsent with a replica alive. */
  lemma UncoveredRunGivesUp(c: Config, hashes: seq<nat>, x: nat)
    returns (connects: (nat, nat) -> bool, writes: (nat, nat) -> bool)
    requires c.servers > 0 && c.start <= c.replicas && !Covering(c) && HashesOk(c, hashes) && x < |hashes|
    ensures !Kept(c, hashes, Final(c, hashes, connects, writes))
  {
    connects, writes := (r, z) => true, (r, z) => z != x;
    var env, s, h := EnvOf(c, connects, writes), Begin(c.servers, hashes), hashes[x];
    BeginIsInv(c, hashes, connects, writes);
    assert Follows(c, env);
    var j: nat := if c.replicas < c.servers then 0 else c.replicas + 1 - c.servers;
    if c.replicas < c.servers {
      OwnServerShunned(c, env, h);
    } else {
      NextServerShunned(c, env, h);
    }
    LonelyRunGivesUp(env, hashes, x, Replica(c, h, j), c.replicas, 0, s);
  }

  /** Whatever fails, a key is left unsent only if all its replicas are dead: that holds exactly when there is no
      key, or the start covers and no two keys are close. */
  lemma PromiseIff(c: Config, hashes: seq<nat>)
    requires c.servers > 0 && c.start <= c.replicas && HashesOk(c, hashes)
    ensures (forall connects, writes :: Kept(c, hashes, Final(c, hashes, connects, writes)))
        <==> hashes == [] || (Covering(c) && Spread(hashes, c.servers, c.replicas))
  {
    if Covering(c) && Spread(hashes, c.servers, c.replicas) {
      forall connects, writes
        ensures Kept(c, hashes, Final(c, hashes, connects, writes))
      {
        BeginIsInv(c, hashes, connects, writes);
        SpreadRunReachesAll(c, EnvOf(c, connects, writes), hashes, Begin(c.servers, hashes));
      }
    } else if hashes != [] {
      if Covering(c) {
        var x, y :| 0 <= x < |hashes| && 0 <= y < |hashes| && Close(hashes[x], hashes[y], c.servers, c.replicas);
        var connects, writes := CloseRunGivesUp(c, hashes, x, y);
      } else {
        var connects, writes := UncoveredRunGivesUp(c, hashes, 0);
      }
    } else {
      NoKeys(c);
    }
  }

  lemma NoKeys(c: Config)
    requires c.servers > 0 && c.start <= c.replicas
    ensures forall connects, writes :: Kept(c, [], Final(c, [], connects, writes))
  {
    forall connects, writes
      ensures Kept(c, [], Final(c, [], connects, writes))
    {
      BeginIsInv(c, [], connects, writes);
    }
  }
}
