/**
 Which servers a key reaches, and the offsets a random start leaves out.
 */
module ReplicaReach {
  import opened ReplicaModel

  datatype Config = Config(servers: nat, replicas: nat, randomize: bool, start: nat)

  /** while (server >= n) server -= n. */
  function Wrap(v: nat, n: nat): (r: nat)
    requires n > 0
    ensures r < n
  {
    if v < n then v else Wrap(v - n, n)
  }

  /** How far from its own server a key is offered in round r. */
  function Offset(c: Config, r: nat): nat {
    if c.randomize && r + c.start <= c.replicas then r + c.start else r
  }

  function Target(c: Config, h: nat, r: nat): nat {
    if c.servers == 0 then 0 else Wrap(h + Offset(c, r), c.servers)
  }

  function EnvOf(c: Config, connects: (nat, nat) -> bool, writes: (nat, nat) -> bool): Env {
    Env(c.servers, (h: nat, r: nat) => Target(c, h, r), connects, writes)
  }

  ghost predicate Follows(c: Config, env: Env) {
    env.servers == c.servers && forall h, r :: env.target(h, r) == Target(c, h, r)
  }

  ghost predicate HashesOk(c: Config, hashes: seq<nat>) {
    forall x :: 0 <= x < |hashes| ==> hashes[x] < c.servers
  }

  lemma BeginIsInv(c: Config, hashes: seq<nat>, connects: (nat, nat) -> bool, writes: (nat, nat) -> bool)
    requires HashesOk(c, hashes)
    ensures var (env, s) := (EnvOf(c, connects, writes), Begin(c.servers, hashes));
            Inv(env, hashes, 0, s) && Shaped(env, s) && AllSettled(env, hashes, s, 0)
  {
  }

  // ----- a random start -----

  /** With start s the offsets tried are s to replicas and, once those are past, replicas - s + 1 to replicas. */
  lemma OffsetsTried(c: Config, j: nat)
    requires c.start <= c.replicas && j <= c.replicas
    ensures (exists r :: 0 <= r <= c.replicas && Offset(c, r) == j)
        <==> (!c.randomize || j >= c.start || j > c.replicas - c.start)
  {
    if !c.randomize || j > c.replicas - c.start {
      assert Offset(c, j) == j;
    } else if j >= c.start {
      assert Offset(c, j - c.start) == j;
    }
  }

  // ----- wrapping around -----

  lemma {:induction false} WrapSum(h: nat, j: nat, n: nat)
    requires n > 0
    ensures Wrap(h + j, n) == Wrap(h + Wrap(j, n), n)
    decreases j
  {
    if j >= n {
      WrapSum(h, j - n, n);
    }
  }

  lemma WrapOnce(v: nat, n: nat)
    requires v < 2 * n
    ensures Wrap(v, n) == if v < n then v else v - n
  {
  }

  lemma {:induction false} WrapNext(v: nat, n: nat)
    requires n > 0
    ensures Wrap(v + 1, n) == if Wrap(v, n) + 1 < n then Wrap(v, n) + 1 else 0
  {
    if v >= n {
      WrapNext(v - n, n);
    }
  }

  /** The same shift on both sides makes no difference. */
  lemma {:induction false} Cancel(u: nat, v: nat, b: nat, n: nat)
    requires n > 0
    ensures Wrap(u + b, n) == Wrap(v + b, n) <==> Wrap(u, n) == Wrap(v, n)
    decreases b
  {
    if b > 0 {
      Cancel(u, v, b - 1, n);
      WrapNext(u + b - 1, n);
      WrapNext(v + b - 1, n);
    }
  }

  lemma ModLess(v: nat, n: nat)
    requires 0 < n <= v
    ensures (v - n) % n == v % n
  {
    var q := (v - n) / n;
    assert v - n == q * n + (v - n) % n;
    assert v == (q + 1) * n + (v - n) % n;
    UniqueQuotient(q + 1, (v - n) % n, v / n, v % n, n);
  }

  lemma UniqueQuotient(q: int, r: int, p: int, s: int, n: nat)
    requires 0 <= r < n && 0 <= s < n && q * n + r == p * n + s
    ensures r == s
  {
    assert (q - p) * n == s - r && (p - q) * n == r - s;
    AtLeastOne(q - p, n);
    AtLeastOne(p - q, n);
  }

  lemma AtLeastOne(k: int, n: nat)
    ensures k >= 1 ==> k * n >= n
  {
  }

  lemma {:induction false} WrapMod(v: nat, n: nat)
    requires n > 0
    ensures Wrap(v, n) == v % n
  {
    if v >= n {
      WrapMod(v - n, n);
      ModLess(v, n);
    }
  }

  /** A request goes to the key's own server or to one of the replicas that follow it. */
  lemma SentToReplica(c: Config, env: Env, hashes: seq<nat>, r: nat, e: Event) returns (j: nat)
    requires c.servers > 0 && Follows(c, env)
    requires e.Sent? && Aimed(env, hashes, r, e) && r <= c.replicas + 1
    ensures j <= c.replicas && e.key < |hashes| && e.server == (hashes[e.key] + j) % c.servers
  {
    var i :| 0 <= i < r && e.server == env.target(hashes[e.key], i);
    assert env.target(hashes[e.key], i) == Target(c, hashes[e.key], i);
    j := Offset(c, i);
    WrapMod(hashes[e.key] + j, c.servers);
  }

  /** The largest multiple of n that is at most k. */
  function Multiple(k: nat, n: nat): nat
    requires n > 0
  {
    if k < n then 0 else n + Multiple(k - n, n)
  }

  lemma {:induction false} MultipleIsLargest(k: nat, n: nat, j: nat)
    requires n > 0 && j <= k && Wrap(j, n) == 0
    ensures j <= Multiple(k, n) <= k && Wrap(Multiple(k, n), n) == 0
  {
    if k >= n {
      MultipleIsLargest(k - n, n, if j >= n then j - n else 0);
    }
  }

  /** Some round leads a key back to its own server. */
  ghost predicate OwnTried(c: Config, h: nat) {
    exists r :: 0 <= r <= c.replicas && Target(c, h, r) == h
  }

  lemma WrapsHome(h: nat, j: nat, n: nat)
    requires h < n
    ensures Wrap(h + j, n) == h <==> Wrap(j, n) == 0
  {
    WrapSum(h, j, n);
    WrapOnce(h + Wrap(j, n), n);
  }

  /** With a random start other than 0 a key's own server is tried only if there are at least as many replicas as
      servers and the last offset that wraps around to it is among those tried. */
  lemma OwnServerTried(c: Config, h: nat)
    requires h < c.servers && c.start <= c.replicas
    ensures OwnTried(c, h) <==>
              !c.randomize || c.start == 0
              || (c.replicas >= c.servers
                  && var m := Multiple(c.replicas, c.servers); m >= c.start || m > c.replicas - c.start)
  {
    var n, m := c.servers, Multiple(c.replicas, c.servers);
    MultipleIsLargest(c.replicas, n, 0);
    if OwnTried(c, h) {
      var r :| 0 <= r <= c.replicas && Target(c, h, r) == h;
      var j := Offset(c, r);
      WrapsHome(h, j, n);
      MultipleIsLargest(c.replicas, n, j);
      OffsetsTried(c, j);
    }
    if !c.randomize || c.start == 0 {
      assert Target(c, h, 0) == h;
    } else if m >= c.start || m > c.replicas - c.start {
      OffsetsTried(c, m);
      var r :| 0 <= r <= c.replicas && Offset(c, r) == m;
      WrapsHome(h, m, n);
      assert Target(c, h, r) == h;
    }
  }
}
