/**
 replication_binary_mget: the loops over the arrays `hash` and `dead_servers` and the servers' response counts.
 */
module ReplicaMget {
  import opened ReplicaModel
  import opened ReplicaReach

  /** The arrays as a state of the model. */
  ghost function View(hash: array<nat>, dead: array<bool>, pending: array<nat>, events: seq<Event>,
                      success: bool): State
    reads hash, dead, pending
  {
    State(hash[..], dead[..], pending[..], events, success)
  }

  method TargetServer(c: Config, h: nat, replica: nat) returns (server: nat)
    requires c.servers > 0
    ensures server == Target(c, h, replica)
  {
    server := h + replica;
    if c.randomize && server + c.start <= h + c.replicas {
      server := server + c.start;
    }
    ghost var all := server;
    while server >= c.servers
      invariant Wrap(all, c.servers) == Wrap(server, c.servers)
    {
      server := server - c.servers;
    }
  }

  /** One turn: get.c:487-552. */
  method Turn(c: Config, connects: (nat, nat) -> bool, writes: (nat, nat) -> bool, replica: nat, x: nat,
              hash: array<nat>, dead: array<bool>, pending: array<nat>, events: seq<Event>, success: bool)
    returns (log: seq<Event>, ok: bool)
    requires c.servers > 0 && hash != pending
    requires Shaped(EnvOf(c, connects, writes), View(hash, dead, pending, events, success)) && x < hash.Length
    modifies hash, dead, pending
    ensures View(hash, dead, pending, log, ok)
         == Attempt(EnvOf(c, connects, writes), replica, old(View(hash, dead, pending, events, success)), x)
  {
    log, ok := events, success;
    if hash[x] == c.servers { return; }
    var server := TargetServer(c, hash[x], replica);
    if dead[server] { return; }
    if pending[server] == 0 {
      if !connects(replica, x) {
        dead[server], pending[server], ok, log := true, 0, false, log + [Died(server)];
        return;
      }
    }
    if !writes(replica, x) {
      dead[server], pending[server], ok, log := true, 0, false, log + [Died(server)];
      return;
    }
    pending[server] := pending[server] + 1;
    hash[x] := c.servers;
    log := log + [Sent(x, server)];
  }

  /** One round: get.c:481-553. */
  method DoRound(c: Config, connects: (nat, nat) -> bool, writes: (nat, nat) -> bool, replica: nat,
                 hash: array<nat>, dead: array<bool>, pending: array<nat>, events: seq<Event>)
    returns (log: seq<Event>, success: bool)
    requires c.servers > 0 && hash != pending
    requires Shaped(EnvOf(c, connects, writes), View(hash, dead, pending, events, true))
    modifies hash, dead, pending
    ensures View(hash, dead, pending, log, success)
         == Turns(EnvOf(c, connects, writes), replica, old(View(hash, dead, pending, events, true)), hash.Length)
  {
    ghost var env := EnvOf(c, connects, writes);
    ghost var s := View(hash, dead, pending, events, true);
    log, success := events, true;
    for x := 0 to hash.Length
      invariant View(hash, dead, pending, log, success) == Turns(env, replica, s, x)
    {
      log, success := Turn(c, connects, writes, replica, x, hash, dead, pending, log, success);
    }
  }

  /**
   replication_binary_mget, called with no server dead and no response pending. Whatever fails, each key is sent at most
   once, to one of its replicas that is not dead; an unsent key has met dead servers only.
   */
  method ReplicationBinaryMget(c: Config, connects: (nat, nat) -> bool, writes: (nat, nat) -> bool,
                               hash: array<nat>, dead: array<bool>, pending: array<nat>)
    returns (log: seq<Event>, rounds: nat, success: bool)
    requires c.servers > 0 && hash != pending && HashesOk(c, hash[..])
    requires dead.Length == pending.Length == c.servers
    requires forall v :: 0 <= v < c.servers ==> !dead[v] && pending[v] == 0
    modifies hash, dead, pending
    ensures Shaped(EnvOf(c, connects, writes), Begin(c.servers, old(hash[..])))
    ensures Rounds(EnvOf(c, connects, writes), Begin(c.servers, old(hash[..])), 0, c.replicas)
         == (View(hash, dead, pending, log, success), rounds)
    ensures rounds <= c.replicas + 1 && Orderly(log)
    ensures Inv(EnvOf(c, connects, writes), old(hash[..]), rounds, View(hash, dead, pending, log, success))
    ensures AllSettled(EnvOf(c, connects, writes), old(hash[..]), View(hash, dead, pending, log, success), rounds)
  {
    ghost var env, hashes := EnvOf(c, connects, writes), hash[..];
    ghost var s := Begin(c.servers, hashes);
    ghost var result := Start(c, hashes, connects, writes);
    log, rounds, success := [], 0, true;
    assert View(hash, dead, pending, log, success) == s;
    while rounds <= c.replicas
      invariant rounds <= c.replicas + 1
      invariant Shaped(env, View(hash, dead, pending, log, success))
      invariant Rounds(env, View(hash, dead, pending, log, success), rounds, c.replicas) == result
    {
      ghost var t := View(hash, dead, pending, log, success);
      log, success := DoRound(c, connects, writes, rounds, hash, dead, pending, log);
      assert View(hash, dead, pending, log, success) == Round(env, rounds, t);
      rounds := rounds + 1;
      if success { break; }
    }
  }

  lemma Start(c: Config, hashes: seq<nat>, connects: (nat, nat) -> bool, writes: (nat, nat) -> bool)
    returns (result: (State, nat))
    requires HashesOk(c, hashes)
    ensures var (env, s) := (EnvOf(c, connects, writes), Begin(c.servers, hashes));
            && Shaped(env, s) && result == Rounds(env, s, 0, c.replicas)
            && result.1 <= c.replicas + 1 && Inv(env, hashes, result.1, result.0) && Orderly(result.0.events)
            && AllSettled(env, hashes, result.0, result.1)
  {
    BeginIsInv(c, hashes, connects, writes);
    var env, s := EnvOf(c, connects, writes), Begin(c.servers, hashes);
    RunIsSafe(env, hashes, s, 0, c.replicas);
    result := Rounds(env, s, 0, c.replicas);
  }
}
