/** The round-robin load balancer of loadBalancers/roundRobin/roundRobin.go:
    a counter picks the backend for each request and advances by one. Every
    backend reports itself alive, so the "skip dead servers" loop never runs. */
module RoundRobin {
  import Arith

  /** A backend (`simpleServer`), known by its address; its reverse proxy
      is not part of this model. */
  datatype Server = Server(addr: string)

  /** The backend positions picked by `k` consecutive calls that start with
      the counter at `start`. */
  function Positions(n: nat, start: nat, k: nat): (ps: seq<nat>)
    requires n > 0
    ensures |ps| == k && forall j :: 0 <= j < k ==> ps[j] < n
  {
    seq(k, j requires 0 <= j < k => (start + j) % n)
  }

  /** The servers returned by `k` consecutive calls that start with the
      counter at `start`. */
  function Rotation(servers: seq<Server>, start: nat, k: nat): (r: seq<Server>)
    requires |servers| > 0
    ensures |r| == k
    ensures forall j :: 0 <= j < k ==> r[j] == servers[Positions(|servers|, start, k)[j]]
  {
    seq(k, j requires 0 <= j < k => servers[(start + j) % |servers|])
  }

  /** Any `n` consecutive calls, wherever the counter stands, pick each of
      the `n` positions exactly once: no position twice, none missed. */
  lemma PositionsVisitEachOnce(n: nat, start: nat)
    requires n > 0
    ensures forall i, j :: 0 <= i < j < n ==> Positions(n, start, n)[i] != Positions(n, start, n)[j]
    ensures forall p :: 0 <= p < n ==> p in Positions(n, start, n)
  {
    var ps := Positions(n, start, n);
    var r := start % n;
    forall j | 0 <= j < n
      ensures ps[j] == if r + j < n then r + j else r + j - n
    {
      Arith.ModAddSmall(start, j, n);
    }
    forall p | 0 <= p < n
      ensures p in ps
    {
      var j := if r <= p then p - r else p + n - r;
      assert ps[j] == p;
    }
  }

  /** From a counter that is a multiple of `n` (in particular 0, as a new
      balancer starts), `n` calls return the servers in index order. */
  lemma RotationFromCycleStart(servers: seq<Server>, start: nat)
    requires |servers| > 0 && start % |servers| == 0
    ensures Rotation(servers, start, |servers|) == servers
  {
    var n := |servers|;
    forall j | 0 <= j < n
      ensures Rotation(servers, start, n)[j] == servers[j]
    {
      Arith.ModAddSmall(start, j, n);
    }
  }

  /** The calls from `start` onwards are the calls before `start + k`
      without the first `start` of them. */
  lemma RotationWindow(servers: seq<Server>, start: nat, k: nat)
    requires |servers| > 0
    ensures Rotation(servers, 0, start + k)[start..] == Rotation(servers, start, k)
  {
  }

  /** `LoadBalancer`: the listening port, the backends and the round-robin
      counter. The ghost `served` records every server handed out so far. */
  class LoadBalancer {
    const port: string
    var servers: seq<Server>
    var roundRobinCount: nat
    ghost var served: seq<Server>

    /** The counter has advanced once per server handed out, and each was
        the one the counter pointed at. */
    ghost predicate Valid()
      reads this
    {
      if |servers| == 0 then roundRobinCount == 0 && served == []
      else served == Rotation(servers, 0, roundRobinCount)
    }

    /** `NewLoadBalancer`: the given port and servers, counter at 0. */
    constructor (port: string, servers: seq<Server>)
      ensures Valid()
      ensures this.port == port && this.servers == servers
      ensures roundRobinCount == 0 && served == []
    {
      this.port := port;
      this.servers := servers;
      roundRobinCount := 0;
      served := [];
    }

    /** `getNextAvailableServer`: the server at the counter modulo the number
        of servers; the counter then advances by one. Go's `%` panics on an
        empty server list, hence the precondition. */
    method GetNextAvailableServer() returns (server: Server)
      requires Valid() && |servers| > 0
      modifies this
      ensures Valid()
      ensures servers == old(servers)
      ensures server == servers[old(roundRobinCount) % |servers|]
      ensures roundRobinCount == old(roundRobinCount) + 1
      ensures served == old(served) + [server]
    {
      server := servers[roundRobinCount % |servers|];
      roundRobinCount := roundRobinCount + 1;
      served := served + [server];
      assert served == Rotation(servers, 0, roundRobinCount);
    }
  }
}
