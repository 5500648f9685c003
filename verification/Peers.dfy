/** Tunnel addresses: the pool, the search for a free one, and the registry object. */
module Peers {
  import opened Model

  type Key = string
  type Address = nat
  type PeerMap = map<Key, Address>

  /** An IPv4 network: its first address and how many addresses it spans. */
  datatype Pool = Pool(base: Address, size: nat) {
    function Server(): Address {
      base + 1
    }

    /** Usable hosts: all but the first and last, or everything in a network of one or two. */
    function Hosts(): (h: seq<Address>)
      ensures forall i, j :: 0 <= i < j < |h| ==> h[i] != h[j]
    {
      if size <= 2 then seq(size, i => base + i) else seq(size - 2, i => base + 1 + i)
    }

    /** Addresses appliances may get, in the order they are handed out. */
    function Appliances(): seq<Address> {
      Without(Hosts(), Server())
    }
  }

  function Without(s: seq<Address>, x: Address): seq<Address> {
    if s == [] then [] else (if s[0] == x then [] else [s[0]]) + Without(s[1..], x)
  }

  lemma {:induction false} WithoutKeepsOrder(s: seq<Address>, x: Address)
    requires forall i, j :: 0 <= i < j < |s| ==> s[i] != s[j]
    ensures forall y :: y in Without(s, x) <==> y in s && y != x
    ensures forall i, j :: 0 <= i < j < |Without(s, x)| ==> Without(s, x)[i] != Without(s, x)[j]
  {
    if s != [] {
      WithoutKeepsOrder(s[1..], x);
      assert forall y :: y in s <==> y == s[0] || y in s[1..];
      assert s[0] !in s[1..];
    }
  }

  function NextFree(hosts: seq<Address>, used: set<Address>): Option<Address> {
    if hosts == [] then None
    else if hosts[0] !in used then Some(hosts[0])
    else NextFree(hosts[1..], used)
  }

  function Used(pool: Pool, peers: PeerMap): set<Address> {
    peers.Values + {pool.Server()}
  }

  datatype Grant = Grant(address: Address, created: bool) | PoolExhausted

  /** What one allocation answers, given the peers it loaded. */
  function Answer(pool: Pool, peers: PeerMap, key: Key): Grant {
    if key in peers then Grant(peers[key], false)
    else
      var free := NextFree(pool.Hosts(), Used(pool, peers));
      if free.None? then PoolExhausted else Grant(free.value, true)
  }

  function Stored(pool: Pool, peers: PeerMap, key: Key): PeerMap {
    var g := Answer(pool, peers, key);
    if g.Grant? && g.created then peers[key := g.address] else peers
  }

  class PeerRegistry {
    const pool: Pool
    /** The peers file, replaced as a whole. */
    var file: PeerMap

    constructor (pool: Pool)
      ensures this.pool == pool && file == map[]
    {
      this.pool, file := pool, map[];
    }

    method FindFree(peers: PeerMap) returns (free: Option<Address>)
      ensures free == NextFree(pool.Hosts(), Used(pool, peers))
    {
      var used := peers.Values + {pool.Server()};
      var hosts := pool.Hosts();
      var i := 0;
      while i < |hosts|
        invariant 0 <= i <= |hosts|
        invariant NextFree(hosts, used) == NextFree(hosts[i..], used)
      {
        if hosts[i] !in used {
          return Some(hosts[i]);
        }
        i := i + 1;
      }
      free := None;
    }

    method Allocate(key: Key) returns (g: Grant)
      modifies this
      ensures g == Answer(pool, old(file), key)
      ensures file == Stored(pool, old(file), key)
    {
      var peers := file;
      if key in peers {
        return Grant(peers[key], false);
      }
      var address := FindFree(peers);
      if address.None? {
        return PoolExhausted;
      }
      peers := peers[key := address.value];
      file := peers;
      g := Grant(address.value, true);
    }
  }

  // ---- what every file reached by allocation looks like -------------------------------

  /** The file holds exactly the first so many appliance addresses, each once. */
  ghost predicate Packed(pool: Pool, peers: PeerMap) {
    Fills(pool.Appliances(), peers)
  }

  ghost predicate Fills(addresses: seq<Address>, peers: PeerMap) {
    && |peers| <= |addresses|
    && (forall a :: a in peers.Values <==> a in addresses[..|peers|])
    && (forall k, l :: k in peers && l in peers && peers[k] == peers[l] ==> k == l)
  }

  lemma {:induction false} FirstGap(hosts: seq<Address>, server: Address, used: set<Address>, n: nat)
    requires forall i, j :: 0 <= i < j < |hosts| ==> hosts[i] != hosts[j]
    requires n <= |Without(hosts, server)|
    requires forall a :: a in hosts ==> (a in used <==> a == server || a in Without(hosts, server)[..n])
    ensures NextFree(hosts, used) == if n < |Without(hosts, server)| then Some(Without(hosts, server)[n]) else None
  {
    if hosts != [] {
      WithoutKeepsOrder(hosts, server);
      var rest, app := Without(hosts[1..], server), Without(hosts, server);
      WithoutKeepsOrder(hosts[1..], server);
      assert hosts[0] in hosts;
      if hosts[0] == server {
        assert app == rest;
        FirstGap(hosts[1..], server, used, n);
      } else {
        assert app == [hosts[0]] + rest;
        if n > 0 {
          assert app[..n] == [hosts[0]] + rest[..n - 1];
          assert app[..n][0] == hosts[0];
          FirstGap(hosts[1..], server, used, n - 1);
        }
      }
    }
  }

  /** From a packed file a new key gets the next address in order, and exhaustion is
      reported exactly when every appliance address is taken. */
  lemma AnswerFromPacked(pool: Pool, peers: PeerMap, key: Key)
    requires Packed(pool, peers) && key !in peers
    ensures Answer(pool, peers, key)
         == if |peers| < |pool.Appliances()| then Grant(pool.Appliances()[|peers|], true) else PoolExhausted
  {
    WithoutKeepsOrder(pool.Hosts(), pool.Server());
    FirstGap(pool.Hosts(), pool.Server(), Used(pool, peers), |peers|);
  }

  lemma PackedGrows(addresses: seq<Address>, peers: PeerMap, key: Key)
    requires Fills(addresses, peers) && key !in peers && |peers| < |addresses|
    requires forall i, j :: 0 <= i < j < |addresses| ==> addresses[i] != addresses[j]
    ensures Fills(addresses, peers[key := addresses[|peers|]])
  {
    var n := |peers|;
    var next, after := addresses[n], peers[key := addresses[n]];
    assert addresses[..n + 1] == addresses[..n] + [next];
    assert next !in addresses[..n];
    forall k | k in peers ensures peers[k] in peers.Values && peers[k] in after.Values && peers[k] != next {
      assert after[k] == peers[k];
    }
    assert after[key] == next;
    forall a | a in after.Values ensures a in peers.Values || a == next {
      var k :| k in after && after[k] == a;
    }
  }

  /** Allocation keeps the file packed and only ever adds to it, and a key that is
      granted an address is on file with that address. */
  lemma AllocationKeepsPacked(pool: Pool, peers: PeerMap, key: Key)
    requires Packed(pool, peers)
    ensures Packed(pool, Stored(pool, peers, key))
    ensures forall k :: k in peers ==> k in Stored(pool, peers, key) && Stored(pool, peers, key)[k] == peers[k]
    ensures Answer(pool, peers, key).Grant? <==> key in Stored(pool, peers, key)
    ensures Answer(pool, peers, key).Grant? ==> Stored(pool, peers, key)[key] == Answer(pool, peers, key).address
  {
    if key !in peers {
      AnswerFromPacked(pool, peers, key);
      if |peers| < |pool.Appliances()| {
        WithoutKeepsOrder(pool.Hosts(), pool.Server());
        PackedGrows(pool.Appliances(), peers, key);
      }
    }
  }

  /** No appliance is ever given the fabric's own address or one outside the pool. */
  lemma PackedIsInPool(pool: Pool, peers: PeerMap, key: Key)
    requires Packed(pool, peers) && key in peers
    ensures peers[key] in pool.Hosts() && peers[key] != pool.Server()
  {
    WithoutKeepsOrder(pool.Hosts(), pool.Server());
    assert peers[key] in peers.Values;
  }

  // ---- in numbers -------------------------------------------------------------------------

  /** How many appliances a network can serve. */
  ghost function Places(size: nat): nat {
    if size >= 3 then size - 3 else if size == 2 then 1 else size
  }

  /** The n-th appliance's address: in a network with a server in front of them, the n-th after
      the server's; in one of one or two addresses, the first. */
  ghost function PlaceOf(pool: Pool, n: nat): Address {
    if pool.size >= 3 then pool.base + 2 + n else pool.base
  }

  lemma {:induction false} WithoutAbsent(s: seq<Address>, x: Address)
    requires forall i :: 0 <= i < |s| ==> s[i] != x
    ensures Without(s, x) == s
  {
    if |s| > 0 {
      WithoutAbsent(s[1..], x);
    }
  }

  lemma PoolInNumbers(pool: Pool)
    ensures |pool.Appliances()| == Places(pool.size)
    ensures forall n :: 0 <= n < Places(pool.size) ==> pool.Appliances()[n] == PlaceOf(pool, n)
  {
    var hosts := pool.Hosts();
    if pool.size >= 3 {
      assert hosts[0] == pool.Server();
      WithoutAbsent(hosts[1..], pool.Server());
    } else if pool.size == 2 {
      assert hosts == [pool.base, pool.base + 1];
      assert hosts[1..] == [pool.base + 1] && hosts[1..][1..] == [];
      assert Without(hosts[1..], pool.Server()) == [];
    } else {
      WithoutAbsent(hosts, pool.Server());
    }
  }

  /** From every file allocation can lead to: a known key keeps its address; a new one gets the
      next address in the network, or is told the pool is exhausted when all are given out. */
  lemma AnswerInNumbers(pool: Pool, peers: PeerMap, key: Key)
    requires Packed(pool, peers)
    ensures var g, after := Answer(pool, peers, key), Stored(pool, peers, key);
            && (key in peers ==> g == Grant(peers[key], false) && after == peers)
            && (key !in peers && |peers| < Places(pool.size) ==>
                  g == Grant(PlaceOf(pool, |peers|), true) && after == peers[key := PlaceOf(pool, |peers|)])
            && (key !in peers && |peers| >= Places(pool.size) ==> g == PoolExhausted && after == peers)
  {
    PoolInNumbers(pool);
    if key !in peers {
      AnswerFromPacked(pool, peers, key);
    }
  }
}
