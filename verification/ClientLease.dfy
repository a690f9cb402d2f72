/** The round-robin lease of the outgoing HTTP clients, with its shared wrapping counter. */
module ClientLease {

  const POOL_SIZE: nat := 32
  const SIZE_T: nat := 0x1_0000_0000_0000_0000

  /** A client is known by the host key it was made for and its place in that host's pool. */
  datatype Client = Client(key: string, index: nat)

  function KeyOf(protocol: string, host: string): string {
    protocol + "://" + host
  }

  lemma ColonEndsProtocol(protocol: string, host: string)
    requires ':' !in protocol
    ensures var key := KeyOf(protocol, host);
      && |protocol| < |key| && key[|protocol|] == ':' && (forall k :: 0 <= k < |protocol| ==> key[k] != ':')
      && key[..|protocol|] == protocol && key[|protocol| + 3..] == host
  {
    var key := KeyOf(protocol, host);
    assert forall k :: 0 <= k < |protocol| ==> key[k] == protocol[k];
  }

  /** Without a colon in the protocols, different protocols or hosts have different keys, so different clients. */
  lemma KeysApart(protocol: string, host: string, other: string, otherHost: string, i: nat, j: nat)
    requires ':' !in protocol && ':' !in other
    ensures Client(KeyOf(protocol, host), i) == Client(KeyOf(other, otherHost), j)
      <==> protocol == other && host == otherHost && i == j
  {
    ColonEndsProtocol(protocol, host);
    ColonEndsProtocol(other, otherHost);
  }

  /** With one they may coincide. */
  lemma KeysMeet(a: string, b: string, c: string)
    ensures KeyOf(a, b + "://" + c) == KeyOf(a + "://" + b, c)
  {
  }

  function NewPool(key: string): (pool: seq<Client>)
    ensures |pool| == POOL_SIZE && forall k :: 0 <= k < POOL_SIZE ==> pool[k] == Client(key, k)
  {
    seq(POOL_SIZE, k requires 0 <= k => Client(key, k))
  }

  class DrogonHttpClient {
    var pools: map<string, seq<Client>>
    var roundRobin: nat

    /** Every pool ever created is whole and belongs to its key. */
    ghost predicate Valid()
      reads this
    {
      roundRobin < SIZE_T && forall key :: key in pools ==> pools[key] == NewPool(key)
    }

    constructor ()
      ensures Valid() && pools == map[] && roundRobin == 0
    {
      pools, roundRobin := map[], 0;
    }

    /** Creates the host's pool on first use, and hands out its clients in turn. */
    method LeaseClient(protocol: string, host: string) returns (client: Client)
      requires Valid()
      modifies this
      ensures Valid() && roundRobin == (old(roundRobin) + 1) % SIZE_T
      ensures forall key :: key in old(pools) ==> key in pools && pools[key] == old(pools)[key]
      ensures pools.Keys == old(pools).Keys + {KeyOf(protocol, host)}
      ensures client == Client(KeyOf(protocol, host), old(roundRobin) % POOL_SIZE)
    {
      var key := protocol + "://" + host;
      if key !in pools {
        var pool := [];
        for i := 0 to POOL_SIZE
          invariant pool == seq(i, k requires 0 <= k => Client(key, k))
        {
          pool := pool + [Client(key, i)];
        }
        pools := pools[key := pool];
      }
      var index := roundRobin % |pools[key]|;
      roundRobin := (roundRobin + 1) % SIZE_T;
      client := pools[key][index];
    }
  }

  /** The place that the `n`th lease from counter value `start` takes, the counter wrapping at 2^64. */
  function Place(start: nat, n: nat): nat {
    ((start + n) % SIZE_T) % POOL_SIZE
  }

  /** How often place `j` is leased among the first `n` leases. */
  function Leases(start: nat, n: nat, j: nat): nat {
    if n == 0 then 0 else Leases(start, n - 1, j) + if Place(start, n - 1) == j then 1 else 0
  }

  /** The wrap does not disturb the turn, because the pool's size divides the counter's range. */
  lemma PlaceIgnoresWrap(start: nat, n: nat)
    ensures Place(start, n) == (start + n) % POOL_SIZE
  {
    var m := start + n;
    assert m == SIZE_T * (m / SIZE_T) + m % SIZE_T;
    assert SIZE_T == 32 * 0x800_0000_0000_0000;
    assert m == 32 * (0x800_0000_0000_0000 * (m / SIZE_T)) + m % SIZE_T;
  }

  /** Exactly how often a place is leased: once in every full turn, and once more if already reached. */
  lemma {:induction false} LeaseCount(start: nat, n: nat, j: nat)
    requires j < POOL_SIZE
    ensures Leases(start, n, j) == (n + 31 - (j - start) % POOL_SIZE) / POOL_SIZE
  {
    if n > 0 {
      LeaseCount(start, n - 1, j);
      PlaceIgnoresWrap(start, n - 1);
      NextTurn(start, n - 1, j);
    }
  }

  lemma NextTurn(start: nat, n: nat, j: nat)
    requires j < 32
    ensures (n + 32 - (j - start) % 32) / 32
      == (n + 31 - (j - start) % 32) / 32 + if (start + n) % 32 == j then 1 else 0
  {
    var d := (j - start) % 32;
    assert (start + n) % 32 == j <==> (n - d) % 32 == 0;
  }

  /** The rounded-down or the rounded-up share of `n` leases. */
  predicate IsShare(count: nat, n: nat) {
    count == n / POOL_SIZE || count == (n + POOL_SIZE - 1) / POOL_SIZE
  }

  /**
   For one host, any `n` consecutive leases share the clients out evenly, wherever the counter
   stands: each client is handed out the whole number of turns or once more.
   */
  lemma LeasesAreEven(start: nat, n: nat, j: nat)
    requires j < POOL_SIZE
    ensures IsShare(Leases(start, n, j), n)
  {
    LeaseCount(start, n, j);
  }

  // ---------------------------------------------------------------- several hosts on one counter

  /** How often place `j` is leased in one host's first `n` turns, when its turn comes every `k` leases. */
  function RotationLeases(start: nat, k: nat, n: nat, j: nat): nat {
    if n == 0 then 0 else RotationLeases(start, k, n - 1, j) + if Place(start, k * (n - 1)) == j then 1 else 0
  }

  /** From one counter value, each host's clients share its leases evenly however many there are. */
  ghost predicate SharesEvenly(start: nat, k: nat) {
    forall n: nat, j: nat :: j < POOL_SIZE ==> IsShare(RotationLeases(start, k, n, j), n)
  }

  /** The inverse of an odd number modulo 32. */
  function Inverse(m: nat): (inverse: nat)
    requires m < 32
    ensures m % 2 == 1 ==> (m * inverse) % 32 == 1
  {
    match m
    case 1 => 1
    case 3 => 11
    case 5 => 13
    case 7 => 23
    case 9 => 25
    case 11 => 3
    case 13 => 5
    case 15 => 15
    case 17 => 17
    case 19 => 27
    case 21 => 29
    case 23 => 7
    case 25 => 9
    case 27 => 19
    case 29 => 21
    case 31 => 31
    case _ => 0
  }

  lemma Regroup(a: int, b: int, c: int)
    ensures a * (b * c) == (a * b) * c && a * (b + c) == a * b + a * c && a * b == b * a
  {
  }

  /** `v` inverts `k` modulo 32. */
  lemma InverseWhole(k: nat, v: nat) returns (u: int)
    requires k % 2 == 1 && v == Inverse(k % 32)
    ensures v * k == 32 * u + 1
  {
    var m, q := k % 32, k / 32;
    u := v * q + m * v / 32;
    assert m % 2 == 1;
    assert k == 32 * q + m;
    Regroup(v, 32 * q, m);
    Regroup(v, 32, q);
    Regroup(32, v, q);
    Regroup(v, m, 0);
  }

  lemma AddTurns(x: int, q: int)
    ensures (x + 32 * q) % 32 == x % 32
  {
  }

  /** `k * i` is `d` modulo 32, so `i` is `v * d`. */
  lemma TurnFound(k: int, v: int, u: int, i: int, d: int, a: int)
    requires v * k == 32 * u + 1 && k * i == 32 * a + d
    ensures i % 32 == (v * d) % 32
  {
    Regroup(v, k, i);
    Regroup(v, 32 * a, d);
    Regroup(v, 32, a);
    Regroup(32, v, a);
    Regroup(i, 32 * u, 1);
    Regroup(i, 32, u);
    Regroup(32, i, u);
    assert i == v * d + 32 * (v * a - i * u);
    AddTurns(v * d, v * a - i * u);
  }

  /** And conversely. */
  lemma TurnTaken(k: int, v: int, u: int, i: int, d: int, b: int)
    requires v * k == 32 * u + 1 && i == v * d + 32 * b
    ensures k * i == d + 32 * (u * d + k * b)
  {
    Regroup(k, v * d, 32 * b);
    Regroup(k, v, d);
    Regroup(v, k, d);
    Regroup(k, 32, b);
    Regroup(32, k, b);
    Regroup(d, 32 * u, 1);
    Regroup(d, 32, u);
    Regroup(32, d, u);
    Regroup(d, v * k, 0);
  }

  /** With an odd number of hosts the turns of a place come back like those of a single host. */
  lemma TurnOfPlace(start: nat, k: nat, i: nat, j: nat)
    requires k % 2 == 1 && j < 32
    ensures (start + k * i) % 32 == j <==> i % 32 == (Inverse(k % 32) * (j - start)) % 32
  {
    var v := Inverse(k % 32);
    var u := InverseWhole(k, v);
    var d := j - start;
    if (start + k * i) % 32 == j {
      TurnFound(k, v, u, i, d, (start + k * i) / 32);
    }
    if i % 32 == (v * d) % 32 {
      var b := i / 32 - (v * d) / 32;
      TurnTaken(k, v, u, i, d, b);
      AddTurns(j, u * d + k * b);
    }
  }

  lemma {:induction false} OddRotation(start: nat, k: nat, n: nat, j: nat)
    requires k % 2 == 1 && j < POOL_SIZE
    ensures RotationLeases(start, k, n, j) == Leases(0, n, (Inverse(k % 32) * (j - start)) % 32)
  {
    hide Inverse;
    hide Place;
    if n > 0 {
      OddRotation(start, k, n - 1, j);
      PlaceIgnoresWrap(start, k * (n - 1));
      PlaceIgnoresWrap(0, n - 1);
      TurnOfPlace(start, k, n - 1, j);
    }
  }

  /** With an even number of hosts half of a host's clients are never leased at all. */
  lemma {:induction false} EvenRotation(start: nat, k: nat, n: nat, j: nat)
    requires k % 2 == 0 && j < POOL_SIZE && j % 2 != start % 2
    ensures RotationLeases(start, k, n, j) == 0
  {
    hide Place;
    if n > 0 {
      EvenRotation(start, k, n - 1, j);
      PlaceIgnoresWrap(start, k * (n - 1));
      Regroup(2, k / 2, n - 1);
      Parity(start, k / 2 * (n - 1), j);
    }
  }

  lemma Parity(start: nat, n: nat, j: nat)
    requires j % 2 != start % 2
    ensures (start + 2 * n) % 32 != j
  {
    assert (start + 2 * n) % 2 == start % 2;
    var m := start + 2 * n;
    assert m == 32 * (m / 32) + m % 32;
  }

  /**
   When `k` hosts take turns, each host's clients share its leases evenly if and only if `k` is odd,
   whatever counter value the host starts from.
   */
  lemma SharesEvenlyIffOdd(start: nat, k: nat)
    ensures SharesEvenly(start, k) <==> k % 2 == 1
  {
    if k % 2 == 1 {
      forall n: nat, j: nat | j < POOL_SIZE ensures IsShare(RotationLeases(start, k, n, j), n) {
        var t := (Inverse(k % 32) * (j - start)) % 32;
        OddRotation(start, k, n, j);
        LeasesAreEven(0, n, t);
      }
    } else {
      var j := (start + 1) % 2;
      EvenRotation(start, k, 32, j);
      assert !IsShare(RotationLeases(start, k, 32, j), 32);
    }
  }

  // ---------------------------------------------------------------- the same, counted over calls

  datatype Host = Host(protocol: string, name: string)

  ghost predicate DistinctKeys(hosts: seq<Host>) {
    forall g, h :: 0 <= g < h < |hosts| ==> KeyOf(hosts[g].protocol, hosts[g].name) != KeyOf(hosts[h].protocol, hosts[h].name)
  }

  /** After `n` turns of the first `turn` hosts and `n - 1` of the others, the leases are these. */
  ghost predicate Counted(leased: seq<Client>, hosts: seq<Host>, start: nat, n: nat, turn: nat) {
    forall h: nat, j: nat :: h < |hosts| && j < POOL_SIZE ==>
      multiset(leased)[Client(KeyOf(hosts[h].protocol, hosts[h].name), j)]
      == RotationLeases(start + h, |hosts|, if h < turn then n + 1 else n, j)
  }

  lemma CountedLease(leased: seq<Client>, hosts: seq<Host>, start: nat, n: nat, turn: nat)
    requires turn < |hosts| && DistinctKeys(hosts) && Counted(leased, hosts, start, n, turn)
    ensures var key := KeyOf(hosts[turn].protocol, hosts[turn].name);
      Counted(leased + [Client(key, Place(start + turn, |hosts| * n))], hosts, start, n, turn + 1)
  {
    var key := KeyOf(hosts[turn].protocol, hosts[turn].name);
    var client := Client(key, Place(start + turn, |hosts| * n));
    assert multiset(leased + [client]) == multiset(leased) + multiset{client};
    forall h: nat, j: nat | h < |hosts| && j < POOL_SIZE
      ensures multiset(leased + [client])[Client(KeyOf(hosts[h].protocol, hosts[h].name), j)]
        == RotationLeases(start + h, |hosts|, if h < turn + 1 then n + 1 else n, j)
    {
      var counted := multiset(leased)[Client(KeyOf(hosts[h].protocol, hosts[h].name), j)];
      assert counted == RotationLeases(start + h, |hosts|, if h < turn then n + 1 else n, j);
      if h == turn {
        assert RotationLeases(start + h, |hosts|, n + 1, j)
          == RotationLeases(start + h, |hosts|, n, j) + if Place(start + turn, |hosts| * n) == j then 1 else 0;
      } else {
        assert KeyOf(hosts[h].protocol, hosts[h].name) != key;
      }
    }
  }

  /** One turn of each host. */
  method LeaseRound(client: DrogonHttpClient, hosts: seq<Host>, before: seq<Client>, ghost start: nat, ghost n: nat)
    returns (leased: seq<Client>)
    requires client.Valid() && DistinctKeys(hosts)
    requires |before| == |hosts| * n && client.roundRobin == (start + |before|) % SIZE_T
    requires Counted(before, hosts, start, n, 0)
    modifies client
    ensures client.Valid() && |leased| == |before| + |hosts|
    ensures client.roundRobin == (start + |leased|) % SIZE_T
    ensures Counted(leased, hosts, start, n + 1, 0)
  {
    leased := before;
    hide Counted;
    hide Place;
    for h := 0 to |hosts|
      invariant client.Valid() && |leased| == |before| + h
      invariant client.roundRobin == (start + |leased|) % SIZE_T
      invariant Counted(leased, hosts, start, n, h)
    {
      CountedLease(leased, hosts, start, n, h);
      CounterAdvances(start, |leased|);
      HandedPlace(start, h, |before|);
      var handed := client.LeaseClient(hosts[h].protocol, hosts[h].name);
      leased := leased + [handed];
    }
    NextRound(leased, hosts, start, n);
  }

  /** The requests of `hosts` in strict rotation: how often each of their clients is handed out. */
  method LeaseInRotation(client: DrogonHttpClient, hosts: seq<Host>, rounds: nat) returns (leased: seq<Client>)
    requires client.Valid() && DistinctKeys(hosts)
    modifies client
    ensures client.Valid() && |leased| == |hosts| * rounds
    ensures client.roundRobin == (old(client.roundRobin) + |hosts| * rounds) % SIZE_T
    ensures forall h: nat, j: nat :: h < |hosts| && j < POOL_SIZE ==>
      multiset(leased)[Client(KeyOf(hosts[h].protocol, hosts[h].name), j)]
      == RotationLeases(old(client.roundRobin) + h, |hosts|, rounds, j)
    ensures |hosts| % 2 == 1 ==> forall h: nat, j: nat :: h < |hosts| && j < POOL_SIZE ==>
      IsShare(multiset(leased)[Client(KeyOf(hosts[h].protocol, hosts[h].name), j)], rounds)
  {
    leased := [];
    ghost var start := client.roundRobin;
    NothingCounted(hosts, start);
    hide Counted;
    for n := 0 to rounds
      invariant client.Valid() && |leased| == |hosts| * n
      invariant client.roundRobin == (start + |leased|) % SIZE_T
      invariant Counted(leased, hosts, start, n, 0)
    {
      leased := LeaseRound(client, hosts, leased, start, n);
      Regroup(|hosts|, n, 1);
    }
    RoundsCounted(leased, hosts, start, rounds);
  }

  lemma NothingCounted(hosts: seq<Host>, start: nat)
    ensures Counted([], hosts, start, 0, 0)
  {
  }

  /** What has been counted after whole rounds. */
  lemma RoundsCounted(leased: seq<Client>, hosts: seq<Host>, start: nat, n: nat)
    requires Counted(leased, hosts, start, n, 0)
    ensures forall h: nat, j: nat :: h < |hosts| && j < POOL_SIZE ==>
      multiset(leased)[Client(KeyOf(hosts[h].protocol, hosts[h].name), j)] == RotationLeases(start + h, |hosts|, n, j)
    ensures |hosts| % 2 == 1 ==> forall h: nat, j: nat :: h < |hosts| && j < POOL_SIZE ==>
      IsShare(multiset(leased)[Client(KeyOf(hosts[h].protocol, hosts[h].name), j)], n)
  {
    forall h: nat, j: nat | |hosts| % 2 == 1 && h < |hosts| && j < POOL_SIZE
      ensures IsShare(multiset(leased)[Client(KeyOf(hosts[h].protocol, hosts[h].name), j)], n)
    {
      SharesEvenlyIffOdd(start + h, |hosts|);
    }
  }

  lemma HandedPlace(start: nat, h: nat, before: nat)
    ensures ((start + (before + h)) % SIZE_T) % POOL_SIZE == Place(start + h, before)
  {
    assert start + (before + h) == start + h + before;
  }

  lemma NextRound(leased: seq<Client>, hosts: seq<Host>, start: nat, n: nat)
    requires Counted(leased, hosts, start, n, |hosts|)
    ensures Counted(leased, hosts, start, n + 1, 0)
  {
  }

  /** The counter that one lease leaves behind is the one the next lease starts from. */
  lemma CounterAdvances(start: nat, n: nat)
    ensures ((start + n) % SIZE_T + 1) % SIZE_T == (start + n + 1) % SIZE_T
  {
  }
}
