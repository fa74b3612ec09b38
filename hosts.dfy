/**
 * Cluster members as the control connection sees them, the rows of the
 * `system.local` / `system.peers` tables it reads them from, and the
 * notifications it sends to listener clients.
 */
module Hosts {

  /** A host address in its string form (`address.to_s`), the key of the host directory. */
  type Address = string

  /** Listener clients are identified by position-independent ids; their order is the registration order. */
  type ClientId = nat

  /** `unknown` until `up!` or `down!` is first called. */
  datatype Status = Unknown | Up | Down

  /**
   * One result row. A `system.local` row has no `peer`/`rpc_address` columns;
   * those fields are then irrelevant, since only a peer row is passed to `PeerIp`.
   */
  datatype Row = Row(
    peer: string,
    rpcAddress: string,
    rack: string,
    dataCenter: string,
    hostId: string,
    releaseVersion: string)

  datatype Host = Host(
    ip: Address,
    id: string,
    releaseVersion: string,
    rack: string,
    datacenter: string,
    status: Status)

  /** `Host.new(ip, data)`: every descriptive field from the row, status still unknown. */
  function NewHost(ip: Address, row: Row): (h: Host)
    ensures h.ip == ip && h.status == Unknown
    ensures h.id == row.hostId && h.releaseVersion == row.releaseVersion
    ensures h.rack == row.rack && h.datacenter == row.dataCenter
  {
    Host(ip, row.hostId, row.releaseVersion, row.rack, row.dataCenter, Unknown)
  }

  /** The four listener callbacks: `host_found`, `host_up`, `host_down`, `host_lost`. */
  datatype Kind = HostFound | HostUp | HostDown | HostLost

  /** One listener call; `host` is the host as the listener sees it at the moment of the call. */
  datatype Note = Note(kind: Kind, client: ClientId, host: Host)

  /** The calls made to one client inside one iteration of `@cluster.clients.each`. */
  function PerClient(c: ClientId, kinds: seq<Kind>, h: Host): (r: seq<Note>)
    ensures |r| == |kinds|
    ensures forall j :: 0 <= j < |kinds| ==> r[j] == Note(kinds[j], c, h)
  {
    seq(|kinds|, j requires 0 <= j < |kinds| => Note(kinds[j], c, h))
  }

  /**
   * `@cluster.clients.each { |client| client.k1(host); client.k2(host) ... }`:
   * every client in registration order receives the calls `kinds` about `h`.
   */
  function Fanout(clients: seq<ClientId>, kinds: seq<Kind>, h: Host): seq<Note>
    decreases |clients|
  {
    if clients == [] then []
    else Fanout(clients[..|clients| - 1], kinds, h) + PerClient(clients[|clients| - 1], kinds, h)
  }

  /** Each client gets one call per kind. */
  lemma {:induction false} FanoutLength(clients: seq<ClientId>, kinds: seq<Kind>, h: Host)
    ensures |Fanout(clients, kinds, h)| == |clients| * |kinds|
    decreases |clients|
  {
    if clients != [] {
      var init := clients[..|clients| - 1];
      FanoutLength(init, kinds, h);
      assert |clients| * |kinds| == |init| * |kinds| + |kinds|;
    }
  }

  /** A fan-out only makes the calls `kinds`, only to `clients`, and only about `h`. */
  lemma {:induction false} FanoutOnly(clients: seq<ClientId>, kinds: seq<Kind>, h: Host)
    ensures forall n :: n in Fanout(clients, kinds, h) ==> n.host == h && n.client in clients && n.kind in kinds
    decreases |clients|
  {
    if clients != [] {
      var init := clients[..|clients| - 1];
      FanoutOnly(init, kinds, h);
      assert forall c :: c in init ==> c in clients;
    }
  }

  /** The calls of a fan-out are ordered client-major: client `i`'s `j`-th call is at `i * |kinds| + j`. */
  lemma {:induction false} FanoutAt(clients: seq<ClientId>, kinds: seq<Kind>, h: Host, i: nat, j: nat)
    requires i < |clients| && j < |kinds|
    ensures i * |kinds| + j < |Fanout(clients, kinds, h)|
    ensures Fanout(clients, kinds, h)[i * |kinds| + j] == Note(kinds[j], clients[i], h)
    decreases |clients|
  {
    var n := |clients|;
    var k := |kinds|;
    var init := clients[..n - 1];
    assert Fanout(clients, kinds, h) == Fanout(init, kinds, h) + PerClient(clients[n - 1], kinds, h);
    FanoutLength(init, kinds, h);
    if i < n - 1 {
      IndexBelow(i, j, k, n - 1);
      FanoutAt(init, kinds, h, i, j);
    } else {
      assert i * k + j == (n - 1) * k + j;
    }
  }

  /** Client-major positions of the first `m` clients lie before position `m * k`. */
  lemma {:induction false} IndexBelow(i: nat, j: nat, k: nat, m: nat)
    requires i < m && j < k
    ensures i * k + j < m * k
    decreases m
  {
    assert m * k == (m - 1) * k + k;
    if i < m - 1 {
      IndexBelow(i, j, k, m - 1);
    }
  }

  /** A fan-out of one call per client: client `i` gets exactly entry `i`. */
  lemma FanoutOne(clients: seq<ClientId>, kind: Kind, h: Host)
    ensures |Fanout(clients, [kind], h)| == |clients|
    ensures forall i :: 0 <= i < |clients| ==> Fanout(clients, [kind], h)[i] == Note(kind, clients[i], h)
  {
    FanoutLength(clients, [kind], h);
    forall i | 0 <= i < |clients|
      ensures Fanout(clients, [kind], h)[i] == Note(kind, clients[i], h)
    {
      FanoutAt(clients, [kind], h, i, 0);
    }
  }

  /** A fan-out of two calls per client: client `i` gets entries `2i` and `2i + 1`, first before second. */
  lemma FanoutTwo(clients: seq<ClientId>, first: Kind, second: Kind, h: Host)
    ensures |Fanout(clients, [first, second], h)| == 2 * |clients|
    ensures forall i :: 0 <= i < |clients| ==>
      Fanout(clients, [first, second], h)[2 * i] == Note(first, clients[i], h) &&
      Fanout(clients, [first, second], h)[2 * i + 1] == Note(second, clients[i], h)
  {
    FanoutLength(clients, [first, second], h);
    forall i | 0 <= i < |clients|
      ensures Fanout(clients, [first, second], h)[2 * i] == Note(first, clients[i], h)
      ensures Fanout(clients, [first, second], h)[2 * i + 1] == Note(second, clients[i], h)
    {
      FanoutAt(clients, [first, second], h, i, 0);
      FanoutAt(clients, [first, second], h, i, 1);
      assert i * |[first, second]| == 2 * i;
    }
  }

  /**
   * Two one-call fan-outs after a prefix: client `i` gets the first call at
   * `|pre| + i` and the second at `|pre| + |clients| + i`.
   */
  lemma SuccessiveOnes(pre: seq<Note>, clients: seq<ClientId>, k1: Kind, h1: Host, k2: Kind, h2: Host)
    ensures var t := pre + Fanout(clients, [k1], h1) + Fanout(clients, [k2], h2);
      var n := |clients|;
      && |t| == |pre| + 2 * n
      && t[..|pre|] == pre
      && forall i :: 0 <= i < n ==> t[|pre| + i] == Note(k1, clients[i], h1) && t[|pre| + n + i] == Note(k2, clients[i], h2)
  {
    FanoutOne(clients, k1, h1);
    FanoutOne(clients, k2, h2);
    OnesAfter(pre, Fanout(clients, [k1], h1), Fanout(clients, [k2], h2), clients, k1, h1, k2, h2);
  }

  /** `SuccessiveOnes` for any two sequences laid out like one-call fan-outs. */
  lemma OnesAfter(pre: seq<Note>, first: seq<Note>, second: seq<Note>, clients: seq<ClientId>, k1: Kind, h1: Host, k2: Kind, h2: Host)
    requires |first| == |clients| && |second| == |clients|
    requires forall i :: 0 <= i < |clients| ==> first[i] == Note(k1, clients[i], h1)
    requires forall i :: 0 <= i < |clients| ==> second[i] == Note(k2, clients[i], h2)
    ensures var t := pre + first + second;
      var n := |clients|;
      && |t| == |pre| + 2 * n
      && t[..|pre|] == pre
      && forall i :: 0 <= i < n ==> t[|pre| + i] == Note(k1, clients[i], h1) && t[|pre| + n + i] == Note(k2, clients[i], h2)
  {
    var t := pre + first + second;
    var n := |clients|;
    forall i | 0 <= i < n
      ensures t[|pre| + i] == Note(k1, clients[i], h1) && t[|pre| + n + i] == Note(k2, clients[i], h2)
    {
      assert t[|pre| + i] == first[i];
      assert t[|pre| + n + i] == second[i];
    }
    assert t[..|pre|] == pre;
  }

  /**
   * Two two-call fan-outs after a prefix: client `i` gets the first pair at
   * `|pre| + 2i` and `|pre| + 2i + 1`, the second pair `2 |clients|` further on.
   */
  lemma SuccessivePairs(pre: seq<Note>, clients: seq<ClientId>, k1: Kind, k2: Kind, h1: Host, k3: Kind, k4: Kind, h2: Host)
    ensures var t := pre + Fanout(clients, [k1, k2], h1) + Fanout(clients, [k3, k4], h2);
      var n := |clients|;
      && |t| == |pre| + 4 * n
      && t[..|pre|] == pre
      && forall i :: 0 <= i < n ==>
           && t[|pre| + 2 * i] == Note(k1, clients[i], h1)
           && t[|pre| + 2 * i + 1] == Note(k2, clients[i], h1)
           && t[|pre| + 2 * n + 2 * i] == Note(k3, clients[i], h2)
           && t[|pre| + 2 * n + 2 * i + 1] == Note(k4, clients[i], h2)
  {
    FanoutTwo(clients, k1, k2, h1);
    FanoutTwo(clients, k3, k4, h2);
    PairsAfter(pre, Fanout(clients, [k1, k2], h1), Fanout(clients, [k3, k4], h2), clients, k1, k2, h1, k3, k4, h2);
  }

  /** `SuccessivePairs` for any two sequences laid out like two-call fan-outs. */
  lemma PairsAfter(pre: seq<Note>, first: seq<Note>, second: seq<Note>, clients: seq<ClientId>,
                   k1: Kind, k2: Kind, h1: Host, k3: Kind, k4: Kind, h2: Host)
    requires |first| == 2 * |clients| && |second| == 2 * |clients|
    requires forall i :: 0 <= i < |clients| ==>
      first[2 * i] == Note(k1, clients[i], h1) && first[2 * i + 1] == Note(k2, clients[i], h1)
    requires forall i :: 0 <= i < |clients| ==>
      second[2 * i] == Note(k3, clients[i], h2) && second[2 * i + 1] == Note(k4, clients[i], h2)
    ensures var t := pre + first + second;
      var n := |clients|;
      && |t| == |pre| + 4 * n
      && t[..|pre|] == pre
      && forall i :: 0 <= i < n ==>
           && t[|pre| + 2 * i] == Note(k1, clients[i], h1)
           && t[|pre| + 2 * i + 1] == Note(k2, clients[i], h1)
           && t[|pre| + 2 * n + 2 * i] == Note(k3, clients[i], h2)
           && t[|pre| + 2 * n + 2 * i + 1] == Note(k4, clients[i], h2)
  {
    var t := pre + first + second;
    var n := |clients|;
    forall i | 0 <= i < n
      ensures t[|pre| + 2 * i] == Note(k1, clients[i], h1)
      ensures t[|pre| + 2 * i + 1] == Note(k2, clients[i], h1)
      ensures t[|pre| + 2 * n + 2 * i] == Note(k3, clients[i], h2)
      ensures t[|pre| + 2 * n + 2 * i + 1] == Note(k4, clients[i], h2)
    {
      assert t[|pre| + 2 * i] == first[2 * i];
      assert t[|pre| + 2 * i + 1] == first[2 * i + 1];
      assert t[|pre| + 2 * n + 2 * i] == second[2 * i];
      assert t[|pre| + 2 * n + 2 * i + 1] == second[2 * i + 1];
    }
    assert t[..|pre|] == pre;
  }
}
