/**
 * The host-directory logic of the control connection, as functions over the
 * directory and the trace of listener notifications it has produced so far:
 * the merge rule `populate_host`, the full refresh `refresh_hosts_async`, the
 * single-host refresh `refresh_host_async` and the event handler installed by
 * `register_async`.
 */
module HostDirectory {
  import opened Wrappers
  import opened Hosts

  /** The directory (`@cluster.hosts`) and every listener call made so far, oldest first. */
  datatype Dir = Dir(hosts: map<Address, Host>, trace: seq<Note>)

  /** Every host is stored under its own address. */
  ghost predicate WellKeyed(hosts: map<Address, Host>)
  {
    forall a :: a in hosts ==> hosts[a].ip == a
  }

  /** Every listener call from position `from` on is about one of the addresses `ips`. */
  ghost predicate NotesAbout(trace: seq<Note>, from: nat, ips: set<Address>)
  {
    forall i :: from <= i < |trace| ==> trace[i].host.ip in ips
  }

  // ---------------------------------------------------------------------------
  // populate_host

  /** The merge rule: insert an unknown host, or refresh a known one, treating a relocation as lost-then-found. */
  function Populate(d: Dir, clients: seq<ClientId>, ip: Address, row: Row): (r: Dir)
    ensures r.hosts.Keys == d.hosts.Keys + {ip}
    ensures forall a :: a in d.hosts && a != ip ==> r.hosts[a] == d.hosts[a]
    ensures d.trace <= r.trace
  {
    if ip !in d.hosts then
      var h := NewHost(ip, row).(status := Up);
      Dir(d.hosts[ip := h], d.trace + Fanout(clients, [HostFound, HostUp], h))
    else
      var h := d.hosts[ip].(id := row.hostId, releaseVersion := row.releaseVersion);
      if row.rack == h.rack && row.dataCenter == h.datacenter then
        Dir(d.hosts[ip := h], d.trace)
      else if h.status == Down then
        var moved := h.(rack := row.rack, datacenter := row.dataCenter);
        Dir(d.hosts[ip := moved],
            d.trace + Fanout(clients, [HostLost], h) + Fanout(clients, [HostFound], moved))
      else
        var gone := h.(status := Down);
        var back := gone.(rack := row.rack, datacenter := row.dataCenter, status := Up);
        Dir(d.hosts[ip := back],
            d.trace + Fanout(clients, [HostDown, HostLost], gone) + Fanout(clients, [HostFound, HostUp], back))
  }

  /**
   * An unknown address is inserted, up, with every field from the row; each client,
   * in order, is told `host_found` and then `host_up`.
   */
  lemma PopulateNewHost(d: Dir, clients: seq<ClientId>, ip: Address, row: Row)
    requires ip !in d.hosts
    ensures var r := Populate(d, clients, ip, row);
      && r.hosts.Keys == d.hosts.Keys + {ip}
      && r.hosts[ip] == Host(ip, row.hostId, row.releaseVersion, row.rack, row.dataCenter, Up)
      && |r.trace| == |d.trace| + 2 * |clients|
      && r.trace[..|d.trace|] == d.trace
      && forall i :: 0 <= i < |clients| ==>
           && r.trace[|d.trace| + 2 * i] == Note(HostFound, clients[i], r.hosts[ip])
           && r.trace[|d.trace| + 2 * i + 1] == Note(HostUp, clients[i], r.hosts[ip])
  {
    FanoutTwo(clients, HostFound, HostUp, Populate(d, clients, ip, row).hosts[ip]);
  }

  /** A known host whose rack and datacenter are unchanged only gets the row's id and release version; nobody is told. */
  lemma PopulateSameLocation(d: Dir, clients: seq<ClientId>, ip: Address, row: Row)
    requires ip in d.hosts
    requires row.rack == d.hosts[ip].rack && row.dataCenter == d.hosts[ip].datacenter
    ensures var r := Populate(d, clients, ip, row);
      && r.trace == d.trace
      && r.hosts == d.hosts[ip := d.hosts[ip].(id := row.hostId, releaseVersion := row.releaseVersion)]
  {
  }

  /** Whatever else happens, a known host always takes the row's id and release version. */
  lemma PopulateRefreshesMetadata(d: Dir, clients: seq<ClientId>, ip: Address, row: Row)
    requires ip in d.hosts
    ensures var h := Populate(d, clients, ip, row).hosts[ip];
      && h.id == row.hostId && h.releaseVersion == row.releaseVersion
      && h.rack == row.rack && h.datacenter == row.dataCenter
      && h.ip == d.hosts[ip].ip
  {
  }

  /**
   * A down host that moved: every client is told `host_lost` (of the old location),
   * then every client `host_found` (of the new one); the host stays down.
   */
  lemma PopulateRelocatedDown(d: Dir, clients: seq<ClientId>, ip: Address, row: Row)
    requires ip in d.hosts && d.hosts[ip].status == Down
    requires row.rack != d.hosts[ip].rack || row.dataCenter != d.hosts[ip].datacenter
    ensures var r := Populate(d, clients, ip, row);
      var old_ := d.hosts[ip].(id := row.hostId, releaseVersion := row.releaseVersion);
      var n := |clients|;
      && r.hosts[ip] == old_.(rack := row.rack, datacenter := row.dataCenter)
      && r.hosts[ip].status == Down
      && |r.trace| == |d.trace| + 2 * n
      && r.trace[..|d.trace|] == d.trace
      && forall i :: 0 <= i < n ==>
           && r.trace[|d.trace| + i] == Note(HostLost, clients[i], old_)
           && r.trace[|d.trace| + n + i] == Note(HostFound, clients[i], r.hosts[ip])
  {
    var r := Populate(d, clients, ip, row);
    var old_ := d.hosts[ip].(id := row.hostId, releaseVersion := row.releaseVersion);
    var moved := old_.(rack := row.rack, datacenter := row.dataCenter);
    assert r == Dir(d.hosts[ip := moved],
      d.trace + Fanout(clients, [HostLost], old_) + Fanout(clients, [HostFound], moved));
    SuccessiveOnes(d.trace, clients, HostLost, old_, HostFound, moved);
  }

  /**
   * A host that is not down and moved: per client `host_down`, `host_lost` (status down,
   * old location), then per client `host_found`, `host_up` (status up, new location).
   */
  lemma PopulateRelocatedUp(d: Dir, clients: seq<ClientId>, ip: Address, row: Row)
    requires ip in d.hosts && d.hosts[ip].status != Down
    requires row.rack != d.hosts[ip].rack || row.dataCenter != d.hosts[ip].datacenter
    ensures var r := Populate(d, clients, ip, row);
      var gone := d.hosts[ip].(id := row.hostId, releaseVersion := row.releaseVersion, status := Down);
      var n := |clients|;
      && r.hosts[ip] == gone.(rack := row.rack, datacenter := row.dataCenter, status := Up)
      && |r.trace| == |d.trace| + 4 * n
      && r.trace[..|d.trace|] == d.trace
      && forall i :: 0 <= i < n ==>
           && r.trace[|d.trace| + 2 * i] == Note(HostDown, clients[i], gone)
           && r.trace[|d.trace| + 2 * i + 1] == Note(HostLost, clients[i], gone)
           && r.trace[|d.trace| + 2 * n + 2 * i] == Note(HostFound, clients[i], r.hosts[ip])
           && r.trace[|d.trace| + 2 * n + 2 * i + 1] == Note(HostUp, clients[i], r.hosts[ip])
  {
    var r := Populate(d, clients, ip, row);
    var gone := d.hosts[ip].(id := row.hostId, releaseVersion := row.releaseVersion, status := Down);
    var back := gone.(rack := row.rack, datacenter := row.dataCenter, status := Up);
    assert r == Dir(d.hosts[ip := back],
      d.trace + Fanout(clients, [HostDown, HostLost], gone) + Fanout(clients, [HostFound, HostUp], back));
    SuccessivePairs(d.trace, clients, HostDown, HostLost, gone, HostFound, HostUp, back);
  }

  /** Merging the same row twice is the same as merging it once: the second merge notifies nobody. */
  lemma PopulateIdempotent(d: Dir, clients: seq<ClientId>, ip: Address, row: Row)
    ensures Populate(Populate(d, clients, ip, row), clients, ip, row) == Populate(d, clients, ip, row)
  {
  }

  /** Every listener call made by a merge is about the merged address, and the directory stays well keyed. */
  lemma PopulateNotesAbout(d: Dir, clients: seq<ClientId>, ip: Address, row: Row)
    requires WellKeyed(d.hosts)
    ensures var r := Populate(d, clients, ip, row);
      WellKeyed(r.hosts) && NotesAbout(r.trace, |d.trace|, {ip})
  {
    var r := Populate(d, clients, ip, row);
    if ip in d.hosts {
      var h := d.hosts[ip].(id := row.hostId, releaseVersion := row.releaseVersion);
      var moved := h.(rack := row.rack, datacenter := row.dataCenter);
      var gone := h.(status := Down);
      var back := gone.(rack := row.rack, datacenter := row.dataCenter, status := Up);
      FanoutOnly(clients, [HostLost], h);
      FanoutOnly(clients, [HostFound], moved);
      FanoutOnly(clients, [HostDown, HostLost], gone);
      FanoutOnly(clients, [HostFound, HostUp], back);
    } else {
      FanoutOnly(clients, [HostFound, HostUp], r.hosts[ip]);
    }
    forall i | |d.trace| <= i < |r.trace|
      ensures r.trace[i].host.ip == ip
    {
      assert r.trace[i] in r.trace[|d.trace|..];
    }
  }

  // ---------------------------------------------------------------------------
  // peer_ip and refresh_hosts_async

  /** The address a peer row is known by: its `rpc_address`, unless that is the wildcard `0.0.0.0`. */
  function PeerIp(row: Row): (ip: Address)
    ensures ip == row.rpcAddress || ip == row.peer
    ensures row.rpcAddress != "0.0.0.0" ==> ip == row.rpcAddress
    ensures ip == "0.0.0.0" ==> row.peer == "0.0.0.0"
  {
    if row.rpcAddress == "0.0.0.0" then row.peer else row.rpcAddress
  }

  /** The addresses of a list of peer rows. */
  function PeerIps(peers: seq<Row>): set<Address>
  {
    set p | p in peers :: PeerIp(p)
  }

  /** The addresses of all rows are those of all but the last row, plus the last row's. */
  lemma PeerIpsSnoc(peers: seq<Row>)
    requires peers != []
    ensures PeerIps(peers) == PeerIps(peers[..|peers| - 1]) + {PeerIp(peers[|peers| - 1])}
  {
    assert peers == peers[..|peers| - 1] + [peers[|peers| - 1]];
  }

  /** `peers.each { |data| populate_host(peer_ip(data), data) }`, rows merged in order. */
  function MergePeers(d: Dir, clients: seq<ClientId>, peers: seq<Row>): Dir
    decreases |peers|
  {
    if peers == [] then d
    else
      var last := peers[|peers| - 1];
      Populate(MergePeers(d, clients, peers[..|peers| - 1]), clients, PeerIp(last), last)
  }

  /** Merging peer rows adds exactly the peers' addresses and only appends to the trace. */
  lemma {:induction false} MergePeersKeys(d: Dir, clients: seq<ClientId>, peers: seq<Row>)
    ensures var r := MergePeers(d, clients, peers);
      r.hosts.Keys == d.hosts.Keys + PeerIps(peers) && d.trace <= r.trace
    decreases |peers|
  {
    if peers != [] {
      MergePeersKeys(d, clients, peers[..|peers| - 1]);
      PeerIpsSnoc(peers);
    }
  }

  /** Merging one more row is one more `populate_host` of that row under its peer address. */
  lemma MergePeersStep(d: Dir, clients: seq<ClientId>, peers: seq<Row>, i: nat)
    requires i < |peers|
    ensures MergePeers(d, clients, peers[..i + 1]) ==
      Populate(MergePeers(d, clients, peers[..i]), clients, PeerIp(peers[i]), peers[i])
  {
    assert peers[..i + 1][..i] == peers[..i];
  }

  /** Merging peer rows keeps the directory well keyed and only ever notifies about the peers' addresses. */
  lemma {:induction false} MergePeersNotesAbout(d: Dir, clients: seq<ClientId>, peers: seq<Row>)
    requires WellKeyed(d.hosts)
    ensures var r := MergePeers(d, clients, peers);
      WellKeyed(r.hosts) && NotesAbout(r.trace, |d.trace|, PeerIps(peers))
    decreases |peers|
  {
    if peers != [] {
      var last := peers[|peers| - 1];
      var init := peers[..|peers| - 1];
      var m := MergePeers(d, clients, init);
      MergePeersNotesAbout(d, clients, init);
      MergePeersKeys(d, clients, init);
      PopulateNotesAbout(m, clients, PeerIp(last), last);
      NotesAboutGrow(m.trace, Populate(m, clients, PeerIp(last), last).trace, |d.trace|, PeerIps(init), {PeerIp(last)});
      PeerIpsSnoc(peers);
    }
  }

  /** Extending a trace whose old calls concern `a` by calls that concern `b` gives calls that concern `a + b`. */
  lemma NotesAboutGrow(t: seq<Note>, u: seq<Note>, from: nat, a: set<Address>, b: set<Address>)
    requires t <= u && from <= |t|
    requires NotesAbout(t, from, a) && NotesAbout(u, |t|, b)
    ensures NotesAbout(u, from, a + b)
  {
  }

  /** The addresses a full refresh keeps: the connection's own address and every peer's. */
  function SeenIps(localIp: Address, peers: seq<Row>): set<Address>
  {
    {localIp} + PeerIps(peers)
  }

  /** Seeing one more peer row adds exactly that row's address. */
  lemma SeenIpsStep(localIp: Address, peers: seq<Row>, i: nat)
    requires i < |peers|
    ensures SeenIps(localIp, peers[..i + 1]) == SeenIps(localIp, peers[..i]) + {PeerIp(peers[i])}
  {
    assert peers[..i + 1][..i] == peers[..i];
    PeerIpsSnoc(peers[..i + 1]);
  }

  /**
   * `refresh_hosts_async` once both queries have answered: merge the local row (if any)
   * under the connection's address, merge every peer row, then keep only the addresses seen.
   */
  function RefreshAll(d: Dir, clients: seq<ClientId>, localIp: Address, local: Option<Row>, peers: seq<Row>): Dir
  {
    var d1 := if local.Some? then Populate(d, clients, localIp, local.value) else d;
    var d2 := MergePeers(d1, clients, peers);
    var ips := SeenIps(localIp, peers);
    Dir(map a | a in d2.hosts && a in ips :: d2.hosts[a], d2.trace)
  }

  /**
   * After a full refresh the directory holds exactly the peers' addresses, plus the
   * connection's own address when it answered or was already known; nothing else survives.
   */
  lemma RefreshAllKeys(d: Dir, clients: seq<ClientId>, localIp: Address, local: Option<Row>, peers: seq<Row>)
    ensures var r := RefreshAll(d, clients, localIp, local, peers);
      && r.hosts.Keys <= SeenIps(localIp, peers)
      && PeerIps(peers) <= r.hosts.Keys
      && (localIp in r.hosts <==> local.Some? || localIp in d.hosts || localIp in PeerIps(peers))
  {
    var d1 := if local.Some? then Populate(d, clients, localIp, local.value) else d;
    MergePeersKeys(d1, clients, peers);
  }

  /**
   * A full refresh only appends to the trace, and every call it makes is about an address
   * it saw, so no host it prunes is notified; the directory stays well keyed.
   */
  lemma RefreshAllNotes(d: Dir, clients: seq<ClientId>, localIp: Address, local: Option<Row>, peers: seq<Row>)
    requires WellKeyed(d.hosts)
    ensures var r := RefreshAll(d, clients, localIp, local, peers);
      && WellKeyed(r.hosts)
      && d.trace <= r.trace
      && NotesAbout(r.trace, |d.trace|, SeenIps(localIp, peers))
      && forall a :: a in d.hosts && a !in SeenIps(localIp, peers) ==>
           a !in r.hosts && forall i :: |d.trace| <= i < |r.trace| ==> r.trace[i].host.ip != a
  {
    var d1 := if local.Some? then Populate(d, clients, localIp, local.value) else d;
    if local.Some? {
      PopulateNotesAbout(d, clients, localIp, local.value);
    }
    MergePeersNotesAbout(d1, clients, peers);
    MergePeersKeys(d1, clients, peers);
    var d2 := MergePeers(d1, clients, peers);
    assert |d.trace| <= |d1.trace| <= |d2.trace|;
    assert forall i :: |d.trace| <= i < |d1.trace| ==> d2.trace[i] == d1.trace[i];
  }

  // ---------------------------------------------------------------------------
  // refresh_host_async and the event handler

  /** `refresh_host_async` once its query has answered: merge the first row, if there is one. */
  function RefreshOne(d: Dir, clients: seq<ClientId>, ip: Address, reply: Option<Row>): (r: Dir)
    ensures reply.None? ==> r == d
    ensures reply.Some? ==> r.hosts.Keys == d.hosts.Keys + {ip} && d.trace <= r.trace
    ensures forall a :: a in d.hosts && a != ip ==> r.hosts[a] == d.hosts[a]
  {
    if reply.Some? then Populate(d, clients, ip, reply.value) else d
  }

  /** A pushed event: schema changes, or a topology/status change naming one address. */
  datatype Event = SchemaChange | Change(change: string, address: Address)

  /**
   * The handler given to `@connection.on_event`. `reply` is the answer to the follow-up
   * single-host query, read only by `UP`, `DOWN` and `NEW_NODE`.
   */
  function OnEvent(d: Dir, clients: seq<ClientId>, ev: Event, reply: Option<Row>): (r: Dir)
    ensures d.trace <= r.trace
    ensures ev.SchemaChange? ==> r == d
    ensures ev.Change? ==> r.hosts.Keys <= d.hosts.Keys + {ev.address}
    ensures ev.Change? ==> forall a :: a in d.hosts && a != ev.address ==> a in r.hosts && r.hosts[a] == d.hosts[a]
  {
    match ev
    case SchemaChange => d
    case Change(change, a) =>
      if change == "UP" then
        if a in d.hosts && d.hosts[a].status != Up then
          var d1 := RefreshOne(d, clients, a, reply);
          var h := d1.hosts[a].(status := Up);
          Dir(d1.hosts[a := h], d1.trace + Fanout(clients, [HostUp], h))
        else d
      else if change == "DOWN" then
        if a in d.hosts && d.hosts[a].status != Down then
          var d1 := RefreshOne(d, clients, a, reply);
          var h := d1.hosts[a].(status := Down);
          Dir(d1.hosts[a := h], d1.trace + Fanout(clients, [HostDown], h))
        else d
      else if change == "NEW_NODE" then
        if a !in d.hosts then RefreshOne(d, clients, a, reply) else d
      else if change == "REMOVED_NODE" then
        if a in d.hosts then
          var h := d.hosts[a];
          var rest := map k | k in d.hosts && k != a :: d.hosts[k];
          if h.status == Down then Dir(rest, d.trace + Fanout(clients, [HostLost], h))
          else Dir(rest, d.trace + Fanout(clients, [HostDown, HostLost], h.(status := Down)))
        else d
      else d
  }

  /** `UP` and `DOWN` touch nothing unless the host is known and not already in that state. */
  lemma StatusEventGuard(d: Dir, clients: seq<ClientId>, a: Address, reply: Option<Row>)
    ensures a !in d.hosts || d.hosts[a].status == Up ==> OnEvent(d, clients, Change("UP", a), reply) == d
    ensures a !in d.hosts || d.hosts[a].status == Down ==> OnEvent(d, clients, Change("DOWN", a), reply) == d
  {
  }

  /**
   * `UP` on a known host that is not up: the host is refreshed, ends up, and each
   * client, in order, is told `host_up` after the refresh's own calls.
   */
  lemma StatusUpEvent(d: Dir, clients: seq<ClientId>, a: Address, reply: Option<Row>)
    requires a in d.hosts && d.hosts[a].status != Up
    ensures var d1 := RefreshOne(d, clients, a, reply);
      var r := OnEvent(d, clients, Change("UP", a), reply);
      && r.hosts.Keys == d.hosts.Keys
      && r.hosts[a] == d1.hosts[a].(status := Up)
      && (forall k :: k in d.hosts && k != a ==> r.hosts[k] == d.hosts[k])
      && |r.trace| == |d1.trace| + |clients|
      && r.trace[..|d1.trace|] == d1.trace
      && forall i :: 0 <= i < |clients| ==> r.trace[|d1.trace| + i] == Note(HostUp, clients[i], r.hosts[a])
  {
    var r := OnEvent(d, clients, Change("UP", a), reply);
    FanoutOne(clients, HostUp, r.hosts[a]);
  }

  /**
   * `DOWN` on a known host that is not down: the host is refreshed, ends down, and each
   * client, in order, is told `host_down` after the refresh's own calls.
   */
  lemma StatusDownEvent(d: Dir, clients: seq<ClientId>, a: Address, reply: Option<Row>)
    requires a in d.hosts && d.hosts[a].status != Down
    ensures var d1 := RefreshOne(d, clients, a, reply);
      var r := OnEvent(d, clients, Change("DOWN", a), reply);
      && r.hosts.Keys == d.hosts.Keys
      && r.hosts[a] == d1.hosts[a].(status := Down)
      && (forall k :: k in d.hosts && k != a ==> r.hosts[k] == d.hosts[k])
      && |r.trace| == |d1.trace| + |clients|
      && r.trace[..|d1.trace|] == d1.trace
      && forall i :: 0 <= i < |clients| ==> r.trace[|d1.trace| + i] == Note(HostDown, clients[i], r.hosts[a])
  {
    var r := OnEvent(d, clients, Change("DOWN", a), reply);
    FanoutOne(clients, HostDown, r.hosts[a]);
  }

  /** `NEW_NODE` acts only on an unknown address, which it inserts, up, when the query returns a row. */
  lemma NewNodeEvent(d: Dir, clients: seq<ClientId>, a: Address, reply: Option<Row>)
    ensures a in d.hosts ==> OnEvent(d, clients, Change("NEW_NODE", a), reply) == d
    ensures a !in d.hosts && reply.None? ==> OnEvent(d, clients, Change("NEW_NODE", a), reply) == d
    ensures a !in d.hosts && reply.Some? ==>
      var r := OnEvent(d, clients, Change("NEW_NODE", a), reply);
      && r.hosts.Keys == d.hosts.Keys + {a}
      && r.hosts[a].status == Up
      && r.trace == d.trace + Fanout(clients, [HostFound, HostUp], r.hosts[a])
  {
  }

  /**
   * `REMOVED_NODE` deletes the key. A host that was down is reported `host_lost` to each
   * client; any other host is marked down and reported `host_down`, `host_lost` per client.
   */
  lemma RemovedNodeEvent(d: Dir, clients: seq<ClientId>, a: Address, reply: Option<Row>)
    ensures var r := OnEvent(d, clients, Change("REMOVED_NODE", a), reply);
      && r.hosts.Keys == d.hosts.Keys - {a}
      && (forall k :: k in r.hosts ==> r.hosts[k] == d.hosts[k])
      && (a !in d.hosts ==> r == d)
      && (a in d.hosts && d.hosts[a].status == Down ==>
            |r.trace| == |d.trace| + |clients| && r.trace[..|d.trace|] == d.trace &&
            forall i :: 0 <= i < |clients| ==> r.trace[|d.trace| + i] == Note(HostLost, clients[i], d.hosts[a]))
      && (a in d.hosts && d.hosts[a].status != Down ==>
            var gone := d.hosts[a].(status := Down);
            |r.trace| == |d.trace| + 2 * |clients| && r.trace[..|d.trace|] == d.trace &&
            forall i :: 0 <= i < |clients| ==>
              r.trace[|d.trace| + 2 * i] == Note(HostDown, clients[i], gone) &&
              r.trace[|d.trace| + 2 * i + 1] == Note(HostLost, clients[i], gone))
  {
    if a in d.hosts {
      FanoutOne(clients, HostLost, d.hosts[a]);
      FanoutTwo(clients, HostDown, HostLost, d.hosts[a].(status := Down));
    }
  }

  /** Every event keeps the directory well keyed and only appends to the trace. */
  lemma OnEventKeepsDirectory(d: Dir, clients: seq<ClientId>, ev: Event, reply: Option<Row>)
    requires WellKeyed(d.hosts)
    ensures var r := OnEvent(d, clients, ev, reply);
      WellKeyed(r.hosts) && d.trace <= r.trace
  {
    if ev.Change? && reply.Some? {
      PopulateNotesAbout(d, clients, ev.address, reply.value);
    }
  }
}
