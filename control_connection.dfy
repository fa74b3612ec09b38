/**
 * The control connection as an object: the host directory and the listener
 * clients it shares with the cluster state, the connection once one is open,
 * the protocol version in the settings, and the trace of listener calls made.
 * Each method is proved to do what the matching function of `HostDirectory` or
 * `Bootstrap` says; the properties themselves are lemmas about those functions.
 */
module ControlConnections {
  import opened Wrappers
  import opened Hosts
  import opened HostDirectory
  import opened Bootstrap
  import opened Queries

  /** `NOT_CONNECTED`, `NoHostsAvailable(errors)`, or a request the server refused. */
  datatype ControlError = NotConnected | NoHostsAvailable(errors: seq<HostError>) | RequestFailed

  class ControlConnection {
    /** `@cluster.hosts`: address to host. */
    var hosts: map<Address, Host>
    /** `@cluster.clients`, in registration order; never changed here. */
    var clients: seq<ClientId>
    /** Every listener call made so far, oldest first. */
    var trace: seq<Note>
    /** `@connection`, unset until a connect succeeds. */
    var connection: Option<Connection>
    /** `@settings.protocol_version`. */
    var protocolVersion: int
    /** Whether `register_async` has installed the event handler on the connection. */
    var handlerInstalled: bool

    ghost predicate Valid()
      reads this
    {
      WellKeyed(hosts) && (handlerInstalled ==> connection.Some?)
    }

    /** The part of the state that the directory functions describe. */
    function State(): Dir
      reads this
    {
      Dir(hosts, trace)
    }

    /** A control connection over the cluster's directory and clients, not yet connected. */
    constructor (initialHosts: map<Address, Host>, listeners: seq<ClientId>, version: int)
      requires WellKeyed(initialHosts)
      ensures Valid()
      ensures hosts == initialHosts && clients == listeners && trace == []
      ensures connection == None && protocolVersion == version && !handlerInstalled
    {
      hosts := initialHosts;
      clients := listeners;
      trace := [];
      connection := None;
      protocolVersion := version;
      handlerInstalled := false;
    }

    // -------------------------------------------------------------------------
    // Bootstrap

    /**
     * `connect_async`: try the plan (the directory's addresses in insertion order) and
     * keep the first connection made.
     */
    method Connect(plan: seq<Address>, outcome: Oracle) returns (r: Result<Connection, ControlError>)
      requires Valid()
      modifies this`connection, this`protocolVersion
      ensures Valid()
      ensures var run := FirstAvailable(plan, old(protocolVersion), [], outcome);
        && protocolVersion == run.version
        && (run.result.Ok? ==> r == Ok(run.result.value) && connection == Some(run.result.value))
        && (run.result.Err? ==> r == Err(NoHostsAvailable(run.result.error)) && connection == old(connection))
    {
      var f := ConnectToFirstAvailable(plan, 0, [], outcome);
      assert plan[0..] == plan;
      match f
      case Ok(c) =>
        connection := Some(c);
        r := Ok(c);
      case Err(errors) =>
        r := Err(NoHostsAvailable(errors));
    }

    /**
     * `connect_to_first_available(plan, errors)`, with the enumerator's position `next`:
     * an exhausted plan fails with the errors so far, otherwise the next host is tried
     * and, on failure, recorded before moving on.
     */
    method ConnectToFirstAvailable(plan: seq<Address>, next: nat, errors: seq<HostError>, outcome: Oracle)
      returns (r: Result<Connection, seq<HostError>>)
      requires next <= |plan|
      modifies this`protocolVersion
      ensures var run := FirstAvailable(plan[next..], old(protocolVersion), errors, outcome);
        r == run.result && protocolVersion == run.version
      decreases |plan| - next
    {
      if next == |plan| {
        return Err(errors);
      }
      var h := plan[next];
      assert plan[next..][0] == h && plan[next..][1..] == plan[next + 1..];
      var f := ConnectToHost(h, outcome);
      if f.Ok? {
        return Ok(f.value);
      }
      r := ConnectToFirstAvailable(plan, next + 1, Store(errors, h, f.error), outcome);
    }

    /**
     * `connect_to_host(h)`: run the pipeline at the configured version; if the server
     * reports an unsupported version (code 0x0a) and the version is above 1, lower the
     * configured version by one and retry the same host.
     */
    method ConnectToHost(h: Address, outcome: Oracle) returns (r: Result<Connection, ConnError>)
      modifies this`protocolVersion
      ensures TryHost(h, old(protocolVersion), outcome) == HostRun(r, protocolVersion)
      decreases if protocolVersion > 1 then protocolVersion else 0
    {
      match outcome(h, protocolVersion)
      case Connected =>
        r := Ok(Connection(h, protocolVersion));
      case Failed(e) =>
        if e.QueryError? && e.code == UnsupportedVersionCode && protocolVersion > 1 {
          protocolVersion := protocolVersion - 1;
          r := ConnectToHost(h, outcome);
        } else {
          r := Err(e);
        }
    }

    // -------------------------------------------------------------------------
    // Listener fan-out and populate_host

    /** `@cluster.clients.each { |client| ... }`: every client, in order, gets the calls `kinds` about `h`. */
    method Notify(kinds: seq<Kind>, h: Host)
      modifies this`trace
      ensures trace == old(trace) + Fanout(clients, kinds, h)
    {
      var i := 0;
      while i < |clients|
        invariant 0 <= i <= |clients|
        invariant trace == old(trace) + Fanout(clients[..i], kinds, h)
      {
        assert clients[..i + 1][..i] == clients[..i];
        trace := trace + PerClient(clients[i], kinds, h);
        i := i + 1;
      }
      assert clients[..|clients|] == clients;
    }

    /**
     * `populate_host(ip, data)`. The stored host is updated field by field as the source
     * does, and each listener sees it as it is at the moment of the call.
     */
    method PopulateHost(ip: Address, row: Row)
      requires Valid()
      modifies this`hosts, this`trace
      ensures Valid()
      ensures State() == Populate(old(State()), clients, ip, row)
    {
      ghost var d := State();
      if ip !in hosts {
        var host := NewHost(ip, row);
        host := host.(status := Up);
        hosts := hosts[ip := host];
        Notify([HostFound, HostUp], host);
        assert State() == Dir(d.hosts[ip := host], d.trace + Fanout(clients, [HostFound, HostUp], host));
      } else {
        var host := hosts[ip].(id := row.hostId, releaseVersion := row.releaseVersion);
        hosts := hosts[ip := host];
        if row.rack == host.rack && row.dataCenter == host.datacenter {
          return;
        }
        if host.status == Down {
          Notify([HostLost], host);
          var moved := host.(rack := row.rack, datacenter := row.dataCenter);
          hosts := hosts[ip := moved];
          Notify([HostFound], moved);
          assert State() == Dir(d.hosts[ip := moved],
            d.trace + Fanout(clients, [HostLost], host) + Fanout(clients, [HostFound], moved));
        } else {
          var gone := host.(status := Down);
          hosts := hosts[ip := gone];
          Notify([HostDown, HostLost], gone);
          var back := gone.(rack := row.rack, datacenter := row.dataCenter);
          back := back.(status := Up);
          hosts := hosts[ip := back];
          Notify([HostFound, HostUp], back);
          assert State() == Dir(d.hosts[ip := back],
            d.trace + Fanout(clients, [HostDown, HostLost], gone) + Fanout(clients, [HostFound, HostUp], back));
        }
      }
    }

    // -------------------------------------------------------------------------
    // Refreshes

    /**
     * `refresh_hosts_async`, given the answers to the local and peers queries: merge the
     * local row under the connection's address, merge every peer row, then drop every
     * address not seen.
     */
    method RefreshHosts(local: Option<Row>, peers: seq<Row>) returns (r: Outcome<ControlError>)
      requires Valid()
      modifies this`hosts, this`trace
      ensures Valid()
      ensures connection.None? ==> r == Fail(NotConnected) && State() == old(State())
      ensures connection.Some? ==>
        r == Pass && State() == RefreshAll(old(State()), clients, connection.value.host, local, peers)
    {
      if connection.None? {
        return Fail(NotConnected);
      }
      var localIp := connection.value.host;
      ghost var d := State();
      if local.Some? {
        PopulateHost(localIp, local.value);
      }
      assert State() == if local.Some? then Populate(d, clients, localIp, local.value) else d;
      var ips := MergePeerRows(localIp, peers);
      ghost var merged := State();
      hosts := map a | a in hosts && a in ips :: hosts[a];
      assert State() == Dir(map a | a in merged.hosts && a in ips :: merged.hosts[a], merged.trace);
      r := Pass;
    }

    /**
     * The `peers.each` loop of `refresh_hosts_async`: merge every peer row in order and
     * collect the addresses seen, starting from the connection's own.
     */
    method MergePeerRows(localIp: Address, peers: seq<Row>) returns (ips: set<Address>)
      requires Valid()
      modifies this`hosts, this`trace
      ensures Valid()
      ensures ips == SeenIps(localIp, peers)
      ensures State() == MergePeers(old(State()), clients, peers)
    {
      ips := {localIp};
      ghost var start := State();
      var i := 0;
      while i < |peers|
        invariant 0 <= i <= |peers|
        invariant Valid()
        invariant ips == SeenIps(localIp, peers[..i])
        invariant State() == MergePeers(start, clients, peers[..i])
      {
        var data := peers[i];
        var ip := PeerIp(data);
        MergePeersStep(start, clients, peers, i);
        SeenIpsStep(localIp, peers, i);
        ips := ips + {ip};
        ghost var before := State();
        PopulateHost(ip, data);
        assert State() == Populate(before, clients, ip, data);
        i := i + 1;
      }
      assert peers[..|peers|] == peers;
    }

    /**
     * `refresh_host_async(address)`, given the answer to its query: the request sent is
     * the local or the one-peer statement, and the first row, if any, is merged.
     */
    method RefreshHost(address: Address, reply: Option<Row>) returns (r: Result<Request, ControlError>)
      requires Valid()
      modifies this`hosts, this`trace
      ensures Valid()
      ensures connection.None? ==> r == Err(NotConnected) && State() == old(State())
      ensures connection.Some? ==>
        && r == Ok(RefreshHostRequest(address, connection.value.host))
        && State() == RefreshOne(old(State()), clients, address, reply)
    {
      if connection.None? {
        return Err(NotConnected);
      }
      r := Ok(RefreshHostRequest(address, connection.value.host));
      if reply.Some? {
        PopulateHost(address, reply.value);
      }
    }

    // -------------------------------------------------------------------------
    // Events

    /** `register_async`: on an accepted `REGISTER` request, install the event handler. */
    method Register(accepted: bool) returns (r: Outcome<ControlError>)
      requires Valid()
      modifies this`handlerInstalled
      ensures Valid()
      ensures connection.None? ==> r == Fail(NotConnected) && handlerInstalled == old(handlerInstalled)
      ensures connection.Some? && !accepted ==> r == Fail(RequestFailed) && handlerInstalled == old(handlerInstalled)
      ensures connection.Some? && accepted ==> r == Pass && handlerInstalled
    {
      if connection.None? {
        return Fail(NotConnected);
      }
      if !accepted {
        return Fail(RequestFailed);
      }
      handlerInstalled := true;
      r := Pass;
    }

    /**
     * The installed handler, run to completion for one event; `reply` answers the
     * follow-up single-host query of `UP`, `DOWN` and `NEW_NODE`.
     */
    method HandleEvent(ev: Event, reply: Option<Row>)
      requires Valid() && handlerInstalled
      modifies this`hosts, this`trace
      ensures Valid()
      ensures State() == OnEvent(old(State()), clients, ev, reply)
    {
      match ev
      case SchemaChange =>
      case Change(change, a) =>
        if change == "UP" {
          if a in hosts && hosts[a].status != Up {
            var _ := RefreshHost(a, reply);
            // The refresh updates the stored host in place, so the handler's `host` is `hosts[a]`.
            var host := hosts[a].(status := Up);
            hosts := hosts[a := host];
            Notify([HostUp], host);
          }
        } else if change == "DOWN" {
          if a in hosts && hosts[a].status != Down {
            var _ := RefreshHost(a, reply);
            var host := hosts[a].(status := Down);
            hosts := hosts[a := host];
            Notify([HostDown], host);
          }
        } else if change == "NEW_NODE" {
          if a !in hosts {
            var _ := RefreshHost(a, reply);
          }
        } else if change == "REMOVED_NODE" {
          if a in hosts {
            var host := hosts[a];
            hosts := map k | k in hosts && k != a :: hosts[k];
            if host.status == Down {
              Notify([HostLost], host);
            } else {
              host := host.(status := Down);
              Notify([HostDown, HostLost], host);
            }
          }
        }
    }
  }
}
