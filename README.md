# Control connection and builder registry of the Cassandra Ruby driver, in Dafny

This project models two parts of the driver.

**The cluster control connection** (`Cql::Cluster::ControlConnection`) keeps the driver's host directory
(`@cluster.hosts`, address to `Host`) in step with the cluster and tells every registered listener
client about hosts that are found, come up, go down or are lost. The model covers:

- bootstrapping: the first host that accepts a connection is used. While the protocol version is
  above 1, a host that reports an unsupported protocol version (server error code `0x0a`) is retried
  one version lower, and that lowered version stays in the settings. At version 1 that error is
  raised like any other.
- the merge rule `populate_host`, including a host that moved racks or data centers.
- the peer address rule `peer_ip`.
- the full refresh `refresh_hosts_async` and the single-host refresh `refresh_host_async`.
- the handler for pushed `UP`, `DOWN`, `NEW_NODE` and `REMOVED_NODE` events.
- the "not connected" guards.

**The builder registry** (`Cassandra::Protocol::Builders::Registry`) maps `"keyspace.identifier"` to a
result builder. A default builder answers every key without an entry of its own. Only builders that
respond to `.new` and define `#[]=` and `#build` are accepted.

Modules:

- `Wrappers`: `Option`, `Result` and `Outcome`.
- `Hosts`: rows, hosts, the four listener calls, and `Fanout`. `Fanout` is the calls one
  `@cluster.clients.each` loop makes, with lemmas on their layout.
- `HostDirectory`: the specification, as functions over `Dir(hosts, trace)`. `trace` is every
  listener call made so far, each with the host as the listener saw it at that moment.
- `Bootstrap`: the specification of `connect_to_first_available` and `connect_to_host`. The connector
  pipeline is an oracle `outcome(host, version)`. The `errors` hash is an insertion-ordered log.
- `Queries`: which CQL statement is sent, and with which bound value.
- `ControlConnections`: the class `ControlConnection`. Its fields are the directory, the clients, the
  trace, the connection, the protocol version and whether the event handler is installed. Every method
  is proved to leave exactly the state the matching `HostDirectory` or `Bootstrap` function describes.
- `Builders`: the `Registry` class and its pure helpers.

## Model

| member | source | states |
|---|---|---|
| Hosts.NewHost | lib/cql/cluster/control_connection.rb:198 | A new host takes the address, id, release version, rack and data center from the row, with status unknown |
| Hosts.PerClient | lib/cql/cluster/control_connection.rb:202-205 | One client's calls in one loop iteration: one call per kind, in order, each about the given host |
| Hosts.Fanout | lib/cql/cluster/control_connection.rb:202-205 | The calls one `@cluster.clients.each` loop makes, client by client in registration order; its layout is stated by the `Fanout` lemmas below |
| Hosts.FanoutLength | lib/cql/cluster/control_connection.rb:202-205 | A `clients.each` loop makes exactly one call per client per kind |
| Hosts.FanoutOnly | lib/cql/cluster/control_connection.rb:202-205 | A loop calls only the given kinds, only on registered clients, and only about the given host |
| Hosts.FanoutAt | lib/cql/cluster/control_connection.rb:229-232 | Calls are client-major: client `i`'s `j`-th call comes after all calls to earlier clients, at position `i` times the number of kinds plus `j` |
| Hosts.FanoutOne | lib/cql/cluster/control_connection.rb:216-218 | With one call per client, client `i` gets call `i` |
| Hosts.FanoutTwo | lib/cql/cluster/control_connection.rb:202-205 | With two calls per client, client `i` gets calls `2i` then `2i+1` |
| Hosts.SuccessiveOnes | lib/cql/cluster/control_connection.rb:216-225 | Two one-call loops after a prefix: all of the first loop's calls, in client order, precede all of the second's |
| Hosts.SuccessivePairs | lib/cql/cluster/control_connection.rb:229-242 | Two two-call loops after a prefix: every client's first pair precedes every client's second pair |
| HostDirectory.Populate | lib/cql/cluster/control_connection.rb:194-245 | `populate_host` adds exactly its address, leaves every other host unchanged, and only appends to the trace |
| HostDirectory.PopulateNewHost | lib/cql/cluster/control_connection.rb:197-205 | An unknown address is inserted, up, with the row's fields; each client in order is told `host_found` then `host_up` |
| HostDirectory.PopulateSameLocation | lib/cql/cluster/control_connection.rb:206-213 | A known host with the same rack and data center only takes the row's id and release version; nobody is told |
| HostDirectory.PopulateRefreshesMetadata | lib/cql/cluster/control_connection.rb:207-221 | A known host always ends with the row's id, release version, rack and data center, under the same address |
| HostDirectory.PopulateRelocatedDown | lib/cql/cluster/control_connection.rb:215-225 | A down host that moved: `host_lost` about the old location to every client, then `host_found` about the new location to every client; it stays down |
| HostDirectory.PopulateRelocatedUp | lib/cql/cluster/control_connection.rb:226-243 | A host that is not down and moved: it is marked down, each client gets `host_down` and `host_lost` about the old location, then it is marked up and each client gets `host_found` and `host_up` about the new location |
| HostDirectory.PopulateIdempotent | lib/cql/cluster/control_connection.rb:194-245 | Merging the same row twice gives the same directory and trace as merging it once |
| HostDirectory.PopulateNotesAbout | lib/cql/cluster/control_connection.rb:194-245 | Every call a merge makes is about the merged address, and hosts stay stored under their own address |
| HostDirectory.PeerIp | lib/cql/cluster/control_connection.rb:247-251 | A peer is known by its `rpc_address`, or by `peer` when `rpc_address` is `0.0.0.0` |
| HostDirectory.MergePeersStep | lib/cql/cluster/control_connection.rb:108-112 | The peer loop is one `populate_host(peer_ip(row), row)` per row, in order |
| HostDirectory.MergePeers | lib/cql/cluster/control_connection.rb:108-112 | The `peers.each` loop: `populate_host(peer_ip(row), row)` for each row in order; its contract is stated by `MergePeersKeys` and `MergePeersStep` |
| HostDirectory.MergePeersKeys | lib/cql/cluster/control_connection.rb:108-112 | Merging peer rows adds exactly the peers' addresses and only appends to the trace |
| HostDirectory.MergePeersNotesAbout | lib/cql/cluster/control_connection.rb:108-112 | Merging peer rows only makes calls about the peers' addresses and keeps hosts under their own address |
| HostDirectory.SeenIpsStep | lib/cql/cluster/control_connection.rb:100-110 | The address set starts with the connection's address and gains each peer row's address |
| HostDirectory.RefreshAll | lib/cql/cluster/control_connection.rb:99-114 | The completion of `refresh_hosts_async`: populate the local row if any, merge the peers, then keep only the addresses seen; its contract is stated by `RefreshAllKeys` and `RefreshAllNotes` |
| HostDirectory.RefreshAllKeys | lib/cql/cluster/control_connection.rb:96-118 | After a full refresh, the directory holds only addresses seen, every peer's address, and the connection's own address exactly when it was known, answered, or is also a peer |
| HostDirectory.RefreshAllNotes | lib/cql/cluster/control_connection.rb:96-118 | A full refresh only appends calls, each about a seen address; a pruned host is removed and never notified |
| HostDirectory.RefreshOne | lib/cql/cluster/control_connection.rb:145-148 | An empty reply changes nothing; a row adds the address (if new), keeps every other host as it was, and only appends to the trace |
| HostDirectory.OnEvent | lib/cql/cluster/control_connection.rb:33-90 | The event handler only appends to the trace; a schema change changes nothing; a topology or status event can only add or remove its own address and leaves every other host as it was |
| HostDirectory.StatusEventGuard | lib/cql/cluster/control_connection.rb:39-56 | `UP` and `DOWN` change nothing when the host is unknown or already in that state |
| HostDirectory.StatusUpEvent | lib/cql/cluster/control_connection.rb:39-51 | `UP` on a known host that is not up: after the refresh the host is up, other hosts are unchanged, and each client in order is told `host_up` |
| HostDirectory.StatusDownEvent | lib/cql/cluster/control_connection.rb:52-64 | `DOWN` on a known host that is not down: after the refresh the host is down, other hosts are unchanged, and each client in order is told `host_down` |
| HostDirectory.NewNodeEvent | lib/cql/cluster/control_connection.rb:65-69 | `NEW_NODE` ignores a known address; an unknown one is inserted, up, with `host_found` and `host_up`, when its row comes back |
| HostDirectory.RemovedNodeEvent | lib/cql/cluster/control_connection.rb:70-87 | `REMOVED_NODE` deletes the key and changes no other host. A down host gets `host_lost`; any other host is marked down and gets `host_down` then `host_lost` per client |
| HostDirectory.OnEventKeepsDirectory | lib/cql/cluster/control_connection.rb:33-90 | Every event keeps hosts under their own address and only appends to the trace |
| Bootstrap.Downgradable | lib/cql/cluster/control_connection.rb:184 | The retry condition: a `QueryError` with code `0x0a` while the version is above 1; its consequences are stated by `TryHost` and `RefusedAboveFinalVersion` |
| Bootstrap.TryHost | lib/cql/cluster/control_connection.rb:173-192 | `connect_to_host`: a success is a connection at the final version; a failure is one that cannot be downgraded; the version never rises and never drops below 1 |
| Bootstrap.RefusedAboveFinalVersion | lib/cql/cluster/control_connection.rb:183-187 | Every version between the final one and the starting one was refused as unsupported |
| Bootstrap.Store | lib/cql/cluster/control_connection.rb:166 | `errors[h] = error` for a new host: the entry goes last, after every earlier entry |
| Bootstrap.StoreKnownKey | lib/cql/cluster/control_connection.rb:166 | `errors[h] = error` for a known host: same length and same keys in the same places, every other host's entry unchanged, and `h` now holds the new error |
| Bootstrap.FirstAvailable | lib/cql/cluster/control_connection.rb:162-171 | The version never rises and never drops below 1; a connection is always to a planned host |
| Bootstrap.RecordFirst | lib/cql/cluster/control_connection.rb:165-167 | A failed candidate moves from the plan to the end of the error hash |
| Bootstrap.ExhaustedPlanErrors | lib/cql/cluster/control_connection.rb:162-171 | When every candidate fails, `NoHostsAvailable` carries exactly one error per candidate, in plan order |
| Bootstrap.ExhaustedPlanErrorValues | lib/cql/cluster/control_connection.rb:162-171 | When every candidate fails, the errors are the old ones followed by one per candidate, and each candidate's entry is an error its own `connect_to_host` raised at a version no higher than the start, one that was not retried lower |
| Bootstrap.SuccessAfterFailures | lib/cql/cluster/control_connection.rb:162-168 | A connection is to some `plan[k]`, and exactly the candidates before it are in the error hash, in order |
| Bootstrap.StopsAtFirstSuccess | lib/cql/cluster/control_connection.rb:163-168 | Candidates after the first success are never tried |
| Bootstrap.NextHostStartsAtLoweredVersion | lib/cql/cluster/control_connection.rb:184-187 | A downgrade is kept: the next candidate is tried at the version the previous one left |
| Bootstrap.DowngradeExample | lib/cql/cluster/control_connection.rb:183-190 | Starting at version 4 against a server that refuses 4 and 3, the connection is made at version 2, which the settings keep |
| Queries.RefreshHostRequest | lib/cql/cluster/control_connection.rb:125-143 | The connection's own address gets the local statement with no values; any other address gets the one-peer statement bound to it |
| Queries.RefreshHostRequestAsWritten | lib/cql/cluster/control_connection.rb:125-143 | The statement `refresh_host_async` sends as written: for the connection's own address, no bound value and not the `SELECT_LOCAL` text; for any other address, the single-peer statement bound to that address |
| Queries.AsWrittenLocalRefreshLacksFrom | lib/cql/cluster/control_connection.rb:129-130 | As written, the local statement is `...release_versionFROM system.local`, which differs from `SELECT_LOCAL` |
| Queries.LocalRefreshHasFrom | lib/cql/cluster/control_connection.rb:5 | The corrected local statement separates the column list from ` FROM system.local` |
| Queries.PeerRefreshUnchanged | lib/cql/cluster/control_connection.rb:134-142 | For any address other than the connection's own, the corrected and as-written requests agree |
| ControlConnections.ControlConnection.constructor | lib/cql/cluster/control_connection.rb:15-20 | Not connected, no handler installed, the given directory and clients, and an empty trace |
| ControlConnections.ControlConnection.Connect | lib/cql/cluster/control_connection.rb:22-27 | The connection and version are those of `FirstAvailable`; a failure is `NoHostsAvailable` with the error hash and leaves the connection unset |
| ControlConnections.ControlConnection.ConnectToFirstAvailable | lib/cql/cluster/control_connection.rb:162-171 | Result and final version agree with `FirstAvailable` on the untried rest of the plan |
| ControlConnections.ControlConnection.ConnectToHost | lib/cql/cluster/control_connection.rb:173-192 | Result and the version left in the settings agree with `TryHost` |
| ControlConnections.ControlConnection.Notify | lib/cql/cluster/control_connection.rb:202-205 | The trace grows by exactly `Fanout(clients, kinds, host)` |
| ControlConnections.ControlConnection.PopulateHost | lib/cql/cluster/control_connection.rb:194-245 | Directory and trace become `Populate` of the old ones |
| ControlConnections.ControlConnection.MergePeerRows | lib/cql/cluster/control_connection.rb:108-112 | Directory and trace become `MergePeers` of the old ones; the collected address set is the connection's address plus every peer's |
| ControlConnections.ControlConnection.RefreshHosts | lib/cql/cluster/control_connection.rb:96-118 | Not connected: fails and changes nothing. Otherwise: directory and trace become `RefreshAll` of the old ones |
| ControlConnections.ControlConnection.RefreshHost | lib/cql/cluster/control_connection.rb:120-150 | Not connected: fails and changes nothing. Otherwise: sends `RefreshHostRequest`, and directory and trace become `RefreshOne` of the old ones |
| ControlConnections.ControlConnection.Register | lib/cql/cluster/control_connection.rb:29-33 | Not connected: fails; a refused `REGISTER` installs nothing; an accepted one installs the handler |
| ControlConnections.ControlConnection.HandleEvent | lib/cql/cluster/control_connection.rb:33-90 | Directory and trace become `OnEvent` of the old ones |
| Builders.InvalidBuilderError | lib/cassandra/protocol/builders/registry.rb:80-82 | The `ArgumentError` message starts with the refused builder's name |
| Builders.ValidBuilder | lib/cassandra/protocol/builders/registry.rb:86-90 | `valid_builder?`: responds to `.new` and defines `#[]=` and `#build`; its consequences are stated by `Validate` and `Registry.Valid` |
| Builders.Validate | lib/cassandra/protocol/builders/registry.rb:78-90 | Passes exactly when the builder responds to `.new` and defines `#[]=` and `#build`; otherwise fails with that builder's `ArgumentError` |
| Builders.Key | lib/cassandra/protocol/builders/registry.rb:74-76 | The key is the keyspace, then a dot, then the identifier |
| Builders.KeysCollide | lib/cassandra/protocol/builders/registry.rb:74-76 | `("a.b", "c")` and `("a", "b.c")` share one key |
| Builders.KeyInjective | lib/cassandra/protocol/builders/registry.rb:74-76 | When neither keyspace contains a dot, equal keys mean equal pairs |
| Builders.Registry.constructor | lib/cassandra/protocol/builders/registry.rb:26-31 | An empty table whose default is the given valid builder |
| Builders.Registry.Create | lib/cassandra/protocol/builders/registry.rb:26-31 | Succeeds exactly for a valid default, with an empty table; otherwise fails with `ArgumentError` |
| Builders.Registry.Fetch | lib/cassandra/protocol/builders/registry.rb:33-35 | A key with an entry fetches that entry; any other key fetches the default; the result is always a valid builder |
| Builders.Registry.Add | lib/cassandra/protocol/builders/registry.rb:37-48 | An invalid builder fails and changes nothing. A valid one is stored under the key, which then fetches it; no other key and not the default change |
| Builders.Registry.Remove | lib/cassandra/protocol/builders/registry.rb:50-60 | The key loses its entry and fetches the default; nothing else changes; an absent key changes nothing |
| Builders.Registry.SetDefault | lib/cassandra/protocol/builders/registry.rb:62-70 | An invalid builder fails and keeps the old default. A valid one becomes the default, is returned, and answers every key without an entry |

## Left out

- Futures, reactor threads and asynchrony. Each asynchronous operation is modelled after its
  requests have completed, and their answers are parameters: the local row and the peer rows, the
  single-host reply, and whether `REGISTER` was accepted.
- Failed queries. A failed future never runs its `map` block, so the state stays as it was. The
  model does not represent that path.
- The connector pipeline: connect step, option and property caching, initialisation,
  authentication, compression, the protocol handler factory. It is replaced by the oracle
  `outcome(host, version)`.
- `close_async`, `inspect` and the log messages.
- `REGISTER`'s request contents and the exact CQL of the full-refresh statements beyond their text
  constants.
- `ControlConnections.ControlConnection.Connect` takes the plan as a parameter. The source derives
  it from the directory's key order, and a Dafny `map` has no insertion order.
- Host objects are shared and mutated in place in the source. A later mutation of a host is
  therefore visible through an object a listener received earlier. The trace instead records each
  host as it was at the moment of the call.
- `Hosts.NewHost` assumes `Host.new(ip, data)` sets the fields from the row with status unknown.
  The `Host` class is not part of this model.
- Addresses are strings, the form they take after `to_s`. `IPAddr` parsing is not modelled.
- `ControlConnections.ControlConnection.constructor` requires the initial directory to store every
  host under its own address. The source never checks this; every host it inserts is stored under
  that host's own address.
- `Builders.Registry.constructor` requires a valid default. The raising path of `initialize` is
  `Builders.Registry.Create`.
- The `MonitorMixin` lock and the copy-on-write swap in `add` and `remove` are modelled as plain
  replacement of the table. `Hash#dup` keeps the default, so the default survives the swap.
- Ruby reflection (`respond_to?` and `method_defined?`) is modelled as three capability flags on a
  builder record.

## Findings

| source | as written | input that shows it | evidently intended | confidence | as-written member | corrected member |
|---|---|---|---|---|---|---|
| lib/cql/cluster/control_connection.rb:129-130 | Two adjacent literals join into `SELECT rack, data_center, host_id, release_versionFROM system.local`: no blank before `FROM` | `refresh_host_async(address)` with `address.to_s` equal to the connection's host, e.g. an `UP` event for the control connection's own node | the `SELECT_LOCAL` text of line 5, `... release_version FROM system.local` | high; not executed | Queries.AsWrittenLocalRefreshLacksFrom | Queries.LocalRefreshHasFrom |
