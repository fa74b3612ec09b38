/**
 * The requests the control connection sends. Only which statement goes out, and
 * with which bound value, is modelled; the rows that come back are inputs.
 */
module Queries {
  import opened Hosts

  /** `SELECT_LOCAL`: this node's own rack, data center, host id and release version. */
  const SelectLocal: string := "SELECT rack, data_center, host_id, release_version FROM system.local"

  /** `SELECT_PEERS`: the same columns plus the address columns, for every other node. */
  const SelectPeers: string := "SELECT peer, rack, data_center, host_id, rpc_address, release_version FROM system.peers"

  /** The one-peer statement of `refresh_host_async`, two adjacent literals joined. */
  const SelectPeer: string := "SELECT rack, data_center, host_id, rpc_address," + "release_version FROM system.peers WHERE peer = ?"

  /** A query request: CQL text and bound values. */
  datatype Request = Request(cql: string, values: seq<Address>)

  /**
   * The request `refresh_host_async` sends as written: its local statement is two
   * adjacent literals with no blank between them.
   */
  function RefreshHostRequestAsWritten(ip: Address, connectionHost: Address): (r: Request)
    ensures ip == connectionHost ==> r.values == [] && r.cql != SelectLocal
    ensures ip != connectionHost ==> r.cql == SelectPeer && r.values == [ip]
  {
    if ip == connectionHost then
      Request("SELECT rack, data_center, host_id, release_version" + "FROM system.local", [])
    else
      Request(SelectPeer, [ip])
  }

  /**
   * As written, the local statement runs the last column into the `FROM` keyword
   * (`release_versionFROM`), so it is not the `SELECT_LOCAL` statement and has no
   * `FROM` clause of its own.
   */
  lemma AsWrittenLocalRefreshLacksFrom(ip: Address)
    ensures var q := RefreshHostRequestAsWritten(ip, ip).cql;
      && q == "SELECT rack, data_center, host_id, release_versionFROM system.local"
      && q[..50] == "SELECT rack, data_center, host_id, release_version"
      && q[50..] == "FROM system.local"
      && q != SelectLocal
  {
  }

  /**
   * The request `refresh_host_async` evidently means to send: the full-refresh local
   * statement for the connection's own host, the one-peer statement bound to any
   * other address.
   */
  function RefreshHostRequest(ip: Address, connectionHost: Address): (r: Request)
    ensures ip == connectionHost ==> r.cql == SelectLocal && r.values == []
    ensures ip != connectionHost ==> r.cql == SelectPeer && r.values == [ip]
  {
    if ip == connectionHost then Request(SelectLocal, []) else Request(SelectPeer, [ip])
  }

  /** The corrected local statement separates the column list from `FROM system.local`. */
  lemma LocalRefreshHasFrom(ip: Address)
    ensures var q := RefreshHostRequest(ip, ip).cql;
      && q[..50] == "SELECT rack, data_center, host_id, release_version"
      && q[50..] == " FROM system.local"
  {
  }

  /** Both statements agree whenever the address is not the connection's own. */
  lemma PeerRefreshUnchanged(ip: Address, connectionHost: Address)
    requires ip != connectionHost
    ensures RefreshHostRequest(ip, connectionHost) == RefreshHostRequestAsWritten(ip, connectionHost)
  {
  }
}
