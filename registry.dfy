/**
 * The connection registry: the two mirrored dictionaries between transport
 * connection ids and stable client ids, and the lookup of a linked client's
 * cached aircraft status.
 */
module Registry {
  import opened Common
  import opened Telemetry

  /** Every connection entry is mirrored by its client entry and the reverse. */
  predicate Mirrored(connectionToClient: map<ConnId, ClientId>, clientToConnection: map<ClientId, ConnId>) {
    && (forall c :: c in connectionToClient ==>
          connectionToClient[c] in clientToConnection && clientToConnection[connectionToClient[c]] == c)
    && (forall k :: k in clientToConnection ==>
          clientToConnection[k] in connectionToClient && connectionToClient[clientToConnection[k]] == k)
  }

  /** Mirrored dictionaries resolve a client id to at most one connection. */
  lemma MirroredIsOneToOne(connectionToClient: map<ConnId, ClientId>, clientToConnection: map<ClientId, ConnId>,
                           c1: ConnId, c2: ConnId)
    requires Mirrored(connectionToClient, clientToConnection)
    requires c1 in connectionToClient && c2 in connectionToClient
    requires connectionToClient[c1] == connectionToClient[c2]
    ensures c1 == c2
  {
    assert clientToConnection[connectionToClient[c1]] == c1;
  }

  /**
   * The registry after client `k` connects on connection `conn`: the new
   * connection resolves to `k`, the client's previous connection (if any)
   * loses its entry, and `k` resolves to the new connection.
   */
  function Reconnected(connectionToClient: map<ConnId, ClientId>, clientToConnection: map<ClientId, ConnId>,
                       conn: ConnId, k: ClientId): (r: (map<ConnId, ClientId>, map<ClientId, ConnId>))
    ensures r.1 == clientToConnection[k := conn]
    ensures r.0.Keys <= connectionToClient.Keys + {conn}
  {
    var added := connectionToClient[conn := k];
    (if k in clientToConnection then added - {clientToConnection[k]} else added, clientToConnection[k := conn])
  }

  /**
   * Connecting on a connection id not in use keeps the registry mirrored; the
   * new connection resolves to the client, its previous connection no longer
   * resolves, and every other connection keeps its entry.
   */
  lemma ReconnectKeepsMirrored(connectionToClient: map<ConnId, ClientId>, clientToConnection: map<ClientId, ConnId>,
                               conn: ConnId, k: ClientId)
    requires Mirrored(connectionToClient, clientToConnection) && conn !in connectionToClient
    ensures var r := Reconnected(connectionToClient, clientToConnection, conn, k);
      && Mirrored(r.0, r.1)
      && conn in r.0 && r.0[conn] == k
      && (k in clientToConnection ==> clientToConnection[k] !in r.0)
      && (forall c :: c in connectionToClient && connectionToClient[c] != k ==> c in r.0 && r.0[c] == connectionToClient[c])
  {
    var r := Reconnected(connectionToClient, clientToConnection, conn, k);
    forall c | c in r.0 ensures r.0[c] in r.1 && r.1[r.0[c]] == c {
      if c != conn {
        assert connectionToClient[c] != k;
      }
    }
  }

  /** The registry after connection `conn` disconnects: it and its client (if it had one) lose their entries. */
  function Disconnected(connectionToClient: map<ConnId, ClientId>, clientToConnection: map<ClientId, ConnId>,
                        conn: ConnId): (r: (map<ConnId, ClientId>, map<ClientId, ConnId>))
    ensures conn !in r.0
    ensures r.0.Keys <= connectionToClient.Keys && r.1.Keys <= clientToConnection.Keys
    ensures forall c :: c in r.0 ==> r.0[c] == connectionToClient[c]
    ensures forall k :: k in r.1 ==> r.1[k] == clientToConnection[k]
    ensures conn !in connectionToClient ==> r == (connectionToClient, clientToConnection)
  {
    if conn in connectionToClient then (connectionToClient - {conn}, clientToConnection - {connectionToClient[conn]})
    else (connectionToClient, clientToConnection)
  }

  /** Disconnecting keeps the registry mirrored, and the departed client no longer resolves to any connection. */
  lemma DisconnectKeepsMirrored(connectionToClient: map<ConnId, ClientId>, clientToConnection: map<ClientId, ConnId>,
                                conn: ConnId)
    requires Mirrored(connectionToClient, clientToConnection)
    ensures var r := Disconnected(connectionToClient, clientToConnection, conn);
      && Mirrored(r.0, r.1)
      && (conn in connectionToClient ==> connectionToClient[conn] !in r.1)
      && (forall c :: c in connectionToClient && c != conn ==> c in r.0 && r.0[c] == connectionToClient[c])
  {
    if conn in connectionToClient {
      forall c | c in connectionToClient && c != conn ensures connectionToClient[c] != connectionToClient[conn] {
        assert clientToConnection[connectionToClient[c]] == c;
      }
    }
  }

  /** A linked client id whose live connection has a cached aircraft status. */
  predicate Reporting(k: ClientId, clientToConnection: map<ClientId, ConnId>, statuses: map<ConnId, AircraftStatus>) {
    k in clientToConnection && clientToConnection[k] in statuses
  }

  /** The index of the first reporting client id of the list, if any. */
  function FirstReporting(ids: seq<ClientId>, clientToConnection: map<ClientId, ConnId>,
                          statuses: map<ConnId, AircraftStatus>): (r: Option<nat>)
    ensures r.Some? ==> r.value < |ids| && Reporting(ids[r.value], clientToConnection, statuses)
    ensures r.Some? ==> forall j :: 0 <= j < r.value ==> !Reporting(ids[j], clientToConnection, statuses)
    ensures r.None? ==> forall j :: 0 <= j < |ids| ==> !Reporting(ids[j], clientToConnection, statuses)
    decreases |ids|
  {
    if |ids| == 0 then None
    else if Reporting(ids[0], clientToConnection, statuses) then Some(0)
    else
      match FirstReporting(ids[1..], clientToConnection, statuses)
      case None => None
      case Some(i) => Some(i + 1)
  }

  /**
   * The reply to a Discord status request: the first reporting linked client
   * and its status, or else the first linked client id (null for none) with no status.
   */
  function DiscordReply(ids: seq<ClientId>, clientToConnection: map<ClientId, ConnId>,
                        statuses: map<ConnId, AircraftStatus>): (r: (Option<ClientId>, Option<AircraftStatus>))
    ensures r.1.Some? ==>
      && r.0.Some? && r.0.value in ids && Reporting(r.0.value, clientToConnection, statuses)
      && r.1.value == statuses[clientToConnection[r.0.value]]
    ensures r.1.None? <==> forall j :: 0 <= j < |ids| ==> !Reporting(ids[j], clientToConnection, statuses)
    ensures r.1.None? ==> r.0 == if |ids| > 0 then Some(ids[0]) else None
    ensures FirstReporting(ids, clientToConnection, statuses).Some? ==>
      r.0 == Some(ids[FirstReporting(ids, clientToConnection, statuses).value])
  {
    match FirstReporting(ids, clientToConnection, statuses)
    case Some(i) => (Some(ids[i]), Some(statuses[clientToConnection[ids[i]]]))
    case None => (if |ids| > 0 then Some(ids[0]) else None, None)
  }
}
