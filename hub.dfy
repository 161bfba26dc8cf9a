/**
 * `FlightEventHub`: the process-wide dictionaries the hub methods update in
 * place, and the methods themselves. Each method takes the calling
 * connection and the values the real hub reads from its environment (the
 * clock, fresh ids, the event's required lap count, storage lookups) as
 * parameters, and records what it sends in `outbox`.
 */
module Hub {
  import opened Common
  import opened Telemetry
  import opened Stopwatch
  import opened Scoring
  import opened Atc
  import opened Notifications
  import opened Registry

  /** The event a stopwatch code belongs to, as the event store returns it. */
  datatype FlightEvent = FlightEvent(id: Guid, requiredLaps: nat)

  /** Every dictionary of the hub except the stopwatch table, as one value. */
  datatype Dictionaries = Dictionaries(
    connectionToClient: map<ConnId, ClientId>,
    clientToConnection: map<ClientId, ConnId>,
    aircraftStatuses: map<ConnId, AircraftStatus>,
    atcInfos: map<ConnId, ATCInfo>,
    atcStatuses: map<ConnId, ATCStatus>,
    teleportRequests: map<ConnId, (string, Position)>,
    teleportTokens: map<string, ConnId>,
    flightPlans: map<string, (Option<ClientId>, FlightPlanCompact)>,
    leaderboardSaves: seq<LeaderboardRecord>,
    groups: set<(ConnId, string)>)

  /** The group a connecting client joins, by the client type it announces. */
  function GroupOfClientType(clientType: Option<string>): (g: Option<string>)
    ensures g == Some(MapGroup) <==> clientType == Some("Web")
    ensures g == Some(BotGroup) <==> clientType == Some("Bot")
    ensures g.None? <==> clientType != Some("Web") && clientType != Some("Bot")
  {
    if clientType == Some("Web") then Some(MapGroup)
    else if clientType == Some("Bot") then Some(BotGroup)
    else None
  }

  /** `GetOrAdd(eventCode, new …)`: the table with an empty entry for the code if it had none. */
  function Touched<V>(t: map<string, map<Guid, V>>, eventCode: string): (r: map<string, map<Guid, V>>)
    ensures eventCode in r && r.Keys == t.Keys + {eventCode}
    ensures forall c :: c in t ==> r[c] == t[c]
    ensures eventCode !in t ==> r[eventCode] == map[]
  {
    if eventCode in t then t else t[eventCode := map[]]
  }

  /** The stopwatch group's notice of a stopwatch's new contents. */
  function StopwatchNotice(eventCode: string, v: StopwatchView, now: int): Notification {
    Notification(Groups({StopwatchGroup(eventCode)}), UpdateStopwatch(v, now))
  }

  /** The stopwatch group's notice that a stopwatch was removed. */
  function RemovalNotice(eventCode: string, v: StopwatchView): Notification {
    Notification(Groups({StopwatchGroup(eventCode)}), Message.RemoveStopwatch(v))
  }

  /** The stopwatches of one event after `StartAllStopwatches`: each not-yet-started one starts at `now`. */
  function StartedAll(views: map<Guid, StopwatchView>, now: int): (r: map<Guid, StopwatchView>)
    ensures r.Keys == views.Keys
    ensures forall g :: g in views && PhaseOf(views[g]) == NotStarted ==>
      PhaseOf(r[g]) == Running && r[g].startedAt == Some(now) && r[g].laps == views[g].laps
    ensures forall g :: g in views && PhaseOf(views[g]) != NotStarted ==> r[g] == views[g]
    ensures forall g :: g in views ==>
      r[g].(startedAt := views[g].startedAt, stoppedAt := views[g].stoppedAt) == views[g]
  {
    map g | g in views :: Started(views[g], now)
  }

  /**
   * The notices `StartAllStopwatches` sends, visiting stopwatches with the
   * contents `views` in order: one per stopwatch that had not started,
   * carrying it started at `now`.
   */
  function StartAllNotices(eventCode: string, views: seq<StopwatchView>, now: int): (ns: seq<Notification>)
    ensures |ns| <= |views|
    ensures forall k :: 0 <= k < |ns| ==>
      && ns[k].audience == Groups({StopwatchGroup(eventCode)})
      && ns[k].message.UpdateStopwatch? && ns[k].message.serverTime == now
      && PhaseOf(ns[k].message.stopwatch) == Running && ns[k].message.stopwatch.startedAt == Some(now)
    decreases |views|
  {
    if |views| == 0 then [] else
      var v := views[|views| - 1];
      var prefix := StartAllNotices(eventCode, views[..|views| - 1], now);
      if PhaseOf(v) == NotStarted then prefix + [StopwatchNotice(eventCode, Started(v, now), now)] else prefix
  }

  /** Visiting one more stopwatch extends the notices by its notice, if it had not started. */
  lemma StartAllNoticesStep(eventCode: string, views: seq<StopwatchView>, i: nat, now: int)
    requires i < |views|
    ensures StartAllNotices(eventCode, views[..i + 1], now)
      == StartAllNotices(eventCode, views[..i], now)
      + if PhaseOf(views[i]) == NotStarted then [StopwatchNotice(eventCode, Started(views[i], now), now)] else []
  {
    assert views[..i + 1][..i] == views[..i];
  }

  /** Every stopwatch of one event's table is filed under its own event code and id. */
  predicate Filed(eventCode: string, table: map<Guid, EventStopwatch>) {
    forall g :: g in table ==> table[g].id == g && table[g].eventCode == eventCode
  }

  /** Every stopwatch of the hub is filed under its own event code and id. */
  predicate AllFiled(stopwatches: map<string, map<Guid, EventStopwatch>>) {
    forall c :: c in stopwatches ==> Filed(c, stopwatches[c])
  }

  /** Every teleport token names a connection that has a teleport request. */
  predicate TokensOwned(tokens: map<string, ConnId>, requests: map<ConnId, (string, Position)>) {
    forall t :: t in tokens ==> tokens[t] in requests
  }

  /** The contents of a table of stopwatches, by id. */
  function Views(table: map<Guid, EventStopwatch>): (r: map<Guid, StopwatchView>)
    reads table.Values
    ensures r.Keys == table.Keys
  {
    map g | g in table :: table[g].View()
  }

  /** The contents of a sequence of stopwatches. */
  function ViewsOf(stopwatches: seq<EventStopwatch>): (vs: seq<StopwatchView>)
    reads stopwatches
    ensures |vs| == |stopwatches| && forall k :: 0 <= k < |stopwatches| ==> vs[k] == stopwatches[k].View()
  {
    seq(|stopwatches|, k requires 0 <= k < |stopwatches| reads stopwatches => stopwatches[k].View())
  }

  /** The entries of a map listed in the order of `order`, each id of which is a key. */
  function InOrder<V>(m: map<Guid, V>, order: seq<Guid>): (r: seq<V>)
    requires forall k :: 0 <= k < |order| ==> order[k] in m
    ensures |r| == |order| && forall k :: 0 <= k < |order| ==> r[k] == m[order[k]]
  {
    seq(|order|, k requires 0 <= k < |order| => m[order[k]])
  }

  /**
   * The loop of `StartAllStopwatches` over the values of one event's table,
   * in enumeration order: each stopwatch that had neither started nor
   * stopped starts at `now`, and the notices announcing them are returned
   * in visiting order.
   */
  method StartEach(eventCode: string, stopwatches: seq<EventStopwatch>, now: int) returns (notices: seq<Notification>)
    requires forall i, j :: 0 <= i < j < |stopwatches| ==> stopwatches[i] != stopwatches[j]
    modifies stopwatches
    ensures forall k :: 0 <= k < |stopwatches| ==> stopwatches[k].View() == Started(old(stopwatches[k].View()), now)
    ensures notices == StartAllNotices(eventCode, old(ViewsOf(stopwatches)), now)
  {
    ghost var views := ViewsOf(stopwatches);
    notices := [];
    var i := 0;
    while i < |stopwatches|
      invariant 0 <= i <= |stopwatches|
      invariant forall k :: 0 <= k < i ==> stopwatches[k].View() == Started(views[k], now)
      invariant forall k :: i <= k < |stopwatches| ==> stopwatches[k].View() == views[k]
      invariant notices == StartAllNotices(eventCode, views[..i], now)
    {
      var stopwatch := stopwatches[i];
      StartAllNoticesStep(eventCode, views, i, now);
      var started := stopwatch.StartAt(now);
      if started {
        notices := notices + [StopwatchNotice(eventCode, stopwatch.View(), now)];
      }
      i := i + 1;
    }
    assert views[..|stopwatches|] == views;
  }

  /** Distinct ids of a filed table hold distinct stopwatches. */
  lemma DistinctValues(eventCode: string, table: map<Guid, EventStopwatch>, order: seq<Guid>)
    requires Filed(eventCode, table)
    requires forall k :: 0 <= k < |order| ==> order[k] in table
    requires forall i, j :: 0 <= i < j < |order| ==> order[i] != order[j]
    ensures forall i, j :: 0 <= i < j < |order| ==> InOrder(table, order)[i] != InOrder(table, order)[j]
  {
    forall i, j | 0 <= i < j < |order| ensures InOrder(table, order)[i] != InOrder(table, order)[j] {
      assert table[order[i]].id != table[order[j]].id;
    }
  }

  /** Once every id of the visiting order has been started, the whole table has. */
  lemma StartedEverywhere(table: map<Guid, EventStopwatch>, views: map<Guid, StopwatchView>, order: seq<Guid>, now: int)
    requires views.Keys == table.Keys
    requires forall g :: g in order <==> g in table
    requires forall k :: 0 <= k < |order| ==> table[order[k]].View() == Started(views[order[k]], now)
    ensures Views(table) == StartedAll(views, now)
  {
    forall g | g in table ensures Views(table)[g] == StartedAll(views, now)[g] {
      var k :| 0 <= k < |order| && order[k] == g;
    }
  }

  /**
   * `StartAllStopwatches` on one event's table, visiting its ids in `order`:
   * the table's contents become `StartedAll` of what they were, and the
   * notices are those of the stopwatches that started, in visiting order.
   */
  method StartTable(eventCode: string, table: map<Guid, EventStopwatch>, order: seq<Guid>, now: int)
    returns (notices: seq<Notification>)
    requires Filed(eventCode, table)
    requires forall i, j :: 0 <= i < j < |order| ==> order[i] != order[j]
    requires forall k :: 0 <= k < |order| ==> order[k] in table
    requires forall g :: g in table ==> g in order
    modifies table.Values
    ensures Views(table) == StartedAll(old(Views(table)), now)
    ensures notices == StartAllNotices(eventCode, InOrder(old(Views(table)), order), now)
  {
    ghost var views := Views(table);
    var values := InOrder(table, order);
    DistinctValues(eventCode, table, order);
    assert ViewsOf(values) == InOrder(views, order);
    notices := StartEach(eventCode, values, now);
    StartedEverywhere(table, views, order, now);
  }

  class FlightEventHub {
    var connectionToClient: map<ConnId, ClientId>
    var clientToConnection: map<ClientId, ConnId>
    var aircraftStatuses: map<ConnId, AircraftStatus>
    var atcInfos: map<ConnId, ATCInfo>
    var atcStatuses: map<ConnId, ATCStatus>
    var teleportRequests: map<ConnId, (string, Position)>
    var teleportTokens: map<string, ConnId>
    var stopwatches: map<string, map<Guid, EventStopwatch>>
    /** The flight-plan store: plans by callsign, with the client id that filed them. */
    var flightPlans: map<string, (Option<ClientId>, FlightPlanCompact)>
    /** The leaderboard store: every record saved, in order. */
    var leaderboardSaves: seq<LeaderboardRecord>
    /** Group memberships the hub asked the transport for. */
    var groups: set<(ConnId, string)>
    /** Every notification sent, in order. */
    var outbox: seq<Notification>

    /** A hub as the process starts it: every dictionary empty. */
    constructor ()
      ensures Valid() && fresh(this)
      ensures Dicts() == Dictionaries(map[], map[], map[], map[], map[], map[], map[], map[], [], {})
      ensures stopwatches == map[] && outbox == []
    {
      connectionToClient := map[];
      clientToConnection := map[];
      aircraftStatuses := map[];
      atcInfos := map[];
      atcStatuses := map[];
      teleportRequests := map[];
      teleportTokens := map[];
      stopwatches := map[];
      flightPlans := map[];
      leaderboardSaves := [];
      groups := {};
      outbox := [];
    }

    function Dicts(): Dictionaries
      reads this
    {
      Dictionaries(connectionToClient, clientToConnection, aircraftStatuses, atcInfos, atcStatuses,
                   teleportRequests, teleportTokens, flightPlans, leaderboardSaves, groups)
    }

    /** The stopwatch filed under `eventCode` and `id`, if any, as a frame. */
    function StopwatchAt(eventCode: string, id: Guid): set<EventStopwatch>
      reads this
    {
      if eventCode in stopwatches && id in stopwatches[eventCode] then {stopwatches[eventCode][id]} else {}
    }

    /** The stopwatches of one event, as a frame. */
    function EventObjects(eventCode: string): set<EventStopwatch>
      reads this
    {
      if eventCode in stopwatches then stopwatches[eventCode].Values else {}
    }

    /** The contents of the stopwatches of one event, by id. */
    function EventViews(eventCode: string): (r: map<Guid, StopwatchView>)
      reads this, EventObjects(eventCode)
      ensures r.Keys == if eventCode in stopwatches then stopwatches[eventCode].Keys else {}
    {
      if eventCode in stopwatches then Views(stopwatches[eventCode]) else map[]
    }

    /**
     * The hub's invariant: the registry is mirrored, every teleport token
     * belongs to a connection with a request, and every stopwatch is filed
     * under its own event code and id (so no stopwatch is filed twice).
     */
    ghost predicate Valid()
      reads this
    {
      && Mirrored(connectionToClient, clientToConnection)
      && TokensOwned(teleportTokens, teleportRequests)
      && AllFiled(stopwatches)
    }

    // -------------------------------------------------------------------------
    // Connections
    // -------------------------------------------------------------------------

    /**
     * `OnConnectedAsync`. A client presenting a client id is registered under
     * the new connection, and its previous connection loses its entry; a
     * "Web" client joins Map and a "Bot" client joins Bot.
     */
    method OnConnected(conn: ConnId, clientType: Option<string>, clientId: Option<ClientId>)
      requires Valid() && conn !in connectionToClient
      modifies this`connectionToClient, this`clientToConnection, this`groups
      ensures Valid()
      ensures clientId.None? ==> connectionToClient == old(connectionToClient) && clientToConnection == old(clientToConnection)
      ensures clientId.Some? ==>
        (connectionToClient, clientToConnection) == Reconnected(old(connectionToClient), old(clientToConnection), conn, clientId.value)
      ensures groups == old(groups) + (if GroupOfClientType(clientType).Some? then {(conn, GroupOfClientType(clientType).value)} else {})
      ensures Dicts() == old(Dicts()).(connectionToClient := connectionToClient, clientToConnection := clientToConnection, groups := groups)
      ensures stopwatches == old(stopwatches) && outbox == old(outbox)
    {
      var clients, connections, joined := connectionToClient, clientToConnection, groups;
      if clientId.Some? {
        var k := clientId.value;
        clients := clients[conn := k];
        if k in connections {
          clients := clients - {connections[k]};
        }
        ReconnectKeepsMirrored(connectionToClient, connections, conn, k);
        connections := connections[k := conn];
      }
      var g := GroupOfClientType(clientType);
      if g.Some? {
        joined := joined + {(conn, g.value)};
      }
      connectionToClient, clientToConnection, groups := clients, connections, joined;
    }

    /**
     * `OnDisconnectedAsync`. A registered connection loses both registry
     * entries and Map and ATC are told its ATC is gone; in every case its
     * aircraft and ATC status caches are cleared.
     */
    method OnDisconnected(conn: ConnId)
      requires Valid()
      modifies this`connectionToClient, this`clientToConnection, this`outbox, this`aircraftStatuses, this`atcStatuses
      ensures Valid()
      ensures conn !in connectionToClient && conn !in aircraftStatuses && conn !in atcStatuses
      ensures (connectionToClient, clientToConnection) == Disconnected(old(connectionToClient), old(clientToConnection), conn)
      ensures conn in old(connectionToClient) ==>
        outbox == old(outbox) + [Notification(Groups({MapGroup, AtcGroup}), Message.UpdateATC(old(connectionToClient)[conn], None, None))]
      ensures conn !in old(connectionToClient) ==> outbox == old(outbox)
      ensures Dicts() == old(Dicts()).(connectionToClient := connectionToClient, clientToConnection := clientToConnection,
                                       aircraftStatuses := old(aircraftStatuses) - {conn}, atcStatuses := old(atcStatuses) - {conn})
      ensures stopwatches == old(stopwatches)
    {
      DisconnectKeepsMirrored(connectionToClient, clientToConnection, conn);
      if conn in connectionToClient {
        var k := connectionToClient[conn];
        connectionToClient := connectionToClient - {conn};
        clientToConnection := clientToConnection - {k};
        outbox := outbox + [Notification(Groups({MapGroup, AtcGroup}), Message.UpdateATC(k, None, None))];
      }
      RemoveCacheOnConnectionId(conn);
    }

    /** `RemoveCacheOnConnectionId`: the aircraft and ATC status caches forget the connection. */
    method RemoveCacheOnConnectionId(conn: ConnId)
      requires Valid()
      modifies this`aircraftStatuses, this`atcStatuses
      ensures Valid()
      ensures Dicts() == old(Dicts()).(aircraftStatuses := old(aircraftStatuses) - {conn}, atcStatuses := old(atcStatuses) - {conn})
      ensures stopwatches == old(stopwatches) && outbox == old(outbox)
    {
      aircraftStatuses := aircraftStatuses - {conn};
      atcStatuses := atcStatuses - {conn};
    }

    // -------------------------------------------------------------------------
    // Telemetry
    // -------------------------------------------------------------------------

    /** `LoginATC`: the connection's ATC identity is recorded (replacing any earlier one). */
    method LoginATC(conn: ConnId, atc: ATCInfo)
      requires Valid()
      modifies this`atcInfos
      ensures Valid()
      ensures Dicts() == old(Dicts()).(atcInfos := old(atcInfos)[conn := atc])
      ensures stopwatches == old(stopwatches) && outbox == old(outbox)
    {
      atcInfos := atcInfos[conn := atc];
    }

    /**
     * `UpdateATC`. Nothing happens unless the connection is registered and
     * logged in as ATC. Then a status (none stands for `null`) replaces the
     * cached one, Bot is told of a frequency change exactly when the cached
     * frequency (none before the first status) differs from the new one (none
     * for a null status), and Map always gets the update.
     */
    method UpdateATC(conn: ConnId, status: Option<ATCStatus>)
      requires Valid()
      modifies this`atcStatuses, this`outbox
      ensures Valid()
      ensures !(conn in old(connectionToClient) && conn in old(atcInfos)) ==> Dicts() == old(Dicts()) && outbox == old(outbox)
      ensures conn in old(connectionToClient) && conn in old(atcInfos) ==>
        var from := if conn in old(atcStatuses) then Some(old(atcStatuses)[conn].frequencyCom) else None;
        var to := if status.Some? then Some(status.value.frequencyCom) else None;
        && atcStatuses == (if status.Some? then old(atcStatuses)[conn := status.value] else old(atcStatuses))
        && outbox == old(outbox) + AtcFrequencyNotice(old(connectionToClient)[conn], from, to)
                      + [Notification(Groups({MapGroup}), Message.UpdateATC(old(connectionToClient)[conn], status, Some(old(atcInfos)[conn])))]
      ensures Dicts() == old(Dicts()).(atcStatuses := atcStatuses)
      ensures stopwatches == old(stopwatches)
    {
      if conn in connectionToClient && conn in atcInfos {
        var k := connectionToClient[conn];
        var atc := atcInfos[conn];
        var from: Option<int> := None;
        if conn in atcStatuses {
          from := Some(atcStatuses[conn].frequencyCom);
        }
        if status.Some? {
          atcStatuses := atcStatuses[conn := status.value];
        }
        var to := if status.Some? then Some(status.value.frequencyCom) else None;
        if from != to {
          outbox := outbox + [Notification(Groups({BotGroup}), ChangeFrequency(k, from, to))];
        }
        outbox := outbox + [Notification(Groups({MapGroup}), Message.UpdateATC(k, status, Some(atc)))];
      }
    }

    /**
     * `UpdateAircraft`. Nothing happens unless the connection is registered.
     * Then the sanitised status replaces the cached one; unless the connection
     * is in ATC mode, Bot is told of a COM1 change exactly when the cached COM1
     * (0 before the first status) differs from the new one; and ATC always
     * gets the sanitised status.
     */
    method UpdateAircraft(conn: ConnId, status: AircraftStatus)
      requires Valid()
      modifies this`aircraftStatuses, this`outbox
      ensures Valid()
      ensures conn !in old(connectionToClient) ==> Dicts() == old(Dicts()) && outbox == old(outbox)
      ensures conn in old(connectionToClient) ==>
        var k := old(connectionToClient)[conn];
        var from := if conn in old(aircraftStatuses) then old(aircraftStatuses)[conn].frequencyCom1 else 0;
        && aircraftStatuses == old(aircraftStatuses)[conn := Sanitize(status)]
        && outbox == old(outbox)
                     + (if conn in old(atcStatuses) then [] else AircraftFrequencyNotice(k, from, Sanitize(status).frequencyCom1))
                     + [Notification(Groups({AtcGroup}), Message.UpdateAircraft(k, Sanitize(status)))]
      ensures Dicts() == old(Dicts()).(aircraftStatuses := aircraftStatuses)
      ensures stopwatches == old(stopwatches)
    {
      if conn in connectionToClient {
        var k := connectionToClient[conn];
        var s := Sanitize(status);
        var from := 0;
        if conn in aircraftStatuses {
          from := aircraftStatuses[conn].frequencyCom1;
        }
        aircraftStatuses := aircraftStatuses[conn := s];
        if conn !in atcStatuses {
          var to := s.frequencyCom1;
          if from != to {
            outbox := outbox + [Notification(Groups({BotGroup}), ChangeFrequency(k, FrequencyOrNull(from), FrequencyOrNull(to)))];
          }
        }
        outbox := outbox + [Notification(Groups({AtcGroup}), Message.UpdateAircraft(k, s))];
      }
    }

    /**
     * `RequestStatusFromDiscord`, given the client ids the Discord store links
     * to the user: the caller gets the status of the first linked client that
     * is connected and reporting, or else the first linked id and no status.
     */
    method RequestStatusFromDiscord(conn: ConnId, discordUserId: nat, clientIds: seq<ClientId>)
      requires Valid()
      modifies this`outbox
      ensures Valid()
      ensures var reply := DiscordReply(clientIds, clientToConnection, aircraftStatuses);
        outbox == old(outbox) + [Notification(Caller(conn), UpdateAircraftToDiscord(discordUserId, reply.0, reply.1))]
      ensures Dicts() == old(Dicts()) && stopwatches == old(stopwatches)
    {
      var i := 0;
      while i < |clientIds|
        invariant 0 <= i <= |clientIds|
        invariant forall j :: 0 <= j < i ==> !Reporting(clientIds[j], clientToConnection, aircraftStatuses)
        invariant outbox == old(outbox)
      {
        var k := clientIds[i];
        if k in clientToConnection && clientToConnection[k] in aircraftStatuses {
          var status := aircraftStatuses[clientToConnection[k]];
          FirstReportingIsFirst(clientIds, i, clientToConnection, aircraftStatuses);
          outbox := outbox + [Notification(Caller(conn), UpdateAircraftToDiscord(discordUserId, Some(k), Some(status)))];
          return;
        }
        i := i + 1;
      }
      var first := if |clientIds| > 0 then Some(clientIds[0]) else None;
      outbox := outbox + [Notification(Caller(conn), UpdateAircraftToDiscord(discordUserId, first, None))];
    }

    // -------------------------------------------------------------------------
    // ATC text relay
    // -------------------------------------------------------------------------

    /**
     * `SendATC`. A `$FP` message stores its plan under its callsign with no
     * client id and is then relayed; a transponder control message is
     * swallowed; any other message is relayed to ATC except the sender; a
     * message that makes decoding throw stores and relays nothing.
     */
    method SendATC(conn: ConnId, to: string, message: string) returns (outcome: Outcome)
      requires Valid()
      modifies this`flightPlans, this`outbox
      ensures Valid()
      ensures outcome.Fail? <==> Decode(message).Malformed?
      ensures outcome.Fail? ==> outcome.fault == Decode(message).fault
      ensures Decode(message).FlightPlanMessage? ==>
        flightPlans == old(flightPlans)[Decode(message).callsign := (None, Decode(message).plan)]
      ensures !Decode(message).FlightPlanMessage? ==> flightPlans == old(flightPlans)
      ensures Decode(message).FlightPlanMessage? || Decode(message).Relayed? ==>
        outbox == old(outbox) + [Notification(GroupExcept(AtcGroup, conn), Message.SendATC(to, message))]
      ensures Decode(message).TransponderControl? || Decode(message).Malformed? ==> outbox == old(outbox)
      ensures Dicts() == old(Dicts()).(flightPlans := flightPlans)
      ensures stopwatches == old(stopwatches)
    {
      var m := Decode(message);
      match m {
        case Malformed(fault) =>
          return Fail(fault);
        case TransponderControl(_, _) =>
          return Pass;
        case FlightPlanMessage(callsign, plan) =>
          flightPlans := flightPlans[callsign := (None, plan)];
        case Relayed =>
      }
      outbox := outbox + [Notification(GroupExcept(AtcGroup, conn), Message.SendATC(to, message))];
      return Pass;
    }

    // -------------------------------------------------------------------------
    // Teleport
    // -------------------------------------------------------------------------

    /** `RequestTeleport`: the caller's request replaces its earlier one, and the token now names the caller. */
    method RequestTeleport(conn: ConnId, token: string, position: Position)
      requires Valid()
      modifies this`teleportRequests, this`teleportTokens
      ensures Valid()
      ensures Dicts() == old(Dicts()).(teleportRequests := old(teleportRequests)[conn := (token, position)],
                                       teleportTokens := old(teleportTokens)[token := conn])
      ensures stopwatches == old(stopwatches) && outbox == old(outbox)
    {
      teleportRequests := teleportRequests[conn := (token, position)];
      teleportTokens := teleportTokens[token := conn];
    }

    /**
     * `AcceptTeleport`. A known token sends the caller the connection that
     * issued it and the position of that connection's latest request; an
     * unknown one sends nothing. No table changes.
     */
    method AcceptTeleport(conn: ConnId, token: string)
      requires Valid()
      modifies this`outbox
      ensures Valid()
      ensures token in teleportTokens ==>
        var owner := teleportTokens[token];
        outbox == old(outbox) + [Notification(Caller(conn), Teleport(owner, teleportRequests[owner].1))]
      ensures token !in teleportTokens ==> outbox == old(outbox)
      ensures Dicts() == old(Dicts()) && stopwatches == old(stopwatches)
    {
      if token in teleportTokens && teleportTokens[token] in teleportRequests {
        var owner := teleportTokens[token];
        outbox := outbox + [Notification(Caller(conn), Teleport(owner, teleportRequests[owner].1))];
      }
    }

    // -------------------------------------------------------------------------
    // Stopwatches
    // -------------------------------------------------------------------------

    /**
     * `AddStopwatch`, given the fresh id and the clock: a new stopwatch with
     * no start, no laps and no stop is filed under its event code and
     * announced, unless the id is already taken there.
     */
    method AddStopwatch(eventCode: string, leaderboardName: string, name: string, newId: Guid, now: int)
      requires Valid()
      modifies this`stopwatches, this`outbox
      ensures Valid()
      ensures var t := Touched(old(stopwatches), eventCode);
        && (newId in t[eventCode] ==> stopwatches == t && outbox == old(outbox))
        && (newId !in t[eventCode] ==>
              && stopwatches.Keys == t.Keys && newId in stopwatches[eventCode] && fresh(stopwatches[eventCode][newId])
              && (forall c :: c in t && c != eventCode ==> stopwatches[c] == t[c])
              && stopwatches[eventCode] - {newId} == t[eventCode]
              && stopwatches[eventCode][newId].View() == Created(newId, eventCode, leaderboardName, name, now)
              && outbox == old(outbox) + [StopwatchNotice(eventCode, Created(newId, eventCode, leaderboardName, name, now), now)])
      ensures Dicts() == old(Dicts())
    {
      var stopwatch := new EventStopwatch(newId, eventCode, leaderboardName, name, now);
      var table: map<Guid, EventStopwatch> := if eventCode in stopwatches then stopwatches[eventCode] else map[];
      var notices: seq<Notification> := [];
      if newId !in table {
        assert table[newId := stopwatch] - {newId} == table;
        table := table[newId := stopwatch];
        notices := [StopwatchNotice(eventCode, stopwatch.View(), now)];
      }
      stopwatches, outbox := stopwatches[eventCode := table], outbox + notices;
    }

    /**
     * `StartAllStopwatches`, visiting the event's stopwatches in `order` (the
     * dictionary's enumeration order, each id once): every stopwatch that had
     * neither started nor stopped starts at the one shared `now` and is
     * announced; the others, and every other event's, are left alone.
     */
    method StartAllStopwatches(eventCode: string, order: seq<Guid>, now: int)
      requires Valid()
      requires forall i, j :: 0 <= i < j < |order| ==> order[i] != order[j]
      requires forall k :: 0 <= k < |order| ==> eventCode in stopwatches && order[k] in stopwatches[eventCode]
      requires eventCode in stopwatches ==> forall g :: g in stopwatches[eventCode] ==> g in order
      modifies this`stopwatches, this`outbox, EventObjects(eventCode)
      ensures Valid()
      ensures stopwatches == Touched(old(stopwatches), eventCode)
      ensures Views(stopwatches[eventCode]) == StartedAll(old(EventViews(eventCode)), now)
      ensures outbox == old(outbox) + StartAllNotices(eventCode, InOrder(old(EventViews(eventCode)), order), now)
      ensures Dicts() == old(Dicts())
    {
      var notices: seq<Notification> := [];
      if eventCode in stopwatches {
        notices := StartTable(eventCode, stopwatches[eventCode], order, now);
      } else {
        stopwatches := stopwatches[eventCode := map[]];
      }
      outbox := outbox + notices;
    }

    /** `StartStopwatch`: the stopwatch starts at `now` and is announced only if it had neither started nor stopped. */
    method StartStopwatch(eventCode: string, id: Guid, now: int)
      requires Valid()
      modifies this`stopwatches, this`outbox, StopwatchAt(eventCode, id)
      ensures Valid()
      ensures stopwatches == Touched(old(stopwatches), eventCode)
      ensures id in stopwatches[eventCode] ==>
        var before := old(stopwatches[eventCode][id].View());
        && stopwatches[eventCode][id].View() == Started(before, now)
        && outbox == old(outbox) + if PhaseOf(before) == NotStarted then [StopwatchNotice(eventCode, Started(before, now), now)] else []
      ensures id !in stopwatches[eventCode] ==> outbox == old(outbox)
      ensures Dicts() == old(Dicts())
    {
      if eventCode !in stopwatches {
        stopwatches := stopwatches[eventCode := map[]];
      }
      if id in stopwatches[eventCode] {
        var stopwatch := stopwatches[eventCode][id];
        if stopwatch.startedAt.None? && stopwatch.stoppedAt.None? {
          stopwatch.startedAt := Some(now);
          outbox := outbox + [StopwatchNotice(eventCode, stopwatch.View(), now)];
        }
      }
    }

    /** `RestartStopwatch`: whatever its phase, the stopwatch starts over at `now`, and is announced. */
    method RestartStopwatch(eventCode: string, id: Guid, now: int)
      requires Valid()
      modifies this`stopwatches, this`outbox, StopwatchAt(eventCode, id)
      ensures Valid()
      ensures stopwatches == Touched(old(stopwatches), eventCode)
      ensures id in stopwatches[eventCode] ==>
        var after := Restarted(old(stopwatches[eventCode][id].View()), now);
        && stopwatches[eventCode][id].View() == after
        && outbox == old(outbox) + [StopwatchNotice(eventCode, after, now)]
      ensures id !in stopwatches[eventCode] ==> outbox == old(outbox)
      ensures Dicts() == old(Dicts())
    {
      if eventCode !in stopwatches {
        stopwatches := stopwatches[eventCode := map[]];
      }
      if id in stopwatches[eventCode] {
        var stopwatch := stopwatches[eventCode][id];
        stopwatch.startedAt := Some(now);
        stopwatch.stoppedAt := None;
        stopwatch.laps := [];
        outbox := outbox + [StopwatchNotice(eventCode, stopwatch.View(), now)];
      }
    }

    /**
     * `LapStopwatch`, given the event's required lap count: a running
     * stopwatch records a lap at `now`, stops there when that was the last
     * required lap, and is announced; any other stopwatch is left alone.
     */
    method LapStopwatch(eventCode: string, id: Guid, now: int, evt: FlightEvent)
      requires Valid()
      modifies this`stopwatches, this`outbox, StopwatchAt(eventCode, id)
      ensures Valid()
      ensures stopwatches == Touched(old(stopwatches), eventCode)
      ensures id in stopwatches[eventCode] ==>
        var before := old(stopwatches[eventCode][id].View());
        && stopwatches[eventCode][id].View() == Lapped(before, now, evt.requiredLaps)
        && outbox == old(outbox) + if PhaseOf(before) == Running then [StopwatchNotice(eventCode, Lapped(before, now, evt.requiredLaps), now)] else []
      ensures id !in stopwatches[eventCode] ==> outbox == old(outbox)
      ensures Dicts() == old(Dicts())
    {
      if eventCode !in stopwatches {
        stopwatches := stopwatches[eventCode := map[]];
      }
      if id in stopwatches[eventCode] {
        var stopwatch := stopwatches[eventCode][id];
        if stopwatch.startedAt.Some? && stopwatch.stoppedAt.None? {
          var dateTime := now;
          stopwatch.laps := stopwatch.laps + [dateTime];
          if |stopwatch.laps| == evt.requiredLaps {
            stopwatch.stoppedAt := Some(dateTime);
          }
          outbox := outbox + [StopwatchNotice(eventCode, stopwatch.View(), now)];
        }
      }
    }

    /** `StopStopwatch`: whatever its phase, the stopwatch's stop time becomes `now`, and it is announced. */
    method StopStopwatch(eventCode: string, id: Guid, now: int)
      requires Valid()
      modifies this`stopwatches, this`outbox, StopwatchAt(eventCode, id)
      ensures Valid()
      ensures stopwatches == Touched(old(stopwatches), eventCode)
      ensures id in stopwatches[eventCode] ==>
        var after := Stopped(old(stopwatches[eventCode][id].View()), now);
        && stopwatches[eventCode][id].View() == after
        && outbox == old(outbox) + [StopwatchNotice(eventCode, after, now)]
      ensures id !in stopwatches[eventCode] ==> outbox == old(outbox)
      ensures Dicts() == old(Dicts())
    {
      if eventCode !in stopwatches {
        stopwatches := stopwatches[eventCode := map[]];
      }
      if id in stopwatches[eventCode] {
        var stopwatch := stopwatches[eventCode][id];
        stopwatch.stoppedAt := Some(now);
        outbox := outbox + [StopwatchNotice(eventCode, stopwatch.View(), now)];
      }
    }

    /** `RemoveStopwatch`: a stopwatch of the event leaves the table and its removal is announced. */
    method RemoveStopwatch(eventCode: string, id: Guid)
      requires Valid()
      modifies this`stopwatches, this`outbox
      ensures Valid()
      ensures var t := Touched(old(stopwatches), eventCode);
        && stopwatches == t[eventCode := t[eventCode] - {id}]
        && outbox == old(outbox) + if id in t[eventCode] then [RemovalNotice(eventCode, t[eventCode][id].View())] else []
      ensures Dicts() == old(Dicts())
    {
      if eventCode !in stopwatches {
        stopwatches := stopwatches[eventCode := map[]];
      }
      if id in stopwatches[eventCode] {
        var stopwatch := stopwatches[eventCode][id];
        stopwatches := stopwatches[eventCode := stopwatches[eventCode] - {id}];
        outbox := outbox + [RemovalNotice(eventCode, stopwatch.View())];
      } else {
        assert stopwatches[eventCode] - {id} == stopwatches[eventCode];
      }
    }

    /**
     * `SaveStopwatch`, given the event the code belongs to. A stopwatch of the
     * event leaves the table and its removal is announced; then, unless
     * scoring it throws, its leaderboard records are saved in order and the
     * stopwatch and leaderboard groups are told to reload. An absent
     * stopwatch saves nothing.
     */
    method SaveStopwatch(eventCode: string, id: Guid, evt: FlightEvent) returns (outcome: Outcome)
      requires Valid()
      modifies this`stopwatches, this`outbox, this`leaderboardSaves
      ensures Valid()
      ensures var t := Touched(old(stopwatches), eventCode); stopwatches == t[eventCode := t[eventCode] - {id}]
      ensures var t := Touched(old(stopwatches), eventCode);
        id !in t[eventCode] ==> outcome == Pass && leaderboardSaves == old(leaderboardSaves) && outbox == old(outbox)
      ensures var t := Touched(old(stopwatches), eventCode);
        id in t[eventCode] ==>
          var v := t[eventCode][id].View();
          var removal := old(outbox) + [RemovalNotice(eventCode, v)];
          && (outcome.Fail? <==> !Scorable(v, evt.requiredLaps))
          && (outcome.Fail? ==> outcome.fault == NoLapToScore && leaderboardSaves == old(leaderboardSaves) && outbox == removal)
          && (outcome.Pass? ==>
                && leaderboardSaves == old(leaderboardSaves) + SaveRecords(v, evt.id, evt.requiredLaps)
                && outbox == removal + [Notification(Groups({StopwatchGroup(eventCode)}), UpdateLeaderboard(evt.id)),
                                        Notification(LeaderboardGroup(evt.id), UpdateLeaderboard(evt.id))])
      ensures Dicts() == old(Dicts()).(leaderboardSaves := leaderboardSaves)
    {
      if eventCode !in stopwatches {
        stopwatches := stopwatches[eventCode := map[]];
      }
      if id !in stopwatches[eventCode] {
        assert stopwatches[eventCode] - {id} == stopwatches[eventCode];
        return Pass;
      }
      var stopwatch := stopwatches[eventCode][id];
      stopwatches := stopwatches[eventCode := stopwatches[eventCode] - {id}];
      outbox := outbox + [RemovalNotice(eventCode, stopwatch.View())];
      outcome := SaveLeaderboardRecords(stopwatch, evt);
      if outcome.Pass? {
        outbox := outbox + [Notification(Groups({StopwatchGroup(eventCode)}), UpdateLeaderboard(evt.id)),
                            Notification(LeaderboardGroup(evt.id), UpdateLeaderboard(evt.id))];
      }
    }

    /** The leaderboard storage's save: records are kept in the order they are saved. */
    method SaveRecord(record: LeaderboardRecord)
      modifies this`leaderboardSaves
      ensures leaderboardSaves == old(leaderboardSaves) + [record]
      ensures Dicts() == old(Dicts()).(leaderboardSaves := leaderboardSaves)
      ensures stopwatches == old(stopwatches) && outbox == old(outbox)
    {
      leaderboardSaves := leaderboardSaves + [record];
    }

    /**
     * The scoring part of `SaveStopwatch`: the full-race record when the lap
     * count is the required count, then one record per lap, saved in that
     * order; scoring fails, saving nothing, when the race record has no final
     * lap or a lap has no start to measure from.
     */
    method SaveLeaderboardRecords(stopwatch: EventStopwatch, evt: FlightEvent) returns (outcome: Outcome)
      modifies this`leaderboardSaves
      ensures outcome.Fail? <==> !Scorable(stopwatch.View(), evt.requiredLaps)
      ensures outcome.Fail? ==> outcome.fault == NoLapToScore && leaderboardSaves == old(leaderboardSaves)
      ensures outcome.Pass? ==> leaderboardSaves == old(leaderboardSaves) + SaveRecords(stopwatch.View(), evt.id, evt.requiredLaps)
      ensures Dicts() == old(Dicts()).(leaderboardSaves := leaderboardSaves)
      ensures stopwatches == old(stopwatches) && outbox == old(outbox)
    {
      hide ScoreDisplay; // what is saved is proved without the text of the display
      ghost var v := stopwatch.View();
      if |stopwatch.laps| == evt.requiredLaps {
        if |stopwatch.laps| == 0 || stopwatch.startedAt.None? {
          return Fail(NoLapToScore);
        }
        var lapTime := stopwatch.laps[|stopwatch.laps| - 1] - stopwatch.startedAt.value;
        SaveRecord(LeaderboardRecord(evt.id, stopwatch.leaderboardName, 0, stopwatch.name, -lapTime, ScoreDisplay(lapTime)));
      }
      outcome := SaveLapRecords(stopwatch, evt.id);
      if outcome.Pass? {
        assert leaderboardSaves == old(leaderboardSaves) + (RaceRecords(v, evt.id, evt.requiredLaps) + LapRecords(v, evt.id));
      }
    }

    /**
     * The per-lap part of the scoring: the record of every lap, in lap order;
     * it fails, saving nothing, when there are laps but no start.
     */
    method SaveLapRecords(stopwatch: EventStopwatch, eventId: Guid) returns (outcome: Outcome)
      modifies this`leaderboardSaves
      ensures outcome.Fail? <==> !stopwatch.View().WellFormed()
      ensures outcome.Fail? ==> outcome.fault == NoLapToScore && leaderboardSaves == old(leaderboardSaves)
      ensures outcome.Pass? ==> leaderboardSaves == old(leaderboardSaves) + LapRecords(stopwatch.View(), eventId)
      ensures Dicts() == old(Dicts()).(leaderboardSaves := leaderboardSaves)
      ensures stopwatches == old(stopwatches) && outbox == old(outbox)
    {
      hide ScoreDisplay; // what is saved is proved without the text of the display
      ghost var v := stopwatch.View();
      var i := 0;
      ghost var saved: seq<LeaderboardRecord> := [];
      while i < |stopwatch.laps|
        invariant 0 <= i <= |stopwatch.laps| && v == stopwatch.View()
        invariant i > 0 ==> stopwatch.startedAt.Some?
        invariant leaderboardSaves == old(leaderboardSaves) + saved
        invariant v.WellFormed() ==> saved == LapRecords(v, eventId)[..i]
        invariant !v.WellFormed() ==> i == 0 && saved == []
        invariant Dicts() == old(Dicts()).(leaderboardSaves := leaderboardSaves)
        invariant stopwatches == old(stopwatches) && outbox == old(outbox)
      {
        if i == 0 && stopwatch.startedAt.None? {
          return Fail(NoLapToScore);
        }
        var startTime := if i == 0 then stopwatch.startedAt.value else stopwatch.laps[i - 1];
        var lapTime := stopwatch.laps[i] - startTime;
        var record := LeaderboardRecord(eventId, stopwatch.leaderboardName, i + 1, stopwatch.name, -lapTime, ScoreDisplay(lapTime));
        LapRecordsStep(v, eventId, i, lapTime);
        SaveRecord(record);
        saved := saved + [record];
        i := i + 1;
      }
      assert LapRecords(v, eventId)[..i] == LapRecords(v, eventId);
      return Pass;
    }
  }

  /** When the loop finds a reporting id at `i` after none before it, that is the first reporting id. */
  lemma FirstReportingIsFirst(ids: seq<ClientId>, i: nat, clientToConnection: map<ClientId, ConnId>,
                              statuses: map<ConnId, AircraftStatus>)
    requires i < |ids| && Reporting(ids[i], clientToConnection, statuses)
    requires forall j :: 0 <= j < i ==> !Reporting(ids[j], clientToConnection, statuses)
    ensures FirstReporting(ids, clientToConnection, statuses) == Some(i)
  {
    var r := FirstReporting(ids, clientToConnection, statuses);
    assert r.Some?;
    if r.value < i {
    } else if r.value > i {
    }
  }
}
