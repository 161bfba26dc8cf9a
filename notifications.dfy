/**
 * What the hub sends to its clients. A send is recorded as a notification
 * naming the client callback and its audience; delivery is the transport's.
 */
module Notifications {
  import opened Common
  import opened Telemetry
  import opened Stopwatch

  /** Named groups a connection joins on connecting or by asking. */
  const MapGroup: string := "Map"
  const BotGroup: string := "Bot"
  const AtcGroup: string := "ATC"

  /** The group of the clients watching the stopwatches of one event code. */
  function StopwatchGroup(eventCode: string): string {
    "Stopwatch:" + eventCode
  }

  datatype Audience =
    | Groups(names: set<string>)                  // every member of any of the groups
    | GroupExcept(name: string, excluded: ConnId) // every member of the group but one connection
    | Caller(conn: ConnId)                        // the connection that made the call
    | LeaderboardGroup(eventId: Guid)             // the `Leaderboard:<event id>` group

  /** The client callbacks, with the arguments the hub passes them; `None` is `null`. */
  datatype Message =
    | UpdateATC(clientId: ClientId, atcStatus: Option<ATCStatus>, atcInfo: Option<ATCInfo>)
    | ChangeFrequency(clientId: ClientId, from: Option<int>, to: Option<int>)
    | UpdateAircraft(clientId: ClientId, status: AircraftStatus)
    | UpdateAircraftToDiscord(discordUserId: nat, linkedClientId: Option<ClientId>, aircraft: Option<AircraftStatus>)
    | SendATC(recipient: string, text: string)
    | UpdateStopwatch(stopwatch: StopwatchView, serverTime: int)
    | RemoveStopwatch(removed: StopwatchView)
    | UpdateLeaderboard(leaderboardEventId: Guid) // the reloaded records of the event are not modelled
    | Teleport(owner: ConnId, position: Position)

  datatype Notification = Notification(audience: Audience, message: Message)

  /**
   * The Bot notice of an ATC frequency change: sent exactly when the previous
   * frequency (absent before the first status) differs from the new one
   * (absent when the update carries no status).
   */
  function AtcFrequencyNotice(clientId: ClientId, from: Option<int>, to: Option<int>): (ns: seq<Notification>)
    ensures |ns| <= 1
    ensures |ns| == 1 <==> from != to
    ensures |ns| == 1 ==> ns[0] == Notification(Groups({BotGroup}), ChangeFrequency(clientId, from, to))
  {
    if from != to then [Notification(Groups({BotGroup}), ChangeFrequency(clientId, from, to))] else []
  }

  /**
   * The Bot notice of an aircraft COM1 change: sent exactly when the COM1
   * frequencies differ, with 0 ("none") reported as null on either side.
   */
  function AircraftFrequencyNotice(clientId: ClientId, from: int, to: int): (ns: seq<Notification>)
    ensures |ns| <= 1
    ensures |ns| == 1 <==> from != to
    ensures |ns| == 1 ==> ns[0].audience == Groups({BotGroup}) && ns[0].message.ChangeFrequency?
    ensures |ns| == 1 ==> ns[0].message.clientId == clientId
    ensures |ns| == 1 ==> (ns[0].message.from.None? <==> from == 0) && (ns[0].message.to.None? <==> to == 0)
    ensures |ns| == 1 ==> ns[0].message.from.Some? ==> ns[0].message.from.value == from
    ensures |ns| == 1 ==> ns[0].message.to.Some? ==> ns[0].message.to.value == to
  {
    if from != to then [Notification(Groups({BotGroup}), ChangeFrequency(clientId, FrequencyOrNull(from), FrequencyOrNull(to)))]
    else []
  }
}
