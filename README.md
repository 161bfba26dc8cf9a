# Flight Events hub: a Dafny model

Flight Events connects flight-simulator clients, web maps, ATC clients and a
Discord bot through one real-time hub, `FlightEventHub`. The hub keeps
process-wide dictionaries:

- the connection registry, in both directions between connection ids and
  client ids;
- the latest aircraft status, ATC identity and ATC status per connection;
- the teleport requests and tokens;
- the race stopwatches of every event.

Client calls update these dictionaries in place and broadcast to groups of
clients (`Map`, `Bot`, `ATC`, `Stopwatch:<code>`, `Leaderboard:<id>`).

This project models that hub as one Dafny class, `Hub.FlightEventHub`.

- Every dictionary is a `map` field. The stopwatch table maps event codes to
  tables of `Stopwatch.EventStopwatch` objects, whose start, lap and stop
  timestamps are updated in place.
- Every broadcast is appended to an `outbox` of notifications, each naming
  its audience and the client callback with its arguments.
- Group joins are recorded in a `groups` set.
- The flight-plan store and the leaderboard store are fields as well: the
  plans by callsign, and the records in the order they were saved.
- The calling connection, the clock (`now`, integer milliseconds), fresh
  Guids, the event's required lap count and storage lookups are parameters.
- The exceptions `SendATC` and `SaveStopwatch` throw on malformed input are
  an `Outcome` of `Fail(fault)`, with the effects made before the throw. The
  exceptions a null argument or a missing event would cause are listed under
  "Left out".

The pure parts are functions with lemmas:

- `Atc`: the `$FP` flight-plan decoding and the `#TM…:FP:…` swallow rule.
- `Stopwatch`: the stopwatch transitions and runs of them.
- `Scoring`: the leaderboard records a save derives, and the
  `HH:MM:SS.mmm` display.
- `Registry`: the registry updates and the Discord status lookup.
- `Text`: the .NET string operations these rely on (`Split`, `int.TryParse`,
  `ToString("00")`).

Each hub method is proved against these functions. The hub invariant
`Valid()` holds three facts:

- the registry is mirrored;
- every teleport token names a connection with a request;
- every stopwatch is filed under its own event code and id.

The model follows the code in these places:

- `SendATC` relays a `$FP` message to ATC after storing its plan. The
  `break` at FlightEventHub.cs:351 falls through to the relay at :366. Only a
  `#TM` transponder message returns early (:361).
- `UpdateAircraft` caches and relays the sanitised status. Sanitising forces
  COM1 to 0 near latitude/longitude 0, and the status object is mutated
  before it is sent (:126, :147).
- The command of a message is its first three UTF-16 code units
  (`tokens[0][..3]` at :304), not its first three characters. A first token
  such as `k` followed by an emoji is two characters but three code units, so
  it is relayed rather than rejected (`Atc.SurrogatePairCommandRelayed`).
- A `$FP` message needs 17 colon tokens (:312-326). A message that writes the
  flight-plan fields without the recipient field has 16 and makes the hub
  throw (`Atc.FlightPlanExampleThrows`).
- `SaveStopwatch` throws after removing the stopwatch and announcing the
  removal in two cases:
  - the race is "complete" with no laps at all, because no laps are
    required (`[^1]` at :481);
  - there are laps but no start (`.Value` at :481 or :498).

  These failures are `Fail(NoLapToScore)`, and nothing is saved.

## Model

| member | source | states |
|---|---|---|
| Hub.FlightEventHub.constructor | FlightEvents.Web/Hubs/FlightEventHub.cs:19-29 | every dictionary starts empty and the invariant holds |
| Hub.GroupOfClientType | FlightEvents.Web/Hubs/FlightEventHub.cs:66-76 | "Web" joins Map, "Bot" joins Bot, and any other type (or none) joins nothing, each in both directions |
| Hub.FlightEventHub.OnConnected | FlightEvents.Web/Hubs/FlightEventHub.cs:50-78 | a client id registers the new connection as in `Reconnected`, and the mirror invariant is kept; the client type's group is joined; nothing else changes |
| Registry.Reconnected | FlightEvents.Web/Hubs/FlightEventHub.cs:56-65 | the client resolves to the new connection, and no connection other than the new one is added |
| Registry.ReconnectKeepsMirrored | FlightEvents.Web/Hubs/FlightEventHub.cs:56-65 | a reconnect keeps the registry mirrored; the new connection resolves to the client; the previous connection loses its entry; every other client's connection keeps its entry |
| Registry.MirroredIsOneToOne | FlightEvents.Web/Hubs/FlightEventHub.cs:56-65 | in a mirrored registry, two connections with the same client id are the same connection |
| Hub.FlightEventHub.OnDisconnected | FlightEvents.Web/Hubs/FlightEventHub.cs:80-89 | a registered connection loses both entries, and Map and ATC get `UpdateATC(client, null, null)`; an unregistered one sends nothing; in every case both status caches forget the connection; the invariant is kept |
| Registry.Disconnected | FlightEvents.Web/Hubs/FlightEventHub.cs:82-86 | the connection has no entry afterwards; neither map gains a key and every remaining entry is the one it had; an unregistered connection changes nothing |
| Registry.DisconnectKeepsMirrored | FlightEvents.Web/Hubs/FlightEventHub.cs:82-86 | a disconnect keeps the registry mirrored; the departed client no longer resolves; every other connection keeps its entry |
| Hub.FlightEventHub.RemoveCacheOnConnectionId | FlightEvents.Web/Hubs/FlightEventHub.cs:542-546 | both status caches forget the connection and nothing else changes |
| Hub.FlightEventHub.LoginATC | FlightEvents.Web/Hubs/FlightEventHub.cs:91-94 | the connection's ATC identity is set (last write wins) and nothing else changes |
| Hub.FlightEventHub.UpdateATC | FlightEvents.Web/Hubs/FlightEventHub.cs:96-116 | a no-op unless the connection has both a client id and an ATC identity; otherwise a non-null status replaces the cached one (a null one leaves it); Bot is told exactly when the old frequency (null if no status) differs from the new one (null for a null status); Map always gets the update |
| Notifications.AtcFrequencyNotice | FlightEvents.Web/Hubs/FlightEventHub.cs:100-112 | one `ChangeFrequency` notice to Bot exactly when the two optional frequencies differ, none otherwise |
| Hub.FlightEventHub.UpdateAircraft | FlightEvents.Web/Hubs/FlightEventHub.cs:118-149 | a no-op for an unregistered connection; otherwise the sanitised status is cached; Bot is told of a COM1 change (0 before any status) exactly when there is no ATC status and the frequencies differ; ATC always gets the sanitised status |
| Telemetry.NearOrigin | FlightEvents.Web/Hubs/FlightEventHub.cs:123 | the not-loaded sentinel: latitude and longitude both within 0.02 of 0 (strictly) |
| Telemetry.Sanitize | FlightEvents.Web/Hubs/FlightEventHub.cs:122-127 | near latitude/longitude 0 the COM1 frequency becomes 0, elsewhere the status is unchanged; no field but COM1 ever changes |
| Telemetry.SanitizeIdempotent | FlightEvents.Web/Hubs/FlightEventHub.cs:122-127 | sanitising twice is sanitising once |
| Telemetry.FrequencyOrNull | FlightEvents.Web/Hubs/FlightEventHub.cs:144 | 0 is reported as null and every other frequency as itself |
| Notifications.AircraftFrequencyNotice | FlightEvents.Web/Hubs/FlightEventHub.cs:140-145 | one Bot `ChangeFrequency` naming the client exactly when the COM1 frequencies differ, with 0 reported as null on each side and every other value carried unchanged |
| Hub.FlightEventHub.RequestStatusFromDiscord | FlightEvents.Web/Hubs/FlightEventHub.cs:151-164 | the loop sends the caller exactly the `DiscordReply` of the linked client ids |
| Registry.FirstReporting | FlightEvents.Web/Hubs/FlightEventHub.cs:154-162 | the index found is of a connected client with a cached status, and no earlier id is one; none is found only when no id is one |
| Registry.DiscordReply | FlightEvents.Web/Hubs/FlightEventHub.cs:151-164 | the reply carries a status exactly when some linked client is reporting, and then it names the FIRST reporting linked client in list order and carries its cached status; otherwise the first linked id (null for none) with no status |
| Hub.FirstReportingIsFirst | FlightEvents.Web/Hubs/FlightEventHub.cs:154-162 | the first reporting id the loop reaches is the one `FirstReporting` finds |
| Hub.FlightEventHub.SendATC | FlightEvents.Web/Hubs/FlightEventHub.cs:301-367 | fails exactly when decoding throws, and then stores and relays nothing; a `$FP` plan is stored under its callsign with a null client id; `$FP` and ordinary messages go to ATC except the sender; transponder control messages are swallowed |
| Atc.DecodeTokens | FlightEvents.Web/Hubs/FlightEventHub.cs:303-364 | every case, both ways: a first token under 3 UTF-16 code units throws, and only then; the command is `$FP` or `#TM` exactly when the token starts with those characters; a `$FP` command throws with fewer than 17 tokens and is otherwise `DecodeFlightPlan` of the callsign after the command; `#TM` with exactly 3 tokens and `FP` second is swallowed with its payload; every other message is relayed |
| Atc.Decode | FlightEvents.Web/Hubs/FlightEventHub.cs:303-366 | the same cases on the message text: a first token under 3 UTF-16 code units throws; a message starting `$FP` is the missing-fields fault or the decoded plan; a `#TM…:FP:…` message of 3 tokens is swallowed; every other message is relayed |
| Atc.FirstTokenCoversFreePrefix | FlightEvents.Web/Hubs/FlightEventHub.cs:303-305 | a colon-free prefix of the message lies within its first colon token |
| Atc.OrdinaryTrafficRelayed | FlightEvents.Web/Hubs/FlightEventHub.cs:307-366 | any message whose first three characters hold no colon and are neither `$FP` nor `#TM` is relayed |
| Atc.ChatLineRelayed | FlightEvents.Web/Hubs/FlightEventHub.cs:307-366 | the chat line `hello world` is relayed |
| Atc.SurrogatePairCommandRelayed | FlightEvents.Web/Hubs/FlightEventHub.cs:303-366 | `k` followed by a character outside the Basic Multilingual Plane (two characters, three UTF-16 code units) is a whole command, so the message is relayed, not rejected as too short |
| Atc.CommandUnits | FlightEvents.Web/Hubs/FlightEventHub.cs:304-307 | the first three code units of a long enough token equal `$FP` (or `#TM`) exactly when the token starts with it, and the callsign's code units are those of the rest of the token |
| Atc.KnownTransponderPayload | FlightEvents.Web/Hubs/FlightEventHub.cs:355 | a payload is known when it ends in ` GET` or ` release` or contains ` SET `; it only decides the log line |
| Atc.FirstTokenIsPrefix | FlightEvents.Web/Hubs/FlightEventHub.cs:303-305 | the first colon token is a prefix of the message, so the command is the message's first three characters |
| Atc.DecodeFlightPlan | FlightEvents.Web/Hubs/FlightEventHub.cs:312-349 | decoding throws exactly when hours and minutes both parse and the enroute time is out of the TimeSpan range; otherwise the plan is stored under the callsign with "IFR" exactly for `I`, else "VFR"; tokens 3, 5, 9, 14, 15 and 16 as type, departure, destination, alternate, remarks and route; an altitude (token 8) or speed (token 4) that does not parse stored as 0; the enroute time present exactly when both hours and minutes parse |
| Atc.EnrouteFits | FlightEvents.Web/Hubs/FlightEventHub.cs:333 | `new TimeSpan(hour, minute, 0)` does not throw exactly when the total seconds are within the TimeSpan range |
| Atc.DecodeFlightPlanTokens | FlightEvents.Web/Hubs/FlightEventHub.cs:311-349 | the 17 tokens of a formatted encodable plan decode to that plan |
| Atc.DecodeFlightPlanParsed | FlightEvents.Web/Hubs/FlightEventHub.cs:328-349 | once the numbers parse, the plan has: "IFR" exactly for `I`, else "VFR"; type, departure, arrival, alternate, remarks and route from tokens 3, 5, 9, 14, 15 and 16; the parsed altitude and speed; hours and minutes as the enroute time |
| Atc.DecodeEncodeFlightPlan | FlightEvents.Web/Hubs/FlightEventHub.cs:311-349 | round trip: a plan formatted in the `$FP` layout the hub documents (colon-free text, 32-bit numbers) decodes to exactly the plan intended, with colons in the aircraft type turned into `_` |
| Atc.FlightPlanNumbersParse | FlightEvents.Web/Hubs/FlightEventHub.cs:329-331 | the numeric fields of a formatted plan parse back to the plan's numbers |
| Atc.ReplaceChar | FlightEvents.Web/Hubs/FlightEventHub.cs:311 | `Replace(":", "_")`: same length, each colon becomes `_`, and every other character is kept |
| Atc.FlightPlanTokens | FlightEvents.Web/Hubs/FlightEventHub.cs:311 | the documented `$FP` layout has 17 colon tokens |
| Atc.SwallowedHasShape | FlightEvents.Web/Hubs/FlightEventHub.cs:352-362 | a swallowed message is exactly a colon-free head starting `#TM`, then `:FP:`, then a colon-free payload, and the payload is what is checked |
| Atc.ShapeIsSwallowed | FlightEvents.Web/Hubs/FlightEventHub.cs:352-362 | conversely every message of that shape is swallowed, known exactly when the payload ends in ` GET` or ` release` or contains ` SET ` |
| Atc.ShortFlightPlanThrows | FlightEvents.Web/Hubs/FlightEventHub.cs:312-326 | a `$FP` message of fewer than 17 colon tokens throws |
| Atc.TransponderExampleSwallowed | FlightEvents.Web/Hubs/FlightEventHub.cs:352-361 | `#TMFP:FP:SOMETHING GET` is swallowed as a known request |
| Atc.FlightPlanExampleThrows | FlightEvents.Web/Hubs/FlightEventHub.cs:312-326 | a 16-token flight-plan message throws instead of storing a plan |
| Text.Split | FlightEvents.Web/Hubs/FlightEventHub.cs:303 | at least one token, none of which contains the separator |
| Text.CodeUnits | FlightEvents.Web/Hubs/FlightEventHub.cs:304 | the UTF-16 code units that `Length` and ranges count: at least one and at most two per character, the character itself inside the Basic Multilingual Plane, otherwise a high then a low surrogate |
| Text.AsciiPrefixUnits | FlightEvents.Web/Hubs/FlightEventHub.cs:304-305 | comparing the leading code units with an ASCII prefix is testing `StartsWith`, both ways, and the code units after it are those of the rest of the string |
| Text.AsciiUnits | FlightEvents.Web/Hubs/FlightEventHub.cs:307-310 | an ASCII command such as `$FP` takes one code unit per character |
| Text.JoinSplit | FlightEvents.Web/Hubs/FlightEventHub.cs:303 | joining the tokens of a split gives back the message |
| Text.SplitJoin | FlightEvents.Web/Hubs/FlightEventHub.cs:303 | splitting a join of separator-free tokens gives back the tokens |
| Text.SplitFreePrefix | FlightEvents.Web/Hubs/FlightEventHub.cs:303 | a separator-free prefix glued to a string extends the string's first token |
| Text.ParseInt32 | FlightEvents.Web/Hubs/FlightEventHub.cs:329-331 | `int.TryParse` succeeds only with a value in the 32-bit range |
| Text.ParseInt32OrZero | FlightEvents.Web/Hubs/FlightEventHub.cs:329-330 | the out value of `int.TryParse`: the parsed number, or 0 when parsing fails, always in the 32-bit range |
| Text.ParseShowInt32 | FlightEvents.Web/Hubs/FlightEventHub.cs:329-331 | every 32-bit integer parses back from its decimal text |
| Text.ShowNatDigits | FlightEvents.Web/Hubs/FlightEventHub.cs:329-331 | the decimal text of a number is digits that denote it |
| Text.FormatZerosExact | FlightEvents.Web/Hubs/FlightEventHub.cs:490 | a number below 10^width is formatted by `ToString("00…")` as exactly `width` digits that denote it |
| Text.FormatZeros | FlightEvents.Web/Hubs/FlightEventHub.cs:490 | `ToString("00")` and `ToString("000")`: a minus sign for a negative number, then its digits left-padded with zeros to the width; `FormatZerosExact` states its value and width |
| Text.LeadingZerosValue | FlightEvents.Web/Hubs/FlightEventHub.cs:490 | padding zeros do not change the value of a digit string |
| Stopwatch.PhaseOf | FlightEvents.Web/Hubs/FlightEventHub.cs:398 | running iff started and not stopped; not started iff neither; finished iff stopped |
| Stopwatch.Created | FlightEvents.Web/Hubs/FlightEventHub.cs:375-384 | a new stopwatch has no start, no laps and no stop, and keeps its id, event, leaderboard, name and added time |
| Stopwatch.EventStopwatch.constructor | FlightEvents.Web/Hubs/FlightEventHub.cs:549-559 | the object's contents are `Created` |
| Stopwatch.Started | FlightEvents.Web/Hubs/FlightEventHub.cs:412-414 | only a stopwatch with neither start nor stop changes, and it becomes running from `now`; the laps and every identity field (id, event code, leaderboard, name, added time) are kept |
| Stopwatch.EventStopwatch.StartAt | FlightEvents.Web/Hubs/FlightEventHub.cs:398-401 | the object becomes `Started` of what it was, and it reports whether it started |
| Stopwatch.Restarted | FlightEvents.Web/Hubs/FlightEventHub.cs:425-427 | always running from `now` with no laps and no stop; nothing else changes |
| Stopwatch.Lapped | FlightEvents.Web/Hubs/FlightEventHub.cs:435-445 | only a running stopwatch changes; it gains exactly one lap at `now` and is stopped at that instant exactly when it now has the required lap count; nothing else changes |
| Stopwatch.Stopped | FlightEvents.Web/Hubs/FlightEventHub.cs:456 | always finished at `now`, with nothing else changed |
| Stopwatch.TransitionsKeepWellFormed | FlightEvents.Web/Hubs/FlightEventHub.cs:407-458 | no transition puts laps on a stopwatch without a start |
| Stopwatch.StepKeepsWithinLaps | FlightEvents.Web/Hubs/FlightEventHub.cs:432-449 | with at least one lap required, every operation keeps the lap count within the requirement, and a stopwatch that holds it is stopped |
| Stopwatch.LapsNeverExceedRequired | FlightEvents.Web/Hubs/FlightEventHub.cs:432-449 | by induction over any sequence of operations, the lap count never exceeds a required count of at least one |
| Stopwatch.CreatedStaysWithinLaps | FlightEvents.Web/Hubs/FlightEventHub.cs:375-449 | a freshly added stopwatch never holds more laps than required, whatever operations follow |
| Stopwatch.NoRequiredLapsNeverAutoStops | FlightEvents.Web/Hubs/FlightEventHub.cs:442-445 | with no laps required, a running stopwatch records every lap and never stops by itself |
| Stopwatch.LapsAt | FlightEvents.Web/Hubs/FlightEventHub.cs:439 | one lap operation per timestamp, in order |
| Hub.Touched | FlightEvents.Web/Hubs/FlightEventHub.cs:385 | `GetOrAdd`: the event code gains an empty table if it had none, and every existing table is kept |
| Hub.FlightEventHub.AddStopwatch | FlightEvents.Web/Hubs/FlightEventHub.cs:375-390 | a fresh stopwatch with contents `Created` is filed under its event and id and announced, unless the id is taken, when only the empty table is added; other events are untouched |
| Hub.FlightEventHub.StartAllStopwatches | FlightEvents.Web/Hubs/FlightEventHub.cs:392-405 | the event's table becomes `StartedAll` of what it was; the notices are those of the stopwatches that started, in enumeration order, all with the one start time |
| Hub.StartTable | FlightEvents.Web/Hubs/FlightEventHub.cs:392-405 | the same on one event's table of stopwatch objects |
| Hub.StartEach | FlightEvents.Web/Hubs/FlightEventHub.cs:396-404 | the loop leaves each visited stopwatch `Started` at `now` and returns `StartAllNotices` of the contents it visited |
| Hub.StartedAll | FlightEvents.Web/Hubs/FlightEventHub.cs:396-404 | every not-started stopwatch is running from the shared `now`, keeping its laps and identity fields; every other stopwatch is unchanged |
| Hub.StartAllNotices | FlightEvents.Web/Hubs/FlightEventHub.cs:396-404 | at most one notice per stopwatch, each to the event's stopwatch group, showing a stopwatch running from `now` |
| Hub.StartAllNoticesStep | FlightEvents.Web/Hubs/FlightEventHub.cs:396-404 | visiting one more stopwatch adds its notice exactly when it had not started |
| Hub.StartedEverywhere | FlightEvents.Web/Hubs/FlightEventHub.cs:396-404 | once every id of the enumeration has started, the whole table is `StartedAll` |
| Hub.DistinctValues | FlightEvents.Web/Hubs/FlightEventHub.cs:373 | distinct ids of a filed table hold distinct stopwatch objects, so starting one changes no other |
| Hub.FlightEventHub.StartStopwatch | FlightEvents.Web/Hubs/FlightEventHub.cs:407-418 | the stopwatch becomes `Started` of what it was, and is announced exactly when it had neither start nor stop |
| Hub.FlightEventHub.RestartStopwatch | FlightEvents.Web/Hubs/FlightEventHub.cs:420-430 | the stopwatch becomes `Restarted` and is always announced |
| Hub.FlightEventHub.LapStopwatch | FlightEvents.Web/Hubs/FlightEventHub.cs:432-449 | the stopwatch becomes `Lapped` with the event's required count, and is announced exactly when it was running |
| Hub.FlightEventHub.StopStopwatch | FlightEvents.Web/Hubs/FlightEventHub.cs:451-459 | the stopwatch becomes `Stopped` and is always announced |
| Hub.FlightEventHub.RemoveStopwatch | FlightEvents.Web/Hubs/FlightEventHub.cs:461-468 | the id leaves the event's table, and its removal is announced exactly when it was there |
| Hub.FlightEventHub.SaveStopwatch | FlightEvents.Web/Hubs/FlightEventHub.cs:470-519 | the id leaves the table; an absent id saves and sends nothing; a present one is announced removed, then fails exactly when it is not `Scorable`, saving nothing; otherwise it saves exactly `SaveRecords` and tells both groups to reload |
| Hub.FlightEventHub.SaveLeaderboardRecords | FlightEvents.Web/Hubs/FlightEventHub.cs:477-512 | the records saved are exactly `SaveRecords`, and the save fails with nothing saved exactly when the stopwatch is not `Scorable` |
| Hub.FlightEventHub.SaveLapRecords | FlightEvents.Web/Hubs/FlightEventHub.cs:496-512 | the loop saves exactly `LapRecords`, in lap order, and fails with nothing saved exactly when there are laps but no start |
| Hub.FlightEventHub.SaveRecord | FlightEvents.Web/Hubs/FlightEventHub.cs:493 | a saved record is appended to the store |
| Scoring.EntryAt | FlightEvents.Web/Hubs/FlightEventHub.cs:479-508 | entry k has sub-index k for a complete race and k + 1 otherwise; it measures the whole race for a leading race entry, else its own lap |
| Scoring.ToRecord | FlightEvents.Web/Hubs/FlightEventHub.cs:483-491 | the record names the event, leaderboard and player, with the entry's sub-index and the negated elapsed milliseconds as the score, and `ScoreDisplay` of the elapsed milliseconds as its display |
| Scoring.RaceRecords | FlightEvents.Web/Hubs/FlightEventHub.cs:479-494 | one full-race record exactly when the lap count is the required count |
| Scoring.LapRecords | FlightEvents.Web/Hubs/FlightEventHub.cs:496-512 | one record per lap |
| Scoring.SaveRecords | FlightEvents.Web/Hubs/FlightEventHub.cs:479-512 | n + 1 records for a complete race of n laps, n otherwise |
| Scoring.SaveRecordAt | FlightEvents.Web/Hubs/FlightEventHub.cs:479-512 | saved record k is the record of entry k |
| Scoring.LapRecordsStep | FlightEvents.Web/Hubs/FlightEventHub.cs:496-511 | saving the record the loop builds for lap i extends the records of the first i laps to those of the first i + 1 |
| Scoring.SaveRecordsIndexed | FlightEvents.Web/Hubs/FlightEventHub.cs:479-512 | the record count, then sub-indices 0 for the race and i + 1 for lap i, strictly increasing, every record naming the event, leaderboard and player |
| Scoring.SaveRecordsScores | FlightEvents.Web/Hubs/FlightEventHub.cs:481-507 | the full-race score is minus the time from start to last lap, and lap i scores minus the time from the previous lap (the start, for the first) |
| Scoring.SaveRecordsDisplayed | FlightEvents.Web/Hubs/FlightEventHub.cs:481-508 | every saved record displays its own elapsed time (the negated score); a non-negative time shows as `HH:MM:SS.mmm` and reads back modulo one day |
| Scoring.SaveRecordScoreAt | FlightEvents.Web/Hubs/FlightEventHub.cs:481-507 | the score of one record: the negated race time for a leading race record, else the negated lap time |
| Scoring.LapScoresTelescope | FlightEvents.Web/Hubs/FlightEventHub.cs:496-508 | the scores of the first n laps sum to minus the time from the start to lap n |
| Scoring.LapScoresSumToRaceScore | FlightEvents.Web/Hubs/FlightEventHub.cs:479-512 | for a complete race, the per-lap scores sum to the full-race score |
| Scoring.TailTelescopes | FlightEvents.Web/Hubs/FlightEventHub.cs:496-508 | records after a race record with the lap scores sum to the race score |
| Scoring.HoursPart | FlightEvents.Web/Hubs/FlightEventHub.cs:490 | `TimeSpan.Hours`: truncated hours, remainder modulo 24 with the sign of the span; its range and recomposition are `ComponentsOfNonNegative` |
| Scoring.MinutesPart | FlightEvents.Web/Hubs/FlightEventHub.cs:490 | `TimeSpan.Minutes`: truncated minutes modulo 60 |
| Scoring.SecondsPart | FlightEvents.Web/Hubs/FlightEventHub.cs:490 | `TimeSpan.Seconds`: truncated seconds modulo 60 |
| Scoring.MillisecondsPart | FlightEvents.Web/Hubs/FlightEventHub.cs:490 | `TimeSpan.Milliseconds`: milliseconds modulo 1000 |
| Scoring.ScoreDisplay | FlightEvents.Web/Hubs/FlightEventHub.cs:490 | the `{Hours:00}:{Minutes:00}:{Seconds:00}.{Milliseconds:000}` display; `DisplayRoundTrip` states its shape and value |
| Scoring.Scorable | FlightEvents.Web/Hubs/FlightEventHub.cs:479-498 | a save scores without throwing exactly when it is not the case that no laps are required and none were run (`[^1]`), and laps only exist with a start (`.Value`) |
| Scoring.ComponentsOfNonNegative | FlightEvents.Web/Hubs/FlightEventHub.cs:490 | for a non-negative span, `Hours`, `Minutes`, `Seconds` and `Milliseconds` are in range and recompose the span modulo one day |
| Scoring.DisplayFields | FlightEvents.Web/Hubs/FlightEventHub.cs:490 | four digit fields joined by `:`, `:`, `.` have the display shape and read back field by field |
| Scoring.DisplayRoundTrip | FlightEvents.Web/Hubs/FlightEventHub.cs:490 | the display of a non-negative span is `DD:DD:DD.DDD` and reads back as the span modulo one day, because `Hours` drops whole days |
| Hub.FlightEventHub.RequestTeleport | FlightEvents.Web/Hubs/FlightEventHub.cs:523-532 | the caller's request is replaced and the token names the caller, keeping every token owned by a request; nothing else changes |
| Hub.FlightEventHub.AcceptTeleport | FlightEvents.Web/Hubs/FlightEventHub.cs:534-540 | a known token sends the caller the issuing connection and that connection's latest requested position; an unknown token sends nothing; no table changes |

## Left out

- The real-time transport is not modelled. Sends are recorded in `outbox`, not delivered, and group joins are a set. The `clientVersion` query value, which the hub reads and ignores, is left out.
- The dictionaries are concurrent in the source. The model runs one call at a time.
- `RequestFlightRoute` and `StreamFlightRoute` (FlightEventHub.cs:207-239) are not modelled: they stream through channels with asynchronous waits.
- `Join` and `Leave` (:259-297) are not modelled; they are group membership plus a replay of stored stopwatches and leaderboards. Every reload of a leaderboard is modelled as an `UpdateLeaderboard(eventId)` notice, without the records it carries.
- These pass-through broadcasts and store calls are not modelled: `AddFlightPlan`, `RequestFlightPlan`, `ReturnFlightPlan`, `RequestFlightPlanDetails`, `ReturnFlightPlanDetails`, `SendMessage`, `ChangeUpdateRateByCallsign` and `NotifyUpdateRateChanged` (:166-205, :241-257).
- Logging is not modelled. An unrecognised transponder payload is only marked `known == false`.
- Coordinates are `real`, not `double`, so the near-origin test is exact.
- Timestamps are integer milliseconds, so `TotalMilliseconds` and the `(long)` cast are exact. The `DateTimeOffset` and `TimeSpan` range limits of the lap subtraction are not modelled.
- Guid generation and Guid parsing are not modelled: fresh ids are parameters.
- `UtcNow` is one `now` per call. Where the source reads the clock twice (the added or start time, then the server time of the notice), both get the same value.
- An aircraft status carries only the fields the hub reads. The instrument fields it only relays are left out.
- FlightEvents.Web/ClientApp/src/components/AircraftList.tsx is not part of this model. It is a display component whose only logic is a locale-dependent sort.
- Hub.FlightEventHub.LapStopwatch: the event is a parameter and never null. When no event has the stopwatch code, the source throws after appending the lap (:439-442), with no auto-stop and no notice.
- Hub.FlightEventHub.SaveStopwatch: the event is a parameter and never null. When no event has the stopwatch code, the source throws after the removal notice (:475-477), saving nothing.
- Hub.FlightEventHub.UpdateAircraft: the status is never null. A null status makes the source throw at :123 before any change.
- Other null arguments (a null `AddStopwatch` input, a null ATC message) are not modelled: the model's strings and records are never null.
- Atc.Decode: a .NET string may hold a lone surrogate code unit, which a Dafny string (a sequence of Unicode scalar values) cannot; messages with one are not modelled. Every other string is modelled, with lengths and the command taken in UTF-16 code units through `Text.CodeUnits`.
- Text.ParseInt32: the current culture is taken to be the invariant one. Only ASCII `+` and `-` are signs, and trailing `\0` characters are not accepted.
- Hub.FlightEventHub.OnConnected: requires that the connection id is not yet registered. The transport never reuses a live connection id, and the registry's mirror invariant depends on it.
- Hub.FlightEventHub.StartAllStopwatches: takes the dictionary's enumeration order as a parameter that lists each id of the event exactly once. The snapshot semantics of enumerating a concurrent dictionary are not modelled.
- Hub.FlightEventHub.AddStopwatch: the new id is a parameter; when it collides with an existing id nothing is added, as `TryAdd` does.
