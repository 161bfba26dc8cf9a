/**
 * The colon-delimited text protocol ATC clients exchange through `SendATC`:
 * the decoding of `$FP` flight-plan messages, the `#TM…:FP:…` transponder
 * control messages that are swallowed, and the relay of everything else.
 */
module Atc {
  import opened Common
  import opened Text

  /** The compact flight plan stored per callsign. The enroute time is whole seconds. */
  datatype FlightPlanCompact = FlightPlanCompact(
    callsign: string,
    planType: string,
    aircraftType: string,
    departure: string,
    destination: string,
    alternate: string,
    cruisingAltitude: int,
    cruisingSpeed: int,
    estimatedEnroute: Option<int>,
    route: string,
    remarks: string)

  /** How `SendATC` reads one message. */
  datatype AtcMessage =
    | FlightPlanMessage(callsign: string, plan: FlightPlanCompact) // `$FP`: the plan is stored, then the message is relayed
    | TransponderControl(payload: string, known: bool)             // `#TM…:FP:…`: swallowed, logged when not known
    | Relayed                                                      // any other message: relayed unchanged
    | Malformed(fault: Fault)                                      // decoding throws: nothing is stored or relayed

  /** `TimeSpan.MaxValue` in whole seconds: `long.MaxValue / TicksPerSecond`. */
  const MaxTimeSpanSeconds: int := 922_337_203_685

  /** `new TimeSpan(hours, minutes, 0)` succeeds exactly when the total second count is within the TimeSpan range. */
  predicate EnrouteFits(hours: int, minutes: int) {
    -MaxTimeSpanSeconds <= EnrouteSeconds(hours, minutes) <= MaxTimeSpanSeconds
  }

  /** The length, in seconds, of `new TimeSpan(hours, minutes, 0)`; minutes need not be below 60. */
  function EnrouteSeconds(hours: int, minutes: int): int {
    hours * 3600 + minutes * 60
  }

  /** A transponder payload the hub recognises: a `… GET`, a `… release` or a `… SET …` request. */
  predicate KnownTransponderPayload(p: string) {
    EndsWith(p, " GET") || EndsWith(p, " release") || Contains(p, " SET ")
  }

  /**
   * The `$FP` fields after the command token: index 2 the flight rules, 3 the
   * aircraft type, 4 the speed, 5 the departure, 8 the altitude, 9 the arrival,
   * 10 and 11 the enroute hours and minutes, 14 the alternate, 15 the remarks,
   * 16 the route. Indices 1, 6, 7, 12 and 13 are read past.
   */
  function DecodeFlightPlan(callsign: string, tokens: seq<string>): (m: AtcMessage)
    requires |tokens| >= 17
    ensures m.FlightPlanMessage? || m == Malformed(EnrouteOutOfRange)
    ensures m.Malformed? <==>
      ParseInt32(tokens[10]).Some? && ParseInt32(tokens[11]).Some?
      && !EnrouteFits(ParseInt32(tokens[10]).value, ParseInt32(tokens[11]).value)
    ensures m.FlightPlanMessage? ==>
      && m.callsign == callsign && m.plan.callsign == callsign
      && (m.plan.planType == "IFR" <==> tokens[2] == "I") && (m.plan.planType != "IFR" ==> m.plan.planType == "VFR")
      && m.plan.aircraftType == tokens[3] && m.plan.departure == tokens[5] && m.plan.destination == tokens[9]
      && m.plan.alternate == tokens[14] && m.plan.remarks == tokens[15] && m.plan.route == tokens[16]
    // An altitude or speed that does not parse is stored as 0.
    ensures m.FlightPlanMessage? ==>
      && (ParseInt32(tokens[8]).None? ==> m.plan.cruisingAltitude == 0)
      && (ParseInt32(tokens[8]).Some? ==> m.plan.cruisingAltitude == ParseInt32(tokens[8]).value)
      && (ParseInt32(tokens[4]).None? ==> m.plan.cruisingSpeed == 0)
      && (ParseInt32(tokens[4]).Some? ==> m.plan.cruisingSpeed == ParseInt32(tokens[4]).value)
    // The enroute time is present exactly when both hours and minutes parse.
    ensures m.FlightPlanMessage? ==>
      && (m.plan.estimatedEnroute.Some? <==> ParseInt32(tokens[10]).Some? && ParseInt32(tokens[11]).Some?)
      && (m.plan.estimatedEnroute.Some? ==>
            m.plan.estimatedEnroute.value == EnrouteSeconds(ParseInt32(tokens[10]).value, ParseInt32(tokens[11]).value))
  {
    var hour := ParseInt32(tokens[10]);
    var minute := ParseInt32(tokens[11]);
    if hour.Some? && minute.Some? && !EnrouteFits(hour.value, minute.value) then
      Malformed(EnrouteOutOfRange)
    else
      var enroute := if hour.Some? && minute.Some? then Some(EnrouteSeconds(hour.value, minute.value)) else None;
      FlightPlanMessage(callsign, FlightPlanCompact(
        callsign := callsign,
        planType := if tokens[2] == "I" then "IFR" else "VFR",
        aircraftType := tokens[3],
        departure := tokens[5],
        destination := tokens[9],
        alternate := tokens[14],
        cruisingAltitude := ParseInt32OrZero(tokens[8]),
        cruisingSpeed := ParseInt32OrZero(tokens[4]),
        estimatedEnroute := enroute,
        route := tokens[16],
        remarks := tokens[15]))
  }

  /**
   * The decision `SendATC` takes on the colon tokens of a message. The command
   * is the first three UTF-16 code units of the first token, and taking it
   * throws when the token has fewer; `CommandUnits` shows that comparing those
   * units with `$FP` or `#TM` is testing whether the token starts with it.
   */
  function DecodeTokens(tokens: seq<string>): (m: AtcMessage)
    requires |tokens| >= 1
    ensures |CodeUnits(tokens[0])| < 3 <==> m == Malformed(CommandTooShort)
    ensures m.FlightPlanMessage? || m == Malformed(MissingFlightPlanFields) || m == Malformed(EnrouteOutOfRange)
            ==> StartsWith(tokens[0], "$FP")
    ensures m.TransponderControl? ==> StartsWith(tokens[0], "#TM") && |tokens| == 3 && tokens[1] == "FP"
    ensures StartsWith(tokens[0], "$FP") ==>
      m == if |tokens| < 17 then Malformed(MissingFlightPlanFields) else DecodeFlightPlan(tokens[0][3..], tokens)
    ensures StartsWith(tokens[0], "#TM") && |tokens| == 3 && tokens[1] == "FP" ==>
      m == TransponderControl(tokens[2], KnownTransponderPayload(tokens[2]))
    // Everything else is relayed: a long enough command that is neither `$FP` nor a transponder control.
    ensures |CodeUnits(tokens[0])| >= 3 && !StartsWith(tokens[0], "$FP")
            && !(StartsWith(tokens[0], "#TM") && |tokens| == 3 && tokens[1] == "FP") ==>
      m == Relayed
  {
    if |CodeUnits(tokens[0])| < 3 then Malformed(CommandTooShort)
    else if StartsWith(tokens[0], "$FP") then
      var callsign := tokens[0][3..];
      if |tokens| < 17 then Malformed(MissingFlightPlanFields) else DecodeFlightPlan(callsign, tokens)
    else if StartsWith(tokens[0], "#TM") && |tokens| == 3 && tokens[1] == "FP" then
      TransponderControl(tokens[2], KnownTransponderPayload(tokens[2]))
    else Relayed
  }

  /**
   * The command of a long enough first token, its first three code units,
   * equals `$FP` (or `#TM`) exactly when the token starts with those three
   * characters, and the callsign, the code units after it, is the rest of the
   * token.
   */
  lemma CommandUnits(token: string)
    requires |CodeUnits(token)| >= 3
    ensures CodeUnits(token)[..3] == CodeUnits("$FP") <==> StartsWith(token, "$FP")
    ensures CodeUnits(token)[..3] == CodeUnits("#TM") <==> StartsWith(token, "#TM")
    ensures StartsWith(token, "$FP") ==> CodeUnits(token)[3..] == CodeUnits(token[3..])
  {
    assert Ascii("$FP") && Ascii("#TM");
    AsciiPrefixUnits(token, "$FP");
    AsciiPrefixUnits(token, "#TM");
  }

  /**
   * `SendATC`'s reading of a message: the first colon token is a
   * three-character command followed by the callsign.
   */
  function Decode(message: string): (m: AtcMessage)
    ensures |CodeUnits(Split(message, ':')[0])| < 3 <==> m == Malformed(CommandTooShort)
    ensures m.FlightPlanMessage? ==> StartsWith(message, "$FP")
    ensures m.TransponderControl? ==> StartsWith(message, "#TM") && |Split(message, ':')| == 3
    ensures var t := Split(message, ':');
      |t[0]| >= 3 && StartsWith(message, "$FP") ==>
        m == if |t| < 17 then Malformed(MissingFlightPlanFields) else DecodeFlightPlan(t[0][3..], t)
    ensures var t := Split(message, ':');
      |t[0]| >= 3 && StartsWith(message, "#TM") && |t| == 3 && t[1] == "FP" ==>
        m == TransponderControl(t[2], KnownTransponderPayload(t[2]))
    // Ordinary ATC traffic is relayed.
    ensures var t := Split(message, ':');
      |CodeUnits(t[0])| >= 3 && !StartsWith(message, "$FP") && !(StartsWith(message, "#TM") && |t| == 3 && t[1] == "FP") ==>
        m == Relayed
  {
    FirstTokenIsPrefix(message, ':');
    DecodeTokens(Split(message, ':'))
  }

  // ---------------------------------------------------------------------------
  // The first token is a prefix of the message
  // ---------------------------------------------------------------------------

  lemma {:induction false} FirstTokenIsPrefix(s: string, sep: char)
    ensures StartsWith(s, Split(s, sep)[0])
    decreases |s|
  {
    if |s| > 0 && s[0] != sep {
      FirstTokenIsPrefix(s[1..], sep);
      var t := Split(s[1..], sep)[0];
      assert Split(s, sep)[0] == [s[0]] + t;
      assert s[1..][..|t|] == t;
      assert s[..|t| + 1] == [s[0]] + s[1..][..|t|];
    }
  }

  /** A separator-free prefix of the message lies within its first token. */
  lemma {:induction false} FirstTokenCoversFreePrefix(s: string, sep: char, k: nat)
    requires k <= |s| && sep !in s[..k]
    ensures |Split(s, sep)[0]| >= k
    decreases k
  {
    if k > 0 {
      assert s[..k][0] == s[0];
      var rest := s[1..][..k - 1];
      forall i | 0 <= i < |rest| ensures rest[i] != sep {
        assert rest[i] == s[..k][i + 1];
      }
      FirstTokenCoversFreePrefix(s[1..], sep, k - 1);
    }
  }

  /**
   * Ordinary ATC traffic is relayed: any message whose first three characters
   * hold no colon and are neither `$FP` nor `#TM`.
   */
  lemma OrdinaryTrafficRelayed(message: string)
    requires |message| >= 3 && ':' !in message[..3]
    requires !StartsWith(message, "$FP") && !StartsWith(message, "#TM")
    ensures Decode(message) == Relayed
  {
    FirstTokenCoversFreePrefix(message, ':', 3);
  }

  /** A chat line is relayed to the other controllers. */
  lemma ChatLineRelayed()
    ensures Decode("hello world") == Relayed
  {
    assert "hello world"[..3] == "hel";
    OrdinaryTrafficRelayed("hello world");
  }

  /**
   * A first token of two characters that takes three UTF-16 code units, a
   * letter and a character outside the Basic Multilingual Plane, holds a
   * whole command: the message is relayed rather than rejected as too short.
   */
  lemma SurrogatePairCommandRelayed()
    ensures Decode("k\U{1F44D}") == Relayed
  {
    var message := "k\U{1F44D}";
    assert SeparatorFree([message], ':');
    SplitJoin([message], ':');
    assert CodeUnits(message) == [message[0] as int] + CodeUnits(message[1..]);
    assert |CodeUnits(message[1..])| >= 2;
  }

  // ---------------------------------------------------------------------------
  // The sending side: the format the ATC client writes `$FP` messages in
  // ---------------------------------------------------------------------------

  /** What an ATC client puts in a `$FP` message, before formatting. */
  datatype FiledPlan = FiledPlan(
    callsign: string,
    recipient: string,
    rules: string,
    aircraftType: string,
    speed: int,
    departure: string,
    departureEstimatedTime: string,
    departureActualTime: string,
    altitude: int,
    arrival: string,
    enrouteHours: int,
    enrouteMinutes: int,
    fuelHours: int,
    fuelMinutes: int,
    alternate: string,
    remarks: string,
    route: string)

  /** `s.Replace(from, to)` for one-character strings. */
  function ReplaceChar(s: string, from: char, to: char): (r: string)
    ensures |r| == |s|
    ensures forall i :: 0 <= i < |s| ==> r[i] == if s[i] == from then to else s[i]
  {
    seq(|s|, i requires 0 <= i < |s| => if s[i] == from then to else s[i])
  }

  /** The colon tokens of a formatted `$FP` message; the aircraft type has its colons turned into `_`. */
  function FlightPlanTokens(f: FiledPlan): (ts: seq<string>)
    ensures |ts| == 17
  {
    [ "$FP" + f.callsign, f.recipient, f.rules, ReplaceChar(f.aircraftType, ':', '_'), ShowInt(f.speed),
      f.departure, f.departureEstimatedTime, f.departureActualTime, ShowInt(f.altitude), f.arrival,
      ShowInt(f.enrouteHours), ShowInt(f.enrouteMinutes), ShowInt(f.fuelHours), ShowInt(f.fuelMinutes),
      f.alternate, f.remarks, f.route ]
  }

  /** The `$FP` message an ATC client sends for a filed plan. */
  function EncodeFlightPlan(f: FiledPlan): string {
    Join(FlightPlanTokens(f), ':')
  }

  /** The plan the hub is meant to store for a filed plan. */
  function StoredPlan(f: FiledPlan): FlightPlanCompact {
    FlightPlanCompact(
      callsign := f.callsign,
      planType := if f.rules == "I" then "IFR" else "VFR",
      aircraftType := ReplaceChar(f.aircraftType, ':', '_'),
      departure := f.departure,
      destination := f.arrival,
      alternate := f.alternate,
      cruisingAltitude := f.altitude,
      cruisingSpeed := f.speed,
      estimatedEnroute := Some(EnrouteSeconds(f.enrouteHours, f.enrouteMinutes)),
      route := f.route,
      remarks := f.remarks)
  }

  predicate Int32(n: int) { Int32Min <= n <= Int32Max }

  /** The free-text fields of a plan contain no colon, and its numbers are 32-bit with an enroute time that fits a TimeSpan. */
  predicate Encodable(f: FiledPlan) {
    && ':' !in f.callsign && ':' !in f.recipient && ':' !in f.rules
    && ':' !in f.departure && ':' !in f.departureEstimatedTime && ':' !in f.departureActualTime
    && ':' !in f.arrival && ':' !in f.alternate && ':' !in f.remarks && ':' !in f.route
    && Int32(f.speed) && Int32(f.altitude) && Int32(f.enrouteHours) && Int32(f.enrouteMinutes)
    && EnrouteFits(f.enrouteHours, f.enrouteMinutes)
  }

  lemma ShowIntColonFree(n: int)
    ensures ':' !in ShowInt(n)
  {
    var m: nat := if n < 0 then -n else n;
    ShowNatDigits(m);
    var d := ShowNat(m);
    var s := ShowInt(n);
    forall i | 0 <= i < |s| ensures s[i] != ':' {
      if n < 0 && i > 0 {
        assert s[i] == d[i - 1];
      }
    }
  }

  lemma TokensColonFree(f: FiledPlan)
    requires Encodable(f)
    ensures SeparatorFree(FlightPlanTokens(f), ':')
  {
    var ts := FlightPlanTokens(f);
    forall i | 0 <= i < |ts[0]| ensures ts[0][i] != ':' {
      if i >= 3 {
        assert ts[0][i] == f.callsign[i - 3];
      }
    }
    ShowIntColonFree(f.speed);
    ShowIntColonFree(f.altitude);
    ShowIntColonFree(f.enrouteHours);
    ShowIntColonFree(f.enrouteMinutes);
    ShowIntColonFree(f.fuelHours);
    ShowIntColonFree(f.fuelMinutes);
    var a := ReplaceChar(f.aircraftType, ':', '_');
    assert forall i :: 0 <= i < |a| ==> a[i] != ':';
  }

  /** `DecodeFlightPlan` once the four numeric fields are known to parse. */
  lemma DecodeFlightPlanParsed(callsign: string, ts: seq<string>, speed: int, altitude: int, hours: int, minutes: int)
    requires |ts| >= 17 && EnrouteFits(hours, minutes)
    requires ParseInt32(ts[4]) == Some(speed) && ParseInt32(ts[8]) == Some(altitude)
    requires ParseInt32(ts[10]) == Some(hours) && ParseInt32(ts[11]) == Some(minutes)
    ensures DecodeFlightPlan(callsign, ts) == FlightPlanMessage(callsign, FlightPlanCompact(
      callsign, if ts[2] == "I" then "IFR" else "VFR", ts[3], ts[5], ts[9], ts[14],
      altitude, speed, Some(EnrouteSeconds(hours, minutes)), ts[16], ts[15]))
  {
  }

  /** The numeric tokens of a formatted plan parse back to the plan's numbers. */
  lemma FlightPlanNumbersParse(f: FiledPlan)
    requires Encodable(f)
    ensures var ts := FlightPlanTokens(f);
      && ParseInt32(ts[4]) == Some(f.speed) && ParseInt32(ts[8]) == Some(f.altitude)
      && ParseInt32(ts[10]) == Some(f.enrouteHours) && ParseInt32(ts[11]) == Some(f.enrouteMinutes)
  {
    var ts := FlightPlanTokens(f);
    assert ts[4] == ShowInt(f.speed) && ts[8] == ShowInt(f.altitude);
    assert ts[10] == ShowInt(f.enrouteHours) && ts[11] == ShowInt(f.enrouteMinutes);
    ParseShowInt32(f.speed);
    ParseShowInt32(f.altitude);
    ParseShowInt32(f.enrouteHours);
    ParseShowInt32(f.enrouteMinutes);
  }

  lemma DecodeFlightPlanTokens(f: FiledPlan)
    requires Encodable(f)
    ensures DecodeTokens(FlightPlanTokens(f)) == FlightPlanMessage(f.callsign, StoredPlan(f))
  {
    var ts := FlightPlanTokens(f);
    assert ts[0][..3] == "$FP" && ts[0][3..] == f.callsign;
    assert ts[2] == f.rules && ts[3] == ReplaceChar(f.aircraftType, ':', '_') && ts[5] == f.departure;
    assert ts[9] == f.arrival && ts[14] == f.alternate && ts[15] == f.remarks && ts[16] == f.route;
    FlightPlanNumbersParse(f);
    DecodeFlightPlanParsed(f.callsign, ts, f.speed, f.altitude, f.enrouteHours, f.enrouteMinutes);
  }

  /**
   * Round trip: every encodable plan, formatted as an ATC client formats it,
   * decodes to a flight-plan message carrying exactly the plan intended.
   */
  lemma DecodeEncodeFlightPlan(f: FiledPlan)
    requires Encodable(f)
    ensures Decode(EncodeFlightPlan(f)) == FlightPlanMessage(f.callsign, StoredPlan(f))
  {
    TokensColonFree(f);
    SplitJoin(FlightPlanTokens(f), ':');
    DecodeFlightPlanTokens(f);
  }

  // ---------------------------------------------------------------------------
  // The swallow rule
  // ---------------------------------------------------------------------------

  lemma Join3(a: string, b: string, c: string, sep: char)
    ensures Join([a, b, c], sep) == a + [sep] + b + [sep] + c
  {
    var ts := [a, b, c];
    assert ts[1..] == [b, c] && ts[1..][1..] == [c];
    assert Join([c], sep) == c;
    assert Join([b, c], sep) == b + [sep] + c;
  }

  /**
   * A message is swallowed exactly when it is a colon-free head starting with
   * `#TM`, then `:FP:`, then a colon-free payload. One direction here.
   */
  lemma SwallowedHasShape(message: string)
    requires Decode(message).TransponderControl?
    ensures var t := Split(message, ':');
      && message == t[0] + ":FP:" + t[2]
      && StartsWith(t[0], "#TM") && ':' !in t[0] && ':' !in t[2]
      && Decode(message).payload == t[2]
  {
    var t := Split(message, ':');
    JoinSplit(message, ':');
    assert t == [t[0], t[1], t[2]];
    Join3(t[0], t[1], t[2], ':');
    assert t[0][..3] == "#TM";
  }

  /** The other direction: every message of that shape is swallowed, with its payload. */
  lemma ShapeIsSwallowed(head: string, payload: string)
    requires StartsWith(head, "#TM") && ':' !in head && ':' !in payload
    ensures Decode(head + ":FP:" + payload) == TransponderControl(payload, KnownTransponderPayload(payload))
  {
    var ts := [head, "FP", payload];
    assert SeparatorFree(ts, ':');
    SplitJoin(ts, ':');
    Join3(head, "FP", payload, ':');
    assert head + [':'] + "FP" + [':'] + payload == head + ":FP:" + payload;
    assert head[..3] == "#TM";
  }

  /** A `$FP` message of fewer than 17 colon tokens makes `SendATC` throw: nothing is stored, nothing relayed. */
  lemma ShortFlightPlanThrows(ts: seq<string>)
    requires 1 <= |ts| < 17 && SeparatorFree(ts, ':')
    requires StartsWith(ts[0], "$FP")
    ensures Decode(Join(ts, ':')) == Malformed(MissingFlightPlanFields)
  {
    SplitJoin(ts, ':');
    assert ts[0][..3] == "$FP";
  }

  // ---------------------------------------------------------------------------
  // Worked examples
  // ---------------------------------------------------------------------------

  /** The transponder example `#TMFP:FP:SOMETHING GET` is swallowed as a known request. */
  lemma TransponderExampleSwallowed()
    ensures Decode("#TMFP:FP:SOMETHING GET") == TransponderControl("SOMETHING GET", true)
  {
    ExampleTransponderSpelling();
    ExampleGetPayloadKnown();
    ShapeIsSwallowed("#TMFP", "SOMETHING GET");
  }

  lemma ExampleTransponderSpelling()
    ensures "#TMFP" + ":FP:" + "SOMETHING GET" == "#TMFP:FP:SOMETHING GET"
  {
  }

  lemma ExampleGetPayloadKnown()
    ensures KnownTransponderPayload("SOMETHING GET")
  {
    assert EndsWith("SOMETHING GET", " GET");
  }

  /**
   * A flight-plan message of 16 colon tokens, which leaves out the recipient
   * field, makes the hub throw instead of storing a plan.
   */
  lemma FlightPlanExampleThrows()
    ensures Decode(Join(["$FPN123", "I", "C172", "90", "KXYZ", "1200", "1205", "3000", "KABC",
                         "1", "30", "0", "15", "KDEF", "remarks", "DCT"], ':'))
            == Malformed(MissingFlightPlanFields)
  {
    var ts := ["$FPN123", "I", "C172", "90", "KXYZ", "1200", "1205", "3000", "KABC",
               "1", "30", "0", "15", "KDEF", "remarks", "DCT"];
    assert SeparatorFree(ts, ':');
    ShortFlightPlanThrows(ts);
  }
}
