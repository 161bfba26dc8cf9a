/**
 * Telemetry the simulator clients and ATC clients send to the hub, and the
 * sanitising rule the hub applies to aircraft telemetry before caching it.
 */
module Telemetry {
  import opened Common

  /** A point in the simulated world: degrees of latitude and longitude, feet of altitude. */
  datatype Position = Position(latitude: real, longitude: real, altitude: real)

  /** The part of an aircraft status report the hub reads; the instrument fields it only relays are left out. */
  datatype AircraftStatus = AircraftStatus(
    callsign: string,
    latitude: real,
    longitude: real,
    altitude: real,
    frequencyCom1: int)

  /** Static identity of an ATC controller, sent once by `LoginATC`. */
  datatype ATCInfo = ATCInfo(callsign: string)

  /** Mutable state of an ATC controller; its presence for a connection means "in ATC mode". */
  datatype ATCStatus = ATCStatus(callsign: string, frequencyCom: int)

  function Abs(x: real): real {
    if x < 0.0 then -x else x
  }

  /**
   * An aircraft reported within 0.02 degrees of latitude 0, longitude 0 is the
   * sentinel for "aircraft not loaded in the simulator".
   */
  predicate NearOrigin(s: AircraftStatus) {
    Abs(s.latitude) < 0.02 && Abs(s.longitude) < 0.02
  }

  /** The status as cached and relayed: a not-loaded aircraft has its COM1 frequency forced to 0. */
  function Sanitize(s: AircraftStatus): (r: AircraftStatus)
    ensures NearOrigin(s) ==> r.frequencyCom1 == 0
    ensures !NearOrigin(s) ==> r == s
    ensures r.(frequencyCom1 := s.frequencyCom1) == s
  {
    if NearOrigin(s) then s.(frequencyCom1 := 0) else s
  }

  /** Sanitising twice is sanitising once: the position, which decides the rule, is untouched. */
  lemma SanitizeIdempotent(s: AircraftStatus)
    ensures Sanitize(Sanitize(s)) == Sanitize(s)
  {
  }

  /** `0` is how a simulator reports "no frequency"; the bot is told `null` instead. */
  function FrequencyOrNull(f: int): (r: Option<int>)
    ensures r.None? <==> f == 0
    ensures r.Some? ==> r.value == f
  {
    if f == 0 then None else Some(f)
  }
}
