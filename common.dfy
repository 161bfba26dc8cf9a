/** Identifiers and failure-compatible wrappers shared by every part of the hub model. */
module Common {

  /** Transport connection id, assigned by the real-time transport to each live connection. */
  type ConnId = string

  /** Stable client id a client presents on every (re)connection. */
  type ClientId = string

  /** A globally unique identifier; its generation is an input of the model. */
  type Guid = nat

  datatype Option<+T> = None | Some(value: T)

  /** A prefix of `s` extended by the next element of `s` is the next prefix. */
  lemma PrefixGrows<T>(s: seq<T>, i: nat)
    requires i < |s|
    ensures s[..i + 1] == s[..i] + [s[i]]
  {
  }

  /** What an exception thrown by a hub method would signal to its caller. */
  datatype Fault =
    | CommandTooShort         // the first colon token of an ATC message has fewer than 3 UTF-16 code units
    | MissingFlightPlanFields // a `$FP` message with fewer than 17 colon tokens
    | EnrouteOutOfRange       // the `$FP` enroute hours and minutes do not fit a .NET TimeSpan
    | NoLapToScore            // a full-race record with no last lap (no laps, none required) or no start

  /** Completion of a hub method: normal return, or an exception after the effects made so far. */
  datatype Outcome = Pass | Fail(fault: Fault)
}
