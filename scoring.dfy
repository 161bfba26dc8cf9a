/**
 * Leaderboard records derived from a saved stopwatch: one full-race record
 * when all required laps were run, and one record per lap, each scored by the
 * negated elapsed milliseconds and displayed as `HH:MM:SS.mmm`.
 */
module Scoring {
  import opened Common
  import opened Text
  import opened Stopwatch

  datatype LeaderboardRecord = LeaderboardRecord(
    eventId: Guid,
    leaderboardName: string,
    subIndex: nat,
    playerName: string,
    score: int,
    scoreDisplay: string)

  const MillisPerSecond: int := 1000
  const MillisPerMinute: int := 60_000
  const MillisPerHour: int := 3_600_000
  const MillisPerDay: int := 86_400_000

  // ---------------------------------------------------------------------------
  // TimeSpan components and the display string
  // ---------------------------------------------------------------------------

  /** C#'s integer `/`, which truncates toward zero. */
  function Quot(a: int, b: int): int
    requires b > 0
  {
    if a >= 0 then a / b else -((-a) / b)
  }

  /** C#'s integer `%`, whose result takes the sign of the dividend. */
  function Rem(a: int, b: int): int
    requires b > 0
  {
    a - b * Quot(a, b)
  }

  /** `TimeSpan.Hours` of a span of `ms` milliseconds: whole hours within the day (days are dropped). */
  function HoursPart(ms: int): int { Rem(Quot(ms, MillisPerHour), 24) }

  /** `TimeSpan.Minutes`. */
  function MinutesPart(ms: int): int { Rem(Quot(ms, MillisPerMinute), 60) }

  /** `TimeSpan.Seconds`. */
  function SecondsPart(ms: int): int { Rem(Quot(ms, MillisPerSecond), 60) }

  /** `TimeSpan.Milliseconds`. */
  function MillisecondsPart(ms: int): int { Rem(ms, MillisPerSecond) }

  /** `$"{t.Hours:00}:{t.Minutes:00}:{t.Seconds:00}.{t.Milliseconds:000}"`. */
  function ScoreDisplay(ms: int): string {
    FormatZeros(HoursPart(ms), 2) + ":" + FormatZeros(MinutesPart(ms), 2) + ":"
      + FormatZeros(SecondsPart(ms), 2) + "." + FormatZeros(MillisecondsPart(ms), 3)
  }

  /** A string of the shape `DD:DD:DD.DDD`. */
  predicate DisplayShaped(s: string) {
    && |s| == 12 && s[2] == ':' && s[5] == ':' && s[8] == '.'
    && IsDigit(s[0]) && IsDigit(s[1]) && IsDigit(s[3]) && IsDigit(s[4]) && IsDigit(s[6]) && IsDigit(s[7])
    && IsDigit(s[9]) && IsDigit(s[10]) && IsDigit(s[11])
  }

  function DigitValue(c: char): int { c as int - '0' as int }

  /** The span, in milliseconds, a display string denotes. */
  function DisplayedMillis(s: string): int
    requires DisplayShaped(s)
  {
    var hours := DigitValue(s[0]) * 10 + DigitValue(s[1]);
    var minutes := DigitValue(s[3]) * 10 + DigitValue(s[4]);
    var seconds := DigitValue(s[6]) * 10 + DigitValue(s[7]);
    var millis := (DigitValue(s[9]) * 10 + DigitValue(s[10])) * 10 + DigitValue(s[11]);
    ((hours * 60 + minutes) * 60 + seconds) * 1000 + millis
  }

  lemma ComponentsOfNonNegative(ms: int)
    requires ms >= 0
    ensures 0 <= HoursPart(ms) < 24 && 0 <= MinutesPart(ms) < 60
    ensures 0 <= SecondsPart(ms) < 60 && 0 <= MillisecondsPart(ms) < 1000
    ensures ((HoursPart(ms) * 60 + MinutesPart(ms)) * 60 + SecondsPart(ms)) * 1000 + MillisecondsPart(ms)
            == ms % MillisPerDay
  {
    // Peel off milliseconds, seconds, minutes and hours one division at a time.
    var secs, millis := ms / 1000, ms % 1000;
    var mins, seconds := secs / 60, secs % 60;
    var hours, minutes := mins / 60, mins % 60;
    var days, hour := hours / 24, hours % 24;
    assert ms == 60_000 * mins + (1000 * seconds + millis);
    assert ms / MillisPerMinute == mins;
    assert ms == 3_600_000 * hours + (60_000 * minutes + 1000 * seconds + millis);
    assert ms / MillisPerHour == hours;
    assert ms == 86_400_000 * days + (((hour * 60 + minutes) * 60 + seconds) * 1000 + millis);
    assert ms % MillisPerDay == ((hour * 60 + minutes) * 60 + seconds) * 1000 + millis;
  }

  lemma TwoDigits(a: string)
    requires |a| == 2 && AllDigits(a)
    ensures DigitsValue(a) == DigitValue(a[0]) * 10 + DigitValue(a[1])
  {
    var a1 := a[..1];
    assert a1[..0] == [] && a1[0] == a[0];
    assert DigitsValue(a1) == DigitValue(a[0]);
  }

  lemma ThreeDigits(a: string)
    requires |a| == 3 && AllDigits(a)
    ensures DigitsValue(a) == (DigitValue(a[0]) * 10 + DigitValue(a[1])) * 10 + DigitValue(a[2])
  {
    TwoDigits(a[..2]);
    assert a[..2][0] == a[0] && a[..2][1] == a[1];
  }

  /** Four digit fields joined by `:`, `:` and `.` have the display shape and read back field by field. */
  lemma DisplayFields(a: string, b: string, c: string, d: string)
    requires |a| == 2 && |b| == 2 && |c| == 2 && |d| == 3
    requires AllDigits(a) && AllDigits(b) && AllDigits(c) && AllDigits(d)
    ensures DisplayShaped(a + ":" + b + ":" + c + "." + d)
    ensures DisplayedMillis(a + ":" + b + ":" + c + "." + d)
            == ((DigitsValue(a) * 60 + DigitsValue(b)) * 60 + DigitsValue(c)) * 1000 + DigitsValue(d)
  {
    var t := a + ":" + b + ":" + c + "." + d;
    assert t[0] == a[0] && t[1] == a[1] && t[2] == ':';
    assert t[3] == b[0] && t[4] == b[1] && t[5] == ':';
    assert t[6] == c[0] && t[7] == c[1] && t[8] == '.';
    assert t[9] == d[0] && t[10] == d[1] && t[11] == d[2];
    assert IsDigit(a[0]) && IsDigit(a[1]) && IsDigit(b[0]) && IsDigit(b[1]) && IsDigit(c[0]) && IsDigit(c[1]);
    assert IsDigit(d[0]) && IsDigit(d[1]) && IsDigit(d[2]);
    TwoDigits(a);
    TwoDigits(b);
    TwoDigits(c);
    ThreeDigits(d);
  }

  /**
   * A non-negative span is displayed as `HH:MM:SS.mmm`, and the display reads
   * back as the span modulo one day: `TimeSpan.Hours` drops whole days.
   */
  lemma DisplayRoundTrip(ms: int)
    requires ms >= 0
    ensures DisplayShaped(ScoreDisplay(ms))
    ensures DisplayedMillis(ScoreDisplay(ms)) == ms % MillisPerDay
  {
    ComponentsOfNonNegative(ms);
    FormatZerosExact(HoursPart(ms), 2);
    FormatZerosExact(MinutesPart(ms), 2);
    FormatZerosExact(SecondsPart(ms), 2);
    FormatZerosExact(MillisecondsPart(ms), 3);
    DisplayFields(FormatZeros(HoursPart(ms), 2), FormatZeros(MinutesPart(ms), 2),
                  FormatZeros(SecondsPart(ms), 2), FormatZeros(MillisecondsPart(ms), 3));
  }

  // ---------------------------------------------------------------------------
  // Records of a saved stopwatch
  // ---------------------------------------------------------------------------

  /** What `SaveStopwatch` needs to score without an exception: not (no laps required and none run). */
  predicate Scorable(v: StopwatchView, requiredLaps: nat) {
    v.WellFormed() && !(requiredLaps == 0 && |v.laps| == 0)
  }

  /** Milliseconds from the previous lap (the start, for the first lap) to lap `i`. */
  function LapMillis(v: StopwatchView, i: nat): int
    requires v.startedAt.Some? && i < |v.laps|
  {
    v.laps[i] - (if i == 0 then v.startedAt.value else v.laps[i - 1])
  }

  /** Milliseconds from the start to the final lap. */
  function RaceMillis(v: StopwatchView): int
    requires v.startedAt.Some? && |v.laps| > 0
  {
    v.laps[|v.laps| - 1] - v.startedAt.value
  }

  /** What one saved record is about: its sub-index and the milliseconds it scores. */
  datatype Entry = Entry(subIndex: nat, elapsed: int)

  /** 1 when the race is complete and a full-race record comes first, else 0. */
  function Offset(v: StopwatchView, requiredLaps: nat): nat {
    if |v.laps| == requiredLaps then 1 else 0
  }

  /** Entry `k` of a save: the full race first when it is complete, then lap `k - offset` with sub-index `k - offset + 1`. */
  function EntryAt(v: StopwatchView, requiredLaps: nat, k: nat): (e: Entry)
    requires Scorable(v, requiredLaps) && k < |v.laps| + Offset(v, requiredLaps)
    ensures e.subIndex == k + 1 - Offset(v, requiredLaps)
    ensures k < Offset(v, requiredLaps) ==> e.elapsed == RaceMillis(v)
    ensures k >= Offset(v, requiredLaps) ==> e.elapsed == LapMillis(v, k - Offset(v, requiredLaps))
  {
    if k < Offset(v, requiredLaps) then Entry(0, RaceMillis(v))
    else Entry(k - Offset(v, requiredLaps) + 1, LapMillis(v, k - Offset(v, requiredLaps)))
  }

  /** The leaderboard record of one entry: the negated elapsed time is the score, so faster ranks higher. */
  function ToRecord(v: StopwatchView, eventId: Guid, e: Entry): (r: LeaderboardRecord)
    ensures r.eventId == eventId && r.leaderboardName == v.leaderboardName && r.playerName == v.name
    ensures r.subIndex == e.subIndex && r.score == -e.elapsed
    ensures r.scoreDisplay == ScoreDisplay(e.elapsed)
  {
    LeaderboardRecord(eventId, v.leaderboardName, e.subIndex, v.name, -e.elapsed, ScoreDisplay(e.elapsed))
  }

  /** The full-race record, of sub-index 0, that comes first when the lap count is the required count. */
  function RaceRecords(v: StopwatchView, eventId: Guid, requiredLaps: nat): (rs: seq<LeaderboardRecord>)
    requires Scorable(v, requiredLaps)
    ensures |rs| == Offset(v, requiredLaps)
  {
    if |v.laps| == requiredLaps then [ToRecord(v, eventId, Entry(0, RaceMillis(v)))] else []
  }

  /** One record per lap, in lap order: sub-index `i + 1` for lap `i`. */
  function LapRecords(v: StopwatchView, eventId: Guid): (rs: seq<LeaderboardRecord>)
    requires v.WellFormed()
    ensures |rs| == |v.laps|
  {
    seq(|v.laps|, i requires 0 <= i < |v.laps| => ToRecord(v, eventId, Entry(i + 1, LapMillis(v, i))))
  }

  /** Every record `SaveStopwatch` saves, in the order it saves them. */
  function SaveRecords(v: StopwatchView, eventId: Guid, requiredLaps: nat): (rs: seq<LeaderboardRecord>)
    requires Scorable(v, requiredLaps)
    ensures |rs| == |v.laps| + Offset(v, requiredLaps)
  {
    RaceRecords(v, eventId, requiredLaps) + LapRecords(v, eventId)
  }

  /** Record `k` of the save is the record of entry `k`. */
  lemma SaveRecordAt(v: StopwatchView, eventId: Guid, requiredLaps: nat, k: nat)
    requires Scorable(v, requiredLaps) && k < |v.laps| + Offset(v, requiredLaps)
    ensures SaveRecords(v, eventId, requiredLaps)[k] == ToRecord(v, eventId, EntryAt(v, requiredLaps, k))
  {
    hide ScoreDisplay;
    var offset := Offset(v, requiredLaps);
    if k < offset {
      assert SaveRecords(v, eventId, requiredLaps)[k] == RaceRecords(v, eventId, requiredLaps)[k];
    } else {
      assert SaveRecords(v, eventId, requiredLaps)[k] == LapRecords(v, eventId)[k - offset];
    }
  }

  /**
   * Saving, after the records of the first `i` laps, the record of lap `i`
   * (its sub-index, score and display of `elapsed` milliseconds) extends them
   * to the records of the first `i + 1` laps.
   */
  lemma LapRecordsStep(v: StopwatchView, eventId: Guid, i: nat, elapsed: int)
    requires v.WellFormed() && i < |v.laps| && elapsed == LapMillis(v, i)
    ensures var rs := LapRecords(v, eventId);
      rs[..i + 1] == rs[..i] + [LeaderboardRecord(eventId, v.leaderboardName, i + 1, v.name, -elapsed, ScoreDisplay(elapsed))]
  {
    hide ScoreDisplay;
    var rs := LapRecords(v, eventId);
    var record := LeaderboardRecord(eventId, v.leaderboardName, i + 1, v.name, -elapsed, ScoreDisplay(elapsed));
    assert rs[i] == record;
    PrefixGrows(rs, i);
  }

  /**
   * The saved records: one full-race record exactly when the lap count is the
   * required count, then one record per lap; sub-indices strictly increase (0
   * for the race, i + 1 for lap i), and each record names the event, the
   * leaderboard and the participant.
   */
  lemma SaveRecordsIndexed(v: StopwatchView, eventId: Guid, requiredLaps: nat)
    requires Scorable(v, requiredLaps)
    ensures var rs := SaveRecords(v, eventId, requiredLaps);
      && |rs| == |v.laps| + Offset(v, requiredLaps)
      && (forall k :: 0 <= k < |rs| ==> rs[k].subIndex == k + 1 - Offset(v, requiredLaps))
      && (forall i, j :: 0 <= i < j < |rs| ==> rs[i].subIndex < rs[j].subIndex)
      && (forall k :: 0 <= k < |rs| ==>
            rs[k].eventId == eventId && rs[k].leaderboardName == v.leaderboardName && rs[k].playerName == v.name)
  {
    hide ScoreDisplay;
    var rs := SaveRecords(v, eventId, requiredLaps);
    forall k | 0 <= k < |rs|
      ensures rs[k].subIndex == k + 1 - Offset(v, requiredLaps)
      ensures rs[k].eventId == eventId && rs[k].leaderboardName == v.leaderboardName && rs[k].playerName == v.name
    {
      SaveRecordAt(v, eventId, requiredLaps, k);
    }
  }

  /** Each saved score is the negated elapsed time: the whole race for the first record of a complete race, else one lap. */
  lemma SaveRecordsScores(v: StopwatchView, eventId: Guid, requiredLaps: nat)
    requires Scorable(v, requiredLaps)
    ensures var rs := SaveRecords(v, eventId, requiredLaps);
      && (|v.laps| == requiredLaps ==> rs[0].score == -RaceMillis(v))
      && (forall i :: 0 <= i < |v.laps| ==> rs[i + Offset(v, requiredLaps)].score == -LapMillis(v, i))
  {
    hide ScoreDisplay;
    if |v.laps| == requiredLaps {
      SaveRecordScoreAt(v, eventId, requiredLaps, 0);
    }
    forall i | 0 <= i < |v.laps|
      ensures SaveRecords(v, eventId, requiredLaps)[i + Offset(v, requiredLaps)].score == -LapMillis(v, i)
    {
      SaveRecordScoreAt(v, eventId, requiredLaps, i + Offset(v, requiredLaps));
    }
  }

  /**
   * Each saved record displays its own elapsed time, the negated score; a
   * non-negative time shows as `HH:MM:SS.mmm` and reads back modulo one day.
   */
  lemma SaveRecordsDisplayed(v: StopwatchView, eventId: Guid, requiredLaps: nat)
    requires Scorable(v, requiredLaps)
    ensures var rs := SaveRecords(v, eventId, requiredLaps);
      forall k :: 0 <= k < |rs| ==>
        && rs[k].scoreDisplay == ScoreDisplay(-rs[k].score)
        && (rs[k].score <= 0 ==>
              DisplayShaped(rs[k].scoreDisplay) && DisplayedMillis(rs[k].scoreDisplay) == -rs[k].score % MillisPerDay)
  {
    hide ScoreDisplay;
    var rs := SaveRecords(v, eventId, requiredLaps);
    forall k | 0 <= k < |rs|
      ensures rs[k].scoreDisplay == ScoreDisplay(-rs[k].score)
      ensures rs[k].score <= 0 ==>
        DisplayShaped(rs[k].scoreDisplay) && DisplayedMillis(rs[k].scoreDisplay) == -rs[k].score % MillisPerDay
    {
      SaveRecordAt(v, eventId, requiredLaps, k);
      if rs[k].score <= 0 {
        DisplayRoundTrip(-rs[k].score);
      }
    }
  }

  /** The score of record `k` of the save: the race time for a leading full-race record, else the lap time. */
  lemma SaveRecordScoreAt(v: StopwatchView, eventId: Guid, requiredLaps: nat, k: nat)
    requires Scorable(v, requiredLaps) && k < |v.laps| + Offset(v, requiredLaps)
    ensures k < Offset(v, requiredLaps) ==> SaveRecords(v, eventId, requiredLaps)[k].score == -RaceMillis(v)
    ensures k >= Offset(v, requiredLaps) ==>
      SaveRecords(v, eventId, requiredLaps)[k].score == -LapMillis(v, k - Offset(v, requiredLaps))
  {
    SaveRecordAt(v, eventId, requiredLaps, k);
  }

  function SumScores(rs: seq<LeaderboardRecord>): int
    decreases |rs|
  {
    if |rs| == 0 then 0 else SumScores(rs[..|rs| - 1]) + rs[|rs| - 1].score
  }

  /** The lap scores of the first `n` laps add up to the negated time from the start to lap `n`. */
  lemma {:induction false} LapScoresTelescope(v: StopwatchView, laps: seq<LeaderboardRecord>, n: nat)
    requires v.startedAt.Some? && 1 <= n <= |v.laps| && n <= |laps|
    requires forall i :: 0 <= i < n ==> laps[i].score == -LapMillis(v, i)
    ensures SumScores(laps[..n]) == -(v.laps[n - 1] - v.startedAt.value)
    decreases n
  {
    if n > 1 {
      assert laps[..n][..n - 1] == laps[..n - 1];
      LapScoresTelescope(v, laps, n - 1);
    }
  }

  /**
   * For a complete race, the per-lap scores saved after the full-race record add
   * up to the full-race score: lap times telescope to the race time.
   */
  lemma LapScoresSumToRaceScore(v: StopwatchView, eventId: Guid, requiredLaps: nat)
    requires v.WellFormed() && |v.laps| == requiredLaps >= 1
    ensures var rs := SaveRecords(v, eventId, requiredLaps); SumScores(rs[1..]) == rs[0].score
  {
    var rs := SaveRecords(v, eventId, requiredLaps);
    SaveRecordsIndexed(v, eventId, requiredLaps);
    SaveRecordsScores(v, eventId, requiredLaps);
    TailTelescopes(v, rs);
  }

  lemma TailTelescopes(v: StopwatchView, rs: seq<LeaderboardRecord>)
    requires v.startedAt.Some? && |rs| == |v.laps| + 1 && |v.laps| >= 1
    requires rs[0].score == -RaceMillis(v)
    requires forall i :: 0 <= i < |v.laps| ==> rs[i + 1].score == -LapMillis(v, i)
    ensures SumScores(rs[1..]) == rs[0].score
  {
    var laps := rs[1..];
    forall i | 0 <= i < |v.laps| ensures laps[i].score == -LapMillis(v, i) {
      assert laps[i] == rs[i + 1];
    }
    LapScoresTelescope(v, laps, |v.laps|);
    assert laps[..|v.laps|] == laps;
  }
}
