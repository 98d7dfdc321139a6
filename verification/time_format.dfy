/**
  The two duration formatters, `formatTime` (MM:SS with an uncapped minutes
  field) and `formatDuration` (H:MM:SS from one hour up, M:SS below), and
  the elapsed-time reading of the time service, with the clock passed in.
 */
module TimeFormat {
  import opened Text

  /** `getElapsedTime`: milliseconds from `startTime` to `now`. */
  function GetElapsedTime(startTime: int, now: int): (r: int)
    ensures startTime + r == now
  {
    now - startTime
  }

  /**
    `r` reads as `total` seconds in the form minutes, colon, two digits of
    seconds below 60.
   */
  predicate ShowsMinutesSeconds(r: string, total: int) {
    && |r| >= 4
    && r[|r| - 3] == ':'
    && AllDigits(r[..|r| - 3]) && AllDigits(r[|r| - 2..])
    && ValueOf(r[|r| - 2..]) < 60
    && ValueOf(r[..|r| - 3]) * 60 + ValueOf(r[|r| - 2..]) == total
  }

  /**
    `r` reads as `total` seconds in the form hours, colon, two digits of
    minutes below 60, colon, two digits of seconds below 60.
   */
  predicate ShowsHoursMinutesSeconds(r: string, total: int) {
    && |r| >= 7
    && r[|r| - 6] == ':'
    && AllDigits(r[..|r| - 6])
    && var t := r[|r| - 5..];
       && ShowsMinutesSeconds(t, total - ValueOf(r[..|r| - 6]) * 3600)
       && ValueOf(t[..2]) < 60
  }

  /** `a + ":" + b` splits at the colon back into `a` and `b`. */
  lemma ColonSplit(a: string, b: string)
    ensures var r := a + ":" + b;
      |r| == |a| + 1 + |b| && r[..|a|] == a && r[|a|] == ':' && r[|a| + 1..] == b
  {
    var r := a + ":" + b;
    assert r[..|a|] == a;
    assert r[|a| + 1..] == b;
  }

  /** A text that splits into a digit field, a colon and a two-digit field below 60 reads as minutes and seconds. */
  lemma ReadMinutesSeconds(r: string, a: string, b: string)
    requires AllDigits(a) && AllDigits(b) && |a| >= 1 && |b| == 2 && ValueOf(b) < 60
    requires |r| == |a| + 3 && r[..|a|] == a && r[|a|] == ':' && r[|a| + 1..] == b
    ensures ShowsMinutesSeconds(r, ValueOf(a) * 60 + ValueOf(b))
  {
  }

  /** A digit field, a colon and a two-digit field below 60 read back as minutes and seconds. */
  lemma JoinMinutesSeconds(a: string, b: string)
    requires AllDigits(a) && AllDigits(b) && |a| >= 1 && |b| == 2 && ValueOf(b) < 60
    ensures ShowsMinutesSeconds(a + ":" + b, ValueOf(a) * 60 + ValueOf(b))
    ensures |a + ":" + b| == |a| + 3
  {
    ColonSplit(a, b);
    ReadMinutesSeconds(a + ":" + b, a, b);
  }

  /** A text that splits into a digit field, a colon and a five-character minutes-and-seconds text reads as hours added to it. */
  lemma ReadHours(r: string, h: string, t: string, rest: int)
    requires AllDigits(h) && |h| >= 1 && |t| == 5
    requires ShowsMinutesSeconds(t, rest) && ValueOf(t[..2]) < 60
    requires |r| == |h| + 6 && r[..|h|] == h && r[|h|] == ':' && r[|h| + 1..] == t
    ensures ShowsHoursMinutesSeconds(r, ValueOf(h) * 3600 + rest)
  {
  }

  /** A digit field and two two-digit fields below 60, colon-separated, read back as hours, minutes and seconds. */
  lemma JoinHoursMinutesSeconds(h: string, a: string, b: string)
    requires AllDigits(h) && AllDigits(a) && AllDigits(b) && |h| >= 1 && |a| == 2 && |b| == 2
    requires ValueOf(a) < 60 && ValueOf(b) < 60
    ensures ShowsHoursMinutesSeconds(h + ":" + (a + ":" + b), ValueOf(h) * 3600 + ValueOf(a) * 60 + ValueOf(b))
    ensures (h + ":" + (a + ":" + b))[0] == h[0]
  {
    var t := a + ":" + b;
    JoinMinutesSeconds(a, b);
    ColonSplit(a, b);
    ColonSplit(h, t);
    ReadHours(h + ":" + t, h, t, ValueOf(a) * 60 + ValueOf(b));
  }

  /** The `formatTime` layout: minutes and seconds, each padded to two digits. */
  function MinutesSecondsText(minutes: int, seconds: int): string {
    Pad2(minutes) + ":" + Pad2(seconds)
  }

  /** `formatTime`: a negative input gives "00:00"; otherwise whole minutes and the remaining seconds. */
  function FormatTime(ms: int): (r: string)
    ensures ms < 0 ==> r == "00:00"
  {
    if ms < 0 then "00:00"
    else
      var totalSeconds := ms / 1000;
      MinutesSecondsText(totalSeconds / 60, totalSeconds % 60)
  }

  /** A count split into sixties and a remainder below 60. */
  lemma SplitBy60(n: int)
    requires n >= 0
    ensures (n / 60) * 60 + n % 60 == n && 0 <= n % 60 < 60
    ensures n >= 6000 ==> n / 60 >= 100
  {
  }

  /**
    A non-negative input reads back as its whole seconds. Below 100 minutes
    the text is exactly MM:SS; from 100 minutes on the minutes field is not
    capped, has three or more digits and no leading zero.
   */
  lemma FormatTimeReadsBack(ms: int)
    requires ms >= 0
    ensures ShowsMinutesSeconds(FormatTime(ms), ms / 1000)
    ensures |FormatTime(ms)| >= 5
    ensures ms < 6000000 ==> |FormatTime(ms)| == 5
    ensures ms >= 6000000 ==> |FormatTime(ms)| >= 6
    ensures FormatTime(ms)[0] == '0' ==> ms < 6000000
  {
    var total := ms / 1000;
    SplitBy60(total);
    var m, sec := total / 60, total % 60;
    assert FormatTime(ms) == MinutesSecondsText(m, sec);
    MinutesSecondsTextReads(m, sec);
  }

  /** The padded minutes-and-seconds text reads back as its two fields. */
  lemma MinutesSecondsTextReads(m: int, sec: int)
    requires 0 <= m && 0 <= sec < 60
    ensures ShowsMinutesSeconds(MinutesSecondsText(m, sec), m * 60 + sec)
    ensures |MinutesSecondsText(m, sec)| >= 5
    ensures m < 100 ==> |MinutesSecondsText(m, sec)| == 5
    ensures m >= 100 ==> |MinutesSecondsText(m, sec)| >= 6 && MinutesSecondsText(m, sec)[0] != '0'
  {
    if m < 100 {
      Pad2Field(m);
    }
    Pad2Wide(m);
    Pad2Field(sec);
    JoinMinutesSeconds(Pad2(m), Pad2(sec));
  }

  /** Inputs within the same whole second format identically. */
  lemma FormatTimeBySecond(a: int, b: int)
    requires 0 <= a && 0 <= b && a / 1000 == b / 1000
    ensures FormatTime(a) == FormatTime(b)
  {
  }

  /**
    JavaScript's `%` for a positive divisor: it differs from the dividend by
    a multiple of the divisor, is smaller than the divisor in magnitude, and
    takes the dividend's sign.
   */
  function JsRemainder(a: int, b: int): (r: int)
    requires b > 0
    ensures (a - r) % b == 0
    ensures a >= 0 ==> 0 <= r < b && r == a % b
    ensures a < 0 ==> -b < r <= 0
  {
    if a >= 0 then
      var q, m := a / b, a % b;
      assert a - m == q * b;
      MultipleMod(q, b);
      m
    else
      var q, m := (-a) / b, (-a) % b;
      assert -a == q * b + m;
      assert a + m == (-q) * b;
      MultipleMod(-q, b);
      -m
  }

  /** A multiple of the divisor leaves no remainder. */
  lemma MultipleMod(k: int, b: int)
    requires b > 0
    ensures (k * b) % b == 0
  {
    var d, m := (k * b) / b, (k * b) % b;
    assert b * (k - d) == m;
    if k - d >= 1 {
      MulAtLeast(b, k - d);
    } else if k - d <= -1 {
      MulAtLeast(b, d - k);
    }
  }

  lemma MulAtLeast(b: int, t: int)
    requires b > 0 && t >= 1
    ensures b * t >= b
  {
  }

  const MsPerHour := 3600000

  /** The long `formatDuration` layout: unpadded hours, then minutes and seconds padded to two digits. */
  function HoursText(hours: int, minutes: int, seconds: int): string {
    IntToString(hours) + ":" + MinutesSecondsText(minutes, seconds)
  }

  /** The short `formatDuration` layout: unpadded minutes, then seconds padded to two digits. */
  function MinutesText(minutes: int, seconds: int): string {
    IntToString(minutes) + ":" + Pad2(seconds)
  }

  /**
    `formatDuration`. `Math.floor(x / k)` with positive `k` is Dafny's
    division; the remainders use JavaScript's `%`.
   */
  function FormatDuration(durationMs: int): (r: string)
    ensures 4 <= |r|
  {
    var seconds := durationMs / 1000;
    var minutes := seconds / 60;
    var hours := minutes / 60;
    var remainingMinutes := JsRemainder(minutes, 60);
    var remainingSeconds := JsRemainder(seconds, 60);
    if hours > 0 then HoursText(hours, remainingMinutes, remainingSeconds)
    else MinutesText(minutes, remainingSeconds)
  }

  /** Whole seconds split into hours, minutes below 60 and seconds below 60. */
  lemma SplitHours(seconds: int)
    requires seconds >= 0
    ensures (seconds / 60 / 60) * 3600 + (seconds / 60) % 60 * 60 + seconds % 60 == seconds
    ensures 0 <= (seconds / 60) % 60 < 60 && 0 <= seconds % 60 < 60
  {
    SplitBy60(seconds);
    SplitBy60(seconds / 60);
  }

  /** The long layout reads back as its three fields; it starts with a non-zero digit. */
  lemma HoursTextReads(h: int, m: int, sec: int)
    requires h >= 1 && 0 <= m < 60 && 0 <= sec < 60
    ensures ShowsHoursMinutesSeconds(HoursText(h, m, sec), h * 3600 + m * 60 + sec)
    ensures HoursText(h, m, sec)[0] != '0'
  {
    var hh, mm, ss := NatToString(h), Pad2(m), Pad2(sec);
    assert HoursText(h, m, sec) == hh + ":" + (mm + ":" + ss);
    ValueOfNatToString(h);
    Pad2Field(m);
    Pad2Field(sec);
    JoinHoursMinutesSeconds(hh, mm, ss);
    assert ValueOf(hh) * 3600 + ValueOf(mm) * 60 + ValueOf(ss) == h * 3600 + m * 60 + sec;
  }

  /** The long layout holds exactly two colons. */
  lemma HoursTextColons(h: int, m: int, sec: int)
    requires h >= 1 && 0 <= m < 60 && 0 <= sec < 60
    ensures Occurrences(HoursText(h, m, sec), ':') == 2
  {
    Pad2Field(m);
    Pad2Field(sec);
    TwoColons(NatToString(h), Pad2(m), Pad2(sec));
  }

  /** The short layout reads back as its two fields. */
  lemma MinutesTextReads(m: int, sec: int)
    requires 0 <= m && 0 <= sec < 60
    ensures ShowsMinutesSeconds(MinutesText(m, sec), m * 60 + sec)
  {
    var mm, ss := NatToString(m), Pad2(sec);
    ValueOfNatToString(m);
    Pad2Field(sec);
    JoinMinutesSeconds(mm, ss);
    var r := mm + ":" + ss;
    assert ShowsMinutesSeconds(r, m * 60 + sec);
    assert MinutesText(m, sec) == r;
  }

  /** Below an hour the short layout's minutes are one or two digits, with a leading zero only for zero. */
  lemma MinutesTextWidth(m: int, sec: int)
    requires 0 <= m < 60 && 0 <= sec < 60
    ensures |MinutesText(m, sec)| == 4 || |MinutesText(m, sec)| == 5
    ensures MinutesText(m, sec)[0] == '0' ==> m == 0 && |MinutesText(m, sec)| == 4
  {
    var mm, ss := NatToString(m), Pad2(sec);
    Pad2Field(sec);
    var r := mm + ":" + ss;
    assert r[0] == mm[0];
    assert MinutesText(m, sec) == r;
  }

  /** The short layout holds exactly one colon. */
  lemma MinutesTextColons(m: int, sec: int)
    requires 0 <= m && 0 <= sec < 60
    ensures Occurrences(MinutesText(m, sec), ':') == 1
  {
    Pad2Field(sec);
    OneColon(NatToString(m), Pad2(sec));
  }

  /** Two digit fields joined by a colon hold exactly one colon. */
  lemma OneColon(a: string, b: string)
    requires AllDigits(a) && AllDigits(b)
    ensures Occurrences(a + ":" + b, ':') == 1
  {
    NoColonInDigits(a);
    NoColonInDigits(b);
    OccurrencesConcat(a, ":", ':');
    OccurrencesConcat(a + ":", b, ':');
  }

  /** A digit field and a colon before two colon-joined digit fields make exactly two colons. */
  lemma TwoColons(h: string, a: string, b: string)
    requires AllDigits(h) && AllDigits(a) && AllDigits(b)
    ensures Occurrences(h + ":" + (a + ":" + b), ':') == 2
  {
    OneColon(a, b);
    NoColonInDigits(h);
    OccurrencesConcat(h, ":", ':');
    OccurrencesConcat(h + ":", a + ":" + b, ':');
  }

  /**
    From one hour up: unpadded hours (never a leading zero), then minutes
    and seconds as two digits each; the text reads back as the input's
    whole seconds and has exactly two colons.
   */
  lemma FormatDurationLong(durationMs: int)
    requires durationMs >= MsPerHour
    ensures ShowsHoursMinutesSeconds(FormatDuration(durationMs), durationMs / 1000)
    ensures FormatDuration(durationMs)[0] != '0'
    ensures Occurrences(FormatDuration(durationMs), ':') == 2
  {
    var seconds := durationMs / 1000;
    SplitHours(seconds);
    var h, m, sec := seconds / 60 / 60, (seconds / 60) % 60, seconds % 60;
    assert h >= 1;
    var r := HoursText(h, m, sec);
    assert FormatDuration(durationMs) == r;
    HoursTextReads(h, m, sec);
    HoursTextColons(h, m, sec);
    assert h * 3600 + m * 60 + sec == durationMs / 1000;
  }

  /**
    Below one hour: unpadded minutes (one or two digits, a leading zero
    only for zero minutes), a colon and two digits of seconds; the text
    reads back as the input's whole seconds and has exactly one colon.
   */
  lemma FormatDurationShort(durationMs: int)
    requires 0 <= durationMs < MsPerHour
    ensures ShowsMinutesSeconds(FormatDuration(durationMs), durationMs / 1000)
    ensures |FormatDuration(durationMs)| == 4 || |FormatDuration(durationMs)| == 5
    ensures FormatDuration(durationMs)[0] == '0' ==> |FormatDuration(durationMs)| == 4
    ensures Occurrences(FormatDuration(durationMs), ':') == 1
  {
    var seconds := durationMs / 1000;
    SplitBy60(seconds);
    assert seconds < 3600;
    assert FormatDuration(durationMs) == MinutesText(seconds / 60, seconds % 60);
    MinutesTextReads(seconds / 60, seconds % 60);
    MinutesTextWidth(seconds / 60, seconds % 60);
    MinutesTextColons(seconds / 60, seconds % 60);
  }

  /** For a non-negative duration, the hours form (two colons) is used exactly from one hour up. */
  lemma FormatDurationHoursIff(durationMs: int)
    requires durationMs >= 0
    ensures Occurrences(FormatDuration(durationMs), ':') == 2 <==> durationMs >= MsPerHour
  {
    if durationMs >= MsPerHour {
      FormatDurationLong(durationMs);
    } else {
      FormatDurationShort(durationMs);
    }
  }
}
