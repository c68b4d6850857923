/** Relative-time text of a story's Unix timestamp (`timeago`). The clock is
    a parameter `now` (seconds since the epoch) instead of a call to the
    system clock. Durations are Go `time.Duration` values, in nanoseconds. */
module TimeAgo {
  import opened Decimal

  const Second: int := 1_000_000_000
  const Minute: int := 60 * Second
  const Hour: int := 3600 * Second

  /** Go's integer `/`: the quotient truncated toward zero. */
  function GoQuo(a: int, b: int): (q: int)
    requires b > 0
    ensures a >= 0 ==> 0 <= a - q * b < b
    ensures a < 0 ==> -b < a - q * b <= 0
  {
    if a >= 0 then a / b else -((-a) / b)
  }

  /** The bucket and count a relative time is printed with. */
  datatype Ago = Minutes(n: int) | Hours(n: int) | OneDay | Days(n: int)

  function Render(a: Ago): string {
    match a
    case Minutes(n) => IntToString(n) + " minutes ago"
    case Hours(n) => IntToString(n) + " hours ago"
    case OneDay => "1 day ago"
    case Days(n) => IntToString(n) + " days ago"
  }

  /** The word before " ago" ends in a letter that tells the bucket apart. */
  function Marker(a: Ago): char {
    match a
    case Minutes(_) => 'e'
    case Hours(_) => 'r'
    case OneDay => 'a'
    case Days(_) => 'y'
  }

  function Suffix(a: Ago): string {
    match a
    case Minutes(_) => " minutes ago"
    case Hours(_) => " hours ago"
    case OneDay => " day ago"
    case Days(_) => " days ago"
  }

  lemma RenderShape(a: Ago)
    ensures var t := Render(a);
      && |t| >= |Suffix(a)| + 1
      && t[|t| - 6] == Marker(a)
      && (!a.OneDay? ==> t[..|t| - |Suffix(a)|] == IntToString(a.n))
  {
  }

  /** Distinct buckets or counts print as distinct texts. */
  lemma RenderInjective(a: Ago, b: Ago)
    ensures Render(a) == Render(b) ==> a == b
  {
    if Render(a) == Render(b) {
      RenderShape(a);
      RenderShape(b);
      assert Marker(a) == Marker(b);
      if !a.OneDay? {
        IntToStringInjective(a.n, b.n);
      }
    }
  }

  /** `timeago` as the program computes it: the minutes branch divides the
      nanosecond delta by the plain number 60. */
  function Bucket(ts: int, now: int): Ago {
    var delta := (now - ts) * Second;
    if delta < Hour then Minutes(GoQuo(delta, 60))
    else if delta < Hour * 24 then Hours(GoQuo(delta, 3600 * Second))
    else
      var dd := GoQuo(delta, 86400 * Second);
      if dd == 1 then OneDay else Days(dd)
  }

  function TimeAgoText(ts: int, now: int): string {
    Render(Bucket(ts, now))
  }

  /** The same function with the minutes branch dividing by a minute of
      nanoseconds, as the "minutes ago" text evidently intends. */
  function IntendedBucket(ts: int, now: int): Ago {
    var delta := (now - ts) * Second;
    if delta < Hour then Minutes(GoQuo(delta, Minute))
    else Bucket(ts, now)
  }

  /** The three buckets, stated on the delta in seconds: under an hour (including
      timestamps in the future) the minutes branch; from 3600 s to under 86400 s
      a whole number of hours from 1 to 23; from 86400 s on a whole number of days,
      singular exactly when that number is 1. */
  lemma BucketBoundaries(ts: int, now: int)
    ensures var d := now - ts; var a := Bucket(ts, now);
      && (d < 3600 <==> a.Minutes?)
      && (3600 <= d < 86400 <==> a.Hours?)
      && (3600 <= d < 86400 ==> a.n == d / 3600 && 1 <= a.n <= 23)
      && (86400 <= d < 172800 <==> a.OneDay?)
      && (172800 <= d <==> a.Days?)
      && (172800 <= d ==> a.n == d / 86400 && a.n >= 2)
  {
  }

  /** What the minutes branch prints as written: for any positive delta under an
      hour it prints the delta in nanoseconds divided by 60, which is more than
      any count of minutes in an hour. */
  lemma MinutesAsWritten(ts: int, now: int)
    requires 0 < now - ts < 3600
    ensures Bucket(ts, now) == Minutes((now - ts) * Second / 60)
    ensures Bucket(ts, now).n >= 16_666_666
  {
  }

  /** Thirty minutes ago is printed as thirty billion minutes ago. */
  lemma ThirtyMinutesAsWritten(now: int)
    ensures TimeAgoText(now - 1800, now) != "30 minutes ago"
    ensures Bucket(now - 1800, now) == Minutes(30_000_000_000)
  {
    assert Bucket(now - 1800, now) == Minutes(30_000_000_000);
    assert Render(Minutes(30)) == "30 minutes ago";
    RenderInjective(Minutes(30_000_000_000), Minutes(30));
  }

  /** A timestamp one second in the future falls in the minutes branch with a
      negative count, truncated toward zero. */
  lemma FutureTimestamp(now: int)
    ensures Bucket(now + 1, now) == Minutes(-16_666_666)
  {
  }

  /** The boundaries as printed: exactly one hour is "1 hours ago", exactly one
      day the singular "1 day ago". */
  lemma HourExamples(now: int)
    ensures TimeAgoText(now - 3600, now) == "1 hours ago"
    ensures TimeAgoText(now - 7200, now) == "2 hours ago"
  {
  }

  lemma DayExamples(now: int)
    ensures TimeAgoText(now - 86400, now) == "1 day ago"
    ensures TimeAgoText(now - 3 * 86400, now) == "3 days ago"
  {
  }

  /** The corrected minutes branch prints the whole minutes elapsed (0 to 59 for
      a delta under an hour, truncated toward zero for future timestamps) and
      agrees with the program in the hour and day buckets. */
  lemma IntendedMinutes(ts: int, now: int)
    ensures var d := now - ts; var a := IntendedBucket(ts, now);
      && (d < 3600 ==> a == Minutes(GoQuo(d, 60)))
      && (0 <= d < 3600 ==> 0 <= a.n <= 59)
      && (d >= 3600 ==> a == Bucket(ts, now))
  {
  }
}
