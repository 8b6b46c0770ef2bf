/** "How long ago" buckets: `getTimeAgo` in lambda-function/index.js and
    `formatTime` in src/components/Hero.jsx. Times are integer milliseconds;
    the locale date string of the last bucket is left abstract. */
module Elapsed {
  import opened Js
  import opened Text

  /** The bucket a time difference falls into, with its count. */
  datatype Elapsed = Never | JustNow | MinutesAgo(n: nat) | HoursAgo(n: nat) | DaysAgo(n: nat) | OnDate

  /** `Math.floor((now - then) / 1000)`: Dafny's `/` rounds toward negative
      infinity for a positive divisor, as `Math.floor` does. */
  function Seconds(nowMs: int, thenMs: int): (s: int)
    ensures s * 1000 <= nowMs - thenMs < (s + 1) * 1000
  {
    (nowMs - thenMs) / 1000
  }

  /** `getTimeAgo`: under a minute (a date in the future included) is 'just
      now'; then whole minutes, hours and days; from a week on, the date. */
  function TimeAgo(nowMs: int, thenMs: int): (r: Elapsed)
    ensures var s := Seconds(nowMs, thenMs);
      && (r == JustNow <==> s < 60)
      && (r.MinutesAgo? <==> 60 <= s < 3600)
      && (r.HoursAgo? <==> 3600 <= s < 86400)
      && (r.DaysAgo? <==> 86400 <= s < 604800)
      && (r == OnDate <==> 604800 <= s)
      && (r.MinutesAgo? ==> 1 <= r.n <= 59 && r.n * 60 <= s < (r.n + 1) * 60)
      && (r.HoursAgo? ==> 1 <= r.n <= 23 && r.n * 3600 <= s < (r.n + 1) * 3600)
      && (r.DaysAgo? ==> 1 <= r.n <= 6 && r.n * 86400 <= s < (r.n + 1) * 86400)
  {
    var s := Seconds(nowMs, thenMs);
    if s < 60 then JustNow
    else if s < 3600 then MinutesAgo(s / 60)
    else if s < 86400 then HoursAgo(s / 3600)
    else if s < 604800 then DaysAgo(s / 86400)
    else OnDate
  }

  /** Hero's `formatTime`: no refresh yet is 'Never'; otherwise the buckets of
      `getTimeAgo` up to a day, and the date from a day on (there is no days
      bucket). */
  function FormatTime(last: Option<int>, nowMs: int): (r: Elapsed)
    ensures last.None? <==> r == Never
    ensures last.Some? ==> (r == JustNow <==> Seconds(nowMs, last.value) < 60)
    ensures last.Some? ==> (r == OnDate <==> 86400 <= Seconds(nowMs, last.value))
    ensures !r.DaysAgo?
  {
    match last
    case None => Never
    case Some(t) =>
      var s := Seconds(nowMs, t);
      if s < 60 then JustNow
      else if s < 3600 then MinutesAgo(s / 60)
      else if s < 86400 then HoursAgo(s / 3600)
      else OnDate
  }

  /** The two clocks agree below a day; from a day on, Hero shows the date
      where the aggregator still counts days for a week. */
  lemma HeroAgreesBelowOneDay(nowMs: int, thenMs: int)
    ensures Seconds(nowMs, thenMs) < 86400 ==> FormatTime(Some(thenMs), nowMs) == TimeAgo(nowMs, thenMs)
    ensures 86400 <= Seconds(nowMs, thenMs) < 604800 ==>
      FormatTime(Some(thenMs), nowMs) == OnDate && TimeAgo(nowMs, thenMs).DaysAgo?
  {
  }

  /** The order of the buckets, finest first. */
  function Rank(e: Elapsed): nat {
    match e
    case Never => 0
    case JustNow => 1
    case MinutesAgo(_) => 2
    case HoursAgo(_) => 3
    case DaysAgo(_) => 4
    case OnDate => 5
  }

  /** An older time never lands in a finer bucket, nor in a smaller count of
      the same bucket. */
  lemma TimeAgoMonotone(nowMs: int, t1: int, t2: int)
    requires t2 <= t1
    ensures Rank(TimeAgo(nowMs, t1)) <= Rank(TimeAgo(nowMs, t2))
    ensures var a, b := TimeAgo(nowMs, t1), TimeAgo(nowMs, t2);
      Rank(a) == Rank(b) && (a.MinutesAgo? || a.HoursAgo? || a.DaysAgo?) ==> a.n <= b.n
  {
    assert Seconds(nowMs, t1) <= Seconds(nowMs, t2);
  }

  /** The aggregator's text for a bucket; `date` stands for
      `toLocaleDateString()`. */
  function TimeAgoText(e: Elapsed, date: string): (r: string)
    requires !e.Never?
    ensures e.MinutesAgo? ==> r == NatToString(e.n) + " minutes ago"
    ensures e.OnDate? ==> r == date
  {
    match e
    case JustNow => "just now"
    case MinutesAgo(n) => NatToString(n) + " minutes ago"
    case HoursAgo(n) => NatToString(n) + " hours ago"
    case DaysAgo(n) => NatToString(n) + " days ago"
    case OnDate => date
  }

  /** Hero's text for a bucket; `date` stands for `toLocaleDateString()`. */
  function FormatTimeText(e: Elapsed, date: string): (r: string)
    requires !e.DaysAgo?
    ensures e.Never? ==> r == "Never"
    ensures e.OnDate? ==> r == date
  {
    match e
    case Never => "Never"
    case JustNow => "Just now"
    case MinutesAgo(n) => NatToString(n) + " minutes ago"
    case HoursAgo(n) => NatToString(n) + " hours ago"
    case OnDate => date
  }
}
