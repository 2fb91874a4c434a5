/**
 * The read side of the session service: the store queries behind the
 * "today", "daily progress" and "weekly progress" endpoints, written as
 * functions over the session collection (in store order), and the
 * properties of the daily summary and of the weekly per-date grouping.
 */
module Progress {
  import opened Models

  /** Retrieval cap of the today/daily queries. */
  const DAILY_LIMIT: nat := 100
  /** Retrieval cap of the weekly query. */
  const WEEKLY_LIMIT: nat := 1000
  /** The weekly window starts this many days before today. */
  const WINDOW_DAYS: nat := 7

  /** The two filters the session collection is queried with. */
  datatype DateFilter =
    | On(date: Date)                  // {"session_date": d}
    | Between(low: Date, high: Date)  // {"session_date": {"$gte": low, "$lte": high}}

  /** Whether a session satisfies the filter. */
  predicate Matches(f: DateFilter, s: Session) {
    match f
    case On(d) => s.sessionDate == d
    case Between(lo, hi) => lo <= s.sessionDate <= hi
  }

  /** `find(filter)`: the matching sessions, in store order. */
  function Find(ss: seq<Session>, f: DateFilter): (r: seq<Session>)
    ensures |r| <= |ss|
    ensures forall s :: s in r <==> s in ss && Matches(f, s)
    decreases |ss|
  {
    if ss == [] then []
    else
      var init, last := ss[..|ss| - 1], ss[|ss| - 1];
      assert ss == init + [last];
      var r := Find(init, f);
      if Matches(f, last) then r + [last] else r
  }

  /** The positions of `ss` holding a session that matches `f`, in increasing order. */
  function MatchPositions(ss: seq<Session>, f: DateFilter): (idx: seq<int>)
    ensures forall k :: 0 <= k < |idx| ==> 0 <= idx[k] < |ss| && Matches(f, ss[idx[k]])
    ensures forall k, l :: 0 <= k < l < |idx| ==> idx[k] < idx[l]
    ensures forall i :: 0 <= i < |ss| && Matches(f, ss[i]) ==> i in idx
    decreases |ss|
  {
    if ss == [] then []
    else
      var init := ss[..|ss| - 1];
      var rest := MatchPositions(init, f);
      if Matches(f, ss[|ss| - 1]) then rest + [|ss| - 1] else rest
  }

  /**
   * `find` returns each matching session once, in store order: its k-th
   * answer is the session at the k-th matching position.
   */
  lemma {:induction false} FindInStoreOrder(ss: seq<Session>, f: DateFilter)
    ensures |Find(ss, f)| == |MatchPositions(ss, f)|
    ensures forall k :: 0 <= k < |Find(ss, f)| ==> Find(ss, f)[k] == ss[MatchPositions(ss, f)[k]]
    decreases |ss|
  {
    if ss != [] {
      var init, last := ss[..|ss| - 1], ss[|ss| - 1];
      assert ss == init + [last];
      FindInStoreOrder(init, f);
      FindSnoc(init, last, f);
      MatchPositionsSnoc(init, last, f);
      StoreOrderSnoc(init, last, Find(init, f), MatchPositions(init, f), Matches(f, last));
    }
  }

  /** One more session appends its position to the matching positions when it matches. */
  lemma MatchPositionsSnoc(ss: seq<Session>, s: Session, f: DateFilter)
    ensures MatchPositions(ss + [s], f) == if Matches(f, s) then MatchPositions(ss, f) + [|ss|] else MatchPositions(ss, f)
  {
    assert (ss + [s])[..|ss|] == ss;
  }

  /** Appending a session keeps "the k-th answer sits at the k-th position" true. */
  lemma StoreOrderSnoc(ss: seq<Session>, s: Session, r: seq<Session>, idx: seq<int>, hit: bool)
    requires |r| == |idx|
    requires forall k :: 0 <= k < |idx| ==> 0 <= idx[k] < |ss|
    requires forall k :: 0 <= k < |r| ==> r[k] == ss[idx[k]]
    ensures var r', idx' := (if hit then r + [s] else r), (if hit then idx + [|ss|] else idx);
      |r'| == |idx'| && forall k :: 0 <= k < |r'| ==> r'[k] == (ss + [s])[idx'[k]]
  {
  }

  /** The set of positions of `ss` holding a session that matches `f`. */
  function MatchSet(ss: seq<Session>, f: DateFilter): set<int> {
    set i | 0 <= i < |ss| && Matches(f, ss[i])
  }

  /** One more session adds its position to the matching positions when it matches. */
  lemma MatchSetSnoc(ss: seq<Session>, s: Session, f: DateFilter)
    ensures MatchSet(ss + [s], f) == MatchSet(ss, f) + (if Matches(f, s) then {|ss|} else {})
    ensures |ss| !in MatchSet(ss, f)
  {
    forall i | 0 <= i < |ss| ensures (ss + [s])[i] == ss[i] {
    }
  }

  /** `find` returns as many sessions as there are stored sessions matching the filter. */
  lemma {:induction false} FindCountsMatches(ss: seq<Session>, f: DateFilter)
    ensures |Find(ss, f)| == |MatchSet(ss, f)|
    decreases |ss|
  {
    if ss != [] {
      var init, last := ss[..|ss| - 1], ss[|ss| - 1];
      assert ss == init + [last];
      FindCountsMatches(init, f);
      FindSnoc(init, last, f);
      MatchSetSnoc(init, last, f);
    }
  }

  /** `to_list(n)`: the first `n` results, or all of them when there are fewer. */
  function Take(ss: seq<Session>, n: nat): (r: seq<Session>)
    ensures r <= ss
    ensures forall s :: s in r ==> s in ss
    ensures |r| == if |ss| <= n then |ss| else n
  {
    if |ss| <= n then ss else ss[..n]
  }

  /** A query over a store with one more session: the old answer, plus the session if it matches. */
  lemma FindSnoc(ss: seq<Session>, s: Session, f: DateFilter)
    ensures Find(ss + [s], f) == if Matches(f, s) then Find(ss, f) + [s] else Find(ss, f)
  {
    assert (ss + [s])[..|ss|] == ss;
  }

  /** The four counters a summary keeps. */
  datatype Metric = SessionCount | CompletedCount | SittingTime | ActivityTime

  /** What one session adds to a counter. */
  function Weight(k: Metric, s: Session): int {
    match k
    case SessionCount => 1
    case CompletedCount => if s.completed then 1 else 0
    case SittingTime => s.sittingDuration
    case ActivityTime => s.activityDuration
  }

  /** The counter `k` summed over `ss`. */
  function Total(ss: seq<Session>, k: Metric): int
    decreases |ss|
  {
    if ss == [] then 0 else Total(ss[..|ss| - 1], k) + Weight(k, ss[|ss| - 1])
  }

  /** The counter `k` as it stands in a bucket. */
  function Field(b: DayStats, k: Metric): int {
    match k
    case SessionCount => b.totalSessions
    case CompletedCount => b.completedSessions
    case SittingTime => b.totalSittingTime
    case ActivityTime => b.totalActivityTime
  }

  /** The bucket for date `d` holding the sessions `ss`. */
  function Summarize(d: Date, ss: seq<Session>): DayStats {
    DayStats(d, Total(ss, SessionCount), Total(ss, CompletedCount),
             Total(ss, SittingTime), Total(ss, ActivityTime))
  }

  /** A counter over one more session grows by that session's weight. */
  lemma TotalSnoc(ss: seq<Session>, s: Session, k: Metric)
    ensures Total(ss + [s], k) == Total(ss, k) + Weight(k, s)
  {
    assert (ss + [s])[..|ss|] == ss;
  }

  /** Adding one session to a bucket adds its weight to each counter. */
  lemma SummarizeSnoc(d: Date, ss: seq<Session>, s: Session)
    ensures forall k :: Field(Summarize(d, ss + [s]), k) == Field(Summarize(d, ss), k) + Weight(k, s)
  {
    TotalSnoc(ss, s, SessionCount);
    TotalSnoc(ss, s, CompletedCount);
    TotalSnoc(ss, s, SittingTime);
    TotalSnoc(ss, s, ActivityTime);
  }

  /** Asking for one day when every session is dated that day returns every session. */
  lemma {:induction false} FindAllOnDay(ss: seq<Session>, d: Date)
    requires forall i :: 0 <= i < |ss| ==> ss[i].sessionDate == d
    ensures Find(ss, On(d)) == ss
    decreases |ss|
  {
    if ss != [] {
      var init, last := ss[..|ss| - 1], ss[|ss| - 1];
      assert ss == init + [last];
      FindAllOnDay(init, d);
    }
  }

  /** The session counter of a list is its length. */
  lemma {:induction false} SessionCountIsLength(ss: seq<Session>)
    ensures Total(ss, SessionCount) == |ss|
    decreases |ss|
  {
    if ss != [] {
      SessionCountIsLength(ss[..|ss| - 1]);
    }
  }

  /** The indices of the completed sessions of `ss`. */
  function CompletedIndices(ss: seq<Session>): set<int> {
    set i | 0 <= i < |ss| && ss[i].completed
  }

  /** The completed counter counts exactly the sessions flagged completed. */
  lemma {:induction false} CompletedCountIsIndexCount(ss: seq<Session>)
    ensures Total(ss, CompletedCount) == |CompletedIndices(ss)|
    decreases |ss|
  {
    if ss != [] {
      var init, last := ss[..|ss| - 1], ss[|ss| - 1];
      CompletedCountIsIndexCount(init);
      assert |ss| - 1 !in CompletedIndices(init);
      if last.completed {
        assert CompletedIndices(ss) == CompletedIndices(init) + {|ss| - 1};
      } else {
        assert CompletedIndices(ss) == CompletedIndices(init);
      }
    }
  }

  /** The completed counter lies between zero and the session counter. */
  lemma {:induction false} CompletedWithinTotal(ss: seq<Session>)
    ensures 0 <= Total(ss, CompletedCount) <= Total(ss, SessionCount) == |ss|
    decreases |ss|
  {
    SessionCountIsLength(ss);
    if ss != [] {
      CompletedWithinTotal(ss[..|ss| - 1]);
    }
  }

  // ---------------------------------------------------------------------
  // Today's sessions and the daily summary

  /** The query behind "today's sessions": today's sessions, capped at 100. */
  function TodaySessions(ss: seq<Session>, today: Date): (r: seq<Session>)
    ensures forall s :: s in r ==> s in ss && s.sessionDate == today
    ensures r <= Find(ss, On(today))
    ensures |Find(ss, On(today))| <= DAILY_LIMIT ==> r == Find(ss, On(today))
    ensures |r| == if |Find(ss, On(today))| <= DAILY_LIMIT then |Find(ss, On(today))| else DAILY_LIMIT
    ensures r == [] <==> forall s :: s in ss ==> s.sessionDate != today
  {
    var all := Find(ss, On(today));
    assert all != [] ==> all[0] in all;
    Take(all, DAILY_LIMIT)
  }

  /** The daily-progress summary over today's (capped) sessions. */
  function Daily(ss: seq<Session>, today: Date): (p: DailyProgress)
    ensures p.date == today && p.sessions == TodaySessions(ss, today)
    ensures p.totalSessions == |p.sessions| <= DAILY_LIMIT
    ensures 0 <= p.completedSessions <= p.totalSessions
    ensures p.completedSessions == |CompletedIndices(p.sessions)|
    ensures p.totalSittingTime == Total(p.sessions, SittingTime)
    ensures p.totalActivityTime == Total(p.sessions, ActivityTime)
    ensures (forall s :: s in ss ==> s.sessionDate != today) ==>
      p.sessions == [] && p.totalSessions == p.completedSessions == p.totalSittingTime == p.totalActivityTime == 0
  {
    var ts := TodaySessions(ss, today);
    CompletedWithinTotal(ts);
    CompletedCountIsIndexCount(ts);
    DailyProgress(today, |ts|, Total(ts, CompletedCount), Total(ts, SittingTime), Total(ts, ActivityTime), ts)
  }

  /** The daily session count is the number of stored sessions dated today, capped at 100. */
  lemma DailyCountsStoredToday(ss: seq<Session>, today: Date)
    ensures var n := |MatchSet(ss, On(today))|;
      Daily(ss, today).totalSessions == if n <= DAILY_LIMIT then n else DAILY_LIMIT
  {
    FindCountsMatches(ss, On(today));
  }

  /** Storing one more session dated today (below the cap) adds it to every daily counter. */
  lemma DailyAfterCreate(ss: seq<Session>, s: Session, today: Date)
    requires s.sessionDate == today
    requires |Find(ss, On(today))| < DAILY_LIMIT
    ensures Daily(ss + [s], today).sessions == Daily(ss, today).sessions + [s]
    ensures Daily(ss + [s], today).totalSessions == Daily(ss, today).totalSessions + 1
    ensures Daily(ss + [s], today).completedSessions == Daily(ss, today).completedSessions + (if s.completed then 1 else 0)
    ensures Daily(ss + [s], today).totalSittingTime == Daily(ss, today).totalSittingTime + s.sittingDuration
    ensures Daily(ss + [s], today).totalActivityTime == Daily(ss, today).totalActivityTime + s.activityDuration
  {
    FindSnoc(ss, s, On(today));
    var before := Find(ss, On(today));
    TotalSnoc(before, s, CompletedCount);
    TotalSnoc(before, s, SittingTime);
    TotalSnoc(before, s, ActivityTime);
  }

  /** Storing a session dated another day leaves the daily summary as it was. */
  lemma DailyIgnoresOtherDays(ss: seq<Session>, s: Session, today: Date)
    requires s.sessionDate != today
    ensures Daily(ss + [s], today) == Daily(ss, today)
  {
    FindSnoc(ss, s, On(today));
  }

  // ---------------------------------------------------------------------
  // The weekly grouping

  /** The sessions the weekly endpoint groups: dated in [today - 7, today], capped at 1000. */
  function WeekSessions(ss: seq<Session>, today: Date): (r: seq<Session>)
    ensures |r| <= WEEKLY_LIMIT
    ensures forall s :: s in r ==> s in ss && today - WINDOW_DAYS <= s.sessionDate <= today
    ensures r <= Find(ss, Between(today - WINDOW_DAYS, today))
    ensures |r| == if |Find(ss, Between(today - WINDOW_DAYS, today))| <= WEEKLY_LIMIT
                   then |Find(ss, Between(today - WINDOW_DAYS, today))| else WEEKLY_LIMIT
    ensures |Find(ss, Between(today - WINDOW_DAYS, today))| <= WEEKLY_LIMIT ==>
      r == Find(ss, Between(today - WINDOW_DAYS, today))
  {
    Take(Find(ss, Between(today - WINDOW_DAYS, today)), WEEKLY_LIMIT)
  }

  /** Some session of `ss` is dated `d`. */
  predicate HasDate(ss: seq<Session>, d: Date) {
    exists i :: 0 <= i < |ss| && ss[i].sessionDate == d
  }

  /** A date occurs in a list with one more session iff it occurred before or is that session's date. */
  lemma HasDateSnoc(ss: seq<Session>, s: Session)
    ensures forall d :: HasDate(ss + [s], d) <==> HasDate(ss, d) || s.sessionDate == d
  {
    forall d ensures HasDate(ss + [s], d) <==> HasDate(ss, d) || s.sessionDate == d {
      if HasDate(ss, d) {
        var i :| 0 <= i < |ss| && ss[i].sessionDate == d;
        assert (ss + [s])[i] == ss[i];
      }
      if s.sessionDate == d {
        assert (ss + [s])[|ss|] == s;
      }
      if HasDate(ss + [s], d) && s.sessionDate != d {
        var i :| 0 <= i < |ss| + 1 && (ss + [s])[i].sessionDate == d;
        assert ss[i] == (ss + [s])[i];
      }
    }
  }

  /** The dates of `ss` without repeats, each where it first occurs: the key order of the grouping dictionary. */
  function FirstSeen(ss: seq<Session>): (keys: seq<Date>)
    ensures forall i, j :: 0 <= i < j < |keys| ==> keys[i] != keys[j]
    ensures forall d :: d in keys <==> HasDate(ss, d)
    decreases |ss|
  {
    if ss == [] then []
    else
      var init, last := ss[..|ss| - 1], ss[|ss| - 1];
      assert ss == init + [last];
      HasDateSnoc(init, last);
      var keys := FirstSeen(init);
      if last.sessionDate in keys then keys else keys + [last.sessionDate]
  }

  /** The position where date `d` first occurs in `ss`. */
  function FirstIndex(ss: seq<Session>, d: Date): (i: nat)
    requires HasDate(ss, d)
    ensures i < |ss| && ss[i].sessionDate == d
    ensures forall j :: 0 <= j < i ==> ss[j].sessionDate != d
    decreases |ss|
  {
    var init, last := ss[..|ss| - 1], ss[|ss| - 1];
    assert ss == init + [last];
    HasDateSnoc(init, last);
    if HasDate(init, d) then FirstIndex(init, d) else |ss| - 1
  }

  /** One bucket per date of `keys`, summarizing that date's sessions of `m`. */
  function BucketsFor(m: seq<Session>, keys: seq<Date>): seq<DayStats> {
    seq(|keys|, j requires 0 <= j < |keys| => Summarize(keys[j], Find(m, On(keys[j]))))
  }

  /**
   * The state of the grouping dictionary after the sessions `ms`: its keys,
   * in insertion order, are the dates first seen in `ms`, and each date's
   * bucket summarizes that date's sessions.
   */
  ghost predicate Grouped(ms: seq<Session>, keys: seq<Date>, stats: map<Date, DayStats>) {
    keys == FirstSeen(ms)
    && (forall d :: d in stats <==> d in keys)
    && (forall d :: d in stats ==> stats[d] == Summarize(d, Find(ms, On(d))))
  }

  /**
   * The bucket for the session's date after one loop iteration: the stored
   * bucket, or a zeroed one for a new date, with the session counted in.
   */
  function Bumped(stats: map<Date, DayStats>, s: Session): DayStats {
    var d := s.sessionDate;
    Bump(if d in stats then stats[d] else DayStats(d, 0, 0, 0, 0), s)
  }

  /** The bucket `b` with the session `s` counted in. */
  function Bump(b: DayStats, s: Session): DayStats {
    b.(totalSessions := b.totalSessions + 1,
       completedSessions := b.completedSessions + (if s.completed then 1 else 0),
       totalSittingTime := b.totalSittingTime + s.sittingDuration,
       totalActivityTime := b.totalActivityTime + s.activityDuration)
  }

  /** Counting a session into a day's summary is summarizing the day with that session appended. */
  lemma BumpSnoc(d: Date, day: seq<Session>, s: Session)
    ensures Bump(Summarize(d, day), s) == Summarize(d, day + [s])
  {
    TotalSnoc(day, s, SessionCount);
    TotalSnoc(day, s, CompletedCount);
    TotalSnoc(day, s, SittingTime);
    TotalSnoc(day, s, ActivityTime);
  }

  /**
   * One iteration of the grouping loop keeps the dictionary in step: the
   * session's date is inserted (last, with zeroed counters) when new, and
   * its bucket then grows by the session's weights.
   */
  lemma GroupedStep(m: seq<Session>, i: nat, keys: seq<Date>, stats: map<Date, DayStats>)
    requires i < |m| && Grouped(m[..i], keys, stats)
    ensures Grouped(m[..i + 1], if m[i].sessionDate in stats then keys else keys + [m[i].sessionDate],
                    stats[m[i].sessionDate := Bumped(stats, m[i])])
  {
    var ms, s := m[..i], m[i];
    assert m[..i + 1] == ms + [s];
    var stats' := stats[s.sessionDate := Bumped(stats, s)];
    assert (ms + [s])[..|ms|] == ms;
    HasDateSnoc(ms, s);
    BucketStepSameDay(ms, s, stats, stats');
    forall d | d in stats' && d != s.sessionDate ensures stats'[d] == Summarize(d, Find(ms + [s], On(d))) {
      BucketStepOtherDay(ms, s, stats, stats', d);
    }
  }

  /** The value half of `GroupedStep` for the session's own date. */
  lemma BucketStepSameDay(ms: seq<Session>, s: Session, stats: map<Date, DayStats>, stats': map<Date, DayStats>)
    requires s.sessionDate in stats ==> stats[s.sessionDate] == Summarize(s.sessionDate, Find(ms, On(s.sessionDate)))
    requires s.sessionDate !in stats ==> !HasDate(ms, s.sessionDate)
    requires s.sessionDate in stats' && stats'[s.sessionDate] == Bumped(stats, s)
    ensures stats'[s.sessionDate] == Summarize(s.sessionDate, Find(ms + [s], On(s.sessionDate)))
  {
    var d := s.sessionDate;
    var day := Find(ms, On(d));
    FindSnoc(ms, s, On(d));
    if d !in stats {
      UnseenDateHasNoSessions(ms, d);
    }
    assert (if d in stats then stats[d] else DayStats(d, 0, 0, 0, 0)) == Summarize(d, day);
    BumpSnoc(d, day, s);
  }

  /** The value half of `GroupedStep` for every other date. */
  lemma BucketStepOtherDay(ms: seq<Session>, s: Session, stats: map<Date, DayStats>, stats': map<Date, DayStats>, d: Date)
    requires forall d :: d in stats ==> stats[d] == Summarize(d, Find(ms, On(d)))
    requires d in stats && d != s.sessionDate
    requires d in stats' && stats'[d] == stats[d]
    ensures stats'[d] == Summarize(d, Find(ms + [s], On(d)))
  {
    FindSnoc(ms, s, On(d));
  }

  /** A date that does not occur has no sessions. */
  lemma UnseenDateHasNoSessions(ms: seq<Session>, d: Date)
    requires !HasDate(ms, d)
    ensures Find(ms, On(d)) == []
  {
  }

  /**
   * The grouping dictionary after the sessions `ms`, built one session at a
   * time: its keys in insertion order, and the bucket of each key.
   */
  function GroupDict(ms: seq<Session>): (seq<Date>, map<Date, DayStats>)
    decreases |ms|
  {
    if ms == [] then ([], map[])
    else
      var (keys, stats) := GroupDict(ms[..|ms| - 1]);
      var s := ms[|ms| - 1];
      (if s.sessionDate in stats then keys else keys + [s.sessionDate],
       stats[s.sessionDate := Bumped(stats, s)])
  }

  /** Building the dictionary session by session yields the grouping described by `Grouped`. */
  lemma {:induction false} GroupDictIsGrouped(ms: seq<Session>)
    ensures Grouped(ms, GroupDict(ms).0, GroupDict(ms).1)
    decreases |ms|
  {
    if ms != [] {
      var i := |ms| - 1;
      GroupDictIsGrouped(ms[..i]);
      GroupedStep(ms, i, GroupDict(ms[..i]).0, GroupDict(ms[..i]).1);
      assert ms[..i + 1] == ms;
    }
  }

  /** At the end of the loop, the dictionary's values in key order are the weekly buckets. */
  lemma GroupedBuckets(m: seq<Session>, keys: seq<Date>, stats: map<Date, DayStats>)
    requires Grouped(m, keys, stats)
    ensures forall j :: 0 <= j < |keys| ==> keys[j] in stats
    ensures seq(|keys|, j requires 0 <= j < |keys| => stats[keys[j]]) == BucketsFor(m, FirstSeen(m))
  {
    assert forall d :: d in stats <==> d in keys;
    forall j | 0 <= j < |keys| ensures keys[j] in stats {
      assert keys[j] in keys;
    }
  }

  /** The weekly-progress answer. */
  function Weekly(ss: seq<Session>, today: Date): (w: WeeklyProgress)
    ensures w.weekStart == today - WINDOW_DAYS && w.weekEnd == today
  {
    var m := WeekSessions(ss, today);
    WeeklyProgress(today - WINDOW_DAYS, today, BucketsFor(m, FirstSeen(m)))
  }

  /**
   * Every bucket lies in the window, no two buckets share a date, no bucket is
   * empty, and no bucket counts more completed sessions than sessions.
   */
  lemma WeeklyBucketsWellFormed(ss: seq<Session>, today: Date)
    ensures var bs := Weekly(ss, today).dailyProgress;
      forall j :: 0 <= j < |bs| ==>
        today - WINDOW_DAYS <= bs[j].date <= today
        && bs[j].totalSessions >= 1
        && 0 <= bs[j].completedSessions <= bs[j].totalSessions
    ensures var bs := Weekly(ss, today).dailyProgress;
      forall i, j :: 0 <= i < j < |bs| ==> bs[i].date != bs[j].date
  {
    var m := WeekSessions(ss, today);
    var keys := FirstSeen(m);
    var bs := Weekly(ss, today).dailyProgress;
    forall j | 0 <= j < |bs|
      ensures today - WINDOW_DAYS <= bs[j].date <= today
      ensures bs[j].totalSessions >= 1
      ensures 0 <= bs[j].completedSessions <= bs[j].totalSessions
    {
      var d := keys[j];
      assert HasDate(m, d);
      var i :| 0 <= i < |m| && m[i].sessionDate == d;
      assert m[i] in m;
      var day := Find(m, On(d));
      assert m[i] in day;
      CompletedWithinTotal(day);
    }
  }

  /** The grouping is sparse: a date has a bucket exactly when some grouped session carries it. */
  lemma WeeklyIsSparse(ss: seq<Session>, today: Date, d: Date)
    ensures var bs := Weekly(ss, today).dailyProgress;
      (exists j :: 0 <= j < |bs| && bs[j].date == d) <==> HasDate(WeekSessions(ss, today), d)
  {
    var m := WeekSessions(ss, today);
    var keys := FirstSeen(m);
    var bs := Weekly(ss, today).dailyProgress;
    if HasDate(m, d) {
      assert d in keys;
      var j :| 0 <= j < |keys| && keys[j] == d;
      assert bs[j].date == d;
    }
  }

  /** Buckets come in the order in which their dates were first met among the grouped sessions. */
  lemma {:induction false} FirstSeenOrder(ss: seq<Session>)
    ensures forall i, j :: 0 <= i < j < |FirstSeen(ss)| ==>
      FirstIndex(ss, FirstSeen(ss)[i]) < FirstIndex(ss, FirstSeen(ss)[j])
    decreases |ss|
  {
    if ss != [] {
      var init, last := ss[..|ss| - 1], ss[|ss| - 1];
      assert ss == init + [last];
      HasDateSnoc(init, last);
      FirstSeenOrder(init);
      var prior, keys := FirstSeen(init), FirstSeen(ss);
      forall d | HasDate(init, d) ensures FirstIndex(ss, d) == FirstIndex(init, d) {
      }
      forall i, j | 0 <= i < j < |keys| ensures FirstIndex(ss, keys[i]) < FirstIndex(ss, keys[j]) {
        assert keys[i] == prior[i] && keys[i] in prior;
        if j < |prior| {
          assert keys[j] == prior[j] && keys[j] in prior;
          assert FirstIndex(init, prior[i]) < FirstIndex(init, prior[j]);
        } else {
          assert !HasDate(init, keys[j]);
          assert FirstIndex(ss, keys[j]) == |ss| - 1;
        }
      }
    }
  }

  /** Buckets over the first-seen dates come in first-seen order. */
  lemma BucketsInFirstSeenOrder(m: seq<Session>)
    ensures var bs := BucketsFor(m, FirstSeen(m));
      (forall j :: 0 <= j < |bs| ==> HasDate(m, bs[j].date))
      && (forall i, j :: 0 <= i < j < |bs| ==> FirstIndex(m, bs[i].date) < FirstIndex(m, bs[j].date))
  {
    var keys := FirstSeen(m);
    var bs := BucketsFor(m, keys);
    assert forall j :: 0 <= j < |bs| ==> bs[j].date == keys[j];
    FirstSeenOrder(m);
  }

  /** The weekly buckets come in first-seen order of their dates among the grouped sessions, not in calendar order. */
  lemma WeeklyFirstSeenOrder(ss: seq<Session>, today: Date)
    ensures var m := WeekSessions(ss, today);
      var bs := Weekly(ss, today).dailyProgress;
      (forall j :: 0 <= j < |bs| ==> HasDate(m, bs[j].date))
      && (forall i, j :: 0 <= i < j < |bs| ==> FirstIndex(m, bs[i].date) < FirstIndex(m, bs[j].date))
  {
    var m := WeekSessions(ss, today);
    assert Weekly(ss, today).dailyProgress == BucketsFor(m, FirstSeen(m));
    BucketsInFirstSeenOrder(m);
  }

  /** Counter `k` summed over a list of buckets. */
  function SumField(bs: seq<DayStats>, k: Metric): int
    decreases |bs|
  {
    if bs == [] then 0 else SumField(bs[..|bs| - 1], k) + Field(bs[|bs| - 1], k)
  }

  /** Buckets over no sessions sum to zero. */
  lemma {:induction false} BucketsOfNothing(keys: seq<Date>, k: Metric)
    ensures SumField(BucketsFor([], keys), k) == 0
    decreases |keys|
  {
    if keys != [] {
      var init := keys[..|keys| - 1];
      assert BucketsFor([], keys)[..|keys| - 1] == BucketsFor([], init);
      BucketsOfNothing(init, k);
    }
  }

  /** In a repeat-free sequence the last element does not occur before it. */
  lemma LastIsNew(keys: seq<Date>)
    requires keys != []
    requires forall i, j :: 0 <= i < j < |keys| ==> keys[i] != keys[j]
    ensures keys[|keys| - 1] !in keys[..|keys| - 1]
  {
    var init := keys[..|keys| - 1];
    forall i | 0 <= i < |init| ensures init[i] != keys[|keys| - 1] {
      assert init[i] == keys[i];
    }
  }

  /** A counter over one more bucket grows by that bucket's counter. */
  lemma SumFieldSnoc(bs: seq<DayStats>, b: DayStats, k: Metric)
    ensures SumField(bs + [b], k) == SumField(bs, k) + Field(b, k)
  {
    assert (bs + [b])[..|bs|] == bs;
  }

  /** One more key appends one bucket. */
  lemma BucketsForSnoc(m: seq<Session>, keys: seq<Date>, x: Date)
    ensures BucketsFor(m, keys + [x]) == BucketsFor(m, keys) + [Summarize(x, Find(m, On(x)))]
  {
  }

  /** One more session adds its weight to the bucket sum when its date has a bucket, and nothing otherwise. */
  lemma {:induction false} BucketsSnoc(m: seq<Session>, s: Session, keys: seq<Date>, k: Metric)
    requires forall i, j :: 0 <= i < j < |keys| ==> keys[i] != keys[j]
    ensures SumField(BucketsFor(m + [s], keys), k)
         == SumField(BucketsFor(m, keys), k) + (if s.sessionDate in keys then Weight(k, s) else 0)
    decreases |keys|
  {
    if keys != [] {
      var init, x := keys[..|keys| - 1], keys[|keys| - 1];
      assert keys == init + [x];
      BucketsForSnoc(m, init, x);
      BucketsForSnoc(m + [s], init, x);
      BucketsSnoc(m, s, init, k);
      SumFieldSnoc(BucketsFor(m, init), Summarize(x, Find(m, On(x))), k);
      SumFieldSnoc(BucketsFor(m + [s], init), Summarize(x, Find(m + [s], On(x))), k);
      FindSnoc(m, s, On(x));
      if s.sessionDate == x {
        LastIsNew(keys);
        TotalSnoc(Find(m, On(x)), s, k);
      }
    }
  }

  /** Buckets over distinct dates that cover every session partition the sessions' totals. */
  lemma {:induction false} BucketsPartition(m: seq<Session>, keys: seq<Date>, k: Metric)
    requires forall i, j :: 0 <= i < j < |keys| ==> keys[i] != keys[j]
    requires forall i :: 0 <= i < |m| ==> m[i].sessionDate in keys
    ensures SumField(BucketsFor(m, keys), k) == Total(m, k)
    decreases |m|
  {
    if m == [] {
      BucketsOfNothing(keys, k);
    } else {
      var init, last := m[..|m| - 1], m[|m| - 1];
      assert m == init + [last];
      assert last.sessionDate in keys;
      BucketsPartition(init, keys, k);
      BucketsSnoc(init, last, keys, k);
    }
  }

  /** Grouping loses and invents nothing: each counter summed over the buckets equals its total over the grouped sessions. */
  lemma WeeklyPreservesTotals(ss: seq<Session>, today: Date, k: Metric)
    ensures SumField(Weekly(ss, today).dailyProgress, k) == Total(WeekSessions(ss, today), k)
    ensures SumField(Weekly(ss, today).dailyProgress, SessionCount) == |WeekSessions(ss, today)|
  {
    var m := WeekSessions(ss, today);
    var keys := FirstSeen(m);
    forall i | 0 <= i < |m| ensures m[i].sessionDate in keys {
      assert HasDate(m, m[i].sessionDate);
    }
    BucketsPartition(m, keys, k);
    BucketsPartition(m, keys, SessionCount);
    SessionCountIsLength(m);
  }

  /** Narrowing the window's answer to one day inside the window gives that day's answer. */
  lemma {:induction false} FindDayWithinWindow(ss: seq<Session>, lo: Date, hi: Date, d: Date)
    requires lo <= d <= hi
    ensures Find(Find(ss, Between(lo, hi)), On(d)) == Find(ss, On(d))
    decreases |ss|
  {
    if ss != [] {
      var init, last := ss[..|ss| - 1], ss[|ss| - 1];
      assert ss == init + [last];
      FindDayWithinWindow(init, lo, hi, d);
      FindSnoc(init, last, Between(lo, hi));
      FindSnoc(init, last, On(d));
      FindSnoc(Find(init, Between(lo, hi)), last, On(d));
    }
  }

  /** The bucket for date `d`, if there is one, summarizes exactly the sessions dated `d`; it exists when there are such. */
  lemma BucketOfDay(m: seq<Session>, d: Date)
    ensures var bs := BucketsFor(m, FirstSeen(m));
      forall j :: 0 <= j < |bs| && bs[j].date == d ==> bs[j] == Summarize(d, Find(m, On(d)))
    ensures var bs := BucketsFor(m, FirstSeen(m));
      (exists j :: 0 <= j < |bs| && bs[j].date == d) <==> Find(m, On(d)) != []
  {
    var keys := FirstSeen(m);
    var bs := BucketsFor(m, keys);
    var day := Find(m, On(d));
    if HasDate(m, d) {
      var i :| 0 <= i < |m| && m[i].sessionDate == d;
      assert m[i] in m && m[i] in day;
      assert d in keys;
      var j :| 0 <= j < |keys| && keys[j] == d;
      assert bs[j].date == d;
    }
    if day != [] {
      assert day[0] in day;
      var i :| 0 <= i < |m| && m[i] == day[0];
      assert HasDate(m, d);
    }
  }

  /**
   * Below both caps, today's weekly bucket exists exactly when today has
   * sessions, and then carries the same four numbers as the daily summary.
   */
  lemma WeeklyAgreesWithDaily(ss: seq<Session>, today: Date)
    requires |Find(ss, Between(today - WINDOW_DAYS, today))| <= WEEKLY_LIMIT
    requires |Find(ss, On(today))| <= DAILY_LIMIT
    ensures var p, bs := Daily(ss, today), Weekly(ss, today).dailyProgress;
      (exists j :: 0 <= j < |bs| && bs[j].date == today) <==> p.totalSessions > 0
    ensures var p, bs := Daily(ss, today), Weekly(ss, today).dailyProgress;
      forall j :: 0 <= j < |bs| && bs[j].date == today ==>
        bs[j].totalSessions == p.totalSessions
        && bs[j].completedSessions == p.completedSessions
        && bs[j].totalSittingTime == p.totalSittingTime
        && bs[j].totalActivityTime == p.totalActivityTime
  {
    var m := WeekSessions(ss, today);
    assert Weekly(ss, today).dailyProgress == BucketsFor(m, FirstSeen(m));
    WeekDayIsDaily(ss, today);
    DayBucketIs(m, today, Daily(ss, today));
  }

  /** A daily summary over exactly the sessions of `m` dated `d` agrees with the bucket for `d`. */
  lemma DayBucketIs(m: seq<Session>, d: Date, p: DailyProgress)
    requires p.sessions == Find(m, On(d)) && p.totalSessions == |p.sessions|
    requires p.completedSessions == Total(p.sessions, CompletedCount)
    requires p.totalSittingTime == Total(p.sessions, SittingTime)
    requires p.totalActivityTime == Total(p.sessions, ActivityTime)
    ensures var bs := BucketsFor(m, FirstSeen(m));
      (exists j :: 0 <= j < |bs| && bs[j].date == d) <==> p.totalSessions > 0
    ensures var bs := BucketsFor(m, FirstSeen(m));
      forall j :: 0 <= j < |bs| && bs[j].date == d ==>
        bs[j].totalSessions == p.totalSessions
        && bs[j].completedSessions == p.completedSessions
        && bs[j].totalSittingTime == p.totalSittingTime
        && bs[j].totalActivityTime == p.totalActivityTime
  {
    SessionCountIsLength(p.sessions);
    BucketOfDay(m, d);
  }

  /** Below both caps, the window's sessions dated today are the daily summary's sessions. */
  lemma WeekDayIsDaily(ss: seq<Session>, today: Date)
    requires |Find(ss, Between(today - WINDOW_DAYS, today))| <= WEEKLY_LIMIT
    requires |Find(ss, On(today))| <= DAILY_LIMIT
    ensures Find(WeekSessions(ss, today), On(today)) == Daily(ss, today).sessions
  {
    FindDayWithinWindow(ss, today - WINDOW_DAYS, today, today);
  }

  /** A repeat-free sequence drawn from a set is no longer than the set is large. */
  lemma {:induction false} DistinctWithinSet(keys: seq<Date>, range: set<Date>)
    requires forall i, j :: 0 <= i < j < |keys| ==> keys[i] != keys[j]
    requires forall i :: 0 <= i < |keys| ==> keys[i] in range
    ensures |keys| <= |range|
    decreases |keys|
  {
    if keys != [] {
      var init, x := keys[..|keys| - 1], keys[|keys| - 1];
      forall i | 0 <= i < |init| ensures init[i] in range - {x} {
        assert init[i] == keys[i];
      }
      DistinctWithinSet(init, range - {x});
    }
  }

  /** The days from `lo` to `hi`. */
  function Days(lo: Date, hi: Date): (r: set<Date>)
    ensures forall d :: d in r <==> lo <= d <= hi
    ensures |r| == if lo <= hi then hi - lo + 1 else 0
    decreases hi - lo
  {
    if hi < lo then {} else Days(lo, hi - 1) + {hi}
  }

  /** The window has eight days, so there are at most eight buckets, and never more than grouped sessions. */
  lemma WeeklyAtMostEightBuckets(ss: seq<Session>, today: Date)
    ensures |Weekly(ss, today).dailyProgress| <= WINDOW_DAYS + 1
    ensures |Weekly(ss, today).dailyProgress| <= |WeekSessions(ss, today)|
  {
    var m := WeekSessions(ss, today);
    var keys := FirstSeen(m);
    var window := Days(today - WINDOW_DAYS, today);
    forall i | 0 <= i < |keys| ensures keys[i] in window {
      assert HasDate(m, keys[i]);
      var j :| 0 <= j < |m| && m[j].sessionDate == keys[i];
      assert m[j] in m;
    }
    DistinctWithinSet(keys, window);
    WeeklyPreservesTotals(ss, today, SessionCount);
    WeeklyBucketsWellFormed(ss, today);
    BucketsAtLeastOneEach(Weekly(ss, today).dailyProgress);
  }

  /** When every bucket holds a session, the buckets hold at least as many sessions as there are buckets. */
  lemma {:induction false} BucketsAtLeastOneEach(bs: seq<DayStats>)
    requires forall j :: 0 <= j < |bs| ==> bs[j].totalSessions >= 1
    ensures SumField(bs, SessionCount) >= |bs|
    decreases |bs|
  {
    if bs != [] {
      BucketsAtLeastOneEach(bs[..|bs| - 1]);
    }
  }
}
