/**
 * The session and settings endpoints over an in-memory document store:
 * `HealthStore` holds the session collection (in insertion order) and the
 * optional singleton settings record. The current date, the current
 * instant and fresh identifiers are passed in by the caller.
 */
module Server {
  import opened Wrappers
  import opened Models
  import opened Progress
  import opened SettingsMerge

  datatype Error = NotFound

  /** `find_one({"id": id})`: the position of the first session with that id. */
  function FindById(ss: seq<Session>, id: Id): (r: Option<nat>)
    ensures r.Some? ==> r.value < |ss| && ss[r.value].id == id
    ensures r.Some? ==> forall j :: 0 <= j < r.value ==> ss[j].id != id
    ensures r.None? <==> forall j :: 0 <= j < |ss| ==> ss[j].id != id
  {
    if ss == [] then None
    else if ss[0].id == id then Some(0)
    else
      match FindById(ss[1..], id)
      case None => None
      case Some(i) => Some(i + 1)
  }

  class HealthStore {
    var sessions: seq<Session>
    var settings: Option<UserSettings>

    /** Session ids are unique; the settings record belongs to the default user. */
    ghost predicate Valid()
      reads this
    {
      (forall i, j :: 0 <= i < j < |sessions| ==> sessions[i].id != sessions[j].id)
      && (settings.Some? ==> settings.value.userId == DEFAULT_USER)
    }

    constructor ()
      ensures Valid() && sessions == [] && settings == None
    {
      sessions := [];
      settings := None;
    }

    /** POST /sessions: a session dated today with the requested fields, appended to the store. */
    method CreateSession(req: SessionCreate, today: Date, now: Timestamp, id: Id) returns (s: Session)
      requires Valid() && FindById(sessions, id).None?
      modifies this
      ensures Valid()
      ensures s.id == id && s.userId == DEFAULT_USER && s.sessionDate == today && s.timestamp == now
      ensures s.sittingDuration == req.sittingDuration && s.activityDuration == req.activityDuration
      ensures s.completed == req.completed
      ensures sessions == old(sessions) + [s] && settings == old(settings)
    {
      s := Session(id, DEFAULT_USER, today, req.sittingDuration, req.activityDuration, req.completed, now);
      sessions := sessions + [s];
    }

    /** GET /sessions/today. */
    method GetTodaySessions(today: Date) returns (r: seq<Session>)
      ensures r == TodaySessions(sessions, today)
    {
      r := Take(Find(sessions, On(today)), DAILY_LIMIT);
    }

    /** GET /sessions/progress. */
    method GetDailyProgress(today: Date) returns (p: DailyProgress)
      ensures p == Daily(sessions, today)
    {
      var ts := Take(Find(sessions, On(today)), DAILY_LIMIT);
      p := DailyProgress(today, |ts|, Total(ts, CompletedCount), Total(ts, SittingTime), Total(ts, ActivityTime), ts);
    }

    /**
     * GET /sessions/weekly: one pass over the window's sessions, keeping the
     * per-date buckets in a dictionary (`dailyStats`) whose key order
     * (`keys`) is the order of first insertion.
     */
    method GetWeeklyProgress(today: Date) returns (w: WeeklyProgress)
      ensures w == Weekly(sessions, today)
    {
      var weekAgo := today - WINDOW_DAYS;
      var m := Take(Find(sessions, Between(weekAgo, today)), WEEKLY_LIMIT);
      var keys: seq<Date> := [];
      var dailyStats: map<Date, DayStats> := map[];
      for i := 0 to |m|
        invariant (keys, dailyStats) == GroupDict(m[..i])
      {
        var s := m[i];
        var d := s.sessionDate;
        ghost var stats0 := dailyStats;
        if d !in dailyStats {
          dailyStats := dailyStats[d := DayStats(d, 0, 0, 0, 0)];
          keys := keys + [d];
        }
        var b := dailyStats[d];
        b := b.(totalSessions := b.totalSessions + 1);
        if s.completed {
          b := b.(completedSessions := b.completedSessions + 1);
        }
        b := b.(totalSittingTime := b.totalSittingTime + s.sittingDuration,
                totalActivityTime := b.totalActivityTime + s.activityDuration);
        assert b == Bumped(stats0, s);
        dailyStats := dailyStats[d := b];
        assert dailyStats == stats0[d := b];
        assert m[..i + 1][..i] == m[..i];
      }
      assert m[..|m|] == m;
      GroupDictIsGrouped(m);
      GroupedBuckets(m, keys, dailyStats);
      w := WeeklyProgress(weekAgo, today, seq(|keys|, j requires 0 <= j < |keys| => dailyStats[keys[j]]));
    }

    /**
     * POST /sessions/{id}/complete: an unknown id fails with NotFound and
     * changes nothing; a known one gets `completed` set and its timestamp
     * replaced, every other field and session staying as it was.
     */
    method CompleteSession(id: Id, now: Timestamp) returns (r: Result<Session, Error>)
      requires Valid()
      modifies this
      ensures Valid() && settings == old(settings)
      ensures (forall j :: 0 <= j < |old(sessions)| ==> old(sessions)[j].id != id) ==>
        r == Failure(NotFound) && sessions == old(sessions)
      ensures forall i :: 0 <= i < |old(sessions)| && old(sessions)[i].id == id ==>
        sessions == old(sessions)[i := old(sessions)[i].(completed := true, timestamp := now)]
        && r == Success(sessions[i])
    {
      match FindById(sessions, id)
      case None =>
        r := Failure(NotFound);
      case Some(i) =>
        sessions := sessions[i := sessions[i].(completed := true, timestamp := now)];
        r := Success(sessions[i]);
    }

    /**
     * GET /settings: the stored record, or, when there is none, a new
     * all-defaults record that is stored and returned.
     */
    method GetUserSettings(now: Timestamp, id: Id) returns (r: UserSettings)
      requires Valid()
      modifies this
      ensures Valid() && sessions == old(sessions) && settings == Some(r)
      ensures old(settings).Some? ==> r == old(settings).value
      ensures old(settings).None? ==> r == DefaultSettings(id, now)
      ensures old(settings).None? ==>
        r.userId == DEFAULT_USER && r.sittingReminderMinutes == 50 && r.activityBreakMinutes == 10
        && r.notificationsEnabled && r.soundAlertsEnabled && r.dailyGoalSessions == 8
    {
      match settings
      case Some(s) =>
        r := s;
      case None =>
        r := DefaultSettings(id, now);
        settings := Some(r);
    }

    /**
     * PUT /settings: the present fields and a new timestamp are merged into
     * the stored record; when there is none, a record built from the
     * defaults and the present fields is stored.
     */
    method UpdateUserSettings(u: UserSettingsUpdate, now: Timestamp, id: Id) returns (r: UserSettings)
      requires Valid()
      modifies this
      ensures Valid() && sessions == old(sessions) && settings == Some(r)
      ensures old(settings).Some? ==> r == ApplyUpdate(old(settings).value, u, now)
      ensures old(settings).None? ==> r == SettingsFromUpdate(u, id, now)
    {
      match settings {
        case Some(s) =>
          r := ApplyUpdate(s, u, now);
        case None =>
          r := SettingsFromUpdate(u, id, now);
      }
      settings := Some(r);
    }
  }

  /**
   * Four sessions created today with sitting/activity minutes (50, 10),
   * (45, 15), (60, 10) and (55, 12), the first two completed: the daily
   * summary counts 4 sessions, 2 completed, 210 sitting and 47 activity minutes.
   */
  method FourSessionScenario(today: Date, t: Timestamp) returns (p: DailyProgress)
    ensures p.totalSessions == 4 && p.completedSessions == 2
    ensures p.totalSittingTime == 210 && p.totalActivityTime == 47
  {
    var store := FourSessionStore(today, t);
    p := store.GetDailyProgress(today);
    FourSessionDaily(store.sessions, today);
  }

  /** The store after the scenario's four creations and two completions. */
  method FourSessionStore(today: Date, t: Timestamp) returns (store: HealthStore)
    ensures fresh(store) && store.Valid() && |store.sessions| == 4
    ensures forall i :: 0 <= i < 4 ==> store.sessions[i].sessionDate == today
    ensures store.sessions[0].completed && store.sessions[1].completed
    ensures !store.sessions[2].completed && !store.sessions[3].completed
    ensures store.sessions[0].sittingDuration == 50 && store.sessions[1].sittingDuration == 45
    ensures store.sessions[2].sittingDuration == 60 && store.sessions[3].sittingDuration == 55
    ensures store.sessions[0].activityDuration == 10 && store.sessions[1].activityDuration == 15
    ensures store.sessions[2].activityDuration == 10 && store.sessions[3].activityDuration == 12
  {
    store := new HealthStore();
    var s1 := store.CreateSession(SessionCreate(50, 10, false), today, t, "s1");
    var s2 := store.CreateSession(SessionCreate(45, 15, false), today, t, "s2");
    var s3 := store.CreateSession(SessionCreate(60, 10, false), today, t, "s3");
    var s4 := store.CreateSession(SessionCreate(55, 12, false), today, t, "s4");
    assert store.sessions == [s1, s2, s3, s4];
    var r1 := store.CompleteSession("s1", t + 1);
    assert store.sessions[0].id == "s1";
    var c1 := s1.(completed := true, timestamp := t + 1);
    assert store.sessions == [c1, s2, s3, s4];
    assert store.sessions[1].id == "s2";
    var r2 := store.CompleteSession("s2", t + 2);
    var c2 := s2.(completed := true, timestamp := t + 2);
    assert store.sessions == [c1, c2, s3, s4];
  }

  /** The daily numbers of the scenario's four sessions, two of them completed. */
  lemma FourSessionDaily(all: seq<Session>, today: Date)
    requires |all| == 4 && forall i :: 0 <= i < 4 ==> all[i].sessionDate == today
    requires all[0].completed && all[1].completed && !all[2].completed && !all[3].completed
    requires all[0].sittingDuration == 50 && all[1].sittingDuration == 45
    requires all[2].sittingDuration == 60 && all[3].sittingDuration == 55
    requires all[0].activityDuration == 10 && all[1].activityDuration == 15
    requires all[2].activityDuration == 10 && all[3].activityDuration == 12
    ensures Daily(all, today).totalSessions == 4 && Daily(all, today).completedSessions == 2
    ensures Daily(all, today).totalSittingTime == 210 && Daily(all, today).totalActivityTime == 47
  {
    FindAllOnDay(all, today);
    assert TodaySessions(all, today) == all;
    TotalOfFour(all, CompletedCount);
    TotalOfFour(all, SittingTime);
    TotalOfFour(all, ActivityTime);
  }

  /** A counter over four sessions is the sum of their weights. */
  lemma TotalOfFour(ss: seq<Session>, k: Metric)
    requires |ss| == 4
    ensures Total(ss, k) == Weight(k, ss[0]) + Weight(k, ss[1]) + Weight(k, ss[2]) + Weight(k, ss[3])
  {
    var one, two, three := ss[..1], ss[..2], ss[..3];
    assert one == [] + [ss[0]];
    TotalSnoc([], ss[0], k);
    assert two == one + [ss[1]];
    TotalSnoc(one, ss[1], k);
    assert three == two + [ss[2]];
    TotalSnoc(two, ss[2], k);
    assert ss == three + [ss[3]];
    TotalSnoc(three, ss[3], k);
  }
}
