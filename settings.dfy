/**
 * The settings service's pure part: the all-defaults record, the partial
 * `$set` merge of an update into a stored record, and the construction of
 * a new record from an update when none is stored.
 */
module SettingsMerge {
  import opened Wrappers
  import opened Models

  const DEFAULT_SITTING_REMINDER_MINUTES: int := 50
  const DEFAULT_ACTIVITY_BREAK_MINUTES: int := 10
  const DEFAULT_NOTIFICATIONS_ENABLED: bool := true
  const DEFAULT_SOUND_ALERTS_ENABLED: bool := true
  const DEFAULT_DAILY_GOAL_SESSIONS: int := 8

  /** The update that names no field. */
  const NO_CHANGE: UserSettingsUpdate := UserSettingsUpdate(None, None, None, None, None)

  /** A record with every default, as built when none is stored. */
  function DefaultSettings(id: Id, now: Timestamp): (r: UserSettings)
    ensures r.id == id && r.userId == DEFAULT_USER && r.timestamp == now
    ensures r.sittingReminderMinutes == 50 && r.activityBreakMinutes == 10
    ensures r.notificationsEnabled && r.soundAlertsEnabled && r.dailyGoalSessions == 8
  {
    UserSettings(id, DEFAULT_USER, DEFAULT_SITTING_REMINDER_MINUTES, DEFAULT_ACTIVITY_BREAK_MINUTES,
                 DEFAULT_NOTIFICATIONS_ENABLED, DEFAULT_SOUND_ALERTS_ENABLED, DEFAULT_DAILY_GOAL_SESSIONS, now)
  }

  /**
   * The stored record after `$set` of the update's present fields and a new
   * timestamp: a field given in the update (even `false` or `0`) takes the
   * given value, an absent field keeps its value, the identity never changes.
   */
  function ApplyUpdate(cur: UserSettings, u: UserSettingsUpdate, now: Timestamp): (r: UserSettings)
    ensures r.id == cur.id && r.userId == cur.userId && r.timestamp == now
    ensures u.sittingReminderMinutes.None? ==> r.sittingReminderMinutes == cur.sittingReminderMinutes
    ensures u.sittingReminderMinutes.Some? ==> r.sittingReminderMinutes == u.sittingReminderMinutes.value
    ensures u.activityBreakMinutes.None? ==> r.activityBreakMinutes == cur.activityBreakMinutes
    ensures u.activityBreakMinutes.Some? ==> r.activityBreakMinutes == u.activityBreakMinutes.value
    ensures u.notificationsEnabled.None? ==> r.notificationsEnabled == cur.notificationsEnabled
    ensures u.notificationsEnabled.Some? ==> r.notificationsEnabled == u.notificationsEnabled.value
    ensures u.soundAlertsEnabled.None? ==> r.soundAlertsEnabled == cur.soundAlertsEnabled
    ensures u.soundAlertsEnabled.Some? ==> r.soundAlertsEnabled == u.soundAlertsEnabled.value
    ensures u.dailyGoalSessions.None? ==> r.dailyGoalSessions == cur.dailyGoalSessions
    ensures u.dailyGoalSessions.Some? ==> r.dailyGoalSessions == u.dailyGoalSessions.value
  {
    cur.(sittingReminderMinutes := u.sittingReminderMinutes.GetOr(cur.sittingReminderMinutes),
         activityBreakMinutes := u.activityBreakMinutes.GetOr(cur.activityBreakMinutes),
         notificationsEnabled := u.notificationsEnabled.GetOr(cur.notificationsEnabled),
         soundAlertsEnabled := u.soundAlertsEnabled.GetOr(cur.soundAlertsEnabled),
         dailyGoalSessions := u.dailyGoalSessions.GetOr(cur.dailyGoalSessions),
         timestamp := now)
  }

  /**
   * A new record built from the update's present fields and the timestamp,
   * every other field taking its default.
   */
  function SettingsFromUpdate(u: UserSettingsUpdate, id: Id, now: Timestamp): (r: UserSettings)
    ensures r.id == id && r.userId == DEFAULT_USER && r.timestamp == now
    ensures r.sittingReminderMinutes == if u.sittingReminderMinutes.Some? then u.sittingReminderMinutes.value else 50
    ensures r.activityBreakMinutes == if u.activityBreakMinutes.Some? then u.activityBreakMinutes.value else 10
    ensures r.notificationsEnabled == if u.notificationsEnabled.Some? then u.notificationsEnabled.value else true
    ensures r.soundAlertsEnabled == if u.soundAlertsEnabled.Some? then u.soundAlertsEnabled.value else true
    ensures r.dailyGoalSessions == if u.dailyGoalSessions.Some? then u.dailyGoalSessions.value else 8
  {
    UserSettings(id, DEFAULT_USER,
                 u.sittingReminderMinutes.GetOr(DEFAULT_SITTING_REMINDER_MINUTES),
                 u.activityBreakMinutes.GetOr(DEFAULT_ACTIVITY_BREAK_MINUTES),
                 u.notificationsEnabled.GetOr(DEFAULT_NOTIFICATIONS_ENABLED),
                 u.soundAlertsEnabled.GetOr(DEFAULT_SOUND_ALERTS_ENABLED),
                 u.dailyGoalSessions.GetOr(DEFAULT_DAILY_GOAL_SESSIONS),
                 now)
  }

  /** Building from an update is merging that update into the all-defaults record. */
  lemma CreateIsMergeIntoDefaults(u: UserSettingsUpdate, id: Id, created: Timestamp, now: Timestamp)
    ensures SettingsFromUpdate(u, id, now) == ApplyUpdate(DefaultSettings(id, created), u, now)
  {
  }

  /** An update naming no field changes nothing but the timestamp. */
  lemma EmptyUpdateOnlyRefreshesTimestamp(cur: UserSettings, now: Timestamp)
    ensures ApplyUpdate(cur, NO_CHANGE, now) == cur.(timestamp := now)
  {
  }

  /** Applying the same update twice is applying it once, at the later time. */
  lemma UpdateIsIdempotent(cur: UserSettings, u: UserSettingsUpdate, t1: Timestamp, t2: Timestamp)
    ensures ApplyUpdate(ApplyUpdate(cur, u, t1), u, t2) == ApplyUpdate(cur, u, t2)
  {
  }

  /** The fields of `later` where it names them, else those of `earlier`. */
  function Overlay(earlier: UserSettingsUpdate, later: UserSettingsUpdate): UserSettingsUpdate {
    UserSettingsUpdate(
      if later.sittingReminderMinutes.Some? then later.sittingReminderMinutes else earlier.sittingReminderMinutes,
      if later.activityBreakMinutes.Some? then later.activityBreakMinutes else earlier.activityBreakMinutes,
      if later.notificationsEnabled.Some? then later.notificationsEnabled else earlier.notificationsEnabled,
      if later.soundAlertsEnabled.Some? then later.soundAlertsEnabled else earlier.soundAlertsEnabled,
      if later.dailyGoalSessions.Some? then later.dailyGoalSessions else earlier.dailyGoalSessions)
  }

  /** Two successive updates act as one update whose fields are the later's where given (last writer wins per field). */
  lemma UpdatesCompose(cur: UserSettings, u1: UserSettingsUpdate, u2: UserSettingsUpdate, t1: Timestamp, t2: Timestamp)
    ensures ApplyUpdate(ApplyUpdate(cur, u1, t1), u2, t2) == ApplyUpdate(cur, Overlay(u1, u2), t2)
  {
  }
}
