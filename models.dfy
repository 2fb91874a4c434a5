/**
 * The records of the health-reminder backend: sessions, the session-create
 * request, the settings record and the sparse settings update, and the
 * two derived progress views.
 *
 * Calendar dates are day numbers (comparing two ISO `YYYY-MM-DD` strings
 * agrees with comparing the days they name), instants are integers and
 * identifiers are opaque strings.
 */
module Models {
  import opened Wrappers

  type Id = string
  type Date = int
  type Timestamp = int

  /** The single implicit user every record belongs to. */
  const DEFAULT_USER: string := "default_user"

  /** One recorded sit/move cycle (durations in minutes). */
  datatype Session = Session(
    id: Id,
    userId: string,
    sessionDate: Date,
    sittingDuration: int,
    activityDuration: int,
    completed: bool,
    timestamp: Timestamp)

  /** The body of a create request; a request that omits `completed` carries `false`. */
  datatype SessionCreate = SessionCreate(
    sittingDuration: int,
    activityDuration: int,
    completed: bool)

  /** The singleton reminder-preferences record. */
  datatype UserSettings = UserSettings(
    id: Id,
    userId: string,
    sittingReminderMinutes: int,
    activityBreakMinutes: int,
    notificationsEnabled: bool,
    soundAlertsEnabled: bool,
    dailyGoalSessions: int,
    timestamp: Timestamp)

  /** A sparse settings update: `None` means "leave this field alone". */
  datatype UserSettingsUpdate = UserSettingsUpdate(
    sittingReminderMinutes: Option<int>,
    activityBreakMinutes: Option<int>,
    notificationsEnabled: Option<bool>,
    soundAlertsEnabled: Option<bool>,
    dailyGoalSessions: Option<int>)

  /** The answer of the daily-progress endpoint. */
  datatype DailyProgress = DailyProgress(
    date: Date,
    totalSessions: int,
    completedSessions: int,
    totalSittingTime: int,
    totalActivityTime: int,
    sessions: seq<Session>)

  /** One per-date bucket of the weekly view. */
  datatype DayStats = DayStats(
    date: Date,
    totalSessions: int,
    completedSessions: int,
    totalSittingTime: int,
    totalActivityTime: int)

  /** The answer of the weekly-progress endpoint. */
  datatype WeeklyProgress = WeeklyProgress(
    weekStart: Date,
    weekEnd: Date,
    dailyProgress: seq<DayStats>)
}
