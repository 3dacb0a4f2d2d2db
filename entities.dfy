/**
 * The stored entities: a user row, a group row and the ids that key them.
 * Nullable columns are `Option`s; instants are seconds since the epoch.
 */
module Entities {
  import opened Wrappers
  import opened TimeService

  /** Ids are opaque strings issued by the chat platform. */
  type UserId = string
  type GroupId = string

  datatype User = User(
    name: string,                   // display name at creation; never refreshed afterwards
    wakeupHours: Option<nat>,       // wakeup_time_hours
    wakeupMinutes: Option<nat>,     // wakeup_time_minutes
    lastReport: Option<Instant>,    // last_report
    todayReported: bool,            // today_reported
    jokerUsed: bool,                // joker_used
    lastJokerDate: Option<Instant>, // last_joker_date
    weekJokerCount: int,            // week_joker_count (a cancel can take it below 0)
    weekStart: int)                 // week_start_date, as a local day number

  datatype Group = Group(currentStreak: int, bestStreak: int)

  /** A freshly inserted user: name and week start given, every other column at its default. */
  function NewUser(name: string, now: Instant): User {
    User(name, None, None, None, false, false, None, 0, WeekStart(now))
  }

  /** A freshly inserted group: both streaks at their default of 0. */
  const NewGroup: Group := Group(0, 0)

  /** Both wake-up time columns are set. */
  predicate HasWakeupTime(u: User) {
    u.wakeupHours.Some? && u.wakeupMinutes.Some?
  }

  /** The user's last report falls on the same local day as `t`. */
  predicate ReportedOn(u: User, t: Instant) {
    u.lastReport.Some? && SameDay(u.lastReport.value, t)
  }

  /** The group invariant: 0 <= current streak <= best streak. */
  predicate StreakValid(g: Group) {
    0 <= g.currentStreak <= g.bestStreak
  }
}
