/**
 * The per-user transitions a text message can trigger: week rollover, time
 * setting, wake report, good-sleep declare and cancel, and the read-only
 * commands. Each takes the user row as read from the store and returns the
 * row to write back together with the reply.
 */
module UserStateMachine {
  import opened Wrappers
  import opened TimeService
  import opened CommandParser
  import opened Replies
  import opened Entities

  /** The row to write back and the reply to send. */
  datatype Step = Step(user: User, reply: Reply)

  /** The local hour from which a good-sleep declaration is refused. */
  const GoodSleepCutoffHour: int := 22

  /**
   * Week rollover, run before every command: when the stored week start is
   * not the current one, store the current one and zero the weekly count.
   */
  function RollWeek(u: User, now: Instant): (v: User)
    ensures v.weekStart == WeekStart(now)
    ensures u.weekStart == WeekStart(now) ==> v == u
    ensures u.weekStart != WeekStart(now) ==> v == u.(weekStart := WeekStart(now), weekJokerCount := 0)
  {
    if u.weekStart != WeekStart(now) then u.(weekStart := WeekStart(now), weekJokerCount := 0) else u
  }

  /**
   * Time setting: accepted iff hours are in 0..23 and minutes in 0..59. On
   * success only the two wake-up columns change and the reply shows the
   * minutes as two digits; on rejection the row is untouched.
   */
  function ConfigureWakeupTime(u: User, hours: nat, minutes: nat): (s: Step)
    ensures s.reply.TimeSet? <==> hours <= 23 && minutes <= 59
    ensures s.reply.TimeSet? ==>
      && s.user == u.(wakeupHours := Some(hours), wakeupMinutes := Some(minutes))
      && s.reply.hours == hours
      && |s.reply.minutes| == 2 && AllDigits(s.reply.minutes) && DigitsValue(s.reply.minutes) == minutes
    ensures !s.reply.TimeSet? ==> s == Step(u, TimeFormatError)
  {
    if hours > 23 || minutes > 59 then Step(u, TimeFormatError)
    else Step(u.(wakeupHours := Some(hours), wakeupMinutes := Some(minutes)), TimeSet(hours, PadMinutes(minutes)))
  }

  /**
   * Wake report. The same-day check on the last report comes first, then the
   * unset-time check; the clock time of the report against the configured
   * wake-up time is never consulted.
   */
  function ReportWakeup(u: User, name: string, now: Instant): (s: Step)
    ensures ReportedOn(u, now) ==> s == Step(u, AlreadyReported)
    ensures !ReportedOn(u, now) && !HasWakeupTime(u) ==> s == Step(u, NoTimeSet)
    ensures s.reply == WakeupRecorded(name) <==> !ReportedOn(u, now) && HasWakeupTime(u)
    ensures s.reply == WakeupRecorded(name) ==>
      s.user == u.(lastReport := Some(now), todayReported := true) && ReportedOn(s.user, now)
  {
    if u.lastReport.Some? && SameDay(u.lastReport.value, now) then Step(u, AlreadyReported)
    else if u.wakeupHours.None? || u.wakeupMinutes.None? then Step(u, NoTimeSet)
    else Step(u.(lastReport := Some(now), todayReported := true), WakeupRecorded(name))
  }

  /**
   * Good-sleep declaration: refused from 22:00 local time on (before the
   * row is even consulted), refused when the weekly count is already 1 or
   * more; otherwise the joker is marked used and the weekly count goes up.
   */
  function DeclareGoodSleep(u: User, name: string, now: Instant): (s: Step)
    ensures LocalHour(now) >= GoodSleepCutoffHour ==> s == Step(u, GoodSleepPastDeadline)
    ensures LocalHour(now) < GoodSleepCutoffHour && u.weekJokerCount >= 1 ==> s == Step(u, GoodSleepWeeklyLimit)
    ensures s.reply == GoodSleepAccepted(name) <==> LocalHour(now) < GoodSleepCutoffHour && u.weekJokerCount < 1
    ensures s.reply == GoodSleepAccepted(name) ==>
      s.user == u.(jokerUsed := true, lastJokerDate := Some(now), weekJokerCount := u.weekJokerCount + 1)
  {
    if LocalHour(now) >= GoodSleepCutoffHour then Step(u, GoodSleepPastDeadline)
    else if u.weekJokerCount >= 1 then Step(u, GoodSleepWeeklyLimit)
    else Step(u.(jokerUsed := true, lastJokerDate := Some(now), weekJokerCount := u.weekJokerCount + 1),
              GoodSleepAccepted(name))
  }

  /**
   * Good-sleep cancel: refused unless the joker is marked used; otherwise
   * the mark is cleared and the weekly count goes down by one, with no
   * clamp at 0.
   */
  function CancelGoodSleep(u: User, name: string): (s: Step)
    ensures !u.jokerUsed ==> s == Step(u, GoodSleepNotUsed)
    ensures s.reply == GoodSleepCancelled(name) <==> u.jokerUsed
    ensures u.jokerUsed ==> s.user == u.(jokerUsed := false, weekJokerCount := u.weekJokerCount - 1)
  {
    if !u.jokerUsed then Step(u, GoodSleepNotUsed)
    else Step(u.(jokerUsed := false, weekJokerCount := u.weekJokerCount - 1), GoodSleepCancelled(name))
  }

  /** Settings check: the configured time, minutes as two digits, or NoTimeSet. */
  function SettingsReply(u: User, name: string): (r: Reply)
    ensures r == NoTimeSet <==> !HasWakeupTime(u)
    ensures HasWakeupTime(u) ==> r.UserSettings? && r.userName == name && r.hours == u.wakeupHours.value
    ensures HasWakeupTime(u) && u.wakeupMinutes.value < 100 ==>
      |r.minutes| == 2 && AllDigits(r.minutes) && DigitsValue(r.minutes) == u.wakeupMinutes.value
  {
    if u.wakeupHours.None? || u.wakeupMinutes.None? then NoTimeSet
    else UserSettings(name, u.wakeupHours.value, PadMinutes(u.wakeupMinutes.value))
  }

  /** Record check: the group's streaks, or a refusal outside a group chat. */
  function RecordReply(group: Option<Group>): (r: Reply)
    ensures group.None? <==> r == GroupOnly
    ensures group.Some? ==> r == RecordStatus(group.value.currentStreak, group.value.bestStreak)
  {
    if group.None? then GroupOnly
    else RecordStatus(group.value.currentStreak, group.value.bestStreak)
  }

  /** The nightly reset of the two daily flags, applied by the aggregator. */
  function ResetDailyFlags(u: User): (v: User)
    ensures !v.todayReported && !v.jokerUsed
    ensures v.(todayReported := u.todayReported, jokerUsed := u.jokerUsed) == u
  {
    u.(todayReported := false, jokerUsed := false)
  }

  /**
   * Dispatch of a classified message to its handler. `group` is the
   * message's group row, None outside a group chat.
   */
  function Respond(intent: Intent, u: User, name: string, group: Option<Group>, now: Instant): (s: Step)
    ensures s.user.weekStart == u.weekStart && s.user.name == u.name
    ensures !(intent.SetWakeupTime? || intent.WakeupReport? || intent.GoodSleep? || intent.GoodSleepCancel?)
      ==> s.user == u
    ensures s.user.wakeupHours != u.wakeupHours || s.user.wakeupMinutes != u.wakeupMinutes
      ==> intent.SetWakeupTime?
    ensures s.user.weekJokerCount != u.weekJokerCount ==> intent.GoodSleep? || intent.GoodSleepCancel?
    ensures s.user.lastReport != u.lastReport ==> intent.WakeupReport? && s.user.lastReport == Some(now)
  {
    match intent
    case SetWakeupTime(h, m) => ConfigureWakeupTime(u, h, m)
    case WakeupReport => ReportWakeup(u, name, now)
    case GoodSleep => DeclareGoodSleep(u, name, now)
    case GoodSleepCancel => CancelGoodSleep(u, name)
    case RecordCheck => Step(u, RecordReply(group))
    case SettingsCheck => Step(u, SettingsReply(u, name))
    case Help => Step(u, HelpText)
    case Unknown => Step(u, UnknownCommand)
  }

  /**
   * The weekly count as the code keeps it: within -1..1, and not negative
   * while a joker is marked used. A cancel after a rollover reaches -1 (see
   * the finding below).
   */
  predicate CountBounds(u: User) {
    -1 <= u.weekJokerCount <= 1 && (u.jokerUsed ==> u.weekJokerCount >= 0)
  }

  /** Every transition of the code keeps CountBounds. */
  lemma TransitionsKeepBounds(u: User, name: string, now: Instant)
    requires CountBounds(u)
    ensures CountBounds(RollWeek(u, now))
    ensures CountBounds(DeclareGoodSleep(u, name, now).user)
    ensures CountBounds(CancelGoodSleep(u, name).user)
    ensures CountBounds(ResetDailyFlags(u))
  {
  }

  /**
   * A text message from a known user: rollover first, then the command.
   * The stored week start is current afterwards, a message within the
   * stored week runs the command alone, and CountBounds is kept.
   */
  function Interact(u: User, name: string, group: Option<Group>, text: string, now: Instant): (s: Step)
    ensures s.user.weekStart == WeekStart(now) && s.user.name == u.name
    ensures u.weekStart == WeekStart(now) ==> s == Respond(Classify(text), u, name, group, now)
    ensures CountBounds(u) ==> CountBounds(s.user)
  {
    var v := RollWeek(u, now);
    var s := Respond(Classify(text), v, name, group, now);
    assert CountBounds(u) ==> CountBounds(s.user) by {
      if CountBounds(u) {
        TransitionsKeepBounds(u, name, now);
        TransitionsKeepBounds(v, name, now);
      }
    }
    s
  }

  // ---------------------------------------------------------------------
  // Properties across several transitions
  // ---------------------------------------------------------------------

  /** The confirmed time, shown as hours ":" padded minutes, reads back as the same command. */
  lemma ConfirmationReparses(u: User, hours: nat, minutes: nat)
    requires hours <= 23 && minutes <= 59
    ensures var s := ConfigureWakeupTime(u, hours, minutes);
      Classify(NatToDecimal(s.reply.hours) + ":" + s.reply.minutes + Suffix) == SetWakeupTime(hours, minutes)
  {
    var hd, md := NatToDecimal(hours), PadMinutes(minutes);
    DecimalRoundTrip(hours);
    var text := hd + ":" + md + Suffix;
    assert text[|hd|] == ':';
    assert text[0 .. |text|] == hd + [text[|hd|]] + md + Suffix;
    assert PatternAt(text, 0, hd, md);
    ClassifyMatchAtStart(text, hd, md);
  }

  /** Whatever wake-up time is configured, a report gets the same outcome. */
  lemma ReportIgnoresConfiguredTime(u: User, name: string, now: Instant, h1: nat, m1: nat, h2: nat, m2: nat)
    ensures var a := ReportWakeup(u.(wakeupHours := Some(h1), wakeupMinutes := Some(m1)), name, now);
      var b := ReportWakeup(u.(wakeupHours := Some(h2), wakeupMinutes := Some(m2)), name, now);
      a.reply == b.reply && a.user.lastReport == b.user.lastReport && a.user.todayReported == b.user.todayReported
  {
  }

  /** After a recorded report, another one the same day is AlreadyReported; the next day it is recorded. */
  lemma ReportOncePerDay(u: User, name: string, t1: Instant, t2: Instant)
    requires ReportWakeup(u, name, t1).reply == WakeupRecorded(name)
    ensures var v := ReportWakeup(u, name, t1).user;
      && (SameDay(t1, t2) ==> ReportWakeup(v, name, t2) == Step(v, AlreadyReported))
      && (!SameDay(t1, t2) ==> ReportWakeup(v, name, t2).reply == WakeupRecorded(name))
  {
  }

  /**
   * A successful declaration followed by a cancel restores the weekly count;
   * with the clamped cancel, whenever the count was not below 0.
   */
  lemma DeclareThenCancel(u: User, name: string, now: Instant)
    requires DeclareGoodSleep(u, name, now).reply == GoodSleepAccepted(name)
    ensures var c := CancelGoodSleep(DeclareGoodSleep(u, name, now).user, name);
      && c.reply == GoodSleepCancelled(name)
      && c.user.weekJokerCount == u.weekJokerCount
      && !c.user.jokerUsed
    ensures u.weekJokerCount >= 0 ==>
      CancelGoodSleepClamped(DeclareGoodSleep(u, name, now).user, name).user.weekJokerCount == u.weekJokerCount
  {
  }

  /**
   * After a successful declaration a second one is refused when the count
   * was not negative; from a count of -1 a second one before 22:00 is
   * accepted too.
   */
  lemma NoSecondDeclare(u: User, name: string, t1: Instant, t2: Instant)
    requires DeclareGoodSleep(u, name, t1).reply == GoodSleepAccepted(name)
    ensures u.weekJokerCount >= 0 ==>
      DeclareGoodSleep(DeclareGoodSleep(u, name, t1).user, name, t2).reply != GoodSleepAccepted(name)
    ensures u.weekJokerCount < 0 && LocalHour(t2) < GoodSleepCutoffHour ==>
      DeclareGoodSleep(DeclareGoodSleep(u, name, t1).user, name, t2).reply == GoodSleepAccepted(name)
  {
  }

  /** The rollover run again in the same week changes nothing. */
  lemma RollWeekIdempotent(u: User, t1: Instant, t2: Instant)
    requires WeekStart(t1) == WeekStart(t2)
    ensures RollWeek(RollWeek(u, t1), t2) == RollWeek(u, t1)
  {
  }

  /** A run of text messages from one user, each with rollover first. */
  function InteractAll(u: User, name: string, group: Option<Group>, msgs: seq<(string, Instant)>): User
    decreases |msgs|
  {
    if msgs == [] then u
    else InteractAll(Interact(u, name, group, msgs[0].0, msgs[0].1).user, name, group, msgs[1..])
  }

  /** The same run with the commands only, no rollover. */
  function RespondAll(u: User, name: string, group: Option<Group>, msgs: seq<(string, Instant)>): User
    decreases |msgs|
  {
    if msgs == [] then u
    else RespondAll(Respond(Classify(msgs[0].0), u, name, group, msgs[0].1).user, name, group, msgs[1..])
  }

  /**
   * Within one week the rollover fires at most once: after the first
   * message of the week, every later rollover is the identity, however
   * many messages arrive.
   */
  lemma {:induction false} RolloverOncePerWeek(u: User, name: string, group: Option<Group>, msgs: seq<(string, Instant)>)
    requires |msgs| > 0
    requires forall k :: 0 <= k < |msgs| ==> WeekStart(msgs[k].1) == WeekStart(msgs[0].1)
    ensures InteractAll(u, name, group, msgs) == RespondAll(RollWeek(u, msgs[0].1), name, group, msgs)
  {
    NoRolloverWithinWeek(RollWeek(u, msgs[0].1), name, group, msgs);
  }

  lemma {:induction false} NoRolloverWithinWeek(u: User, name: string, group: Option<Group>, msgs: seq<(string, Instant)>)
    requires forall k :: 0 <= k < |msgs| ==> WeekStart(msgs[k].1) == u.weekStart
    ensures InteractAll(u, name, group, msgs) == RespondAll(u, name, group, msgs)
    decreases |msgs|
  {
    if msgs != [] {
      var v := Respond(Classify(msgs[0].0), u, name, group, msgs[0].1).user;
      assert RollWeek(u, msgs[0].1) == u;
      NoRolloverWithinWeek(v, name, group, msgs[1..]);
    }
  }

  // ---------------------------------------------------------------------
  // Finding: a cancel after a week rollover drives the weekly count below 0
  // ---------------------------------------------------------------------

  /** The evidently intended cancel: the weekly count is clamped at 0. */
  function CancelGoodSleepClamped(u: User, name: string): (s: Step)
    ensures !u.jokerUsed ==> s == Step(u, GoodSleepNotUsed)
    ensures u.jokerUsed ==> s.reply == GoodSleepCancelled(name) && !s.user.jokerUsed
    ensures u.weekJokerCount >= 0 ==> s.user.weekJokerCount >= 0
    ensures u.jokerUsed && u.weekJokerCount >= 1 ==> s == CancelGoodSleep(u, name)
    ensures u.jokerUsed && u.weekJokerCount < 1 ==> s.user == u.(jokerUsed := false, weekJokerCount := 0)
  {
    if !u.jokerUsed then Step(u, GoodSleepNotUsed)
    else Step(u.(jokerUsed := false, weekJokerCount := if u.weekJokerCount > 0 then u.weekJokerCount - 1 else 0),
              GoodSleepCancelled(name))
  }

  /** A weekly count within 0..1, the "once a week" the replies promise. */
  predicate CountInRange(u: User) {
    0 <= u.weekJokerCount <= 1
  }

  /** With the clamped cancel, every transition keeps the weekly count within 0..1. */
  lemma ClampedTransitionsKeepCount(u: User, name: string, now: Instant)
    requires CountInRange(u)
    ensures CountInRange(RollWeek(u, now))
    ensures CountInRange(DeclareGoodSleep(u, name, now).user)
    ensures CountInRange(CancelGoodSleepClamped(u, name).user)
    ensures CountInRange(ResetDailyFlags(u))
  {
  }

  /** Saturday 2024-06-01 21:00, Sunday 09:00 and 21:00, Monday 2024-06-03 21:00, Tokyo time. */
  const Saturday2100: Instant := 1717243200
  const Sunday0900: Instant := 1717286400
  const Sunday2100: Instant := 1717329600
  const Monday2100: Instant := 1717416000

  /**
   * As written: declare on Saturday, roll over and cancel on Sunday (count
   * -1), declare on Sunday evening and, after Monday's noon reset, again on
   * Monday evening. Both declarations of the new week are accepted.
   */
  lemma CancelAfterRolloverGrantsTwoPasses(u: User, name: string)
    requires !u.jokerUsed && u.weekJokerCount == 0 && u.weekStart == WeekStart(Saturday2100)
    ensures var sat := DeclareGoodSleep(RollWeek(u, Saturday2100), name, Saturday2100);
      var cancel := CancelGoodSleep(RollWeek(sat.user, Sunday0900), name);
      var sun := DeclareGoodSleep(RollWeek(cancel.user, Sunday2100), name, Sunday2100);
      var mon := DeclareGoodSleep(RollWeek(ResetDailyFlags(sun.user), Monday2100), name, Monday2100);
      && WeekStart(Sunday2100) == WeekStart(Monday2100)
      && cancel.user.weekJokerCount == -1
      && sun.reply == GoodSleepAccepted(name)
      && mon.reply == GoodSleepAccepted(name)
  {
    assert LocalHour(Saturday2100) == 21 && LocalHour(Sunday2100) == 21 && LocalHour(Monday2100) == 21;
    assert WeekStart(Saturday2100) == 19869;
    assert WeekStart(Sunday0900) == 19876 && WeekStart(Sunday2100) == 19876 && WeekStart(Monday2100) == 19876;
  }

  /** Corrected: the same sequence with the clamped cancel refuses Monday's declaration. */
  lemma ClampedCancelGrantsOnePass(u: User, name: string)
    requires !u.jokerUsed && u.weekJokerCount == 0 && u.weekStart == WeekStart(Saturday2100)
    ensures var sat := DeclareGoodSleep(RollWeek(u, Saturday2100), name, Saturday2100);
      var cancel := CancelGoodSleepClamped(RollWeek(sat.user, Sunday0900), name);
      var sun := DeclareGoodSleep(RollWeek(cancel.user, Sunday2100), name, Sunday2100);
      var mon := DeclareGoodSleep(RollWeek(ResetDailyFlags(sun.user), Monday2100), name, Monday2100);
      && cancel.user.weekJokerCount == 0
      && sun.reply == GoodSleepAccepted(name)
      && mon.reply == GoodSleepWeeklyLimit
  {
    assert LocalHour(Saturday2100) == 21 && LocalHour(Sunday2100) == 21 && LocalHour(Monday2100) == 21;
    assert WeekStart(Saturday2100) == 19869;
    assert WeekStart(Sunday0900) == 19876 && WeekStart(Sunday2100) == 19876 && WeekStart(Monday2100) == 19876;
  }
}
