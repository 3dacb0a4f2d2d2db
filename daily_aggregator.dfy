/**
 * The daily check of every group (run at noon): which members failed to
 * report, the nightly reset of the daily flags, and the streak update. This
 * module states the run as functions over the store's maps; the Store
 * class carries it out with loops and in-place updates.
 */
module DailyAggregator {
  import opened Wrappers
  import opened TimeService
  import opened Entities
  import opened UserStateMachine

  /** The message pushed to a group at the end of its check. */
  datatype Broadcast =
    | AllSucceeded(group: GroupId, streak: int)
    | SomeoneFailed(group: GroupId, failed: set<UserId>, lostStreak: int)

  /** The store as the run goes: rows, messages pushed so far, and whether a store error stopped it. */
  datatype RunState = RunState(
    users: map<UserId, User>,
    groups: map<GroupId, Group>,
    broadcasts: seq<Broadcast>,
    aborted: bool)

  /** The member ids of group `g`, as its group_users rows list them. */
  function MembersOf(members: set<(GroupId, UserId)>, g: GroupId): set<UserId> {
    set p | p in members && p.0 == g :: p.1
  }

  /** The members with a wake-up time set; the others are left out of the check. */
  function TimedMembers(users: map<UserId, User>, ids: set<UserId>): set<UserId> {
    set i | i in ids && i in users && HasWakeupTime(users[i])
  }

  /** A member fails: a wake-up time is set, no joker is used, and no report falls on today. */
  predicate Fails(u: User, today: Instant) {
    HasWakeupTime(u) && !u.jokerUsed && !ReportedOn(u, today)
  }

  function FailedMembers(users: map<UserId, User>, ids: set<UserId>, today: Instant): set<UserId> {
    set i | i in ids && i in users && Fails(users[i], today)
  }

  /** The nightly reset, applied to every member id whether or not it has a wake-up time. */
  function ResetFlags(users: map<UserId, User>, ids: set<UserId>): (r: map<UserId, User>)
    ensures r.Keys == users.Keys
    ensures forall i :: i in ids && i in users ==> !r[i].todayReported && !r[i].jokerUsed
    ensures forall i :: i in users ==> r[i] == (if i in ids then ResetDailyFlags(users[i]) else users[i])
  {
    map i | i in users :: if i in ids then ResetDailyFlags(users[i]) else users[i]
  }

  /** Every group keeps 0 <= current streak <= best streak. */
  ghost predicate AllStreaksValid(groups: map<GroupId, Group>) {
    forall g :: g in groups ==> StreakValid(groups[g])
  }

  /** The streak after a check: one more on success (best raised to match), 0 on a failure. */
  function NextStreak(prev: Group, anyFailed: bool): (r: Group)
    ensures anyFailed ==> r.currentStreak == 0 && r.bestStreak == prev.bestStreak
    ensures !anyFailed ==> r.currentStreak == prev.currentStreak + 1
    ensures !anyFailed ==> r.bestStreak >= prev.bestStreak && r.bestStreak >= r.currentStreak
    ensures !anyFailed ==> r.bestStreak == prev.bestStreak || r.bestStreak == r.currentStreak
    ensures StreakValid(prev) ==> StreakValid(r)
  {
    if anyFailed then prev.(currentStreak := 0)
    else
      var streak := prev.currentStreak + 1;
      Group(streak, if prev.bestStreak > streak then prev.bestStreak else streak)
  }

  /**
   * The check of one group. `verdictUsers` are the rows whose flags decide
   * who failed; the reset is applied to `st.users`. The code as written
   * passes the current rows for both.
   */
  function CheckGroupWith(verdictUsers: map<UserId, User>, st: RunState, members: set<(GroupId, UserId)>,
                          g: GroupId, today: Instant): (r: RunState)
    requires g in st.groups
    ensures r.users.Keys == st.users.Keys && r.groups.Keys == st.groups.Keys && r.aborted == st.aborted
    ensures forall h :: h in st.groups && h != g ==> r.groups[h] == st.groups[h]
    ensures TimedMembers(verdictUsers, MembersOf(members, g)) == {} ==> r == st
    ensures TimedMembers(verdictUsers, MembersOf(members, g)) != {} ==>
      var failed := FailedMembers(verdictUsers, MembersOf(members, g), today);
      && r.users == ResetFlags(st.users, MembersOf(members, g))
      && r.groups[g] == NextStreak(st.groups[g], failed != {})
      && r.broadcasts == st.broadcasts + [if failed == {} then AllSucceeded(g, st.groups[g].currentStreak + 1)
                                          else SomeoneFailed(g, failed, st.groups[g].currentStreak)]
    ensures AllStreaksValid(st.groups) ==> AllStreaksValid(r.groups)
  {
    var ids := MembersOf(members, g);
    if ids == {} then st
    else
      var timed := TimedMembers(verdictUsers, ids);
      if timed == {} then st
      else
        var failed := FailedMembers(verdictUsers, ids, today);
        var group := st.groups[g];
        var message := if failed == {} then AllSucceeded(g, group.currentStreak + 1)
                       else SomeoneFailed(g, failed, group.currentStreak);
        RunState(ResetFlags(st.users, ids), st.groups[g := NextStreak(group, failed != {})],
                 st.broadcasts + [message], st.aborted)
  }

  /**
   * Where a group's verdict reads the member rows from: None reads them as
   * the earlier groups of the run left them (the code as written), Some(s)
   * reads the snapshot s taken when the run began.
   */
  function Verdicts(snapshot: Option<map<UserId, User>>, st: RunState): map<UserId, User> {
    if snapshot.Some? then snapshot.value else st.users
  }

  /**
   * The run over the groups in the order the store lists them. A store
   * error while loading a group's members (the groups in `faulty`) ends the
   * whole run: later groups are neither checked nor reset.
   */
  function RunFrom(snapshot: Option<map<UserId, User>>, st: RunState, members: set<(GroupId, UserId)>,
                   order: seq<GroupId>, faulty: set<GroupId>, today: Instant): (r: RunState)
    requires forall k :: 0 <= k < |order| ==> order[k] in st.groups
    ensures r.users.Keys == st.users.Keys && r.groups.Keys == st.groups.Keys
    ensures st.broadcasts <= r.broadcasts
    ensures r.aborted <==> st.aborted || exists k :: 0 <= k < |order| && order[k] in faulty
    ensures AllStreaksValid(st.groups) ==> AllStreaksValid(r.groups)
    decreases |order|
  {
    if order == [] then st
    else if order[0] in faulty then st.(aborted := true)
    else
      var next := CheckGroupWith(Verdicts(snapshot, st), st, members, order[0], today);
      var r := RunFrom(snapshot, next, members, order[1..], faulty, today);
      assert forall k :: 1 <= k < |order| ==> order[k] == order[1..][k - 1];
      r
  }

  /**
   * The noon run as written, starting with nothing pushed: no row is added
   * or removed, the run aborts exactly when it reaches a faulty group, the
   * streak invariant is kept and no best streak is lowered.
   */
  function Run(users: map<UserId, User>, groups: map<GroupId, Group>, members: set<(GroupId, UserId)>,
               order: seq<GroupId>, faulty: set<GroupId>, today: Instant): (r: RunState)
    requires forall k :: 0 <= k < |order| ==> order[k] in groups
    ensures r.users.Keys == users.Keys && r.groups.Keys == groups.Keys
    ensures r.aborted <==> exists k :: 0 <= k < |order| && order[k] in faulty
    ensures AllStreaksValid(groups) ==> AllStreaksValid(r.groups)
    ensures forall g :: g in groups ==> r.groups[g].bestStreak >= groups[g].bestStreak
  {
    var st := RunState(users, groups, [], false);
    var r := RunFrom(None, st, members, order, faulty, today);
    assert forall g :: g in groups ==> r.groups[g].bestStreak >= groups[g].bestStreak by {
      forall g | g in groups
        ensures r.groups[g].bestStreak >= groups[g].bestStreak
      {
        RunKeepsBest(None, st, members, order, faulty, today, g);
      }
    }
    r
  }

  /**
   * The evidently intended noon run: every group's verdict reads the rows
   * as they stood when the run began; the resets still apply to the
   * current rows.
   */
  function RunIsolated(users: map<UserId, User>, groups: map<GroupId, Group>, members: set<(GroupId, UserId)>,
                       order: seq<GroupId>, faulty: set<GroupId>, today: Instant): (r: RunState)
    requires forall k :: 0 <= k < |order| ==> order[k] in groups
    ensures r.users.Keys == users.Keys && r.groups.Keys == groups.Keys
    ensures r.aborted <==> exists k :: 0 <= k < |order| && order[k] in faulty
    ensures AllStreaksValid(groups) ==> AllStreaksValid(r.groups)
    ensures forall g :: g in groups ==> r.groups[g].bestStreak >= groups[g].bestStreak
  {
    var st := RunState(users, groups, [], false);
    var r := RunFrom(Some(users), st, members, order, faulty, today);
    assert forall g :: g in groups ==> r.groups[g].bestStreak >= groups[g].bestStreak by {
      forall g | g in groups
        ensures r.groups[g].bestStreak >= groups[g].bestStreak
      {
        RunKeepsBest(Some(users), st, members, order, faulty, today, g);
      }
    }
    r
  }

  // ---------------------------------------------------------------------
  // Properties of one group's check
  // ---------------------------------------------------------------------

  /** Only members with a wake-up time, no joker and no report today fail; joker users never do. */
  lemma FailedAreExactlyTheLate(users: map<UserId, User>, ids: set<UserId>, today: Instant, i: UserId)
    ensures i in FailedMembers(users, ids, today) <==>
      i in TimedMembers(users, ids) && !users[i].jokerUsed && !ReportedOn(users[i], today)
    ensures i in users && users[i].jokerUsed ==> i !in FailedMembers(users, ids, today)
    ensures i in users && !HasWakeupTime(users[i]) ==> i !in FailedMembers(users, ids, today)
  {
  }

  // ---------------------------------------------------------------------
  // Properties of the run, in either reading of the verdicts
  // ---------------------------------------------------------------------

  predicate Distinct(order: seq<GroupId>) {
    forall a, b :: 0 <= a < b < |order| ==> order[a] != order[b]
  }

  /** Groups listed at or after the first faulty group are left as they were. */
  lemma {:induction false} FaultStopsLaterGroups(snapshot: Option<map<UserId, User>>, st: RunState,
                                                 members: set<(GroupId, UserId)>, order: seq<GroupId>,
                                                 faulty: set<GroupId>, today: Instant, i: nat, j: nat)
    requires forall k :: 0 <= k < |order| ==> order[k] in st.groups
    requires Distinct(order)
    requires i <= j < |order| && order[i] in faulty
    ensures RunFrom(snapshot, st, members, order, faulty, today).groups[order[j]] == st.groups[order[j]]
    decreases |order|
  {
    if order[0] !in faulty {
      assert i > 0;
      var next := CheckGroupWith(Verdicts(snapshot, st), st, members, order[0], today);
      assert order[1..][j - 1] == order[j] && order[1..][i - 1] == order[i];
      FaultStopsLaterGroups(snapshot, next, members, order[1..], faulty, today, i - 1, j - 1);
    }
  }

  /** Every message the run pushes names a group of the run's order. */
  lemma {:induction false} BroadcastsNameRunGroups(snapshot: Option<map<UserId, User>>, st: RunState,
                                                 members: set<(GroupId, UserId)>, order: seq<GroupId>,
                                                 faulty: set<GroupId>, today: Instant)
    requires forall k :: 0 <= k < |order| ==> order[k] in st.groups
    ensures forall n :: |st.broadcasts| <= n < |RunFrom(snapshot, st, members, order, faulty, today).broadcasts| ==>
      RunFrom(snapshot, st, members, order, faulty, today).broadcasts[n].group in order
    decreases |order|
  {
    if order != [] && order[0] !in faulty {
      var next := CheckGroupWith(Verdicts(snapshot, st), st, members, order[0], today);
      BroadcastsNameRunGroups(snapshot, next, members, order[1..], faulty, today);
      var r := RunFrom(snapshot, next, members, order[1..], faulty, today);
      assert r == RunFrom(snapshot, st, members, order, faulty, today);
      forall n | |st.broadcasts| <= n < |r.broadcasts|
        ensures r.broadcasts[n].group in order
      {
        if n < |next.broadcasts| {
          assert r.broadcasts[n] == next.broadcasts[n];
          assert next.broadcasts[n].group == order[0];
        } else {
          assert r.broadcasts[n].group in order[1..];
        }
      }
    }
  }

  /** The run never lowers a group's best streak, and a group it never reaches keeps its row. */
  lemma {:induction false} RunKeepsBest(snapshot: Option<map<UserId, User>>, st: RunState,
                                        members: set<(GroupId, UserId)>, order: seq<GroupId>,
                                        faulty: set<GroupId>, today: Instant, g: GroupId)
    requires forall k :: 0 <= k < |order| ==> order[k] in st.groups
    requires g in st.groups
    ensures RunFrom(snapshot, st, members, order, faulty, today).groups[g].bestStreak >= st.groups[g].bestStreak
    ensures g !in order ==> RunFrom(snapshot, st, members, order, faulty, today).groups[g] == st.groups[g]
    decreases |order|
  {
    if order != [] && order[0] !in faulty {
      var next := CheckGroupWith(Verdicts(snapshot, st), st, members, order[0], today);
      assert forall k :: 0 <= k < |order[1..]| ==> order[1..][k] == order[k + 1];
      RunKeepsBest(snapshot, next, members, order[1..], faulty, today, g);
    }
  }

  // ---------------------------------------------------------------------
  // Finding: the first group's reset consumes the joker of a member of two groups
  // ---------------------------------------------------------------------

  /** A message pushed for group g lists exactly g's failures as of the snapshot. */
  ghost predicate VerdictFromSnapshot(snapshot: map<UserId, User>, members: set<(GroupId, UserId)>,
                                      today: Instant, b: Broadcast) {
    var failed := FailedMembers(snapshot, MembersOf(members, b.group), today);
    if b.SomeoneFailed? then b.failed == failed else failed == {}
  }

  /** Corrected: every verdict depends only on the snapshot and the group's own members. */
  lemma {:induction false} IsolatedVerdicts(snapshot: map<UserId, User>, st: RunState, members: set<(GroupId, UserId)>,
                                            order: seq<GroupId>, faulty: set<GroupId>, today: Instant)
    requires forall k :: 0 <= k < |order| ==> order[k] in st.groups
    requires forall n :: 0 <= n < |st.broadcasts| ==> VerdictFromSnapshot(snapshot, members, today, st.broadcasts[n])
    ensures var r := RunFrom(Some(snapshot), st, members, order, faulty, today);
      forall n :: 0 <= n < |r.broadcasts| ==> VerdictFromSnapshot(snapshot, members, today, r.broadcasts[n])
    decreases |order|
  {
    if order != [] && order[0] !in faulty {
      var next := CheckGroupWith(snapshot, st, members, order[0], today);
      forall n | 0 <= n < |next.broadcasts|
        ensures VerdictFromSnapshot(snapshot, members, today, next.broadcasts[n])
      {
        if n >= |st.broadcasts| {
          assert next.broadcasts[n].group == order[0];
        }
      }
      IsolatedVerdicts(snapshot, next, members, order[1..], faulty, today);
      assert RunFrom(Some(snapshot), next, members, order[1..], faulty, today)
          == RunFrom(Some(snapshot), st, members, order, faulty, today);
    }
  }

  /** Corrected: a member who used the joker when the run began is reported as failed by no group. */
  lemma IsolatedJokerNeverFails(users: map<UserId, User>, groups: map<GroupId, Group>, members: set<(GroupId, UserId)>,
                                order: seq<GroupId>, faulty: set<GroupId>, today: Instant, u: UserId)
    requires forall k :: 0 <= k < |order| ==> order[k] in groups
    requires u in users && users[u].jokerUsed
    ensures var r := RunIsolated(users, groups, members, order, faulty, today);
      forall n :: 0 <= n < |r.broadcasts| && r.broadcasts[n].SomeoneFailed? ==> u !in r.broadcasts[n].failed
  {
    IsolatedVerdicts(users, RunState(users, groups, [], false), members, order, faulty, today);
    var r := RunIsolated(users, groups, members, order, faulty, today);
    assert r == RunFrom(Some(users), RunState(users, groups, [], false), members, order, faulty, today);
    forall n | 0 <= n < |r.broadcasts| && r.broadcasts[n].SomeoneFailed?
      ensures u !in r.broadcasts[n].failed
    {
      assert VerdictFromSnapshot(users, members, today, r.broadcasts[n]);
    }
  }

  /** A member of groups "a" and "b" who used the joker and did not report. */
  const JokerUser: User := User("u", Some(7), Some(0), None, false, true, None, 1, 0)

  /**
   * As written: checking "a" first resets the joker flag, so the same member
   * counts as exempt in "a" and as failed in "b".
   */
  lemma JokerConsumedByFirstGroup(today: Instant)
    ensures var r := Run(map["u" := JokerUser], map["a" := NewGroup, "b" := NewGroup],
                         {("a", "u"), ("b", "u")}, ["a", "b"], {}, today);
      r.broadcasts == [AllSucceeded("a", 1), SomeoneFailed("b", {"u"}, 0)]
  {
    var members := {("a", "u"), ("b", "u")};
    var users := map["u" := JokerUser];
    assert MembersOf(members, "a") == {"u"};
    assert MembersOf(members, "b") == {"u"};
    assert TimedMembers(users, {"u"}) == {"u"};
    assert FailedMembers(users, {"u"}, today) == {};
    var reset := ResetFlags(users, {"u"});
    assert reset == map["u" := ResetDailyFlags(JokerUser)];
    assert TimedMembers(reset, {"u"}) == {"u"};
    assert FailedMembers(reset, {"u"}, today) == {"u"};
  }

  /** Corrected: with verdicts from the snapshot, both groups succeed. */
  lemma JokerHonouredInEveryGroup(today: Instant)
    ensures var r := RunIsolated(map["u" := JokerUser], map["a" := NewGroup, "b" := NewGroup],
                                 {("a", "u"), ("b", "u")}, ["a", "b"], {}, today);
      r.broadcasts == [AllSucceeded("a", 1), AllSucceeded("b", 1)]
  {
    var members := {("a", "u"), ("b", "u")};
    var users := map["u" := JokerUser];
    assert MembersOf(members, "a") == {"u"};
    assert MembersOf(members, "b") == {"u"};
    assert TimedMembers(users, {"u"}) == {"u"};
    assert FailedMembers(users, {"u"}, today) == {};
  }
}
