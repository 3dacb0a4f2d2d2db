/**
 * The bot's store (the users, groups and group_users tables) and the two
 * entry points that change it: the webhook's event handler and the noon
 * check of every group. Each table is a field the methods reassign.
 */
module Bot {
  import opened Wrappers
  import opened TimeService
  import opened CommandParser
  import opened Replies
  import opened Entities
  import opened UserStateMachine
  import opened DailyAggregator

  /** A webhook event, reduced to what the handler looks at. */
  datatype Event =
    | TextMessage(userId: UserId, groupId: Option<GroupId>, displayName: string, text: string)
    | Join
    | MemberJoined
    | OtherEvent  // any other event, including non-text messages

  class Store {
    var users: map<UserId, User>
    var groups: map<GroupId, Group>
    var members: set<(GroupId, UserId)>

    /**
     * Memberships name existing rows, every group keeps its streak
     * invariant, and every user's weekly good-sleep count stays within the
     * bounds the code keeps (-1..1, not negative while a joker is used).
     */
    ghost predicate Valid()
      reads this
    {
      && (forall p :: p in members ==> p.0 in groups && p.1 in users)
      && AllStreaksValid(groups)
      && (forall i :: i in users ==> CountBounds(users[i]))
    }

    constructor ()
      ensures Valid()
      ensures users == map[] && groups == map[] && members == {}
    {
      users := map[];
      groups := map[];
      members := {};
    }

    /** Reads the user row, inserting one with the display name and the current week start when none exists. */
    method EnsureUser(id: UserId, name: string, now: Instant)
      requires Valid()
      modifies this
      ensures Valid()
      ensures users == if id in old(users) then old(users) else old(users)[id := NewUser(name, now)]
      ensures groups == old(groups) && members == old(members)
    {
      if id !in users {
        users := users[id := NewUser(name, now)];
      }
    }

    /** Inserts a group row with both streaks at 0 when the group is not yet known. */
    method EnsureGroup(id: GroupId)
      requires Valid()
      modifies this
      ensures Valid()
      ensures groups == if id in old(groups) then old(groups) else old(groups)[id := NewGroup]
      ensures users == old(users) && members == old(members)
    {
      if id !in groups {
        groups := groups[id := NewGroup];
      }
    }

    /** Records that the user belongs to the group, once. */
    method EnsureMembership(g: GroupId, u: UserId)
      requires Valid() && g in groups && u in users
      modifies this
      ensures Valid()
      ensures members == old(members) + {(g, u)}
      ensures users == old(users) && groups == old(groups)
    {
      if (g, u) !in members {
        members := members + {(g, u)};
      }
    }

    /**
     * The command part of a text message, once the sender's row exists: roll
     * the week over when it changed, then run the command the text
     * classifies as and write the row back.
     */
    method RunCommand(uid: UserId, name: string, group: Option<Group>, text: string, now: Instant)
      returns (reply: Reply)
      requires Valid() && uid in users
      modifies this
      ensures Valid()
      ensures users == old(users)[uid := Interact(old(users)[uid], name, group, text, now).user]
      ensures reply == Interact(old(users)[uid], name, group, text, now).reply
      ensures groups == old(groups) && members == old(members)
    {
      ghost var spec := Interact(users[uid], name, group, text, now);
      var row := users[uid];
      if row.weekStart != WeekStart(now) {
        row := row.(weekStart := WeekStart(now), weekJokerCount := 0);
        users := users[uid := row];
      }
      assert row == RollWeek(old(users)[uid], now);
      var s := Respond(Classify(text), row, name, group, now);
      assert s == spec;
      users := users[uid := s.user];
      reply := s.reply;
    }

    /**
     * A text message: upsert the sender's row, and in a group chat the
     * group's row and the membership, then run the command.
     */
    method HandleText(uid: UserId, gid: Option<GroupId>, name: string, text: string, now: Instant)
      returns (reply: Reply)
      requires Valid()
      modifies this
      ensures Valid()
      ensures var row := if uid in old(users) then old(users)[uid] else NewUser(name, now);
        var gs := if gid.Some? && gid.value !in old(groups) then old(groups)[gid.value := NewGroup] else old(groups);
        var s := Interact(row, name, if gid.Some? then Some(gs[gid.value]) else None, text, now);
        && users == old(users)[uid := s.user]
        && groups == gs
        && members == old(members) + (if gid.Some? then {(gid.value, uid)} else {})
        && reply == s.reply
    {
      EnsureUser(uid, name, now);
      var group: Option<Group> := None;
      if gid.Some? {
        EnsureGroup(gid.value);
        EnsureMembership(gid.value, uid);
        group := Some(groups[gid.value]);
      }
      ghost var gs := groups;
      ghost var ms := members;
      reply := RunCommand(uid, name, group, text, now);
      assert groups == gs && members == ms;
    }

    /**
     * The webhook handler. A text message upserts the sender's row, the
     * group's row and the membership, and then runs its command. Join and
     * member-joined events are welcomed; any other event is ignored.
     */
    method HandleEvent(e: Event, now: Instant) returns (reply: Reply)
      requires Valid()
      modifies this
      ensures Valid()
      ensures !e.TextMessage? ==> unchanged(this) && reply == (if e.OtherEvent? then NoReply else Welcome)
      ensures e.TextMessage? ==>
        var row := if e.userId in old(users) then old(users)[e.userId] else NewUser(e.displayName, now);
        var gs := if e.groupId.Some? && e.groupId.value !in old(groups)
                  then old(groups)[e.groupId.value := NewGroup] else old(groups);
        var group := if e.groupId.Some? then Some(gs[e.groupId.value]) else None;
        var s := Interact(row, e.displayName, group, e.text, now);
        && users == old(users)[e.userId := s.user]
        && groups == gs
        && members == old(members) + (if e.groupId.Some? then {(e.groupId.value, e.userId)} else {})
        && reply == s.reply
    {
      match e
      case TextMessage(uid, gid, name, text) =>
        reply := HandleText(uid, gid, name, text, now);
      case Join =>
        reply := Welcome;
      case MemberJoined =>
        reply := Welcome;
      case OtherEvent =>
        reply := NoReply;
    }

    /**
     * One pass over a group's member ids: those with a wake-up time set in
     * `rows`, and among them those who neither used the joker nor reported
     * today.
     */
    static method SortMembers(rows: map<UserId, User>, ids: set<UserId>, today: Instant)
      returns (timed: set<UserId>, failed: set<UserId>)
      ensures timed == TimedMembers(rows, ids)
      ensures failed == FailedMembers(rows, ids, today)
      ensures failed <= timed
    {
      timed, failed := {}, {};
      var rest := ids;
      while rest != {}
        invariant rest <= ids
        invariant timed == TimedMembers(rows, ids - rest)
        invariant failed == FailedMembers(rows, ids - rest, today)
        decreases |rest|
      {
        var i :| i in rest;
        if i in rows && HasWakeupTime(rows[i]) {
          timed := timed + {i};
          if !rows[i].jokerUsed && !ReportedOn(rows[i], today) {
            failed := failed + {i};
          }
        }
        rest := rest - {i};
      }
    }

    /**
     * The check of one group: sort its members by their rows in `rows`,
     * reset the daily flags of every member, update the streak and push the
     * message. A group with no members, or none with a wake-up time, is
     * skipped.
     */
    method CheckGroupInPlace(g: GroupId, rows: map<UserId, User>, pushed: seq<Broadcast>, today: Instant)
      returns (broadcasts: seq<Broadcast>)
      requires Valid() && g in groups
      modifies this
      ensures Valid()
      ensures members == old(members)
      ensures RunState(users, groups, broadcasts, false)
           == CheckGroupWith(rows, RunState(old(users), old(groups), pushed, false), members, g, today)
    {
      broadcasts := pushed;
      var ids := MembersOf(members, g);
      if ids == {} {
        return;
      }
      var timed, failed := SortMembers(rows, ids, today);
      if timed == {} {
        return;
      }
      users := ResetFlags(users, ids);
      var group := groups[g];
      if failed == {} {
        var streak := group.currentStreak + 1;
        var best := if group.bestStreak > streak then group.bestStreak else streak;
        groups := groups[g := Group(streak, best)];
        broadcasts := broadcasts + [AllSucceeded(g, streak)];
      } else {
        groups := groups[g := group.(currentStreak := 0)];
        broadcasts := broadcasts + [SomeoneFailed(g, failed, group.currentStreak)];
      }
    }

    /**
     * The noon check. `order` lists every group once, as the store returns
     * them; `groupsUnavailable` is a failure to list the groups, and
     * `faulty` the groups whose member or user rows cannot be loaded. Each
     * group is judged, reset and pushed its message in turn; a store error
     * ends the run. Each group's verdict reads the user rows as the earlier
     * groups' resets left them.
     */
    method CheckAllGroupReports(order: seq<GroupId>, groupsUnavailable: bool, faulty: set<GroupId>, today: Instant)
      returns (broadcasts: seq<Broadcast>, aborted: bool)
      requires Valid()
      requires Distinct(order) && forall g :: g in groups <==> g in order
      modifies this
      ensures Valid()
      ensures members == old(members)
      ensures groupsUnavailable ==> aborted && broadcasts == [] && unchanged(this)
      ensures !groupsUnavailable ==>
        var r := Run(old(users), old(groups), old(members), order, faulty, today);
        users == r.users && groups == r.groups && broadcasts == r.broadcasts && aborted == r.aborted
    {
      broadcasts, aborted := [], false;
      if groupsUnavailable {
        aborted := true;
        return;
      }
      var k := 0;
      while k < |order|
        invariant 0 <= k <= |order|
        invariant Valid()
        invariant members == old(members)
        invariant users.Keys == old(users).Keys && groups.Keys == old(groups).Keys
        invariant Run(old(users), old(groups), members, order, faulty, today)
               == RunFrom(None, RunState(users, groups, broadcasts, false), members, order[k..], faulty, today)
        decreases |order| - k
      {
        var g := order[k];
        assert order[k..][1..] == order[k + 1..];
        if g in faulty {
          aborted := true;
          return;
        }
        broadcasts := CheckGroupInPlace(g, users, broadcasts, today);
        k := k + 1;
      }
    }
  }
}
