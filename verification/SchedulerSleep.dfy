/** How long the scheduler sleeps when no message comes: the instant its timer is set for. */
module SchedulerSleep {
  import opened Base
  import opened SourceAcl
  import opened TunnelModel
  import opened Schedules
  import opened GuardMachine
  import opened GuardInvariants
  import opened GuardRuns
  import opened GuardInterference

  const HOUR: int := 60 * MINUTE

  /** Some schedule or tunnel is to be attempted at `t`. */
  ghost predicate Upcoming(m: Memory, t: Time) {
    (exists key :: key in m.entries && m.entries[key].AttemptAt() == t)
    || (exists id :: id in m.tunnels && AttemptAt(m.tunnels[id]) == Some(t))
  }

  ghost predicate Earliest(m: Memory, t: Time) {
    Upcoming(m, t) && forall u :: Upcoming(m, u) ==> t <= u
  }

  /** The timer set after reading `m` fires at `alarm`: at once when the earliest attempt has come
      by then, at that attempt otherwise, and after an hour when there is none. */
  ghost predicate WakesAt(m: Memory, clock: Time, alarm: Time) {
    if exists t :: Upcoming(m, t) then exists t :: Earliest(m, t) && alarm == (if t < clock then clock else t)
    else alarm == clock + HOUR
  }

  /** Everything in the memory that was read is in time: the timer never fires after an attempt
      that was known when it was set, and never before the first of them. */
  lemma WakesInTime(m: Memory, clock: Time, alarm: Time)
    requires WakesAt(m, clock, alarm)
    ensures forall key :: key in m.entries ==> alarm <= (if m.entries[key].AttemptAt() < clock then clock else m.entries[key].AttemptAt())
    ensures forall id :: id in m.tunnels && AttemptAt(m.tunnels[id]).Some? ==>
              alarm <= (if AttemptAt(m.tunnels[id]).value < clock then clock else AttemptAt(m.tunnels[id]).value)
    ensures clock <= alarm && (alarm > clock && (exists t :: Upcoming(m, t)) ==> Upcoming(m, alarm))
  {
    forall key | key in m.entries ensures Upcoming(m, m.entries[key].AttemptAt()) {}
    forall id | id in m.tunnels && AttemptAt(m.tunnels[id]).Some? ensures Upcoming(m, AttemptAt(m.tunnels[id]).value) {}
  }

  /** What the two due lists say about the next attempt, when both are empty. */
  ghost predicate NextOf(m: Memory, next: Time) {
    if next == ZERO_TIME then !exists t :: Upcoming(m, t) else Earliest(m, next)
  }

  /** Two empty due lists, read at two instants, and the earliest attempts beside them. */
  lemma NextIsEarliest(m: Memory, now: Time, later: Time, e: Time, t: Time)
    requires forall key :: key in m.entries ==> m.entries[key].AttemptAt() > now
    requires forall id :: id in m.tunnels ==> !DueAt(m.tunnels[id], later)
    requires e == ZERO_TIME ==> m.entries == map[]
    requires e != ZERO_TIME ==> (exists key :: key in m.entries && m.entries[key].AttemptAt() == e)
                                && forall key :: key in m.entries ==> e <= m.entries[key].AttemptAt()
    requires t == ZERO_TIME ==> forall id :: id in m.tunnels ==> AttemptAt(m.tunnels[id]) == None
    requires t != ZERO_TIME ==> EarliestAttempt(m.tunnels, later, t)
    ensures NextOf(m, if t != ZERO_TIME && (e == ZERO_TIME || t < e) then t else e)
  {
    if e != ZERO_TIME {
      var key :| key in m.entries && m.entries[key].AttemptAt() == e;
      assert Upcoming(m, e);
    }
    if t != ZERO_TIME {
      var id :| id in m.tunnels && AttemptAt(m.tunnels[id]) == Some(t);
      assert Upcoming(m, t);
    }
  }

  lemma NextSetsAlarm(m: Memory, clock: Time, next: Time)
    requires NextOf(m, next)
    ensures WakesAt(m, clock, if next == ZERO_TIME then clock + HOUR else if next < clock then clock else next)
  {
  }
}
