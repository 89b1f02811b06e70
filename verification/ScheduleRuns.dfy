/** Client expiry schedules along runs of the guard: none is lost, no deadline moves by itself,
    an attempt never overrules a renewal, and every attempt makes progress. */
module ScheduleRuns {
  import opened Base
  import opened TunnelModel
  import opened Schedules
  import opened GuardMachine
  import opened GuardInvariants
  import opened GuardRuns

  // ---------------------------------------------------------------------------------------
  // Nothing is lost
  // ---------------------------------------------------------------------------------------

  /** The only ways a schedule may change: a request to delete it, a request to set it again, or
      a finished removal of the client under the very deadline it has. */
  predicate Releases(a: Action, key: string, notAfter: Time) {
    match a
    case DropSchedule(k, p) => k == key && !p.NotCommitted?
    case FinishAttempt(entry, removed, now, p) =>
      entry.key == key && removed && entry.notAfter == notAfter && !p.NotCommitted?
    case PutSchedule(s, p) => s.key == key && !p.NotCommitted?
    case _ => false
  }

  predicate ScheduledFor(m: Memory, key: string, notAfter: Time) {
    key in m.entries && m.entries[key].notAfter == notAfter
  }

  predicate TouchesEntries(a: Action) {
    a.PutSchedule? || a.DropSchedule? || a.FinishAttempt? || a.Restart?
  }

  lemma EntriesUntouched(w: World, a: Action, clock: Time)
    requires !TouchesEntries(a)
    ensures Next(w, a, clock).mem.entries == w.mem.entries
  {
  }

  lemma StepKeepsSchedule(w: World, a: Action, w': World, key: string, notAfter: Time)
    requires Inv(w) && Step(w, a, w') && ScheduledFor(w.mem, key, notAfter) && !Releases(a, key, notAfter)
    ensures ScheduledFor(w'.mem, key, notAfter)
  {
    if !TouchesEntries(a) {
      EntriesUntouched(w, a, w'.clock);
    } else if a.Restart? {
      assert SameSchedule(w.mem.entries[key], w.disk.entries[key]);
    } else {
      EntryStep(w, a, w', key, notAfter);
    }
  }

  lemma EntryStep(w: World, a: Action, w': World, key: string, notAfter: Time)
    requires a.PutSchedule? || a.DropSchedule? || a.FinishAttempt?
    requires w' == Next(w, a, w'.clock) && ScheduledFor(w.mem, key, notAfter) && !Releases(a, key, notAfter)
    ensures ScheduledFor(w'.mem, key, notAfter)
  {
  }

  /** A deadline that is in memory at one instant and not at a later one was released in between,
      and the release reached the file. Crashes and failed writes lose nothing. */
  lemma {:induction false} SchedulesAreNeverLost(ws: seq<World>, steps: seq<Action>, i: nat, j: nat, key: string, notAfter: Time)
    returns (k: nat)
    requires IsRun(ws, steps) && i <= j < |ws| && Inv(ws[0])
    requires ScheduledFor(ws[i].mem, key, notAfter) && !ScheduledFor(ws[j].mem, key, notAfter)
    ensures i <= k < j && Releases(steps[k], key, notAfter) && ScheduledFor(ws[k].mem, key, notAfter)
  {
    if ScheduledFor(ws[j - 1].mem, key, notAfter) {
      k := j - 1;
      RunKeepsInv(ws, steps, k);
      if !Releases(steps[k], key, notAfter) {
        StepKeepsSchedule(ws[k], steps[k], ws[j], key, notAfter);
      }
    } else {
      k := SchedulesAreNeverLost(ws, steps, i, j - 1, key, notAfter);
    }
  }

  /** The file holds every deadline that memory holds, and no other. */
  lemma DeadlinesAreDurable(ws: seq<World>, steps: seq<Action>, i: nat, key: string, notAfter: Time)
    requires IsRun(ws, steps) && i < |ws| && Initial(ws[0])
    ensures ScheduledFor(ws[i].mem, key, notAfter) <==> ScheduledFor(ws[i].disk, key, notAfter)
  {
    FileMatchesMemory(ws, steps, i);
    if key in ws[i].mem.entries {
      assert SameSchedule(ws[i].mem.entries[key], ws[i].disk.entries[key]);
    }
  }

  // ---------------------------------------------------------------------------------------
  // Attempts
  // ---------------------------------------------------------------------------------------

  /** A write that did not reach the file leaves both copies as they were. */
  lemma FailedRequestChangesNothing(w: World, a: Action, w': World)
    requires Step(w, a, w') && (a.PutSchedule? || a.DropSchedule? || a.SetToken?) && a.p.NotCommitted?
    ensures w' == w
  {
  }

  /** An attempt made for a deadline that has since been moved or cleared changes nothing, whether
      or not the client was removed. */
  lemma RenewalSurvivesAttempt(w: World, entry: Schedule, removed: bool, now: Time, p: Persist, w': World)
    requires Step(w, FinishAttempt(entry, removed, now, p), w')
    requires !ScheduledFor(w.mem, entry.key, entry.notAfter)
    ensures w' == w
  {
  }

  /** The schedule of `key` is gone, has another deadline, or is not due before `at`. */
  predicate Settled(m: Memory, key: string, notAfter: Time, at: Time) {
    ScheduledFor(m, key, notAfter) ==> m.entries[key].AttemptAt() >= at
  }

  /** Whatever the attempt and the write came to, the schedule is settled for five seconds, and
      is looked at again within 320 seconds of the attempt or of its deadline. */
  lemma AttemptSettles(w: World, entry: Schedule, removed: bool, now: Time, p: Persist, w': World)
    requires Step(w, FinishAttempt(entry, removed, now, p), w')
    ensures Settled(w'.mem, entry.key, entry.notAfter, now + 5 * SECOND)
    ensures ScheduledFor(w'.mem, entry.key, entry.notAfter) ==>
              w'.mem.entries[entry.key].AttemptAt() <= (if entry.notAfter > now then entry.notAfter else now) + 320 * SECOND
    ensures removed && !p.NotCommitted? ==> !ScheduledFor(w'.mem, entry.key, entry.notAfter)
    ensures !removed && ScheduledFor(w.mem, entry.key, entry.notAfter) ==> ScheduledFor(w'.mem, entry.key, entry.notAfter)
  {
    if ScheduledFor(w.mem, entry.key, entry.notAfter) {
      RetryDelayBounds(w.mem.entries[entry.key].attempts + 1);
    }
  }

  predicate Disturbs(a: Action, key: string) {
    a.Restart? || (a.PutSchedule? && a.schedule.key == key) || (a.FinishAttempt? && a.entry.key == key)
  }

  lemma EntryStepKeepsSettled(w: World, a: Action, w': World, key: string, notAfter: Time, at: Time)
    requires a.PutSchedule? || a.DropSchedule? || a.FinishAttempt?
    requires w' == Next(w, a, w'.clock) && Settled(w.mem, key, notAfter, at) && !Disturbs(a, key)
    ensures Settled(w'.mem, key, notAfter, at)
  {
  }

  lemma StepKeepsSettled(w: World, a: Action, w': World, key: string, notAfter: Time, at: Time)
    requires Inv(w) && Step(w, a, w') && Settled(w.mem, key, notAfter, at) && !Disturbs(a, key)
    ensures Settled(w'.mem, key, notAfter, at)
  {
    if TouchesEntries(a) {
      EntryStepKeepsSettled(w, a, w', key, notAfter, at);
    } else {
      EntriesUntouched(w, a, w'.clock);
    }
  }

  lemma {:induction false} SettledStays(ws: seq<World>, steps: seq<Action>, i: nat, j: nat, key: string, notAfter: Time, at: Time)
    requires IsRun(ws, steps) && i <= j < |ws| && Inv(ws[0]) && Settled(ws[i].mem, key, notAfter, at)
    requires forall k :: i <= k < j ==> !Disturbs(steps[k], key)
    ensures Settled(ws[j].mem, key, notAfter, at)
  {
    if i < j {
      SettledStays(ws, steps, i, j - 1, key, notAfter, at);
      RunKeepsInv(ws, steps, j - 1);
      StepKeepsSettled(ws[j - 1], steps[j - 1], ws[j], key, notAfter, at);
    }
  }

  /** The scheduler's inner loop makes progress: once a pass that began at `now` has attempted a
      list of due schedules, and nobody put one of them back meanwhile, none of them is due again
      before five seconds after `now`, although every removal and every write may have failed. */
  lemma PassMakesProgress(ws: seq<World>, steps: seq<Action>, i: nat, j: nat, due: seq<Schedule>, at: seq<nat>, now: Time)
    requires IsRun(ws, steps) && i <= j < |ws| && Initial(ws[0]) && |at| == |due|
    requires forall n :: 0 <= n < |due| ==>
      i <= at[n] < j && steps[at[n]].FinishAttempt? && steps[at[n]].entry == due[n] && steps[at[n]].now >= now
    requires forall n, k :: 0 <= n < |due| && i <= k < j && k != at[n] ==> !Disturbs(steps[k], due[n].key)
    ensures forall n :: 0 <= n < |due| ==> Settled(ws[j].mem, due[n].key, due[n].notAfter, now + 5 * SECOND)
  {
    InitialIsGood(ws[0]);
    forall n | 0 <= n < |due| ensures Settled(ws[j].mem, due[n].key, due[n].notAfter, now + 5 * SECOND) {
      var k, a := at[n], steps[at[n]];
      assert Step(ws[k], a, ws[k + 1]);
      AttemptSettles(ws[k], a.entry, a.removed, a.now, a.p, ws[k + 1]);
      SettledStays(ws, steps, k + 1, j, due[n].key, due[n].notAfter, now + 5 * SECOND);
    }
  }

  /** An attempt for the deadline on record drops it when the client was removed and the file says
      so; otherwise one more attempt is counted and the next one set after the delay for that many,
      and all other schedules stay as they are. */
  lemma AttemptMeans(w: World, entry: Schedule, removed: bool, now: Time, p: Persist, w': World)
    requires Step(w, FinishAttempt(entry, removed, now, p), w')
    requires entry.key in w.mem.entries && w.mem.entries[entry.key].notAfter == entry.notAfter
    ensures w'.mem.tunnels == w.mem.tunnels && w'.mem.token == w.mem.token
    ensures forall key :: key != entry.key ==>
              (key in w'.mem.entries <==> key in w.mem.entries)
              && (key in w.mem.entries ==> w'.mem.entries[key] == w.mem.entries[key])
    ensures entry.key !in w'.mem.entries <==> removed && !p.NotCommitted?
    ensures entry.key in w'.mem.entries ==>
              var s := w.mem.entries[entry.key];
              w'.mem.entries[entry.key]
              == s.(attempts := s.attempts + 1, nextAttemptAt := Some(now + RetryDelay(s.attempts + 1)))
  {
  }
}
