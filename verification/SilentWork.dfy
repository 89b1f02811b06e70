/** What the scheduler sleeps through: exactly which writes give it work that neither its timer nor
    a message announces. */
module SilentWork {
  import opened Base
  import opened SourceAcl
  import opened TunnelModel
  import opened Schedules
  import opened GuardMachine
  import opened GuardInvariants
  import opened GuardRuns
  import opened GuardLimits
  import opened GuardInterference
  import opened Operations
  import opened SchedulerSleep

  /** One sleep of the scheduler: the world in which it read what is due, what it set its timer
      to, and whether a message was waiting in the wake-up channel already. */
  datatype Sleep = Sleep(read: nat, alarm: Time, pending: bool)

  function At(steps: seq<Action>, k: nat): Progress
    requires k <= |steps|
  {
    var p := Walk(steps, k);
    if p.Some? then p.value else Idle
  }

  /** Steps that only the scheduler takes, and the restart that replaces it. */
  predicate ByScheduler(p: Progress, a: Action) {
    || a.FinishAttempt? || a.BeginExpiry? || a.Restart?
    || ((a.Postpone? || a.Finish?) && !p.Removing?) || (a.AgentRemove? && (p.Started? || p.Lapsing?))
  }

  /** A history made of whole operations in which the scheduler goes to sleep at `z.read` and does
      nothing from there on. */
  ghost predicate Sleeps(ws: seq<World>, steps: seq<Action>, z: Sleep) {
    && IsRun(ws, steps) && Initial(ws[0]) && Walk(steps, |steps|).Some?
    && z.read < |ws| && WakesAt(ws[z.read].mem, ws[z.read].clock, z.alarm)
    && forall k :: z.read <= k < |steps| ==> !ByScheduler(At(steps, k), steps[k])
  }

  /** Step `k` sends the scheduler a message. */
  predicate Rung(ws: seq<World>, steps: seq<Action>, k: nat)
    requires k < |ws| && k < |steps|
  {
    Rings(ws[k], At(steps, k), steps[k])
  }

  /** At `j` neither the timer has fired nor a message has come. */
  ghost predicate Asleep(ws: seq<World>, steps: seq<Action>, z: Sleep, j: nat)
    requires j < |ws| == |steps| + 1
  {
    !z.pending && (forall k :: z.read <= k < j ==> !Rung(ws, steps, k)) && ws[j].clock < z.alarm
  }

  /** In this history the scheduler wakes no later than `t`. */
  ghost predicate WokenBy(ws: seq<World>, steps: seq<Action>, z: Sleep, t: Time)
    requires |ws| == |steps| + 1
  {
    z.pending || z.alarm <= t || exists k :: z.read <= k < |steps| && Rung(ws, steps, k) && ws[k + 1].clock <= t
  }

  ghost predicate KnownBy(m: Memory, t: Time) {
    exists u :: Upcoming(m, u) && u <= t
  }

  ghost predicate NothingKnown(m: Memory) {
    forall u :: !Upcoming(m, u)
  }

  // ---------------------------------------------------------------------------------------
  // The three silent writes
  // ---------------------------------------------------------------------------------------

  /** A grant that succeeded, of the generation that `r` still is; the lease may have grown since. */
  predicate GrantsRecord(a: Action, r: TunnelResource) {
    a.Activate? && a.p.Committed? && a.base.id == r.id && a.base.generation == r.generation
    && a.base.hardNotAfter == r.hardNotAfter && a.base.leaseUntil <= r.leaseUntil
  }

  ghost predicate GrantedSince(steps: seq<Action>, from: nat, k: nat, r: TunnelResource)
    requires k <= |steps|
  {
    r.state.Active? && exists n :: from <= n < k && GrantsRecord(steps[n], r)
  }

  /** The intent of a cleanup that reached the file and was reported as failed, as it was written. */
  predicate Intends(w: World, a: Action, r: TunnelResource) {
    a.BeginCleanup? && a.p.CommittedWithError? && r == CleaningUp(a.base, a.generation, a.terminal, w.clock)
  }

  ghost predicate IntendedSince(ws: seq<World>, steps: seq<Action>, from: nat, k: nat, r: TunnelResource)
    requires k <= |steps| && k <= |ws|
  {
    r.state in {SuspendPending, DeletePending} && exists n :: from <= n < k && Intends(ws[n], steps[n], r)
  }

  /** A client's deadline that reached the file and was reported as failed. */
  ghost predicate PutSince(steps: seq<Action>, from: nat, k: nat, s: Schedule)
    requires k <= |steps|
  {
    exists n :: from <= n < k && steps[n] == PutSchedule(s, CommittedWithError)
  }

  /** The operation at `p` will send a message, or it may still do so and has written the record of
      `id` last. */
  predicate Owes(p: Progress, id: string) {
    Owing(p) || p in {Granting(id), Unrecorded(id), Removing(id)}
  }

  /** Why the scheduler may be asleep although `r` waits for it. */
  ghost predicate Accounted(ws: seq<World>, steps: seq<Action>, z: Sleep, k: nat, r: TunnelResource)
    requires k <= |steps| && k <= |ws|
  {
    AttemptAt(r).Some? ==>
      || z.alarm <= AttemptAt(r).value
      || GrantedSince(steps, z.read, k, r)
      || IntendedSince(ws, steps, z.read, k, r)
      || Owes(At(steps, k), r.id)
  }

  ghost predicate AllAccounted(ws: seq<World>, steps: seq<Action>, z: Sleep, k: nat)
    requires k <= |steps| && k < |ws|
  {
    forall id :: id in ws[k].mem.tunnels ==> Accounted(ws, steps, z, k, ws[k].mem.tunnels[id])
  }

  lemma {:induction false} WalkIsDefined(steps: seq<Action>, k: nat, n: nat)
    requires k <= n <= |steps| && Walk(steps, n).Some?
    ensures Walk(steps, k).Some?
  {
    if k < n {
      WalkIsDefined(steps, k, n - 1);
    }
  }

  lemma OneMore(steps: seq<Action>, k: nat)
    requires k < |steps| && Walk(steps, |steps|).Some?
    ensures Advance(At(steps, k), steps[k]) == Some(At(steps, k + 1))
  {
    WalkIsDefined(steps, k, |steps|);
    WalkIsDefined(steps, k + 1, |steps|);
  }

  lemma StillAsleepBefore(ws: seq<World>, steps: seq<Action>, z: Sleep, i: nat, j: nat)
    requires IsRun(ws, steps) && i <= j < |ws| && Asleep(ws, steps, z, j)
    ensures Asleep(ws, steps, z, i)
  {
    ClockNeverGoesBack(ws, steps, i, j);
  }

  /** What was known when the timer was set is attempted in time. */
  lemma KnownIsAccounted(ws: seq<World>, steps: seq<Action>, z: Sleep)
    requires Sleeps(ws, steps, z) && Asleep(ws, steps, z, z.read)
    ensures AllAccounted(ws, steps, z, z.read)
  {
    WakesInTime(ws[z.read].mem, ws[z.read].clock, z.alarm);
  }

  /** An operation keeps owing its message until the record is granted or finished, or the message
      is sent. */
  lemma OwingGoesOn(w: World, p: Progress, a: Action, p': Progress, id: string)
    requires Advance(p, a) == Some(p') && !Rings(w, p, a) && !a.Restart? && Owes(p, id)
    requires !((a.Activate? || a.Finish?) && a.p.Committed? && a.base.id == id)
    ensures Owes(p', id)
  {
  }

  /** Every record an operation writes is owed a message, unless it is terminal or written by one
      of the silent ways or a renewal. */
  lemma WritingOwes(p: Progress, a: Action, p': Progress)
    requires Advance(p, a) == Some(p') && !ByScheduler(p, a) && StoresTunnel(a)
    ensures Owes(p', if a.Provision? then a.record.id else a.base.id)
            || ((a.Activate? || a.Finish?) && a.p.Committed?)
            || ((a.Renew? || a.BeginCleanup?) && p == Started && !a.p.Committed?)
  {
  }

  lemma StaysAccounted(ws: seq<World>, steps: seq<Action>, z: Sleep, k: nat, r: TunnelResource)
    requires IsRun(ws, steps) && k < |steps| && z.read <= k && Accounted(ws, steps, z, k, r)
    requires Owes(At(steps, k), r.id) ==> Owes(At(steps, k + 1), r.id)
    ensures Accounted(ws, steps, z, k + 1, r)
  {
  }

  /** While the scheduler sleeps, nothing but a storing step changes a tunnel: a fail-closed pass
      that withdraws something sends a message. */
  lemma OnlyStoresChange(w: World, p: Progress, a: Action, w': World)
    requires Step(w, a, w') && !Rings(w, p, a) && !a.Restart? && !StoresTunnel(a)
    ensures w'.mem.tunnels == w.mem.tunnels
  {
  }

  /** The record a renewal stores is due no earlier than the one it replaces. */
  lemma RenewalIsAccounted(ws: seq<World>, steps: seq<Action>, z: Sleep, k: nat)
    requires k < |steps| && k < |ws| && z.read <= k && Inv(ws[k]) && ws[k].clock < z.alarm
    requires steps[k].Renew? && Enabled(ws[k], steps[k]) && At(steps, k) == Started
    requires Accounted(ws, steps, z, k, ws[k].mem.tunnels[steps[k].base.id])
    ensures Accounted(ws, steps, z, k + 1, Stored(ws[k], steps[k]))
  {
    var w, b := ws[k], steps[k].base;
    var m := w.mem.tunnels[b.id];
    assert GoodRecord(m, w.clock) && Current(m, b);
    if m == b && GrantedSince(steps, z.read, k, b) {
      var n :| z.read <= n < k && GrantsRecord(steps[n], b);
      assert GrantsRecord(steps[n], Stored(w, steps[k]));
    }
  }

  lemma GrantIsAccounted(ws: seq<World>, steps: seq<Action>, z: Sleep, k: nat, at: Time)
    requires k < |steps| && k < |ws| && z.read <= k && steps[k].Activate? && steps[k].p.Committed?
    ensures Accounted(ws, steps, z, k + 1, Activated(steps[k].base, at))
  {
    assert GrantsRecord(steps[k], Activated(steps[k].base, at));
  }

  lemma IntentIsAccounted(ws: seq<World>, steps: seq<Action>, z: Sleep, k: nat)
    requires k < |steps| && k < |ws| && z.read <= k && steps[k].BeginCleanup? && steps[k].p.CommittedWithError?
    ensures Accounted(ws, steps, z, k + 1, CleaningUp(steps[k].base, steps[k].generation, steps[k].terminal, ws[k].clock))
  {
    var r := CleaningUp(steps[k].base, steps[k].generation, steps[k].terminal, ws[k].clock);
    assert Intends(ws[k], steps[k], r);
  }

  /** A finished record waits for nothing. */
  lemma FinishedIsDone(w: World, b: TunnelResource, p: Persist)
    requires Inv(w) && Enabled(w, Finish(b, p))
    ensures AttemptAt(Finished(b, w.clock)) == None
  {
    BaseIsGood(w, b);
  }

  /** The record that a step puts in place. */
  lemma StoredIsAccounted(ws: seq<World>, steps: seq<Action>, z: Sleep, k: nat)
    requires k < |steps| && k < |ws| && z.read <= k && Inv(ws[k]) && ws[k].clock < z.alarm
    requires StoresTunnel(steps[k]) && Enabled(ws[k], steps[k])
    requires Advance(At(steps, k), steps[k]) == Some(At(steps, k + 1)) && !ByScheduler(At(steps, k), steps[k])
    requires !steps[k].p.NotCommitted? && AllAccounted(ws, steps, z, k)
    ensures Accounted(ws, steps, z, k + 1, Stored(ws[k], steps[k]))
  {
    var w, a := ws[k], steps[k];
    StoredUnderBase(w, a);
    WritingOwes(At(steps, k), a, At(steps, k + 1));
    if Owes(At(steps, k + 1), Stored(w, a).id) {
    } else if a.Renew? {
      RenewalIsAccounted(ws, steps, z, k);
    } else if a.Activate? {
      GrantIsAccounted(ws, steps, z, k, w.clock);
    } else if a.BeginCleanup? {
      IntentIsAccounted(ws, steps, z, k);
    } else {
      FinishedIsDone(w, a.base, a.p);
    }
  }

  lemma StepAccounts(ws: seq<World>, steps: seq<Action>, z: Sleep, k: nat)
    requires Sleeps(ws, steps, z) && z.read <= k < |steps| && Inv(ws[k]) && Asleep(ws, steps, z, k + 1)
    requires AllAccounted(ws, steps, z, k)
    ensures AllAccounted(ws, steps, z, k + 1)
  {
    var w, a, w' := ws[k], steps[k], ws[k + 1];
    assert Step(w, a, w') && !Rung(ws, steps, k) && !ByScheduler(At(steps, k), a);
    OneMore(steps, k);
    forall id | id in w'.mem.tunnels ensures Accounted(ws, steps, z, k + 1, w'.mem.tunnels[id]) {
      if StoresTunnel(a) {
        StoredIsNext(w, a, w');
        StoredUnderBase(w, a);
      }
      if StoresTunnel(a) && !a.p.NotCommitted? && id == Stored(w, a).id {
        StoredIsAccounted(ws, steps, z, k);
      } else {
        if !StoresTunnel(a) {
          OnlyStoresChange(w, At(steps, k), a, w');
        }
        assert w'.mem.tunnels[id] == w.mem.tunnels[id] && GoodRecord(w.mem.tunnels[id], w.clock);
        if Owes(At(steps, k), id) {
          OwingGoesOn(w, At(steps, k), a, At(steps, k + 1), id);
        }
        StaysAccounted(ws, steps, z, k, w.mem.tunnels[id]);
      }
    }
  }

  lemma StoredUnderBase(w: World, a: Action)
    requires Enabled(w, a) && StoresTunnel(a)
    ensures Stored(w, a).id == if a.Provision? then a.record.id else a.base.id
  {
  }

  ghost predicate EntryAccounted(steps: seq<Action>, z: Sleep, k: nat, s: Schedule)
    requires k <= |steps|
  {
    z.alarm <= s.AttemptAt() || PutSince(steps, z.read, k, s)
  }

  /** While the scheduler sleeps, a deadline in memory is an old one or one just written. */
  lemma EntryStep(w: World, p: Progress, a: Action, w': World, key: string)
    requires Step(w, a, w') && !ByScheduler(p, a) && key in w'.mem.entries
    ensures (key in w.mem.entries && w'.mem.entries[key] == w.mem.entries[key])
            || (a.PutSchedule? && a.schedule == w'.mem.entries[key] && !a.p.NotCommitted?)
  {
  }

  ghost predicate AllEntriesAccounted(ws: seq<World>, steps: seq<Action>, z: Sleep, k: nat)
    requires k <= |steps| && k < |ws|
  {
    forall key :: key in ws[k].mem.entries ==> EntryAccounted(steps, z, k, ws[k].mem.entries[key])
  }

  lemma KnownEntriesAccounted(ws: seq<World>, steps: seq<Action>, z: Sleep)
    requires Sleeps(ws, steps, z) && Asleep(ws, steps, z, z.read)
    ensures AllEntriesAccounted(ws, steps, z, z.read)
  {
    WakesInTime(ws[z.read].mem, ws[z.read].clock, z.alarm);
  }

  lemma StepAccountsEntries(ws: seq<World>, steps: seq<Action>, z: Sleep, k: nat)
    requires Sleeps(ws, steps, z) && z.read <= k < |steps| && Asleep(ws, steps, z, k + 1)
    requires AllEntriesAccounted(ws, steps, z, k)
    ensures AllEntriesAccounted(ws, steps, z, k + 1)
  {
    assert !Rung(ws, steps, k);
    var after := ws[k + 1].mem.entries;
    forall key | key in after ensures EntryAccounted(steps, z, k + 1, after[key]) {
      EntryStep(ws[k], At(steps, k), steps[k], ws[k + 1], key);
    }
  }

  lemma {:induction false} SleepAccounts(ws: seq<World>, steps: seq<Action>, z: Sleep, j: nat)
    requires Sleeps(ws, steps, z) && z.read <= j < |ws| && Asleep(ws, steps, z, j)
    ensures AllAccounted(ws, steps, z, j) && AllEntriesAccounted(ws, steps, z, j)
  {
    if z.read == j {
      KnownIsAccounted(ws, steps, z);
      KnownEntriesAccounted(ws, steps, z);
    } else {
      StillAsleepBefore(ws, steps, z, j - 1, j);
      SleepAccounts(ws, steps, z, j - 1);
      InitialIsGood(ws[0]);
      RunKeepsInv(ws, steps, j - 1);
      StepAccounts(ws, steps, z, j - 1);
      StepAccountsEntries(ws, steps, z, j - 1);
    }
  }

  /** Whether the timer alone is too late for `t`: nothing known is due by then, and if nothing is
      known at all the idle hour ends later. */
  lemma AlarmIsLateIff(m: Memory, clock: Time, alarm: Time, now: Time, t: Time)
    requires WakesAt(m, clock, alarm) && clock <= now < alarm
    ensures t < alarm <==> !KnownBy(m, t) && (NothingKnown(m) ==> t < clock + HOUR)
  {
  }

  /** Between operations, a tunnel waits for a scheduler whose timer comes too late if and only if
      the record was written since by a grant that succeeded or by a cleanup whose intent was
      recorded but reported as failed, and nothing that was known is due in time, and not the idle
      hour either. It is never both. */
  lemma TunnelMissedIff(ws: seq<World>, steps: seq<Action>, z: Sleep, j: nat, id: string)
    requires Sleeps(ws, steps, z) && z.read <= j < |ws| && Asleep(ws, steps, z, j)
    requires id in ws[j].mem.tunnels && AttemptAt(ws[j].mem.tunnels[id]).Some? && !Owes(At(steps, j), id)
    ensures var r, known := ws[j].mem.tunnels[id], ws[z.read].mem;
            var t := AttemptAt(r).value;
            && (t < z.alarm <==>
                  && (GrantedSince(steps, z.read, j, r) || IntendedSince(ws, steps, z.read, j, r))
                  && !KnownBy(known, t) && (NothingKnown(known) ==> t < ws[z.read].clock + HOUR))
            && !(GrantedSince(steps, z.read, j, r) && IntendedSince(ws, steps, z.read, j, r))
  {
    InitialIsGood(ws[0]);
    RunKeepsInv(ws, steps, j);
    SleepAccounts(ws, steps, z, j);
    assert GoodRecord(ws[j].mem.tunnels[id], ws[j].clock);
    ClockNeverGoesBack(ws, steps, z.read, j);
    AlarmIsLateIff(ws[z.read].mem, ws[z.read].clock, z.alarm, ws[j].clock, AttemptAt(ws[j].mem.tunnels[id]).value);
  }

  // ---------------------------------------------------------------------------------------
  // Client deadlines
  // ---------------------------------------------------------------------------------------

  /** A client's deadline waits for a scheduler whose timer comes too late if and only if it was
      recorded since by a request that was reported as failed, and nothing that was known is due in
      time, and not the idle hour either. */
  lemma DeadlineMissedIff(ws: seq<World>, steps: seq<Action>, z: Sleep, j: nat, key: string)
    requires Sleeps(ws, steps, z) && z.read <= j < |ws| && Asleep(ws, steps, z, j) && key in ws[j].mem.entries
    ensures var s, known := ws[j].mem.entries[key], ws[z.read].mem;
            var t := s.AttemptAt();
            t < z.alarm <==>
              && PutSince(steps, z.read, j, s)
              && !KnownBy(known, t) && (NothingKnown(known) ==> t < ws[z.read].clock + HOUR)
  {
    SleepAccounts(ws, steps, z, j);
    ClockNeverGoesBack(ws, steps, z.read, j);
    AlarmIsLateIff(ws[z.read].mem, ws[z.read].clock, z.alarm, ws[j].clock, ws[j].mem.entries[key].AttemptAt());
  }

  // ---------------------------------------------------------------------------------------
  // Each of the three ways is open, from every sleep
  // ---------------------------------------------------------------------------------------

  /** The scheduler is asleep at the end of a history, in the world `w` and with an operation in
      flight at `p`. */
  ghost predicate Dozing(ws: seq<World>, steps: seq<Action>, z: Sleep, w: World, p: Progress) {
    Sleeps(ws, steps, z) && Asleep(ws, steps, z, |steps|) && ws[|steps|] == w && At(steps, |steps|) == p
  }

  /** Only the timer can still wake it. */
  lemma OnlyTheTimer(ws: seq<World>, steps: seq<Action>, z: Sleep, w: World, p: Progress)
    requires Dozing(ws, steps, z, w, p)
    ensures forall t: Time :: WokenBy(ws, steps, z, t) <==> z.alarm <= t
  {
  }

  lemma PrefixAgrees(ws: seq<World>, steps: seq<Action>, a: Action, w': World)
    requires |ws| == |steps| + 1
    ensures forall k: nat | k <= |steps| :: At(steps + [a], k) == At(steps, k)
    ensures forall k: nat | k < |steps| :: Rung(ws + [w'], steps + [a], k) == Rung(ws, steps, k)
  {
    forall k: nat | k <= |steps| ensures At(steps + [a], k) == At(steps, k) {
      WalkOfPrefix(steps, steps + [a], k);
    }
  }

  lemma SleepsOn(ws: seq<World>, steps: seq<Action>, z: Sleep, w: World, p: Progress, a: Action, w': World)
    requires Dozing(ws, steps, z, w, p) && Step(w, a, w') && Advance(p, a).Some? && !ByScheduler(p, a)
    ensures Sleeps(ws + [w'], steps + [a], z) && At(steps + [a], |steps + [a]|) == Advance(p, a).value
  {
    var ws', steps' := ws + [w'], steps + [a];
    PrefixAgrees(ws, steps, a, w');
    OperatedGrows(steps, p, a);
    HistoryGrows(ws, steps, w, a, w');
    forall k | z.read <= k < |steps'| ensures !ByScheduler(At(steps', k), steps'[k]) {
      if k < |steps| {
        assert steps'[k] == steps[k];
      }
    }
    assert ws'[z.read] == ws[z.read];
  }

  lemma AsleepOn(ws: seq<World>, steps: seq<Action>, z: Sleep, w: World, p: Progress, a: Action, w': World)
    requires Dozing(ws, steps, z, w, p) && !Rings(w, p, a) && w'.clock < z.alarm
    ensures Asleep(ws + [w'], steps + [a], z, |steps + [a]|)
  {
    PrefixAgrees(ws, steps, a, w');
    assert Rung(ws + [w'], steps + [a], |steps|) == Rings(w, p, a);
  }

  /** A silent step before the timer leaves the scheduler asleep. */
  lemma DozesOn(ws: seq<World>, steps: seq<Action>, z: Sleep, w: World, p: Progress, a: Action, w': World, p': Progress)
    requires Dozing(ws, steps, z, w, p) && Step(w, a, w') && Advance(p, a) == Some(p')
    requires !ByScheduler(p, a) && !Rings(w, p, a) && w'.clock < z.alarm
    ensures Dozing(ws + [w'], steps + [a], z, w', p')
  {
    SleepsOn(ws, steps, z, w, p, a, w');
    AsleepOn(ws, steps, z, w, p, a, w');
  }

  /** An operation that begins while the scheduler sleeps. */
  lemma BeginsSilently(ws: seq<World>, steps: seq<Action>, z: Sleep, w: World) returns (w': World)
    requires Dozing(ws, steps, z, w, Idle)
    ensures w' == w.(holder := Some(w.clock), read := w.mem.tunnels)
    ensures Dozing(ws + [w'], steps + [Acquire], z, w', Started)
  {
    w' := w.(holder := Some(w.clock), read := w.mem.tunnels);
    IdleIffFree(ws, steps, |steps|);
    DozesOn(ws, steps, z, w, Idle, Acquire, w', Started);
  }

  /** One that ends owing nothing. */
  lemma EndsSilently(ws: seq<World>, steps: seq<Action>, z: Sleep, w: World, id: string) returns (w': World)
    requires Dozing(ws, steps, z, w, Over(id, false))
    ensures w' == w.(holder := None) && Dozing(ws + [w'], steps + [Release], z, w', Idle)
  {
    w' := w.(holder := None);
    IdleIffFree(ws, steps, |steps|);
    DozesOn(ws, steps, z, w, Over(id, false), Release, w', Idle);
  }

  lemma StartsDozing(ws: seq<World>, steps: seq<Action>, w: World, p: Progress, alarm: Time)
    requires History(ws, steps, w) && Operated(steps, p) && WakesAt(w.mem, w.clock, alarm) && w.clock < alarm
    ensures Dozing(ws, steps, Sleep(|ws| - 1, alarm, false), w, p)
  {
  }

  /** A request that records a deadline while the scheduler sleeps, reported as failed after the
      rename: the deadline is in memory and in the file, and only the timer can still meet it. */
  lemma SilentUpsert(ws: seq<World>, steps: seq<Action>, z: Sleep, w: World, p: Progress, s: Schedule)
    requires Dozing(ws, steps, z, w, p) && PersistableSchedule(s)
    ensures var w' := AfterUpsert(w, s, CommittedWithError);
            var ws', steps' := ws + [w'], steps + [PutSchedule(s, CommittedWithError)];
            && Dozing(ws', steps', z, w', p)
            && s.key in w'.mem.entries && w'.mem.entries[s.key] == s && w'.disk == w'.mem
            && PutSince(steps', z.read, |steps'|, s)
            && (WokenBy(ws', steps', z, s.AttemptAt()) <==> z.alarm <= s.AttemptAt())
  {
    var a, w' := PutSchedule(s, CommittedWithError), AfterUpsert(w, s, CommittedWithError);
    DozesOn(ws, steps, z, w, p, a, w', p);
    assert (steps + [a])[|steps|] == a;
    OnlyTheTimer(ws + [w'], steps + [a], z, w', p);
  }

  /** A cleanup request while the scheduler sleeps, whose intent is reported as failed after the
      rename: the record is pending in both copies, due at once, and whatever was exposed still is. */
  lemma SilentCleanup(ws: seq<World>, steps: seq<Action>, z: Sleep, w: World, id: string, generation: nat, terminal: State)
    returns (ws': seq<World>, steps': seq<Action>, w': World)
    requires Dozing(ws, steps, z, w, Idle) && terminal in {Suspended, Deleted}
    requires CleanupDecision(w.mem, id, generation, terminal) == CleanUp
    ensures ws <= ws' && Dozing(ws', steps', z, w', Idle)
    ensures var r := CleaningUp(w.mem.tunnels[id], generation, terminal, w.clock);
            && w'.mem == WithTunnel(w.mem, r) == w'.disk && w'.live == w.live && w'.clock == w.clock
            && IntendedSince(ws', steps', z.read, |steps'|, r) && AttemptAt(r) == Some(w.clock)
            && !WokenBy(ws', steps', z, w.clock)
  {
    StoredUnderItsId(ws, steps, w, id);
    var b := w.mem.tunnels[id];
    var step, r := BeginCleanup(b, generation, terminal, CommittedWithError), CleaningUp(b, generation, terminal, w.clock);
    var w1 := BeginsSilently(ws, steps, z, w);
    var w2 := StoreTunnel(w1, r, CommittedWithError);
    IntendsSilently(ws + [w1], steps + [Acquire], z, w1, b, generation, terminal);
    w' := EndsSilently(ws + [w1] + [w2], steps + [Acquire] + [step], z, w2, b.id);
    ws', steps' := ws + [w1] + [w2] + [w'], steps + [Acquire] + [step] + [Release];
    IntentIsSince(ws, steps, z.read, w1, w2, w', step, r);
    OnlyTheTimer(ws', steps', z, w', Idle);
  }

  lemma IntentIsSince(ws: seq<World>, steps: seq<Action>, from: nat, w1: World, w2: World, w3: World, a: Action, r: TunnelResource)
    requires |ws| == |steps| + 1 && from < |ws| && Intends(w1, a, r) && r.state in {SuspendPending, DeletePending}
    ensures var ws', steps' := ws + [w1] + [w2] + [w3], steps + [Acquire] + [a] + [Release];
            ws <= ws' && IntendedSince(ws', steps', from, |steps'|, r)
  {
    var ws', steps' := ws + [w1] + [w2] + [w3], steps + [Acquire] + [a] + [Release];
    assert steps'[|steps| + 1] == a && ws'[|steps| + 1] == w1;
  }

  lemma IntendsSilently(ws: seq<World>, steps: seq<Action>, z: Sleep, w: World, b: TunnelResource, generation: nat, terminal: State)
    requires Dozing(ws, steps, z, w, Started) && b.id in w.mem.tunnels && w.mem.tunnels[b.id] == b
    requires terminal in {Suspended, Deleted} && CleanupDecision(w.mem, b.id, generation, terminal) == CleanUp
    ensures var w' := StoreTunnel(w, CleaningUp(b, generation, terminal, w.clock), CommittedWithError);
            Dozing(ws + [w'], steps + [BeginCleanup(b, generation, terminal, CommittedWithError)], z, w', Over(b.id, false))
  {
    IdleIffFree(ws, steps, |steps|);
    var w' := StoreTunnel(w, CleaningUp(b, generation, terminal, w.clock), CommittedWithError);
    DozesOn(ws, steps, z, w, Started, BeginCleanup(b, generation, terminal, CommittedWithError), w', Over(b.id, false));
  }

  /** A grant that succeeds while the scheduler sleeps: both copies say active, the Agent exposes
      the inbound, and only the timer can still end it in time. */
  lemma SilentGrant(ws: seq<World>, steps: seq<Action>, z: Sleep, w: World, r: TunnelResource, list: seq<AclEntry>)
    returns (ws': seq<World>, steps': seq<Action>, w': World)
    requires Dozing(ws, steps, z, w, Idle) && Fresh(r, w.clock)
    requires Decision(w.mem, r, w.clock) == GrantNew && IsAclList(list, w.mem.tunnels[r.id := r], "")
    ensures ws <= ws' && Dozing(ws', steps', z, w', Idle) && w'.clock == w.clock
    ensures var active := Activated(r, w.clock);
            && RunningIn(w', r, active) && w'.live == w.live + {r.id} && w'.mem == WithTunnel(w.mem, active)
            && GrantedSince(steps', z.read, |steps'|, active) && AttemptAt(active) == Some(r.EffectiveNotAfter())
            && (WokenBy(ws', steps', z, r.EffectiveNotAfter()) <==> z.alarm <= r.EffectiveNotAfter())
  {
    var ws1, steps1, w1 := PreparesSilently(ws, steps, z, w, r, list);
    ws', steps', w' := ActivatesSilently(ws1, steps1, z, w1, r);
    GrantRuns(w, w1, w', r);
    OnlyTheTimer(ws', steps', z, w', Idle);
  }

  lemma GrantRuns(w: World, w1: World, w': World, r: TunnelResource)
    requires w1 == PreparedFor(w, r).(acl := w1.acl) && Covers(w1.acl, r)
    requires w' == StoreTunnel(w1, Activated(r, w.clock), Committed).(holder := None, live := w.live + {r.id})
    ensures RunningIn(w', r, Activated(r, w.clock)) && w'.mem == WithTunnel(w.mem, Activated(r, w.clock))
  {
    assert w'.mem.tunnels == w.mem.tunnels[r.id := Activated(r, w.clock)];
  }

  /** An operation that has begun in `w` and recorded `r`. */
  function PreparedFor(w: World, r: TunnelResource): World {
    StoreTunnel(w.(holder := Some(w.clock), read := w.mem.tunnels), r, Committed)
  }

  /** A grant up to the call that exposes the inbound. */
  lemma PreparesSilently(ws: seq<World>, steps: seq<Action>, z: Sleep, w: World, r: TunnelResource, list: seq<AclEntry>)
    returns (ws': seq<World>, steps': seq<Action>, w': World)
    requires Dozing(ws, steps, z, w, Idle) && Fresh(r, w.clock)
    requires Decision(w.mem, r, w.clock) == GrantNew && IsAclList(list, w.mem.tunnels[r.id := r], "")
    ensures ws <= ws' && Dozing(ws', steps', z, w', Granting(r.id))
    ensures w' == PreparedFor(w, r).(acl := w'.acl) && Covers(w'.acl, r)
  {
    var w1 := BeginsSilently(ws, steps, z, w);
    ProvisionsSilently(ws + [w1], steps + [Acquire], z, w1, r);
    ws', steps', w' := RebuildsSilently(ws + [w1] + [PreparedFor(w, r)], steps + [Acquire] + [Provision(r, Committed)], z,
                                        PreparedFor(w, r), r, list);
  }

  lemma ProvisionsSilently(ws: seq<World>, steps: seq<Action>, z: Sleep, w: World, r: TunnelResource)
    requires Dozing(ws, steps, z, w, Started) && w.holder == Some(w.clock) && Fresh(r, w.clock)
    requires Decision(w.mem, r, w.clock) == GrantNew
    ensures Dozing(ws + [StoreTunnel(w, r, Committed)], steps + [Provision(r, Committed)], z,
                   StoreTunnel(w, r, Committed), Granting(r.id))
  {
    DozesOn(ws, steps, z, w, Started, Provision(r, Committed), StoreTunnel(w, r, Committed), Granting(r.id));
  }

  lemma RebuildsSilently(ws: seq<World>, steps: seq<Action>, z: Sleep, w: World, r: TunnelResource, list: seq<AclEntry>)
    returns (ws': seq<World>, steps': seq<Action>, w': World)
    requires Dozing(ws, steps, z, w, Granting(r.id)) && IsAclList(list, w.mem.tunnels, "")
    requires r.id in w.mem.tunnels && w.mem.tunnels[r.id] == r && r.ReservesPort() && r.id != ""
    ensures ws <= ws' && Dozing(ws', steps', z, w', Granting(r.id))
    ensures (w' == w || w' == w.(acl := list)) && Covers(w'.acl, r)
  {
    ws', steps', w' := ws, steps, w;
    if r.sources != [] {
      w' := w.(acl := list);
      NoBlankLiveId(ws, steps, w);
      DozesOn(ws, steps, z, w, Granting(r.id), InstallAcl(list, "", true), w', Granting(r.id));
      ws', steps' := ws + [w'], steps + [InstallAcl(list, "", true)];
      CompleteListCovers(list, w.mem, r);
    }
  }

  lemma ActivatesSilently(ws: seq<World>, steps: seq<Action>, z: Sleep, w: World, r: TunnelResource)
    returns (ws': seq<World>, steps': seq<Action>, w': World)
    requires Dozing(ws, steps, z, w, Granting(r.id)) && Covers(w.acl, r) && w.disk == w.mem
    requires r.id in w.mem.tunnels && w.mem.tunnels[r.id] == r && r.state.Provisioning?
    ensures ws <= ws' && Dozing(ws', steps', z, w', Idle)
    ensures GrantedSince(steps', z.read, |steps'|, Activated(r, w.clock))
    ensures w' == StoreTunnel(w, Activated(r, w.clock), Committed).(holder := None, live := w.live + {r.id})
  {
    var w1 := w.(live := w.live + {r.id});
    var w2 := StoreTunnel(w1, Activated(r, w.clock), Committed);
    AddsSilently(ws, steps, z, w, r);
    RecordsSilently(ws + [w1], steps + [AgentAdd(r.id, true)], z, w1, r);
    w' := EndsSilently(ws + [w1] + [w2], steps + [AgentAdd(r.id, true)] + [Activate(r, Committed)], z, w2, r.id);
    ws', steps' := ws + [w1] + [w2] + [w'], steps + [AgentAdd(r.id, true)] + [Activate(r, Committed)] + [Release];
    GrantIsSince(steps, z.read, r, w.clock);
  }

  lemma AddsSilently(ws: seq<World>, steps: seq<Action>, z: Sleep, w: World, r: TunnelResource)
    requires Dozing(ws, steps, z, w, Granting(r.id)) && Covers(w.acl, r) && w.disk == w.mem
    requires r.id in w.mem.tunnels && w.mem.tunnels[r.id] == r && r.state.Provisioning?
    ensures var w' := w.(live := w.live + {r.id});
            Dozing(ws + [w'], steps + [AgentAdd(r.id, true)], z, w', Granting(r.id))
  {
    IdleIffFree(ws, steps, |steps|);
    DozesOn(ws, steps, z, w, Granting(r.id), AgentAdd(r.id, true), w.(live := w.live + {r.id}), Granting(r.id));
  }

  lemma GrantIsSince(steps: seq<Action>, from: nat, r: TunnelResource, now: Time)
    requires from <= |steps|
    ensures var steps' := steps + [AgentAdd(r.id, true)] + [Activate(r, Committed)] + [Release];
            GrantedSince(steps', from, |steps'|, Activated(r, now))
  {
    var steps' := steps + [AgentAdd(r.id, true)] + [Activate(r, Committed)] + [Release];
    assert GrantsRecord(steps'[|steps| + 1], Activated(r, now));
  }

  lemma RecordsSilently(ws: seq<World>, steps: seq<Action>, z: Sleep, w: World, r: TunnelResource)
    requires Dozing(ws, steps, z, w, Granting(r.id)) && r.id in w.live
    requires r.id in w.mem.tunnels && w.mem.tunnels[r.id] == r && r.state.Provisioning?
    ensures var w' := StoreTunnel(w, Activated(r, w.clock), Committed);
            Dozing(ws + [w'], steps + [Activate(r, Committed)], z, w', Over(r.id, false))
  {
    IdleIffFree(ws, steps, |steps|);
    var w' := StoreTunnel(w, Activated(r, w.clock), Committed);
    DozesOn(ws, steps, z, w, Granting(r.id), Activate(r, Committed), w', Over(r.id, false));
  }

  // ---------------------------------------------------------------------------------------
  // Three runs
  // ---------------------------------------------------------------------------------------

  const FAR_CLIENT: map<string, string> := map["email" := "u"]

  function FarSchedule(notAfter: Time): Schedule {
    Schedule("t\0email\0u", "t", "vless", FAR_CLIENT, notAfter, 0, None)
  }

  lemma FarScheduleIsGood(notAfter: Time)
    requires notAfter != ZERO_TIME
    ensures PersistableSchedule(FarSchedule(notAfter))
  {
    assert FAR_CLIENT["email"] == "u" && Trim("u") == "u" && Trim("t") == "t";
    assert UsableIdentity(FAR_CLIENT, "email");
    assert FirstIdentity(FAR_CLIENT, IDENTITY_KEYS) == Some("email");
    assert "email" in FAR_CLIENT && FAR_CLIENT != map[];
    assert "t" + "\0" + "email" + "\0" + "u" == "t\0email\0u";
  }

  lemma AloneUpcoming(m: Memory, s: Schedule)
    requires m.entries == map[s.key := s] && m.tunnels == map[]
    ensures Earliest(m, s.AttemptAt())
  {
    assert m.entries[s.key].AttemptAt() == s.AttemptAt();
  }

  lemma FirstSleep(w: World)
    requires Initial(w)
    ensures Dozing([w], [], Sleep(0, w.clock + HOUR, false), w, Idle)
  {
    assert forall u :: !Upcoming(w.mem, u);
    StartsDozing([w], [], w, Idle, w.clock + HOUR);
  }

  /** A deadline due within the hour, recorded and reported as failed: the scheduler does not look
      before the idle hour ends. */
  lemma SleepsThroughUpsert(w: World, notAfter: Time)
    requires Initial(w) && w.clock == 1 && 0 < notAfter < 1 + HOUR
    ensures var s := FarSchedule(notAfter);
            var w' := AfterUpsert(w, s, CommittedWithError);
            var ws, steps, z := [w] + [w'], [] + [PutSchedule(s, CommittedWithError)], Sleep(0, 1 + HOUR, false);
            && Dozing(ws, steps, z, w', Idle) && s.key in w'.mem.entries && w'.mem.entries[s.key] == s && w'.disk == w'.mem
            && forall t :: t < 1 + HOUR ==> !WokenBy(ws, steps, z, t)
  {
    var s := FarSchedule(notAfter);
    var w' := AfterUpsert(w, s, CommittedWithError);
    FarScheduleIsGood(notAfter);
    FirstSleep(w);
    SilentUpsert([w], [], Sleep(0, 1 + HOUR, false), w, Idle, s);
    OnlyTheTimer([w] + [w'], [] + [PutSchedule(s, CommittedWithError)], Sleep(0, 1 + HOUR, false), w', Idle);
  }

  /** From any idle world without tunnels an unrestricted tunnel is granted and runs. */
  lemma RunsSilently(ws: seq<World>, steps: seq<Action>, z: Sleep, w: World, r: TunnelResource)
    returns (ws': seq<World>, steps': seq<Action>, w': World)
    requires Dozing(ws, steps, z, w, Idle) && w.mem.tunnels == map[] && Fresh(r, w.clock) && r.sources == []
    ensures ws <= ws' && Dozing(ws', steps', z, w', Idle) && w'.clock == w.clock
    ensures r.id in w'.live && w'.disk == w'.mem && w'.mem == w.mem.(tunnels := map[r.id := Activated(r, w.clock)])
    ensures AttemptAt(Activated(r, w.clock)) == Some(r.EffectiveNotAfter())
    ensures WokenBy(ws', steps', z, r.EffectiveNotAfter()) <==> z.alarm <= r.EffectiveNotAfter()
  {
    assert IsAclList([], w.mem.tunnels[r.id := r], "");
    ws', steps', w' := SilentGrant(ws, steps, z, w, r, []);
    assert w.mem.tunnels[r.id := Activated(r, w.clock)] == map[r.id := Activated(r, w.clock)];
  }

  /** When the timer fires, nothing has woken the scheduler before. */
  lemma TimerFires(ws: seq<World>, steps: seq<Action>, z: Sleep, w: World, p: Progress)
    requires Dozing(ws, steps, z, w, p)
    ensures var ws', steps' := ws + [w.(clock := z.alarm)], steps + [Tick];
            Sleeps(ws', steps', z) && forall t: Time :: WokenBy(ws', steps', z, t) <==> z.alarm <= t
  {
    SleepsOn(ws, steps, z, w, p, Tick, w.(clock := z.alarm));
    PrefixAgrees(ws, steps, Tick, w.(clock := z.alarm));
    assert !Rung(ws + [w.(clock := z.alarm)], steps + [Tick], |steps|);
  }

  /** A tunnel granted while the scheduler sleeps is not part of what its timer was set for, and a
      successful apply sends no message. So however short its lease, it may stay exposed
      arbitrarily long after its deadline: here the only other work is one client that expires
      later. */
  lemma SleepsThroughDeadline(w: World, delay: Time)
    returns (ws: seq<World>, steps: seq<Action>, z: Sleep, last: World)
    requires Initial(w) && w.clock == 1 && delay >= 0
    ensures Sleeps(ws, steps, z) && ws[|ws| - 1] == last
    ensures "resource-a" in last.mem.tunnels && "resource-a" in last.live && last.disk == last.mem
    ensures var r := last.mem.tunnels["resource-a"];
            && r.state.Active? && r.EffectiveNotAfter() + delay <= last.clock == z.alarm
            && forall t :: t < r.EffectiveNotAfter() + delay ==> !WokenBy(ws, steps, z, t)
  {
    var s := FarSchedule(100 + delay);
    var r := Sample("resource-a", 24001, HOST_A).(sources := []);
    FarScheduleIsGood(100 + delay);
    assert Fresh(r, 1);
    var m := w.mem.(entries := map[s.key := s]);
    var w1 := w.(mem := m, disk := m);
    assert w.mem.entries[s.key := s] == map[s.key := s];
    HistoryGrows([w], [], w, PutSchedule(s, Committed), w1);
    OperatedGrows([], Idle, PutSchedule(s, Committed));
    AloneUpcoming(m, s);
    z := Sleep(1, 100 + delay, false);
    StartsDozing([w] + [w1], [] + [PutSchedule(s, Committed)], w1, Idle, 100 + delay);
    var w2;
    ws, steps, w2 := RunsSilently([w] + [w1], [] + [PutSchedule(s, Committed)], z, w1, r);
    last := w2.(clock := 100 + delay);
    TimerFires(ws, steps, z, w2, Idle);
    ws, steps := ws + [last], steps + [Tick];
  }

  lemma OnlyTunnelUpcoming(m: Memory, r: TunnelResource)
    requires m.entries == map[] && m.tunnels == map[r.id := r] && AttemptAt(r).Some?
    ensures Earliest(m, AttemptAt(r).value)
  {
    assert m.tunnels[r.id] == r;
  }

  /** The tunnel of the next run, leased for `lease`. */
  function Leased(lease: Time, now: Time): TunnelResource {
    Sample("resource-a", 24001, HOST_A).(sources := [], hardNotAfter := now + lease, leaseUntil := now + lease, updatedAt := now)
  }

  /** The intent of a cleanup reaches the file, but the write is reported as failed. The request
      returns at once, sends no message, and leaves the record pending in both copies and the
      inbound exposed, until the timer fires for the tunnel's own deadline. */
  lemma SleepsThroughCleanup(w: World, lease: Time)
    returns (ws: seq<World>, steps: seq<Action>, z: Sleep, last: World)
    requires Initial(w) && w.clock == 1 && 0 < lease <= MAX_LEASE
    ensures Dozing(ws, steps, z, last, Idle) && last.disk == last.mem
    ensures "resource-a" in last.live && "resource-a" in last.mem.tunnels
    ensures var r := last.mem.tunnels["resource-a"];
            && r.state.SuspendPending? && DueAt(r, last.clock)
            && forall t :: t < last.clock + lease ==> !WokenBy(ws, steps, z, t)
  {
    var r := Leased(lease, 1);
    assert Fresh(r, 1);
    FirstSleep(w);
    var ws1, steps1, w1 := RunsSilently([w], [], Sleep(0, 1 + HOUR, false), w, r);
    OnlyTunnelUpcoming(w1.mem, Activated(r, 1));
    z := Sleep(|ws1| - 1, 1 + lease, false);
    StartsDozing(ws1, steps1, w1, Idle, 1 + lease);
    ws, steps, last := SilentCleanup(ws1, steps1, z, w1, "resource-a", 1, Suspended);
    OnlyTheTimer(ws, steps, z, last, Idle);
  }

  /** Granted later, a tunnel can be in time: after fifty-five idle minutes a lease of ten minutes
      outlasts the hour. */
  lemma IdleHourMaySuffice(w: World) returns (ws: seq<World>, steps: seq<Action>, z: Sleep, last: World)
    requires Initial(w) && w.clock == 1
    ensures Dozing(ws, steps, z, last, Idle) && "resource-a" in last.mem.tunnels
    ensures var r := last.mem.tunnels["resource-a"];
            && r.state.Active? && WokenBy(ws, steps, z, r.EffectiveNotAfter())
            && !KnownBy(ws[z.read].mem, r.EffectiveNotAfter())
  {
    var late := 1 + 55 * MINUTE;
    var r := Leased(MAX_LEASE, late);
    assert Fresh(r, late);
    FirstSleep(w);
    z := Sleep(0, 1 + HOUR, false);
    DozesOn([w], [], z, w, Idle, Tick, w.(clock := late), Idle);
    ws, steps, last := RunsSilently([w] + [w.(clock := late)], [] + [Tick], z, w.(clock := late), r);
    assert ws[0] == w;
    assert forall u :: !Upcoming(w.mem, u);
  }
}
