/** What other goroutines can do while an operation holds the tunnel-operations lock, and how an
    operation's own trace grows into a run. */
module GuardInterference {
  import opened Base
  import opened SourceAcl
  import opened TunnelModel
  import opened Schedules
  import opened GuardMachine
  import opened GuardInvariants
  import opened GuardRuns

  /** Steps that need only the state lock, or none. */
  predicate FromOutside(a: Action) {
    a.Tick? || a.FailClosed? || a.PutSchedule? || a.DropSchedule? || a.FinishAttempt? || a.SetToken?
  }

  /** All that such steps, any number of them, can change: schedules and the token, the clock,
      and tunnels that a fail-closed pass withdraws. */
  ghost predicate Interfered(w: World, w': World) {
    && w'.live == w.live && w'.acl == w.acl && w'.holder == w.holder && w'.read == w.read && w.clock <= w'.clock
    && w'.mem.tunnels.Keys == w.mem.tunnels.Keys
    && forall id :: id in w.mem.tunnels ==> Current(w'.mem.tunnels[id], w.mem.tunnels[id])
  }

  lemma InterferedTransitive(a: World, b: World, c: World)
    requires Interfered(a, b) && Interfered(b, c)
    ensures Interfered(a, c)
  {
  }

  lemma FailClosedInterferes(w: World, e: string)
    requires Inv(w)
    ensures Interfered(w, w.(mem := FailClosedAll(w.mem, e, w.clock)))
  {
    FailClosedAllIsGood(w.mem, e, w.clock);
  }

  lemma OutsideFrame(w: World, a: Action, w': World)
    requires Step(w, a, w') && FromOutside(a)
    ensures w'.live == w.live && w'.acl == w.acl && w'.holder == w.holder && w'.read == w.read && w.clock <= w'.clock
  {
  }

  lemma OutsideStepInterferes(w: World, a: Action, w': World)
    requires Inv(w) && Step(w, a, w') && FromOutside(a)
    ensures Interfered(w, w')
  {
    OutsideFrame(w, a, w');
    StepLeavesTunnels(w, a, w');
    FailClosedInterferes(w, if a.FailClosed? then a.cause else "");
  }

  /** Any stretch of a run in which the operation itself does nothing is interference. */
  lemma {:induction false} OutsideRunInterferes(ws: seq<World>, steps: seq<Action>, i: nat, j: nat)
    requires IsRun(ws, steps) && i <= j < |ws| && Inv(ws[0])
    requires forall k :: i <= k < j ==> FromOutside(steps[k])
    ensures Interfered(ws[i], ws[j])
  {
    if i < j {
      OutsideRunInterferes(ws, steps, i, j - 1);
      RunKeepsInv(ws, steps, j - 1);
      OutsideStepInterferes(ws[j - 1], steps[j - 1], ws[j]);
      InterferedTransitive(ws[i], ws[j - 1], ws[j]);
    }
  }

  /** A list read under the state lock stays the right list while others interfere. */
  lemma AclListSurvives(w: World, w': World, list: seq<AclEntry>, exclude: string)
    requires Interfered(w, w') && IsAclList(list, w.mem.tunnels, exclude)
    ensures IsAclList(list, w'.mem.tunnels, exclude)
  {
    forall id | id in w.mem.tunnels
      ensures w'.mem.tunnels[id].NeedsAcl() == w.mem.tunnels[id].NeedsAcl()
      ensures w'.mem.tunnels[id].Entry() == w.mem.tunnels[id].Entry()
    {
      assert Current(w'.mem.tunnels[id], w.mem.tunnels[id]);
    }
  }

  /** A history of the guard: a run from its very first start, ending in the present world. */
  ghost predicate History(ws: seq<World>, steps: seq<Action>, w: World) {
    IsRun(ws, steps) && Initial(ws[0]) && ws[|ws| - 1] == w
  }

  lemma HistoryIsGood(ws: seq<World>, steps: seq<Action>, w: World)
    requires History(ws, steps, w)
    ensures Inv(w)
  {
    InitialIsGood(ws[0]);
    RunKeepsInv(ws, steps, |ws| - 1);
  }

  lemma HistoryGrows(ws: seq<World>, steps: seq<Action>, w: World, a: Action, w': World)
    requires History(ws, steps, w) && Step(w, a, w')
    ensures History(ws + [w'], steps + [a], w')
  {
    assert ws[..|ws|] == ws && steps[..|ws| - 1] == steps;
    RunPrefix(ws, steps, |ws| - 1, a, w');
  }

  lemma ClosedPointwise(w: World, tunnels: map<string, TunnelResource>, cause: string, changed: bool)
    requires tunnels.Keys == w.mem.tunnels.Keys
    requires forall id :: id in tunnels ==> tunnels[id] == ClosedIfRestricted(w.mem.tunnels[id], cause, w.clock)
    requires changed <==> exists id :: id in w.mem.tunnels && MustClose(w.mem.tunnels[id])
    ensures var m := w.mem.(tunnels := tunnels);
            && m == FailClosedAll(w.mem, cause, w.clock)
            && forall p :: Step(w, FailClosed(cause, p), if changed then WriteSticky(w, m, p) else w)
  {
    assert tunnels == FailClosedAll(w.mem, cause, w.clock).tunnels;
    FailClosedAllChanges(w.mem, cause, w.clock);
  }

  /** One history continues another, without losing the installed table on the way. */
  ghost predicate Continues(ws: seq<World>, steps: seq<Action>, ws': seq<World>, steps': seq<Action>) {
    && ws <= ws' && steps <= steps'
    && forall k :: |steps| <= k < |steps'| ==> !steps'[k].TableLost?
  }

  /** Taking or giving back the operations lock. */
  predicate Locks(a: Action) {
    a.Acquire? || a.Release? || a.Restart?
  }

  /** One history continues another while one operation holds the lock, or none does. */
  ghost predicate Goes(ws: seq<World>, steps: seq<Action>, ws': seq<World>, steps': seq<Action>) {
    Continues(ws, steps, ws', steps') && forall k :: |steps| <= k < |steps'| ==> !Locks(steps'[k])
  }

  lemma GoesTransitive(u: seq<World>, us: seq<Action>, v: seq<World>, vs: seq<Action>, w: seq<World>, ws: seq<Action>)
    requires Goes(u, us, v, vs) && Goes(v, vs, w, ws)
    ensures Goes(u, us, w, ws)
  {
  }

  /** Nothing has happened to any tunnel but `id`, except that a fail-closed pass may have withdrawn
      it: no other inbound is exposed or gone, and no other record is new, lost or changed. */
  ghost predicate OthersKept(w: World, w': World, id: string) {
    forall other :: other != id ==>
      && (other in w'.live <==> other in w.live)
      && (other in w'.mem.tunnels <==> other in w.mem.tunnels)
      && (other in w.mem.tunnels ==> Current(w'.mem.tunnels[other], w.mem.tunnels[other]))
  }

  lemma ProtectionContinues(ws: seq<World>, steps: seq<Action>, w: World,
                            ws': seq<World>, steps': seq<Action>, w': World)
    requires History(ws, steps, w) && History(ws', steps', w') && Continues(ws, steps, ws', steps')
    requires SourcesProtected(w)
    ensures SourcesProtected(w')
  {
    InitialIsGood(ws[0]);
    SourceAclSafety(ws', steps', |ws| - 1, |ws'| - 1);
  }

  /** A storing action once its write has ended in `p`. */
  function Ended(a: Action, p: Persist): Action {
    match a
    case Provision(r, _) => Provision(r, p)
    case Renew(b, leaseUntil, _) => Renew(b, leaseUntil, p)
    case Activate(b, _) => Activate(b, p)
    case Withdraw(b, next, e, updatedAt, _) => Withdraw(b, next, e, updatedAt, p)
    case Annotate(b, e, _) => Annotate(b, e, p)
    case BeginCleanup(b, generation, terminal, _) => BeginCleanup(b, generation, terminal, p)
    case BeginExpiry(b, _) => BeginExpiry(b, p)
    case Postpone(b, attempts, next, e, updatedAt, _) => Postpone(b, attempts, next, e, updatedAt, p)
    case Finish(b, _) => Finish(b, p)
    case _ => a
  }

  lemma StoreEndsIn(w: World, a: Action, p: Persist)
    requires Enabled(w, a) && StoresTunnel(a)
    ensures Step(w, Ended(a, p), StoreTunnel(w, Stored(w, a), p)) && !Ended(a, p).TableLost?
  {
  }

  lemma CurrentTransitive(c: TunnelResource, b: TunnelResource, a: TunnelResource)
    requires Current(c, b) && Current(b, a)
    ensures Current(c, a)
  {
  }

  /** What an operation read under the lock stays what memory holds, up to fail-closed passes. */
  lemma HoldsSurvives(w: World, w': World, b: TunnelResource)
    requires Holds(w.mem, b) && Interfered(w, w')
    ensures Holds(w'.mem, b)
  {
    CurrentTransitive(w'.mem.tunnels[b.id], w.mem.tunnels[b.id], b);
  }

  /** A complete list covers every record it was read for. */
  lemma CompleteListCovers(acl: seq<AclEntry>, m: Memory, r: TunnelResource)
    requires IsAclList(acl, m.tunnels, "") && Holds(m, r) && r.ReservesPort() && r.id != ""
    ensures Covers(acl, r)
  {
    var now := m.tunnels[r.id];
    assert |r.sources| > 0 ==> now.NeedsAcl() && now.Entry() == r.Entry();
  }

  lemma ContinuesTransitive(u: seq<World>, us: seq<Action>, v: seq<World>, vs: seq<Action>, w: seq<World>, ws: seq<Action>)
    requires Continues(u, us, v, vs) && Continues(v, vs, w, ws)
    ensures Continues(u, us, w, ws)
  {
  }

  /** Resource IDs are never empty, so excluding "" excludes nothing. */
  lemma NoBlankLiveId(ws: seq<World>, steps: seq<Action>, w: World)
    requires History(ws, steps, w)
    ensures "" !in w.live
  {
    HistoryIsGood(ws, steps, w);
    forall id | id in w.live ensures id != "" {
      assert GoodRecord(w.mem.tunnels[id], w.clock);
    }
  }

  /** No restricted tunnel is meant to run. */
  ghost predicate NoneToClose(m: Memory) {
    forall id :: id in m.tunnels ==> !MustClose(m.tunnels[id])
  }

  lemma InterferenceClosesOnly(w: World, w': World)
    requires Interfered(w, w') && NoneToClose(w.mem)
    ensures NoneToClose(w'.mem)
  {
    forall id | id in w'.mem.tunnels ensures !MustClose(w'.mem.tunnels[id]) {
      assert Current(w'.mem.tunnels[id], w.mem.tunnels[id]);
    }
  }

  lemma FailClosedLeavesNone(m: Memory, e: string, clock: Time)
    ensures NoneToClose(FailClosedAll(m, e, clock))
  {
  }

  lemma PostponingLeavesNone(w: World, b: TunnelResource, attempts: nat, next: Time, e: string, now: Time, p: Persist)
    requires NoneToClose(w.mem) && !MustClose(b)
    ensures NoneToClose(StoreTunnel(w, Postponed(b, attempts, next, e, now), p).mem)
  {
    assert !MustClose(Postponed(b, attempts, next, e, now));
  }

  lemma FinishingLeavesNone(ws: seq<World>, steps: seq<Action>, w: World, b: TunnelResource, now: Time, p: Persist)
    requires History(ws, steps, w) && Holds(w.mem, b) && b.Revisited() && !b.state.Active? && NoneToClose(w.mem)
    ensures NoneToClose(StoreTunnel(w, Finished(b, now), p).mem)
  {
    HistoryIsGood(ws, steps, w);
    BaseIsGood(w, b);
    assert !MustClose(Finished(b, now));
  }

  lemma StoredUnderItsId(ws: seq<World>, steps: seq<Action>, w: World, id: string)
    requires History(ws, steps, w) && id in w.mem.tunnels
    ensures w.mem.tunnels[id].id == id
  {
    HistoryIsGood(ws, steps, w);
  }

  lemma ClockHasStarted(ws: seq<World>, steps: seq<Action>, w: World)
    requires History(ws, steps, w)
    ensures w.clock > ZERO_TIME
  {
    HistoryIsGood(ws, steps, w);
  }

  /** Empty due lists mean that every attempt is still ahead. */
  lemma NothingDue(ws: seq<World>, steps: seq<Action>, w: World,
                   due: seq<Schedule>, dueTunnels: seq<TunnelResource>, now: Time, later: Time)
    requires History(ws, steps, w) && due == [] && dueTunnels == []
    requires forall s: Schedule :: s in due <==> s.key in w.mem.entries && w.mem.entries[s.key] == s && s.AttemptAt() <= now
    requires forall r: TunnelResource :: r in dueTunnels <==> r.id in w.mem.tunnels && w.mem.tunnels[r.id] == r && DueAt(r, later)
    ensures forall key :: key in w.mem.entries ==> w.mem.entries[key].AttemptAt() > now
    ensures forall id :: id in w.mem.tunnels ==> !DueAt(w.mem.tunnels[id], later)
  {
    HistoryIsGood(ws, steps, w);
    forall key | key in w.mem.entries ensures w.mem.entries[key].AttemptAt() > now {
      assert w.mem.entries[key].key == key && w.mem.entries[key] !in due;
    }
    forall id | id in w.mem.tunnels ensures !DueAt(w.mem.tunnels[id], later) {
      assert w.mem.tunnels[id].id == id && w.mem.tunnels[id] !in dueTunnels;
    }
  }

  lemma HeldIsOnDisk(ws: seq<World>, steps: seq<Action>, w: World, b: TunnelResource)
    requires History(ws, steps, w) && Holds(w.mem, b)
    ensures b.id in w.disk.tunnels && b.id != "" && GoodRecord(b, w.clock)
  {
    HistoryIsGood(ws, steps, w);
    BaseIsGood(w, b);
  }

  // ---------------------------------------------------------------------------------------
  // What an apply request must lead to
  // ---------------------------------------------------------------------------------------

  datatype Verdict = Refuse(error: ApiError) | KeepLease | ExtendLease | GrantNew

  const FINAL_STATE_LOST := "final active state was not durably persisted"

  /** What the records in memory say about a request, before the Agent is asked. */
  function Decision(m: Memory, r: TunnelResource, now: Time): Verdict {
    if r.id in m.tunnels && m.tunnels[r.id].state in {Deleted, DeletePending} then Refuse(ResourceDeleted)
    else if r.id in m.tunnels && r.generation < m.tunnels[r.id].generation then Refuse(StaleGeneration)
    else if r.id in m.tunnels && r.generation == m.tunnels[r.id].generation then
      var b := m.tunnels[r.id];
      if !b.state.Active? || !SameSpec(b, r) then Refuse(GenerationConflict)
      else if b.EffectiveNotAfter() <= now then Refuse(LeaseExpired)
      else if r.leaseUntil <= b.leaseUntil then KeepLease
      else ExtendLease
    else if r.id in m.tunnels && !SameDefinition(m.tunnels[r.id], r) then Refuse(DefinitionConflict)
    else if !PortFree(m, r) then Refuse(PortReserved)
    else GrantNew
  }

  /** Whether an apply that ends so wakes the scheduler. A grant that succeeds does not. */
  function ApplyRings(verdict: Verdict, err: Option<ApiError>): nat {
    match verdict
    case ExtendLease => if err.None? then 1 else 0
    case GrantNew => if err.Some? && err.value in {StatePersistFailed, AclApplyFailed, AgentApplyFailed} then 1 else 0
    case _ => 0
  }

  /** Both copies say active, the Agent exposes the inbound, and the table names its sources. */
  ghost predicate RunningIn(w: World, r: TunnelResource, resource: TunnelResource) {
    && resource == Activated(r, resource.updatedAt)
    && r.id in w.mem.tunnels && w.mem.tunnels[r.id] == resource && w.disk == w.mem
    && r.id in w.live && Covers(w.acl, resource)
  }

  /** How an apply that read the world `seen` may end in the world `end`. */
  ghost predicate ApplyEnds(seen: World, r: TunnelResource, now: Time, end: World,
                            resource: Option<TunnelResource>, changed: bool, err: Option<ApiError>) {
    match Decision(seen.mem, r, now)
    case Refuse(e) => err == Some(e) && !changed && end == seen
    case KeepLease => err == None && !changed && end == seen && resource == Some(seen.mem.tunnels[r.id])
    case ExtendLease =>
      resource == Some(Renewed(seen.mem.tunnels[r.id], r.leaseUntil, now))
      && (changed <==> err == None) && (err.Some? ==> err.value == StatePersistFailed)
      && exists p: Persist ::
        && end == StoreTunnel(seen, Renewed(seen.mem.tunnels[r.id], r.leaseUntil, now), p)
        && (changed <==> p == Committed)
    case GrantNew =>
      && (changed <==> err == None)
      && (changed ==> resource.Some? && RunningIn(end, r, resource.value))
      && (err.Some? ==> err.value in {AgentPreflightFailed, PortInUse, StatePersistFailed, AclApplyFailed, AgentApplyFailed})
      && (err in {Some(AgentPreflightFailed), Some(PortInUse)} ==> Interfered(seen, end))
      && (err == Some(AclApplyFailed) ==> end.live == seen.live)
      && (err in {Some(AclApplyFailed), Some(AgentApplyFailed)} ==> DueNow(end, r))
      && (err == Some(StatePersistFailed) ==>
            Interfered(seen, end.(read := seen.read)) || DueNow(end, r) || StillActive(end, r))
  }

  /** How an apply request that read the world `seen` may be answered. */
  ghost predicate ApplyAnswers(seen: World, q: ApplyRequest, now: Time, end: World,
                               resource: Option<TunnelResource>, changed: bool, err: Option<ApiError>) {
    match Normalize(q, now)
    case Err(e) => err == Some(e) && !changed && end == seen
    case Ok(r) =>
      || (|r.sources| > 0 && err == Some(CapabilityUnavailable) && !changed && end == seen)
      || ApplyEnds(seen, Provisioned(r), now, end, resource, changed, err)
  }

  lemma ApplyAnswersUnlocked(seen: World, q: ApplyRequest, now: Time, end: World,
                             resource: Option<TunnelResource>, changed: bool, err: Option<ApiError>)
    requires ApplyAnswers(seen, q, now, end, resource, changed, err)
    ensures ApplyAnswers(seen.(holder := None), q, now, end.(holder := None), resource, changed, err)
  {
    if Normalize(q, now).Ok? && !(end == seen && err == Some(CapabilityUnavailable)) {
      ApplyEndsUnlocked(seen, Provisioned(Normalize(q, now).value), now, end, resource, changed, err);
    }
  }

  /** Whether it sends a message. */
  function ApplyRequestRings(m: Memory, q: ApplyRequest, now: Time, err: Option<ApiError>): nat {
    match Normalize(q, now)
    case Err(e) => 0
    case Ok(r) => ApplyRings(Decision(m, Provisioned(r), now), err)
  }

  /** `m` is the record `r` at some point of its way: only its state and bookkeeping differ. */
  predicate Bears(m: TunnelResource, r: TunnelResource) {
    m == r.(state := m.state, cleanupTerminal := m.cleanupTerminal, attempts := m.attempts, lastError := m.lastError,
            nextAttemptAt := m.nextAttemptAt, updatedAt := m.updatedAt)
  }

  /** Both copies hold the record `r`. */
  ghost predicate BothBear(w: World, r: TunnelResource) {
    r.id in w.mem.tunnels && Bears(w.mem.tunnels[r.id], r) && r.id in w.disk.tunnels && Bears(w.disk.tunnels[r.id], r)
  }

  /** The scheduler's next pass takes up the record `r`. */
  ghost predicate DueNow(w: World, r: TunnelResource) {
    BothBear(w, r) && DueAt(w.mem.tunnels[r.id], w.clock)
  }

  /** The record says active, so that the tunnel ends with its deadline. */
  ghost predicate StillActive(w: World, r: TunnelResource) {
    BothBear(w, r) && w.mem.tunnels[r.id].state.Active?
  }

  lemma HeldIsDue(ws: seq<World>, steps: seq<Action>, w: World, r: TunnelResource)
    requires History(ws, steps, w) && Holds(w.mem, r)
    requires r.state.Provisioning? && r.updatedAt <= w.clock && r.nextAttemptAt == None
    ensures DueNow(w, r)
  {
    HistoryIsGood(ws, steps, w);
    assert GoodRecord(w.mem.tunnels[r.id], w.clock);
  }

  lemma HeldEnds(ws: seq<World>, steps: seq<Action>, w: World, r: TunnelResource)
    requires History(ws, steps, w) && Holds(w.mem, r) && r.state in {Active, Provisioning}
    requires r.updatedAt <= w.clock && r.nextAttemptAt == None
    ensures DueNow(w, r) || StillActive(w, r)
  {
    HistoryIsGood(ws, steps, w);
    assert GoodRecord(w.mem.tunnels[r.id], w.clock);
  }

  /** A record that was just provisioned is due at once. */
  lemma ProvisionedIsDue(ws: seq<World>, steps: seq<Action>, w: World, r: TunnelResource)
    requires History(ws, steps, w) && r.id in w.mem.tunnels && w.mem.tunnels[r.id] == r
    requires r.state.Provisioning? && r.nextAttemptAt == None
    ensures DueNow(w, r)
  {
    HistoryIsGood(ws, steps, w);
    assert GoodRecord(r, w.clock);
    HeldIsDue(ws, steps, w, r);
  }

  /** Writing the record of an inbound that could not be recorded as active leaves it due, or
      active as it was. */
  lemma UnrecordedStays(w: World, base: TunnelResource, active: TunnelResource, t: Time, p: Persist)
    requires DueNow(w, base) || StillActive(w, base)
    requires active == Activated(base, active.updatedAt) && active.updatedAt <= t <= w.clock
    ensures var w' := StoreTunnel(w, Withdrawn(active, t, FINAL_STATE_LOST, active.updatedAt), p);
            DueNow(w', base) || StillActive(w', base)
  {
  }

  lemma SameRecordEnds(w: World, base: TunnelResource, r: TunnelResource)
    requires (DueNow(w, base) || StillActive(w, base)) && Bears(base, r)
    ensures DueNow(w, r) || StillActive(w, r)
  {
  }

  /** Every active record is one that the operation in flight read when it began. */
  ghost predicate ReadsActive(w: World) {
    forall id :: id in w.mem.tunnels && w.mem.tunnels[id].state.Active? ==>
      w.mem.tunnels[id].id in w.read && w.read[w.mem.tunnels[id].id] == w.mem.tunnels[id]
  }

  lemma ReadAtTheStart(ws: seq<World>, steps: seq<Action>, w: World, w': World)
    requires History(ws, steps, w) && w.read == w.mem.tunnels && Interfered(w, w')
    ensures ReadsActive(w')
  {
    HistoryIsGood(ws, steps, w);
  }

  lemma RequestIsFresh(ws: seq<World>, steps: seq<Action>, w: World, q: ApplyRequest, now: Time)
    requires History(ws, steps, w) && w.holder == Some(now) && Normalize(q, now).Ok?
    ensures Fresh(Provisioned(Normalize(q, now).value), now)
  {
    HistoryIsGood(ws, steps, w);
    AdmittedIsFresh(q, now);
  }

  lemma PortStaysFree(w: World, w': World, r: TunnelResource)
    requires Interfered(w, w') && PortFree(w.mem, r) && (r.id in w.mem.tunnels ==> MayReplace(w.mem.tunnels[r.id], r))
    ensures PortFree(w'.mem, r) && (r.id in w'.mem.tunnels ==> MayReplace(w'.mem.tunnels[r.id], r))
  {
    forall id | id in w.mem.tunnels
      ensures w'.mem.tunnels[id].ReservesPort() == w.mem.tunnels[id].ReservesPort()
      ensures SameDefinition(w'.mem.tunnels[id], w.mem.tunnels[id])
    {
      assert Current(w'.mem.tunnels[id], w.mem.tunnels[id]);
    }
  }

  lemma ApplyEndsUnlocked(seen: World, r: TunnelResource, now: Time, end: World,
                          resource: Option<TunnelResource>, changed: bool, err: Option<ApiError>)
    requires ApplyEnds(seen, r, now, end, resource, changed, err)
    ensures ApplyEnds(seen.(holder := None), r, now, end.(holder := None), resource, changed, err)
  {
    var seen', end' := seen.(holder := None), end.(holder := None);
    if Decision(seen.mem, r, now).ExtendLease? {
      var b := Renewed(seen.mem.tunnels[r.id], r.leaseUntil, now);
      var p: Persist :| end == StoreTunnel(seen, b, p) && (changed <==> p == Committed);
      assert end' == StoreTunnel(seen', b, p);
    }
  }

  // ---------------------------------------------------------------------------------------
  // What a cleanup request must lead to
  // ---------------------------------------------------------------------------------------

  datatype CleanupVerdict = RefuseCleanup(error: ApiError) | NothingToDo | CleanUp

  function CleanupDecision(m: Memory, id: string, generation: nat, terminal: State): CleanupVerdict {
    if !ValidId(id) || generation == 0 then RefuseCleanup(InvalidIdentity)
    else if id !in m.tunnels then RefuseCleanup(NotFound)
    else
      var b := m.tunnels[id];
      if generation < b.generation then RefuseCleanup(StaleGeneration)
      else if terminal.Suspended? && b.state in {Deleted, DeletePending} then RefuseCleanup(ResourceDeleted)
      else if generation == b.generation && AlreadyHeading(b, terminal) then NothingToDo
      else CleanUp
  }

  /** The record is terminal in both copies, the inbound is gone and so is its table entry. */
  ghost predicate CleanedUp(w: World, r: TunnelResource) {
    && r.id in w.mem.tunnels && w.mem.tunnels[r.id] == r && w.disk == w.mem
    && r.id !in w.live && (|r.sources| > 0 ==> !Lists(w.acl, r.id))
  }

  /** Whether a cleanup that ends so wakes the scheduler: only once its intent was recorded. */
  function CleanupRings(err: Option<ApiError>, resource: Option<TunnelResource>, terminal: State): nat {
    if err.None? then 0
    else if err == Some(StatePersistFailed) then (if resource.Some? && resource.value.state == terminal then 1 else 0)
    else 1
  }

  /** The record is the pending one, attempted at most once since, and due within five seconds. */
  ghost predicate StillPending(w: World, pending: TunnelResource) {
    pending.id in w.mem.tunnels
    && var m := w.mem.tunnels[pending.id];
       && m == pending.(attempts := m.attempts, nextAttemptAt := m.nextAttemptAt, lastError := m.lastError)
       && m.attempts in {pending.attempts, 1}
       && AttemptAt(m).Some? && AttemptAt(m).value <= w.clock + 5 * SECOND
  }

  /** The intent did not safely reach the file: nothing outside was touched, and the record is as it
      was read or pending, the same in both copies. */
  ghost predicate IntentUnsafe(seen: World, end: World, pending: TunnelResource) {
    && end.live == seen.live && end.acl == seen.acl && end.clock >= seen.clock
    && ((end.mem == seen.mem && end.disk == seen.disk) || (end.mem == WithTunnel(seen.mem, pending) && end.disk == end.mem))
  }

  /** The last record did not safely reach the file: nothing is left outside, and the record is
      terminal in both copies or still pending and due. */
  ghost predicate EndUnsafe(end: World, done: TunnelResource, generation: nat, terminal: State) {
    && done.id !in end.live && (|done.sources| > 0 ==> !Lists(end.acl, done.id))
    && ((done.id in end.mem.tunnels && end.mem.tunnels[done.id] == done && end.disk == end.mem)
        || Returning(end, done.id, generation, terminal))
  }

  ghost predicate LastRecordLost(end: World, pending: TunnelResource, done: TunnelResource) {
    && pending.id !in end.live && (|pending.sources| > 0 ==> !Lists(end.acl, pending.id))
    && ((pending.id in end.mem.tunnels && end.mem.tunnels[pending.id] == done && end.disk == end.mem)
        || StillPending(end, pending))
  }

  /** Where a cleanup that reports `StatePersistFailed` leaves both copies. */
  ghost predicate CleanupUnsafe(seen: World, end: World, id: string, generation: nat, terminal: State, resource: TunnelResource)
    requires id in seen.mem.tunnels
  {
    if resource.state == terminal then
      resource.id == id && resource.generation == generation && EndUnsafe(end, resource, generation, terminal)
    else
      resource == CleaningUp(seen.mem.tunnels[id], generation, terminal, end.clock) && IntentUnsafe(seen, end, resource)
  }

  /** `m` is the record `b` on its way down, attempted at most once. */
  predicate OnItsWay(m: TunnelResource, b: TunnelResource) {
    m.attempts <= 1
    && m == b.(generation := m.generation, state := m.state, cleanupTerminal := m.cleanupTerminal, attempts := m.attempts,
               nextAttemptAt := m.nextAttemptAt, lastError := m.lastError, updatedAt := m.updatedAt)
  }

  /** How a cleanup that read the world `seen` and took the tunnel down may end. */
  ghost predicate TakenDown(seen: World, end: World, id: string, generation: nat, terminal: State,
                            resource: Option<TunnelResource>, changed: bool, err: Option<ApiError>)
    requires id in seen.mem.tunnels
  {
    && (changed <==> err == None)
    && (err.Some? ==> err.value in {StatePersistFailed, AgentRemoveFailed, AclCleanupFailed})
    && (changed ==>
          && resource.Some? && resource.value.id == id && CleanedUp(end, resource.value)
          && resource.value == seen.mem.tunnels[id].(
               generation := generation, state := terminal, cleanupTerminal := None, attempts := 0,
               nextAttemptAt := None, lastError := "", updatedAt := resource.value.updatedAt))
    && (err in {Some(AgentRemoveFailed), Some(AclCleanupFailed)} ==>
          Returning(end, id, generation, terminal) && OnItsWay(end.mem.tunnels[id], seen.mem.tunnels[id]))
    && (err == Some(StatePersistFailed) ==>
          resource.Some? && CleanupUnsafe(seen, end, id, generation, terminal, resource.value))
  }

  /** How a cleanup request that read the world `seen` may end in the world `end`. */
  ghost predicate CleanupEnds(seen: World, end: World, id: string, generation: nat, terminal: State,
                              resource: Option<TunnelResource>, changed: bool, err: Option<ApiError>) {
    match CleanupDecision(seen.mem, id, generation, terminal)
    case RefuseCleanup(e) => err == Some(e) && !changed && end == seen
    case NothingToDo => err == None && !changed && end == seen
    case CleanUp => TakenDown(seen, end, id, generation, terminal, resource, changed, err)
  }

  /** Whether it sends a message. */
  function CleanupRequestRings(m: Memory, id: string, generation: nat, terminal: State,
                               err: Option<ApiError>, resource: Option<TunnelResource>): nat {
    if CleanupDecision(m, id, generation, terminal).CleanUp? then CleanupRings(err, resource, terminal) else 0
  }

  lemma CleanupEndsUnlocked(seen: World, end: World, id: string, generation: nat, terminal: State,
                            resource: Option<TunnelResource>, changed: bool, err: Option<ApiError>)
    requires CleanupEnds(seen, end, id, generation, terminal, resource, changed, err)
    ensures CleanupEnds(seen.(holder := None), end.(holder := None), id, generation, terminal, resource, changed, err)
  {
  }

  lemma IntentFails(seen: World, w: World, b: TunnelResource, generation: nat, terminal: State, p: Persist)
    requires w == seen.(clock := w.clock) && w.clock >= seen.clock && !p.Committed? && terminal in {Suspended, Deleted}
    requires b.id in seen.mem.tunnels && seen.mem.tunnels[b.id] == b
    ensures var pending := CleaningUp(b, generation, terminal, w.clock);
            CleanupUnsafe(seen, StoreTunnel(w, pending, p), b.id, generation, terminal, pending)
  {
  }

  lemma EndFails(seen: World, end: World, b: TunnelResource, generation: nat, terminal: State, now: Time, done: TunnelResource)
    requires var pending := CleaningUp(b, generation, terminal, now);
             done == Finished(pending, done.updatedAt) && LastRecordLost(end, pending, done)
    requires b.id in seen.mem.tunnels
    ensures CleanupUnsafe(seen, end, b.id, generation, terminal, done)
  {
  }

  /** Whatever a failing write of the last record leaves, pending or terminal. */
  lemma FinishFails(w: World, pending: TunnelResource, p: Persist)
    requires pending.id in w.mem.tunnels && w.mem.tunnels[pending.id] == pending && pending.Pending()
    requires pending.updatedAt <= w.clock && pending.nextAttemptAt == None
    requires pending.id !in w.live && (|pending.sources| > 0 ==> !Lists(w.acl, pending.id))
    ensures LastRecordLost(StoreTunnel(w, Finished(pending, w.clock), p), pending, Finished(pending, w.clock))
  {
  }

  ghost predicate Returning(w: World, id: string, generation: nat, terminal: State) {
    id in w.mem.tunnels
    && var m := w.mem.tunnels[id];
       && m.generation == generation && m.state == PendingState(terminal) && m.cleanupTerminal == Some(terminal)
       && AttemptAt(m).Some? && AttemptAt(m).value <= w.clock + 5 * SECOND
  }

  lemma ListWithoutId(acl: seq<AclEntry>, tunnels: map<string, TunnelResource>, id: string)
    requires IsAclList(acl, tunnels, id)
    ensures !Lists(acl, id)
  {
  }

  // ---------------------------------------------------------------------------------------
  // One scheduler attempt on a tunnel
  // ---------------------------------------------------------------------------------------

  /** How an attempt ended: the snapshot was out of date, the deadline is not reached, the intent
      to expire was not durable, the cleanup is to be retried at `next`, or it is complete. */
  datatype Attempt =
    | Outdated | TooEarly
    | IntentLost(p: Persist) | RetryAt(next: Time, p: Persist) | Closed(p: Persist)
  {
    predicate Writes() {
      IntentLost? || RetryAt? || Closed?
    }
  }

  /** The steps of one attempt on the tunnel `id`. */
  predicate OwnStep(a: Action, id: string) {
    a.Acquire? || a.Release? || a.AgentRemove? || a.InstallAcl?
    || ((a.BeginExpiry? || a.Postpone? || a.Finish?) && a.base.id == id)
  }

  /** What was added to the history are steps of an attempt on `id`, and of other goroutines. */
  ghost predicate Works(before: seq<Action>, after: seq<Action>, id: string) {
    before <= after && forall k :: |before| <= k < |after| ==> OwnStep(after[k], id) || FromOutside(after[k])
  }

  lemma InstallWorks(before: seq<Action>, a: Action)
    requires a.InstallAcl?
    ensures forall id :: Works(before, before + [a], id)
  {
  }

  lemma WorksTransitive(u: seq<Action>, v: seq<Action>, w: seq<Action>, id: string)
    requires Works(u, v, id) && Works(v, w, id)
    ensures Works(u, w, id)
  {
  }

  /** Some record that the attempt wrote ended in `p`. */
  ghost predicate Wrote(before: seq<Action>, after: seq<Action>, p: Persist) {
    exists k :: |before| <= k < |after| && (after[k].BeginExpiry? || after[k].Postpone? || after[k].Finish?) && after[k].p == p
  }

  lemma WroteBefore(u: seq<Action>, v: seq<Action>, w: seq<Action>, p: Persist)
    requires Wrote(u, v, p) && v <= w
    ensures Wrote(u, w, p)
  {
    var k :| |u| <= k < |v| && (v[k].BeginExpiry? || v[k].Postpone? || v[k].Finish?) && v[k].p == p;
    assert w[k] == v[k];
  }

  lemma WroteAfter(u: seq<Action>, v: seq<Action>, w: seq<Action>, p: Persist)
    requires Wrote(v, w, p) && u <= v
    ensures Wrote(u, w, p)
  {
    var k :| |v| <= k < |w| && (w[k].BeginExpiry? || w[k].Postpone? || w[k].Finish?) && w[k].p == p;
    assert |u| <= k;
  }

  lemma WroteLast(u: seq<Action>, a: Action)
    requires a.BeginExpiry? || a.Postpone? || a.Finish?
    ensures Wrote(u, u + [a], a.p)
  {
    assert (u + [a])[|u|] == a;
  }

  ghost predicate AttemptEnds(attempt: Attempt, expected: TunnelResource, seen: World, end: World) {
    var id := expected.id;
    match attempt
    case Outdated =>
      end == seen && (id !in seen.mem.tunnels || seen.mem.tunnels[id].generation != expected.generation
                      || seen.mem.tunnels[id].state != expected.state)
    case TooEarly => end == seen && id in seen.mem.tunnels && seen.mem.tunnels[id].state.Active?
                     && seen.clock < seen.mem.tunnels[id].EffectiveNotAfter()
    case _ =>
      && id in seen.mem.tunnels && AttemptRan(attempt, seen.mem.tunnels[id], seen, end)
      && seen.mem.tunnels[id].generation == expected.generation && seen.mem.tunnels[id].state == expected.state
      && expected.Revisited()
      && (seen.mem.tunnels[id].state.Active? ==> seen.mem.tunnels[id].EffectiveNotAfter() <= seen.clock)
  }

  /** How an attempt that started from the record `b` may end. */
  ghost predicate AttemptRan(attempt: Attempt, b: TunnelResource, seen: World, end: World) {
    match attempt
    case IntentLost(p) =>
      && end.live == seen.live && end.acl == seen.acl && !p.Committed?
      && end.mem == (if p.NotCommitted? then seen.mem else WithTunnel(seen.mem, Expiring(b, end.clock)))
    case RetryAt(next, p) =>
      && seen.clock <= next - RetryDelay(Intent(b).attempts + 1) <= end.clock
      && (p.NotCommitted? || (b.id in end.mem.tunnels && PendingAgain(end.mem.tunnels[b.id], Intent(b), next)))
    case Closed(p) =>
      && b.id !in end.live && (|b.sources| > 0 ==> !Lists(end.acl, b.id))
      && (p.NotCommitted? ||
          (b.id in end.mem.tunnels && end.mem.tunnels[b.id] == Finished(Intent(b), end.clock)))
    case _ => false
  }

  /** An attempt on what was active goes on as one on the expiring record. */
  lemma ExpiringRan(attempt: Attempt, b: TunnelResource, t: Time, seen: World, mid: World, end: World)
    requires AttemptRan(attempt, Expiring(b, t), mid, end) && b.state.Active? && seen.clock <= mid.clock
    requires attempt.RetryAt? || attempt.Closed?
    ensures AttemptRan(attempt, b, seen, end)
  {
  }

  /** What the attempt works from: an active record is first turned into an expiring one. */
  function Intent(b: TunnelResource): TunnelResource {
    if b.state.Active? then Expiring(b, b.updatedAt) else b
  }

  /** `r` is `b` with one more failed attempt and its next attempt at `next`. */
  predicate PendingAgain(r: TunnelResource, b: TunnelResource, next: Time) {
    r == Postponed(b, b.attempts + 1, next, r.lastError, r.updatedAt) && b.Revisited() && !b.state.Active?
  }

  /** An attempt whose records reached memory leaves its tunnel terminal, or due between five
      seconds after it began and 320 seconds after it ended. */
  lemma AttemptMakesProgress(attempt: Attempt, expected: TunnelResource, seen: World, end: World)
    requires AttemptEnds(attempt, expected, seen, end) && Inv(seen) && Inv(end)
    requires (attempt.RetryAt? || attempt.Closed?) && !attempt.p.NotCommitted?
    ensures expected.id in end.mem.tunnels
    ensures var at := AttemptAt(end.mem.tunnels[expected.id]);
            at == None || seen.clock + 5 * SECOND <= at.value <= end.clock + 320 * SECOND
  {
    var b := seen.mem.tunnels[expected.id];
    assert b.id == expected.id && GoodRecord(b, seen.clock);
    assert GoodRecord(end.mem.tunnels[b.id], end.clock);
    RanMakesProgress(attempt, b, seen, end);
  }

  lemma RanMakesProgress(attempt: Attempt, b: TunnelResource, seen: World, end: World)
    requires AttemptRan(attempt, b, seen, end) && (attempt.RetryAt? || attempt.Closed?) && !attempt.p.NotCommitted?
    requires Coherent(b) && (b.id in end.mem.tunnels ==> end.mem.tunnels[b.id].updatedAt <= end.clock)
    ensures b.id in end.mem.tunnels
    ensures var at := AttemptAt(end.mem.tunnels[b.id]);
            at == None || seen.clock + 5 * SECOND <= at.value <= end.clock + 320 * SECOND
  {
    RetryDelayBounds(Intent(b).attempts + 1);
  }

  predicate DueAt(r: TunnelResource, now: Time) {
    AttemptAt(r).Some? && AttemptAt(r).value <= now
  }

  /** `next` is the earliest attempt among the records that are not due at `now`. */
  ghost predicate EarliestAttempt(tunnels: map<string, TunnelResource>, now: Time, next: Time) {
    && (exists id :: id in tunnels && AttemptAt(tunnels[id]) == Some(next))
    && (forall id :: id in tunnels && !DueAt(tunnels[id], now) && AttemptAt(tunnels[id]).Some? ==>
          next <= AttemptAt(tunnels[id]).value)
  }

  lemma CompleteListProtects(ws: seq<World>, steps: seq<Action>, w: World)
    requires History(ws, steps, w) && IsAclList(w.acl, w.mem.tunnels, "")
    ensures SourcesProtected(w)
  {
    NoBlankLiveId(ws, steps, w);
    HistoryIsGood(ws, steps, w);
    forall id | id in w.live ensures Covers(w.acl, w.mem.tunnels[id]) {
      assert w.mem.tunnels[id].Revisited();
    }
  }

  lemma NothingToProtect(ws: seq<World>, steps: seq<Action>, w: World, list: seq<AclEntry>)
    requires History(ws, steps, w) && IsAclList(list, w.mem.tunnels, "") && |list| == 0
    ensures SourcesProtected(w)
  {
    NoBlankLiveId(ws, steps, w);
    HistoryIsGood(ws, steps, w);
    forall id | id in w.live ensures Covers(w.acl, w.mem.tunnels[id]) {
      assert w.mem.tunnels[id].Revisited();
      assert w.mem.tunnels[id].Entry() !in list;
    }
  }

  function AfterUpsert(w: World, s: Schedule, p: Persist): World {
    Write(w, w.mem.(entries := w.mem.entries[s.key := s]), p)
  }

  function AfterDelete(w: World, key: string, p: Persist): World {
    Write(w, w.mem.(entries := w.mem.entries - {key}), p)
  }
}
