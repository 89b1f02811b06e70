/** What holds along every run of the guard: any interleaving of operations, failed writes,
    failed Agent calls, fail-closed passes and crashes. */
module GuardRuns {
  import opened Base
  import opened SourceAcl
  import opened TunnelModel
  import opened Schedules
  import opened GuardMachine
  import opened GuardInvariants

  ghost predicate IsRun(ws: seq<World>, steps: seq<Action>) {
    |ws| == |steps| + 1 && forall i :: 0 <= i < |steps| ==> Step(ws[i], steps[i], ws[i + 1])
  }

  /** A guard that has never managed anything. */
  ghost predicate Initial(w: World) {
    w.mem == Memory(w.mem.token, map[], map[]) && GoodToken(w.mem.token) && w.disk == w.mem && w.live == {} && w.acl == []
    && w.clock > ZERO_TIME && w.holder == None
  }

  lemma InitialIsGood(w: World)
    requires Initial(w)
    ensures Inv(w) && SourcesProtected(w)
  {
  }

  lemma {:induction false} RunKeepsInv(ws: seq<World>, steps: seq<Action>, i: nat)
    requires IsRun(ws, steps) && i < |ws| && Inv(ws[0])
    ensures Inv(ws[i])
  {
    if i > 0 {
      RunKeepsInv(ws, steps, i - 1);
      StepKeepsInv(ws[i - 1], steps[i - 1], ws[i]);
    }
  }

  lemma {:induction false} ClockNeverGoesBack(ws: seq<World>, steps: seq<Action>, i: nat, j: nat)
    requires IsRun(ws, steps) && i <= j < |ws|
    ensures ws[i].clock <= ws[j].clock
  {
    if i < j {
      ClockNeverGoesBack(ws, steps, i, j - 1);
      assert Step(ws[j - 1], steps[j - 1], ws[j]);
    }
  }

  // ---------------------------------------------------------------------------------------
  // Write-ahead safety
  // ---------------------------------------------------------------------------------------

  predicate Terminal(r: TunnelResource) {
    r.state in {Suspended, Deleted, Expired}
  }

  /** At every instant of every run an exposed inbound is recorded in memory and in the file in
      a state the scheduler returns to; so a terminal state in either copy means the inbound is
      gone. */
  lemma WriteAheadSafety(ws: seq<World>, steps: seq<Action>, i: nat, id: string)
    requires IsRun(ws, steps) && i < |ws| && Initial(ws[0])
    ensures id in ws[i].live ==>
              && id in ws[i].mem.tunnels && ws[i].mem.tunnels[id].Revisited()
              && id in ws[i].disk.tunnels && ws[i].disk.tunnels[id].Revisited()
    ensures id in ws[i].mem.tunnels && Terminal(ws[i].mem.tunnels[id]) ==> id !in ws[i].live
    ensures id in ws[i].disk.tunnels && Terminal(ws[i].disk.tunnels[id]) ==> id !in ws[i].live
  {
    InitialIsGood(ws[0]);
    RunKeepsInv(ws, steps, i);
  }

  /** A crash may come at any instant: what the file then restores is again a good world. */
  lemma CrashAnywhere(ws: seq<World>, steps: seq<Action>, i: nat, w': World)
    requires IsRun(ws, steps) && i < |ws| && Initial(ws[0]) && Step(ws[i], Restart, w')
    ensures Inv(w') && w'.mem == ws[i].disk && w'.live == ws[i].live
    ensures IsRun(ws[..i + 1] + [w'], steps[..i] + [Restart])
  {
    InitialIsGood(ws[0]);
    RunKeepsInv(ws, steps, i);
    StepKeepsInv(ws[i], Restart, w');
    RunPrefix(ws, steps, i, Restart, w');
  }

  lemma RunPrefix(ws: seq<World>, steps: seq<Action>, i: nat, a: Action, w': World)
    requires IsRun(ws, steps) && i < |ws| && Step(ws[i], a, w')
    ensures IsRun(ws[..i + 1] + [w'], steps[..i] + [a])
  {
    var ws', steps' := ws[..i + 1] + [w'], steps[..i] + [a];
    forall k | 0 <= k < |steps'| ensures Step(ws'[k], steps'[k], ws'[k + 1]) {
      if k < i {
        assert ws'[k] == ws[k] && ws'[k + 1] == ws[k + 1] && steps'[k] == steps[k];
      }
    }
  }

  /** The same schedules are in memory and in the file at every instant, differing at most in
      their retry counters; the same tunnels, differing at most by an unwritten fail-closed pass. */
  lemma FileMatchesMemory(ws: seq<World>, steps: seq<Action>, i: nat)
    requires IsRun(ws, steps) && i < |ws| && Initial(ws[0])
    ensures Agree(ws[i].mem, ws[i].disk)
    ensures GoodMemory(ws[i].disk, ws[i].clock)
  {
    InitialIsGood(ws[0]);
    RunKeepsInv(ws, steps, i);
  }

  // ---------------------------------------------------------------------------------------
  // Generations, leases, deletion
  // ---------------------------------------------------------------------------------------

  predicate Doomed(r: TunnelResource) {
    r.state in {DeletePending, Deleted}
  }

  /** How a record may change over time: its definition never does, its generation never falls,
      within a generation the hard deadline is fixed and the lease never shrinks, and deletion
      is final. */
  predicate Evolves(a: TunnelResource, b: TunnelResource) {
    && a.id == b.id && a.tag == b.tag && a.listenIp == b.listenIp && a.listenPort == b.listenPort
    && a.targetIp == b.targetIp && a.targetPort == b.targetPort && a.network == b.network && a.sources == b.sources
    && a.generation <= b.generation
    && (a.generation == b.generation ==> a.hardNotAfter == b.hardNotAfter && a.leaseUntil <= b.leaseUntil)
    && (Doomed(a) ==> Doomed(b))
  }

  ghost predicate AllEvolve(a: Memory, b: Memory) {
    forall id :: id in a.tunnels ==> id in b.tunnels && Evolves(a.tunnels[id], b.tunnels[id])
  }

  lemma ChangeEvolves(w: World, a: Action)
    requires Inv(w) && Enabled(w, a) && StoresTunnel(a)
    ensures Stored(w, a).id in w.mem.tunnels ==> Evolves(w.mem.tunnels[Stored(w, a).id], Stored(w, a))
  {
    if !a.Provision? {
      BaseIsGood(w, a.base);
      BaseEvolves(w, a);
      CurrentEvolves(w.mem.tunnels[a.base.id], a.base);
    }
  }

  lemma BaseEvolves(w: World, a: Action)
    requires Enabled(w, a) && StoresTunnel(a) && !a.Provision? && GoodRecord(a.base, w.clock)
    ensures Evolves(a.base, Stored(w, a))
  {
  }

  lemma CurrentEvolves(m: TunnelResource, b: TunnelResource)
    requires Current(m, b)
    ensures Evolves(m, b) && Evolves(b, m)
  {
  }

  lemma CopiesEvolve(w: World)
    requires Inv(w)
    ensures AllEvolve(w.mem, w.disk) && AllEvolve(w.disk, w.mem)
  {
    forall id | id in w.mem.tunnels
      ensures Evolves(w.mem.tunnels[id], w.disk.tunnels[id]) && Evolves(w.disk.tunnels[id], w.mem.tunnels[id])
    {
      CurrentEvolves(w.mem.tunnels[id], w.disk.tunnels[id]);
    }
  }

  lemma StoreEvolves(m: Memory, r: TunnelResource)
    requires r.id in m.tunnels ==> Evolves(m.tunnels[r.id], r)
    ensures AllEvolve(m, WithTunnel(m, r))
  {
  }

  lemma FailClosedEvolves(m: Memory, e: string, clock: Time)
    ensures AllEvolve(m, FailClosedAll(m, e, clock))
  {
  }

  lemma StoreStepEvolves(w: World, a: Action, p: Persist)
    requires Inv(w) && Enabled(w, a) && StoresTunnel(a)
    ensures AllEvolve(w.mem, StoreTunnel(w, Stored(w, a), p).mem)
  {
    ChangeEvolves(w, a);
    StoreEvolves(w.mem, Stored(w, a));
    SelfEvolves(w.mem);
  }

  lemma SelfEvolves(m: Memory)
    ensures AllEvolve(m, m)
  {
  }

  lemma StepEvolves(w: World, a: Action, w': World)
    requires Inv(w) && Step(w, a, w')
    ensures AllEvolve(w.mem, w'.mem)
  {
    if StoresTunnel(a) {
      StoredIsNext(w, a, w');
      StoreStepEvolves(w, a, a.p);
    } else if a.Restart? {
      CopiesEvolve(w);
    } else {
      StepLeavesTunnels(w, a, w');
      SelfEvolves(w.mem);
      FailClosedEvolves(w.mem, if a.FailClosed? then a.cause else "", w.clock);
    }
  }

  lemma StepLeavesTunnels(w: World, a: Action, w': World)
    requires Step(w, a, w') && !StoresTunnel(a) && !a.Restart?
    ensures w'.mem.tunnels == w.mem.tunnels
            || w'.mem.tunnels == FailClosedAll(w.mem, if a.FailClosed? then a.cause else "", w.clock).tunnels
  {
  }

  lemma {:induction false} RunEvolves(ws: seq<World>, steps: seq<Action>, i: nat, j: nat)
    requires IsRun(ws, steps) && i <= j < |ws| && Inv(ws[0])
    ensures AllEvolve(ws[i].mem, ws[j].mem)
  {
    if i < j {
      RunEvolves(ws, steps, i, j - 1);
      RunKeepsInv(ws, steps, j - 1);
      StepEvolves(ws[j - 1], steps[j - 1], ws[j]);
      EvolveTransitive(ws[i].mem, ws[j - 1].mem, ws[j].mem);
    }
  }

  lemma EvolveTransitive(a: Memory, b: Memory, c: Memory)
    requires AllEvolve(a, b) && AllEvolve(b, c)
    ensures AllEvolve(a, c)
  {
  }

  lemma CopiesEvolveAt(ws: seq<World>, steps: seq<Action>, i: nat)
    requires IsRun(ws, steps) && i < |ws| && Inv(ws[0])
    ensures AllEvolve(ws[i].mem, ws[i].disk) && AllEvolve(ws[i].disk, ws[i].mem)
  {
    RunKeepsInv(ws, steps, i);
    CopiesEvolve(ws[i]);
  }

  /** Generation discipline, across crashes and in both copies: from any record at one instant
      to either copy at any later one. */
  lemma GenerationDiscipline(ws: seq<World>, steps: seq<Action>, i: nat, j: nat)
    requires IsRun(ws, steps) && i <= j < |ws| && Initial(ws[0])
    ensures AllEvolve(ws[i].mem, ws[j].mem) && AllEvolve(ws[i].mem, ws[j].disk)
    ensures AllEvolve(ws[i].disk, ws[j].mem) && AllEvolve(ws[i].disk, ws[j].disk)
  {
    InitialIsGood(ws[0]);
    CopiesEvolveAt(ws, steps, i);
    CopiesEvolveAt(ws, steps, j);
    RunEvolves(ws, steps, i, j);
    EvolveTransitive(ws[i].mem, ws[j].mem, ws[j].disk);
    EvolveTransitive(ws[i].disk, ws[i].mem, ws[j].mem);
    EvolveTransitive(ws[i].disk, ws[j].mem, ws[j].disk);
  }

  /** Deletion is absorbing: once either copy says so, both always do. */
  lemma DeletionIsFinal(ws: seq<World>, steps: seq<Action>, i: nat, j: nat, id: string)
    requires IsRun(ws, steps) && i <= j < |ws| && Initial(ws[0])
    requires (id in ws[i].mem.tunnels && Doomed(ws[i].mem.tunnels[id]))
             || (id in ws[i].disk.tunnels && Doomed(ws[i].disk.tunnels[id]))
    ensures id in ws[j].mem.tunnels && Doomed(ws[j].mem.tunnels[id])
    ensures id in ws[j].disk.tunnels && Doomed(ws[j].disk.tunnels[id])
  {
    GenerationDiscipline(ws, steps, i, j);
  }

  // ---------------------------------------------------------------------------------------
  // Deadlines
  // ---------------------------------------------------------------------------------------

  /** The instant at which the scheduler acts on a record, if it ever does. */
  function AttemptAt(r: TunnelResource): Option<Time> {
    if !r.Revisited() then None
    else
      var at := if r.state.Active? then r.EffectiveNotAfter() else r.updatedAt;
      Some(if r.nextAttemptAt.Some? && r.nextAttemptAt.value > at then r.nextAttemptAt.value else at)
  }

  /** No lease outlives its last grant by more than ten minutes, and a running tunnel is due
      exactly at its effective deadline. */
  lemma LeasesAreBounded(ws: seq<World>, steps: seq<Action>, i: nat, id: string)
    requires IsRun(ws, steps) && i < |ws| && Initial(ws[0]) && id in ws[i].mem.tunnels
    ensures var r := ws[i].mem.tunnels[id];
            && r.leaseUntil <= r.updatedAt + MAX_LEASE <= ws[i].clock + MAX_LEASE
            && (r.state.Active? ==> AttemptAt(r) == Some(r.EffectiveNotAfter()))
  {
    InitialIsGood(ws[0]);
    RunKeepsInv(ws, steps, i);
    assert GoodRecord(ws[i].mem.tunnels[id], ws[i].clock);
  }

  predicate Grants(a: Action) {
    a.Provision? || a.Renew?
  }

  ghost predicate LeasesWithin(m: Memory, limit: Time) {
    forall id :: id in m.tunnels ==> m.tunnels[id].leaseUntil <= limit
  }

  lemma StoreWithoutGrant(w: World, a: Action)
    requires Inv(w) && Enabled(w, a) && StoresTunnel(a) && !Grants(a)
    ensures Stored(w, a).id in w.mem.tunnels
    ensures Stored(w, a).leaseUntil == w.mem.tunnels[Stored(w, a).id].leaseUntil
  {
    BaseIsGood(w, a.base);
    ChangeShape(w, a);
  }

  lemma CopiesLeaseAlike(w: World, id: string)
    requires Inv(w) && id in w.mem.tunnels
    ensures w.disk.tunnels[id].leaseUntil == w.mem.tunnels[id].leaseUntil
  {
    assert Current(w.mem.tunnels[id], w.disk.tunnels[id]);
  }

  lemma StoreKeepsLeases(w: World, r: TunnelResource, p: Persist, limit: Time)
    requires LeasesWithin(w.mem, limit) && r.leaseUntil <= limit
    ensures LeasesWithin(StoreTunnel(w, r, p).mem, limit)
  {
  }

  lemma StepWithoutGrant(w: World, a: Action, w': World, limit: Time)
    requires Inv(w) && Step(w, a, w') && !Grants(a) && LeasesWithin(w.mem, limit)
    ensures LeasesWithin(w'.mem, limit)
  {
    if StoresTunnel(a) {
      StoredIsNext(w, a, w');
      StoreWithoutGrant(w, a);
      StoreKeepsLeases(w, Stored(w, a), a.p, limit);
    } else if a.Restart? {
      RestartKeepsLeases(w, limit);
    } else {
      StepLeavesTunnels(w, a, w');
    }
  }

  lemma RestartKeepsLeases(w: World, limit: Time)
    requires Inv(w) && LeasesWithin(w.mem, limit)
    ensures LeasesWithin(w.disk, limit)
  {
    forall id | id in w.disk.tunnels ensures w.disk.tunnels[id].leaseUntil <= limit {
      CopiesLeaseAlike(w, id);
    }
  }

  lemma {:induction false} RunWithoutGrant(ws: seq<World>, steps: seq<Action>, i: nat, j: nat, limit: Time)
    requires IsRun(ws, steps) && i <= j < |ws| && Inv(ws[0])
    requires forall k :: i <= k < j ==> !Grants(steps[k])
    requires LeasesWithin(ws[i].mem, limit)
    ensures LeasesWithin(ws[j].mem, limit)
  {
    if i < j {
      RunWithoutGrant(ws, steps, i, j - 1, limit);
      RunKeepsInv(ws, steps, j - 1);
      StepWithoutGrant(ws[j - 1], steps[j - 1], ws[j], limit);
    }
  }

  /** A controller that falls silent loses every tunnel: with no grant since instant i, every
      running tunnel is due at the latest ten minutes after it. */
  lemma SilentControllerBound(ws: seq<World>, steps: seq<Action>, i: nat, j: nat, id: string)
    requires IsRun(ws, steps) && i <= j < |ws| && Initial(ws[0])
    requires forall k :: i <= k < j ==> !Grants(steps[k])
    requires id in ws[j].mem.tunnels && ws[j].mem.tunnels[id].state.Active?
    ensures AttemptAt(ws[j].mem.tunnels[id]).value <= ws[i].clock + MAX_LEASE
  {
    InitialIsGood(ws[0]);
    RunKeepsInv(ws, steps, i);
    assert forall id :: id in ws[i].mem.tunnels ==> GoodRecord(ws[i].mem.tunnels[id], ws[i].clock);
    RunWithoutGrant(ws, steps, i, j, ws[i].clock + MAX_LEASE);
    LeasesAreBounded(ws, steps, j, id);
  }

  /** What the operation in flight read when it began is still what memory holds, up to
      fail-closed passes, except where it has stored something itself. */
  ghost predicate ReadsCurrent(w: World) {
    w.holder.Some? ==> forall id :: id in w.read ==> id in w.mem.tunnels && Current(w.mem.tunnels[id], w.read[id])
  }

  lemma StoreKeepsReads(w: World, r: TunnelResource, p: Persist)
    requires ReadsCurrent(w)
    ensures ReadsCurrent(StoreTunnel(w, r, p))
  {
  }

  lemma FailClosedKeepsReads(w: World, w': World, e: string)
    requires Inv(w) && ReadsCurrent(w) && w'.holder == w.holder && w'.read == w.read
    requires w'.mem.tunnels == FailClosedAll(w.mem, e, w.clock).tunnels
    ensures ReadsCurrent(w')
  {
    FailClosedAllIsGood(w.mem, e, w.clock);
    forall id | id in w.read && w'.holder.Some? ensures id in w'.mem.tunnels && Current(w'.mem.tunnels[id], w.read[id]) {
      ClosedIsCurrent(w.mem.tunnels[id], w.read[id], e, w.clock);
    }
  }

  lemma ClosedIsCurrent(m: TunnelResource, b: TunnelResource, e: string, clock: Time)
    requires Current(m, b) && GoodRecord(m, clock) && GoodRecord(ClosedIfRestricted(m, e, clock), clock)
    ensures Current(ClosedIfRestricted(m, e, clock), b)
  {
  }

  lemma StepLeavesReads(w: World, a: Action, w': World)
    requires Step(w, a, w') && !StoresTunnel(a) && !a.Acquire? && w'.holder.Some?
    ensures w'.holder == w.holder && w'.read == w.read && !a.Restart?
  {
  }

  lemma StepKeepsReads(w: World, a: Action, w': World)
    requires Inv(w) && Step(w, a, w') && ReadsCurrent(w)
    ensures ReadsCurrent(w')
  {
    if StoresTunnel(a) {
      StoredIsNext(w, a, w');
      StoreKeepsReads(w, Stored(w, a), a.p);
    } else if !a.Acquire? && w'.holder.Some? {
      StepLeavesReads(w, a, w');
      StepLeavesTunnels(w, a, w');
      if w'.mem.tunnels != w.mem.tunnels {
        FailClosedKeepsReads(w, w', if a.FailClosed? then a.cause else "");
      }
    }
  }

  lemma {:induction false} RunKeepsReads(ws: seq<World>, steps: seq<Action>, i: nat)
    requires IsRun(ws, steps) && i < |ws| && Initial(ws[0])
    ensures ReadsCurrent(ws[i])
  {
    if i > 0 {
      RunKeepsReads(ws, steps, i - 1);
      InitialIsGood(ws[0]);
      RunKeepsInv(ws, steps, i - 1);
      StepKeepsReads(ws[i - 1], steps[i - 1], ws[i]);
    }
  }

  /** The operation in flight can still extend the generation of `r`. */
  ghost predicate MayRenew(w: World, r: TunnelResource) {
    && w.holder.Some? && w.holder.value < r.EffectiveNotAfter() && r.leaseUntil < w.holder.value + MAX_LEASE
    && r.id in w.read && w.read[r.id].state.Active? && w.read[r.id].generation == r.generation
  }

  /** The state of a generation after its deadline: it can only be superseded. */
  ghost predicate Lapsed(w: World, r: TunnelResource) {
    !MayRenew(w, r) && r.id in w.mem.tunnels && Outlives(w.mem.tunnels[r.id], r)
  }

  predicate Outlives(m: TunnelResource, r: TunnelResource) {
    m.generation > r.generation
    || (m.generation == r.generation && m.leaseUntil == r.leaseUntil && m.hardNotAfter == r.hardNotAfter)
  }

  lemma RenewalIsInFlight(w: World, a: Action, r: TunnelResource)
    requires Enabled(w, a) && a.Renew? && a.base.id == r.id && a.base.generation == r.generation
    requires a.base.leaseUntil == r.leaseUntil && a.base.hardNotAfter == r.hardNotAfter
    ensures MayRenew(w, r)
  {
  }

  /** A change of a lapsed generation. */
  lemma ChangeKeepsLapsed(w: World, a: Action, r: TunnelResource)
    requires Enabled(w, a) && StoresTunnel(a) && !MayRenew(w, r)
    requires r.id in w.mem.tunnels && Outlives(w.mem.tunnels[r.id], r) && Stored(w, a).id == r.id
    ensures Outlives(Stored(w, a), r)
  {
    if !a.Provision? {
      assert Outlives(a.base, r);
      if a.Renew? && a.base.generation == r.generation {
        RenewalIsInFlight(w, a, r);
      }
    }
  }

  lemma StepKeepsLate(w: World, a: Action, w': World, r: TunnelResource)
    requires Step(w, a, w') && !MayRenew(w, r) && r.EffectiveNotAfter() <= w.clock
    ensures !MayRenew(w', r)
  {
  }

  lemma StoreKeepsLapsed(w: World, s: TunnelResource, p: Persist, r: TunnelResource)
    requires r.id in w.mem.tunnels && Outlives(w.mem.tunnels[r.id], r) && (s.id == r.id ==> Outlives(s, r))
    ensures r.id in StoreTunnel(w, s, p).mem.tunnels && Outlives(StoreTunnel(w, s, p).mem.tunnels[r.id], r)
  {
  }

  lemma StepKeepsLapsed(w: World, a: Action, w': World, r: TunnelResource)
    requires Inv(w) && Step(w, a, w') && Lapsed(w, r) && r.EffectiveNotAfter() <= w.clock
    ensures Lapsed(w', r)
  {
    StepKeepsLate(w, a, w', r);
    if StoresTunnel(a) {
      StoredIsNext(w, a, w');
      if Stored(w, a).id == r.id {
        ChangeKeepsLapsed(w, a, r);
      }
      StoreKeepsLapsed(w, Stored(w, a), a.p, r);
    } else if a.Restart? {
      RestartKeepsOutliving(w, r);
    } else {
      StepLeavesTunnels(w, a, w');
      FailClosedKeepsOutliving(w.mem, if a.FailClosed? then a.cause else "", w.clock, r);
    }
  }

  lemma RestartKeepsOutliving(w: World, r: TunnelResource)
    requires Inv(w) && r.id in w.mem.tunnels && Outlives(w.mem.tunnels[r.id], r)
    ensures r.id in w.disk.tunnels && Outlives(w.disk.tunnels[r.id], r)
  {
    assert Current(w.mem.tunnels[r.id], w.disk.tunnels[r.id]);
  }

  lemma FailClosedKeepsOutliving(m: Memory, e: string, clock: Time, r: TunnelResource)
    requires r.id in m.tunnels && Outlives(m.tunnels[r.id], r)
    ensures var m' := FailClosedAll(m, e, clock); r.id in m'.tunnels && Outlives(m'.tunnels[r.id], r)
  {
  }

  lemma {:induction false} LapsedStays(ws: seq<World>, steps: seq<Action>, i: nat, j: nat, r: TunnelResource)
    requires IsRun(ws, steps) && i <= j < |ws| && Inv(ws[i])
    requires Lapsed(ws[i], r) && r.EffectiveNotAfter() <= ws[i].clock
    ensures Lapsed(ws[j], r)
    decreases j - i
  {
    if i < j {
      StepKeepsInv(ws[i], steps[i], ws[i + 1]);
      StepKeepsLapsed(ws[i], steps[i], ws[i + 1], r);
      LapsedStays(ws, steps, i + 1, j, r);
    }
  }

  /** No revival: once the clock has reached a generation's deadline, no continuation of the run
      extends that generation, crashes included, unless an operation in flight read the clock and
      the active record before (RevivalIffInFlight). */
  lemma NoRevival(ws: seq<World>, steps: seq<Action>, i: nat, j: nat, id: string)
    requires IsRun(ws, steps) && i <= j < |ws| && Inv(ws[0])
    requires id in ws[i].mem.tunnels && ws[i].mem.tunnels[id].EffectiveNotAfter() <= ws[i].clock
    requires !MayRenew(ws[i], ws[i].mem.tunnels[id])
    ensures Lapsed(ws[j], ws[i].mem.tunnels[id])
  {
    RunKeepsInv(ws, steps, i);
    LapsedStays(ws, steps, i, j, ws[i].mem.tunnels[id]);
  }

  // ---------------------------------------------------------------------------------------
  // Ports and source restrictions
  // ---------------------------------------------------------------------------------------

  /** At every instant and in both copies, two resources that are provisioning, active or
      expiring never share a listen port. */
  lemma PortExclusivity(ws: seq<World>, steps: seq<Action>, i: nat)
    requires IsRun(ws, steps) && i < |ws| && Initial(ws[0])
    ensures PortsExclusive(ws[i].mem) && PortsExclusive(ws[i].disk)
  {
    InitialIsGood(ws[0]);
    RunKeepsInv(ws, steps, i);
  }

  /** Which inbounds a step can expose, and which tables it can install. */
  lemma StepFrame(w: World, a: Action, w': World)
    requires Step(w, a, w') && !a.InstallAcl? && !a.TableLost?
    ensures w'.acl == w.acl
    ensures w'.live <= w.live + (if a.AgentAdd? then {a.id} else {})
  {
  }

  lemma StepKeepsSourcesProtected(w: World, a: Action, w': World)
    requires Inv(w) && SourcesProtected(w) && Step(w, a, w') && !a.TableLost?
    ensures SourcesProtected(w')
  {
    if a.InstallAcl? {
      if a.effect {
        RebuildProtects(w, a, w');
      }
    } else {
      StepEvolves(w, a, w');
      StepFrame(w, a, w');
      forall id | id in w'.live ensures id in w.mem.tunnels && Covers(w.acl, w.mem.tunnels[id]) {
      }
    }
  }

  /** A rebuild that takes effect protects every live restricted resource, whatever the table
      held before. */
  lemma RebuildProtects(w: World, a: Action, w': World)
    requires Inv(w) && Step(w, a, w') && a.InstallAcl? && a.effect
    ensures SourcesProtected(w')
  {
    forall id | id in w'.live && id in w'.mem.tunnels ensures Covers(w'.acl, w'.mem.tunnels[id]) {
      assert id != a.exclude && w.mem.tunnels[id].Revisited();
    }
  }

  /** From the instant at which every live restricted resource is protected, until the table
      itself is lost, every one stays protected: removing one tunnel never exposes another. */
  lemma {:induction false} SourceAclSafety(ws: seq<World>, steps: seq<Action>, i: nat, j: nat)
    requires IsRun(ws, steps) && i <= j < |ws| && Inv(ws[0]) && SourcesProtected(ws[i])
    requires forall k :: i <= k < j ==> !steps[k].TableLost?
    ensures SourcesProtected(ws[j])
  {
    if i < j {
      SourceAclSafety(ws, steps, i, j - 1);
      RunKeepsInv(ws, steps, j - 1);
      StepKeepsSourcesProtected(ws[j - 1], steps[j - 1], ws[j]);
    }
  }
}
