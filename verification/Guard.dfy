/** The guard itself: internal/expiryguard/guard.go and tunnels.go as a class whose methods
    update its fields step by step. Ghost fields hold what lies outside the process and the
    history of the world; every method extends that history to a longer run of the machine, so
    what holds along runs holds at every instant inside every method. */
module ExpiryGuard {
  import opened Base
  import opened Ordering
  import opened SourceAcl
  import opened TunnelModel
  import opened Schedules
  import opened GuardMachine
  import opened GuardInvariants
  import opened GuardRuns
  import opened GuardInterference
  import opened Operations
  import opened ScheduleRuns
  import opened SchedulerSleep
  import opened RoundProgress
  import opened DurableState

  /** The file holds what `d` says; before the first write there is none. */
  ghost predicate FileHolds(f: Option<StateFile>, d: Memory) {
    if f.Some? then f.value == Image(d) else d.entries == map[] && d.tunnels == map[]
  }

  /** What the file holds when a process stops is what the next one loads. */
  lemma FileLoadsBack(ws: seq<World>, ss: seq<Action>, w: World, f: Option<StateFile>, token: string)
    requires History(ws, ss, w) && FileHolds(f, w.disk) && (f.None? ==> token == w.disk.token)
    ensures DurableState.Load(f, token) == Ok(w.disk)
  {
    HistoryIsGood(ws, ss, w);
    WriteThenLoad(w.disk, w.clock, token);
  }

  /** The scheduler's wake-up channel: it holds at most one pending message. `rung` counts the
      messages that the operations of this guard send; what other goroutines send besides can only
      wake the scheduler earlier. */
  class Bell {
    var pending: bool
    ghost var rung: nat

    constructor ()
      ensures !pending && rung == 0
    {
      pending, rung := false, 0;
    }

    /** notify: never blocks, and a second message before the first is taken is lost in it. */
    method Ring()
      modifies this
      ensures pending && rung == old(rung) + 1
    {
      pending, rung := true, rung + 1;
    }
  }

  class Guard {
    const bell: Bell
    var agentToken: string
    var entries: map<string, Schedule>
    var tunnels: map<string, TunnelResource>

    /** The state file on disk, the rules in the kernel, and the system clock. */
    var file: Option<StateFile>
    var rules: seq<Rule>
    var clock: Time

    ghost var disk: Memory
    ghost var live: set<string>
    ghost var acl: seq<AclEntry>
    ghost var holder: Option<Time>
    ghost var read: map<string, TunnelResource>
    ghost var worlds: seq<World>
    ghost var steps: seq<Action>
    ghost var progress: Progress

    ghost function Mem(): Memory
      reads this
    {
      Memory(agentToken, entries, tunnels)
    }

    ghost function Present(): World
      reads this
    {
      World(Mem(), disk, live, acl, clock, holder, read)
    }

    ghost predicate Valid()
      reads this
    {
      && History(worlds, steps, Present()) && FileHolds(file, disk) && rules == Compile(acl)
      && Operated(steps, progress) && (progress.Idle? <==> holder.None?)
    }

    ghost predicate Extends(ws: seq<World>, ss: seq<Action>)
      reads this
    {
      Valid() && Continues(ws, ss, worlds, steps)
    }

    /** ... without the operations lock changing hands. */
    ghost predicate Within(ws: seq<World>, ss: seq<Action>)
      reads this
    {
      Valid() && Goes(ws, ss, worlds, steps)
    }

    constructor (token: string, f: Option<StateFile>, r: seq<Rule>, now: Time)
      ensures agentToken == Trim(token) && entries == map[] && tunnels == map[]
      ensures file == f && rules == r && clock == now && fresh(bell) && !bell.pending
    {
      bell := new Bell();
      agentToken := Trim(token);
      entries, tunnels := map[], map[];
      file, rules, clock := f, r, now;
    }

    /** Reads the state file. The caller's history must end in the world that left the file
        behind, whether that process stopped or crashed; loading is then its Restart step. */
    method Load(ghost ws: seq<World>, ghost ss: seq<Action>, ghost w: World) returns (err: Option<LoadError>)
      requires entries == map[] && tunnels == map[]
      requires History(ws, ss, w) && FileHolds(file, w.disk) && rules == Compile(w.acl)
      requires clock == w.clock && (file.None? ==> agentToken == w.disk.token) && Walk(ss, |ss|).Some?
      modifies this
      ensures err == None && Valid() && worlds == ws + [Present()] && steps == ss + [Restart]
      ensures Present() == w.(mem := w.disk, holder := None)
    {
      FileLoadsBack(ws, ss, w, file, agentToken);
      err := LoadMemory();
      RestartResumes(ws, ss, w);
      ghost var resumed := w.(mem := w.disk, holder := None);
      Resume(ws + [resumed], ss + [Restart], resumed);
    }

    /** The history of the new process starts where the old one's ended. */
    ghost method Resume(ws: seq<World>, ss: seq<Action>, w: World)
      requires Mem() == w.mem && clock == w.clock && w.holder.None?
      modifies this`disk, this`live, this`acl, this`holder, this`read, this`worlds, this`steps, this`progress
      ensures worlds == ws && steps == ss && progress == Idle && Present() == w
    {
      disk, live, acl, holder, read := w.disk, w.live, w.acl, w.holder, w.read;
      worlds, steps, progress := ws, ss, Idle;
    }

    /** The reading loop: accepts what DurableState.Load accepts. */
    method LoadMemory() returns (err: Option<LoadError>)
      requires entries == map[] && tunnels == map[]
      modifies this`agentToken, this`entries, this`tunnels
      ensures match DurableState.Load(file, old(agentToken))
              case Ok(m) => err == None && Mem() == m
              case Err(e) => err == Some(e)
    {
      if file.None? {
        return None;
      }
      var f := file.value;
      if f.version != LEGACY_STATE_VERSION && f.version != STATE_VERSION {
        return Some(UnsupportedVersion);
      }
      if Trim(f.agentToken) != "" {
        agentToken := Trim(f.agentToken);
      }
      var es := ReadEntries(f.entries);
      if es.Err? {
        return Some(es.error);
      }
      entries := es.value;
      var ts := ReadTunnels(f.tunnels);
      if ts.Err? {
        return Some(ts.error);
      }
      tunnels := ts.value;
      return None;
    }

    // -------------------------------------------------------------------------------------
    // Time, other goroutines, and the operations lock
    // -------------------------------------------------------------------------------------

    /** Appends the present world to the history. */
    ghost method Record(w: World, a: Action)
      requires History(worlds, steps, w) && Step(w, a, Present()) && !a.TableLost?
      requires FileHolds(file, disk) && rules == Compile(acl)
      requires Operated(steps, progress) && Advance(progress, a).Some?
      requires Advance(progress, a).value.Idle? <==> holder.None?
      modifies this`worlds, this`steps, this`progress
      ensures worlds == old(worlds) + [Present()] && steps == old(steps) + [a]
      ensures Extends(old(worlds), old(steps)) && Some(progress) == Advance(old(progress), a)
      ensures !Locks(a) ==> Within(old(worlds), old(steps))
    {
      HistoryGrows(worlds, steps, w, a, Present());
      OperatedGrows(steps, progress, a);
      progress := Advance(progress, a).value;
      worlds, steps := worlds + [Present()], steps + [a];
    }

    method Now() returns (t: Time)
      requires Valid()
      modifies this`clock, this`worlds, this`steps, this`progress
      ensures Within(old(worlds), old(steps)) && t == clock >= old(clock)
      ensures steps == old(steps) + [Tick] && progress == old(progress)
      ensures Present() == old(Present()).(clock := t)
    {
      ghost var w := Present();
      var reading: Time := *;
      if reading > clock {
        clock := reading;
      }
      t := clock;
      Record(w, Tick);
    }

    /** Anything that other goroutines may do at this point. The body is one such behaviour, doing
        nothing; callers may rely only on the contract, which every stretch of outside steps
        meets (OutsideRunInterferes). */
    method OthersRun()
      requires Valid()
      modifies this
      ensures Within(old(worlds), old(steps)) && Interfered(old(Present()), Present()) && progress == old(progress)
      ensures forall k :: |old(steps)| <= k < |steps| ==> FromOutside(steps[k])
    {
    }

    /** Takes the tunnel-operations lock and reads the clock. */
    method LockOperations() returns (now: Time)
      requires Valid() && holder.None?
      modifies this
      ensures Extends(old(worlds), old(steps)) && holder == Some(now) && now == clock >= old(clock)
      ensures steps == old(steps) + [Tick, Acquire] && progress == Started
      ensures Present() == old(Present()).(clock := now, holder := Some(now), read := old(tunnels)) && tunnels == old(tunnels)
    {
      now := Now();
      Take();
      assert steps == old(steps) + [Tick, Acquire];
    }

    ghost method Take()
      requires Valid() && holder.None?
      modifies this
      ensures Extends(old(worlds), old(steps)) && steps == old(steps) + [Acquire] && progress == Started
      ensures Present() == old(Present()).(holder := Some(old(clock)), read := old(tunnels))
    {
      var w := Present();
      holder, read := Some(clock), tunnels;
      Record(w, Acquire);
    }

    method UnlockOperations()
      requires Valid() && (progress.Started? || progress.Over?)
      modifies this
      ensures Extends(old(worlds), old(steps)) && Present() == old(Present()).(holder := None)
      ensures steps == old(steps) + [Release] && (SentAtTheEnd(steps) <==> Owing(old(progress)))
    {
      EndsSending(steps, progress);
      ghost var w := Present();
      holder := None;
      Record(w, Release);
    }

    // -------------------------------------------------------------------------------------
    // The state file
    // -------------------------------------------------------------------------------------

    /** Writes everything in memory; says how far the write came. */
    method PersistLocked() returns (p: Persist)
      modifies this`file, this`disk
      ensures disk == (if p.NotCommitted? then old(disk) else Mem())
      ensures file == (if p.NotCommitted? then old(file) else Some(Image(Mem())))
    {
      var es := ListValues(entries);
      var ts := ListValues(tunnels);
      var image := StateFile(STATE_VERSION, agentToken, es, ts);
      p := *;
      if !p.NotCommitted? {
        file := Some(image);
        disk := Mem();
      }
    }

    /** Puts one record in memory and in the file, and takes it back out of memory when the file
        was not replaced. */
    method PutTunnel(resource: TunnelResource) returns (p: Persist)
      requires FileHolds(file, disk)
      modifies this`tunnels, this`file, this`disk, this`read
      ensures Present() == GuardMachine.StoreTunnel(old(Present()), resource, p)
      ensures FileHolds(file, disk)
    {
      read := read - {resource.id};
      var previous := tunnels;
      tunnels := tunnels[resource.id := resource];
      p := PersistLocked();
      if p.NotCommitted? {
        if resource.id in previous {
          tunnels := tunnels[resource.id := previous[resource.id]];
        } else {
          tunnels := tunnels - {resource.id};
        }
        assert tunnels == previous;
      }
    }

    /** storeTunnel, as the step `a` of the machine. */
    method StoreTunnel(resource: TunnelResource, ghost a: Action) returns (p: Persist)
      requires Valid() && StoresTunnel(a) && Enabled(Present(), a) && Stored(Present(), a) == resource
      requires Advance(progress, a).Some?
      modifies this
      ensures Within(old(worlds), old(steps)) && Some(progress) == Advance(old(progress), Ended(a, p))
      ensures Present() == GuardMachine.StoreTunnel(old(Present()), resource, p)
      ensures steps == old(steps) + [Ended(a, p)]
    {
      ghost var w := Present();
      p := PutTunnel(resource);
      StoreEndsIn(w, a, p);
      EndedAdvances(progress, a, p);
      Record(w, Ended(a, p));
    }

    // -------------------------------------------------------------------------------------
    // The Agent and the kernel
    // -------------------------------------------------------------------------------------

    /** Asks the Agent for the inbound and verifies it; a failure may have taken effect. */
    method ApplyTunnelInbound(resource: TunnelResource) returns (ok: bool)
      requires Valid() && Enabled(Present(), AgentAdd(resource.id, true)) && progress == Granting(resource.id)
      modifies this
      ensures Within(old(worlds), old(steps)) && progress == old(progress)
      ensures Present() == old(Present()) || Present() == old(Present()).(live := old(live) + {resource.id})
      ensures ok ==> resource.id in live
    {
      ghost var w := Present();
      var effect: bool := *;
      ok := *;
      if !effect {
        ok := false;
      } else {
        live := live + {resource.id};
      }
      Record(w, AgentAdd(resource.id, effect));
    }

    /** Asks the Agent to remove the inbound and verifies that it is gone. */
    method RemoveTunnelInbound(resource: TunnelResource) returns (ok: bool)
      requires Valid()
      requires progress in {Started, Lapsing(resource.id), Removing(resource.id)} || (progress.Over? && progress.id == resource.id)
      modifies this
      ensures Within(old(worlds), old(steps)) && holder == old(holder)
      ensures progress == if old(progress).Started? then Lapsing(resource.id) else old(progress)
      ensures Works(old(steps), steps, resource.id)
      ensures Present() == old(Present()) || Present() == old(Present()).(live := old(live) - {resource.id})
      ensures ok ==> resource.id !in live
    {
      ghost var w := Present();
      var effect: bool := *;
      ok := *;
      if !effect {
        ok := false;
      } else {
        live := live - {resource.id};
      }
      Record(w, AgentRemove(resource.id, effect));
    }

    /** Reads, under the state lock, which resources the table must name. */
    method AclResources(exclude: string) returns (list: seq<AclEntry>)
      requires Valid()
      ensures IsAclList(list, tunnels, exclude)
    {
      HistoryIsGood(worlds, steps, Present());
      list := OrderedEntries(tunnels, exclude);
    }

    /** Compiles and installs a table; a reported failure may have taken effect. */
    method ApplyNftRules(list: seq<AclEntry>, exclude: string) returns (ok: bool)
      requires Valid() && Enabled(Present(), InstallAcl(list, exclude, true))
      modifies this
      ensures Within(old(worlds), old(steps)) && progress == old(progress)
      ensures forall id :: Works(old(steps), steps, id)
      ensures Present() == old(Present()) || Present() == old(Present()).(acl := list)
      ensures ok ==> acl == list
    {
      ghost var w := Present();
      var script := BuildRules(list);
      var effect: bool := *;
      ok := *;
      if !effect {
        ok := false;
      } else {
        rules := script;
        acl := list;
      }
      InstallWorks(steps, InstallAcl(list, exclude, effect));
      Record(w, InstallAcl(list, exclude, effect));
    }

    method RebuildTunnelAcl(exclude: string) returns (ok: bool)
      requires Valid() && exclude !in live
      modifies this
      ensures Within(old(worlds), old(steps)) && progress == old(progress)
      ensures forall id :: Works(old(steps), steps, id)
      ensures Interfered(old(Present()), Present().(acl := old(acl)))
      ensures ok ==> IsAclList(acl, tunnels, exclude)
    {
      var list := AclResources(exclude);
      ghost var w := Present();
      OthersRun();
      AclListSurvives(w, Present(), list, exclude);
      ghost var ss := steps;
      ok := ApplyNftRules(list, exclude);
      forall id ensures Works(old(steps), steps, id) {
        WorksTransitive(old(steps), ss, steps, id);
      }
    }

    method NftAvailable() returns (ok: bool)
    {
      ok := *;
    }

    // -------------------------------------------------------------------------------------
    // Applying a tunnel
    // -------------------------------------------------------------------------------------

    method CheckDurablePort(r: TunnelResource) returns (free: bool)
      ensures free <==> PortFree(Mem(), r)
    {
      var remaining := tunnels.Keys;
      while remaining != {}
        invariant remaining <= tunnels.Keys
        invariant forall id :: id in tunnels && id !in remaining && id != r.id && tunnels[id].ReservesPort() ==>
                    tunnels[id].network != r.network || tunnels[id].listenPort != r.listenPort
        decreases |remaining|
      {
        var id :| id in remaining;
        remaining := remaining - {id};
        var other := tunnels[id];
        if id != r.id && other.ReservesPort() && other.network == r.network && other.listenPort == r.listenPort {
          return false;
        }
      }
      return true;
    }

    method StoreProvisioned(r: TunnelResource) returns (p: Persist)
      requires Valid() && holder.Some? && Fresh(r, holder.value) && PortFree(Mem(), r)
      requires r.id in tunnels ==> MayReplace(tunnels[r.id], r)
      requires progress == Started
      modifies this
      ensures progress == if p.Committed? then Granting(r.id) else Over(r.id, true)
      ensures Within(old(worlds), old(steps)) && Present() == GuardMachine.StoreTunnel(old(Present()), r, p)
    {
      p := StoreTunnel(r, Provision(r, Committed));
    }

    method StoreAnnotated(b: TunnelResource, message: string) returns (p: Persist)
      requires Valid() && holder.Some? && Holds(Mem(), b) && b.state.Provisioning?
      requires progress == Granting(b.id)
      modifies this
      ensures progress == Over(b.id, true)
      ensures Within(old(worlds), old(steps))
      ensures Present() == GuardMachine.StoreTunnel(old(Present()), b.(lastError := message), p)
    {
      p := StoreTunnel(b.(lastError := message), Annotate(b, message, Committed));
    }

    method StoreActivated(b: TunnelResource) returns (p: Persist)
      requires Valid() && holder.Some? && Holds(Mem(), b) && b.state.Provisioning? && b.id in live
      requires progress == Granting(b.id)
      modifies this
      ensures progress == if p.Committed? then Over(b.id, false) else Unrecorded(b.id)
      ensures Within(old(worlds), old(steps))
      ensures Present() == GuardMachine.StoreTunnel(old(Present()), Activated(b, old(clock)), p)
    {
      p := StoreTunnel(Activated(b, clock), Activate(b, Committed));
    }

    method StoreWithdrawn(ghost b: TunnelResource, r: TunnelResource, ghost next: Time, ghost message: string)
      returns (p: Persist)
      requires Valid() && holder.Some? && Holds(Mem(), b) && b.state in {Active, Provisioning}
      requires b.updatedAt <= r.updatedAt <= clock && r == Withdrawn(b, next, message, r.updatedAt)
      requires progress == Granting(b.id) || progress == Unrecorded(b.id)
      modifies this
      ensures progress == Over(r.id, true)
      ensures Within(old(worlds), old(steps)) && Present() == GuardMachine.StoreTunnel(old(Present()), r, p)
    {
      p := StoreTunnel(r, Withdraw(b, next, message, r.updatedAt, Committed));
    }

    /** The part of ApplyTunnel that provisions a new generation: record, restrict, expose,
        record. Success means both copies say active, the Agent exposes the inbound and the table
        names its sources; if the table fails, the Agent was never asked; and whatever a failure
        leaves exposed is due for cleanup at once, or active with its deadline. */
    method Grant(r: TunnelResource, now: Time) returns (resource: TunnelResource, err: Option<ApiError>)
      requires Valid() && holder == Some(now) && Fresh(r, now) && PortFree(Mem(), r)
      requires r.id in tunnels ==> MayReplace(tunnels[r.id], r)
      requires progress == Started
      modifies this
      ensures progress == Over(r.id, err.Some?)
      ensures Within(old(worlds), old(steps)) && holder == Some(now)
      ensures err == None ==> RunningIn(Present(), r, resource)
      ensures err.Some? ==> err.value in {StatePersistFailed, AclApplyFailed, AgentApplyFailed}
      ensures err == Some(AclApplyFailed) ==> live == old(live)
      ensures err in {Some(AclApplyFailed), Some(AgentApplyFailed)} ==> DueNow(Present(), r)
      ensures err == Some(StatePersistFailed) ==>
                Interfered(old(Present()), Present().(read := old(read))) || DueNow(Present(), r) || StillActive(Present(), r)
    {
      resource := r;
      var p := StoreProvisioned(r);
      if !p.Committed? {
        if p.CommittedWithError? {
          ProvisionedIsDue(worlds, steps, Present(), r);
        }
        return resource, Some(StatePersistFailed);
      }
      ghost var ws, ss := worlds, steps;
      HeldIsOnDisk(worlds, steps, Present(), r);
      err := Restrict(r);
      GoesTransitive(old(worlds), old(steps), ws, ss, worlds, steps);
      if err.Some? {
        return resource, err;
      }
      ws, ss := worlds, steps;
      resource, err := Expose(r, now);
      GoesTransitive(old(worlds), old(steps), ws, ss, worlds, steps);
    }

    /** The middle of ApplyTunnel: a complete rebuild of the table that names `r`. */
    method Restrict(r: TunnelResource) returns (err: Option<ApiError>)
      requires Valid() && holder.Some? && Holds(Mem(), r) && r.state.Provisioning?
      requires r.updatedAt <= clock && r.nextAttemptAt == None
      requires progress == Granting(r.id)
      modifies this
      ensures progress == if err.Some? then Over(r.id, true) else Granting(r.id)
      ensures Within(old(worlds), old(steps)) && holder == old(holder) && live == old(live)
      ensures clock >= old(clock) && err in {None, Some(AclApplyFailed)} && (err.Some? ==> DueNow(Present(), r))
      ensures err == None ==> Holds(Mem(), r) && Covers(acl, r)
    {
      if |r.sources| == 0 {
        return None;
      }
      NoBlankLiveId(worlds, steps, Present());
      HeldIsOnDisk(worlds, steps, Present(), r);
      ghost var w := Present();
      var ok := RebuildTunnelAcl("");
      HoldsSurvives(w, Present().(acl := w.acl), r);
      if !ok {
        ghost var ws, ss := worlds, steps;
        AnnotateFailure(r);
        GoesTransitive(old(worlds), old(steps), ws, ss, worlds, steps);
        return Some(AclApplyFailed);
      }
      CompleteListCovers(acl, Mem(), r);
      return None;
    }

    /** Keeps the record of a failed rebuild as it is, due at once, with the reason. */
    method AnnotateFailure(r: TunnelResource)
      requires Valid() && Holds(Mem(), r) && r.state.Provisioning? && progress == Granting(r.id)
      requires r.updatedAt <= clock && r.nextAttemptAt == None
      modifies this
      ensures Within(old(worlds), old(steps)) && holder == old(holder) && live == old(live) && clock == old(clock)
      ensures progress == Over(r.id, true) && DueNow(Present(), r)
    {
      var message := AnyMessage();
      HeldIsDue(worlds, steps, Present(), r);
      var _ := StoreAnnotated(r, message);
    }

    /** The end of ApplyTunnel: from the Agent call on. */
    method Expose(r: TunnelResource, now: Time) returns (resource: TunnelResource, err: Option<ApiError>)
      requires Valid() && holder == Some(now) && Holds(Mem(), r) && Covers(acl, r)
      requires r.state.Provisioning? && r.attempts == 0 && r.updatedAt == now <= clock
      requires r.cleanupTerminal == Some(Suspended) && r.nextAttemptAt == None
      requires progress == Granting(r.id)
      modifies this
      ensures progress == Over(r.id, err.Some?)
      ensures Within(old(worlds), old(steps)) && holder == Some(now)
      ensures err == None ==> RunningIn(Present(), r, resource)
      ensures err.Some? ==> err.value in {StatePersistFailed, AgentApplyFailed} && resource.nextAttemptAt.Some?
      ensures err == Some(AgentApplyFailed) ==> DueNow(Present(), r)
      ensures err == Some(StatePersistFailed) ==> DueNow(Present(), r) || StillActive(Present(), r)
    {
      var ok := AskAgent(r);
      ghost var ws, ss := worlds, steps;
      if !ok {
        resource := WithdrawRefused(r, now);
        GoesTransitive(old(worlds), old(steps), ws, ss, worlds, steps);
        return resource, Some(AgentApplyFailed);
      }
      resource, err := RecordRunning(r);
      GoesTransitive(old(worlds), old(steps), ws, ss, worlds, steps);
    }

    /** The call that exposes the inbound, and what others do before and after it. */
    method AskAgent(r: TunnelResource) returns (ok: bool)
      requires Valid() && Holds(Mem(), r) && Covers(acl, r) && r.state.Provisioning? && progress == Granting(r.id)
      modifies this
      ensures Within(old(worlds), old(steps)) && progress == old(progress) && holder == old(holder)
      ensures Holds(Mem(), r) && acl == old(acl) && clock >= old(clock) && (ok ==> r.id in live)
    {
      ghost var w := Present();
      OthersRun();
      HoldsSurvives(w, Present(), r);
      HeldIsOnDisk(worlds, steps, Present(), r);
      ghost var ws, ss := worlds, steps;
      ok := ApplyTunnelInbound(r);
      GoesTransitive(old(worlds), old(steps), ws, ss, worlds, steps);
      w, ws, ss := Present(), worlds, steps;
      OthersRun();
      GoesTransitive(old(worlds), old(steps), ws, ss, worlds, steps);
      HoldsSurvives(w, Present(), r);
    }

    /** Keeps the record of a failed Agent call in provisioning, due for cleanup at once. */
    method WithdrawRefused(r: TunnelResource, now: Time) returns (resource: TunnelResource)
      requires Valid() && holder == Some(now) && Holds(Mem(), r) && r.state.Provisioning? && r.updatedAt == now <= clock
      requires r.nextAttemptAt == None
      requires progress == Granting(r.id)
      modifies this
      ensures progress == Over(r.id, true)
      ensures Within(old(worlds), old(steps)) && holder == old(holder)
      ensures resource == Withdrawn(r, now, resource.lastError, now) && DueNow(Present(), r)
    {
      HeldIsDue(worlds, steps, Present(), r);
      var message := AnyMessage();
      resource := Withdrawn(r, now, message, now);
      var _ := StoreWithdrawn(r, resource, now, message);
    }

    /** Records a running inbound as active, or, when that record is not durable, as provisioning
        again, and withdraws it. */
    method RecordRunning(r: TunnelResource) returns (resource: TunnelResource, err: Option<ApiError>)
      requires Valid() && holder.Some? && Holds(Mem(), r) && r.id in live && Covers(acl, r)
      requires r.state.Provisioning? && r.attempts == 0 && r.updatedAt <= clock && r.nextAttemptAt == None
      requires progress == Granting(r.id)
      modifies this
      ensures progress == Over(r.id, err.Some?)
      ensures Within(old(worlds), old(steps)) && holder == old(holder)
      ensures err == None ==> RunningIn(Present(), r, resource)
      ensures err.Some? ==> err.value == StatePersistFailed && resource.nextAttemptAt.Some?
                            && (DueNow(Present(), r) || StillActive(Present(), r))
    {
      var t := Now();
      ghost var ws, ss := worlds, steps;
      resource := Activated(r, t);
      var p := StoreActivated(r);
      GoesTransitive(old(worlds), old(steps), ws, ss, worlds, steps);
      if p.Committed? {
        return resource, None;
      }
      ghost var base := if p.NotCommitted? then r else resource;
      ws, ss := worlds, steps;
      resource := WithdrawUnrecorded(base, resource);
      SameRecordEnds(Present(), base, r);
      GoesTransitive(old(worlds), old(steps), ws, ss, worlds, steps);
      return resource, Some(StatePersistFailed);
    }

    method WithdrawUnrecorded(ghost base: TunnelResource, active: TunnelResource) returns (resource: TunnelResource)
      requires Valid() && holder.Some? && Holds(Mem(), base) && base.state in {Active, Provisioning}
      requires base.updatedAt <= active.updatedAt <= clock && active == Activated(base, active.updatedAt)
      requires base.nextAttemptAt == None
      requires progress == Unrecorded(base.id)
      modifies this
      ensures progress == Over(base.id, true)
      ensures Within(old(worlds), old(steps)) && holder == old(holder) && resource.nextAttemptAt.Some?
      ensures DueNow(Present(), base) || StillActive(Present(), base)
    {
      ghost var w := Present();
      OthersRun();
      HoldsSurvives(w, Present(), base);
      ghost var ws, ss := worlds, steps;
      resource := RecordUnrecorded(base, active);
      GoesTransitive(old(worlds), old(steps), ws, ss, worlds, steps);
      ws, ss := worlds, steps;
      var _ := RemoveTunnelInbound(resource);
      GoesTransitive(old(worlds), old(steps), ws, ss, worlds, steps);
    }

    /** The record that is left for the scheduler when "active" could not be recorded. */
    method RecordUnrecorded(ghost base: TunnelResource, active: TunnelResource) returns (resource: TunnelResource)
      requires Valid() && holder.Some? && Holds(Mem(), base) && base.state in {Active, Provisioning}
      requires base.updatedAt <= active.updatedAt <= clock && active == Activated(base, active.updatedAt)
      requires base.nextAttemptAt == None
      requires progress == Unrecorded(base.id)
      modifies this
      ensures progress == Over(base.id, true)
      ensures Within(old(worlds), old(steps)) && holder == old(holder) && resource.nextAttemptAt.Some? && resource.id == base.id
      ensures DueNow(Present(), base) || StillActive(Present(), base)
    {
      var t := Now();
      ghost var ws, ss := worlds, steps;
      resource := Withdrawn(active, t, FINAL_STATE_LOST, active.updatedAt);
      HeldEnds(worlds, steps, Present(), base);
      ghost var w := Present();
      ghost var p := StoreWithdrawn(base, resource, t, FINAL_STATE_LOST);
      UnrecordedStays(w, base, active, t, p);
      GoesTransitive(old(worlds), old(steps), ws, ss, worlds, steps);
    }

    method StoreRenewed(b: TunnelResource, leaseUntil: Time, now: Time) returns (p: Persist)
      requires Valid() && holder == Some(now) && Holds(Mem(), b) && b.state.Active? && b.id in read && read[b.id] == b
      requires b.EffectiveNotAfter() > now && b.leaseUntil < leaseUntil <= now + MAX_LEASE
      requires progress == Started
      modifies this
      ensures progress == Over(b.id, p.Committed?)
      ensures Within(old(worlds), old(steps))
      ensures Present() == GuardMachine.StoreTunnel(old(Present()), Renewed(b, leaseUntil, now), p)
    {
      p := StoreTunnel(Renewed(b, leaseUntil, now), Renew(b, leaseUntil, Committed));
    }

    /** What the Agent already listens on, as far as the request is concerned. */
    method PreflightPort() returns (err: Option<ApiError>)
      ensures err in {None, Some(AgentPreflightFailed), Some(PortInUse)}
    {
      var listed: bool := *;
      var inUse: bool := *;
      err := if !listed then Some(AgentPreflightFailed) else if inUse then Some(PortInUse) else None;
    }

    /** The body of ApplyTunnel once the request is admitted. */
    method Decide(r: TunnelResource, now: Time)
      returns (resource: Option<TunnelResource>, changed: bool, err: Option<ApiError>)
      requires Valid() && holder == Some(now) && Fresh(r, now) && ReadsActive(Present())
      requires progress == Started
      modifies this, bell
      ensures progress == Started || (progress.Over? && progress.id == r.id)
      ensures bell.rung == old(bell.rung) + if Owing(progress) then 1 else 0
      ensures Within(old(worlds), old(steps)) && holder == Some(now)
      ensures bell.rung == old(bell.rung) + ApplyRings(Decision(old(Mem()), r, now), err)
      ensures ApplyEnds(old(Present()), r, now, Present(), resource, changed, err)
    {
      changed := false;
      if r.id in tunnels {
        var current := tunnels[r.id];
        resource := Some(current);
        if current.state == Deleted || current.state == DeletePending {
          return resource, false, Some(ResourceDeleted);
        }
        if r.generation < current.generation {
          return resource, false, Some(StaleGeneration);
        }
        if r.generation == current.generation {
          if current.state != Active {
            return resource, false, Some(GenerationConflict);
          }
          if !SameSpec(current, r) {
            return resource, false, Some(GenerationConflict);
          }
          if current.EffectiveNotAfter() <= now {
            return resource, false, Some(LeaseExpired);
          }
          if r.leaseUntil <= current.leaseUntil {
            return resource, false, None;
          }
          changed := Extend(current, r.leaseUntil, now);
          return Some(Renewed(current, r.leaseUntil, now)), changed, if changed then None else Some(StatePersistFailed);
        }
        if !SameDefinition(current, r) {
          return resource, false, Some(DefinitionConflict);
        }
      }
      var free := CheckDurablePort(r);
      if !free {
        return None, false, Some(PortReserved);
      }
      resource, err := GrantAfterPreflight(r, now);
      changed := err.None?;
    }

    /** A renewal, and its message. */
    method Extend(current: TunnelResource, leaseUntil: Time, now: Time) returns (changed: bool)
      requires Valid() && holder == Some(now) && Holds(Mem(), current) && current.state.Active?
      requires current.id in read && read[current.id] == current && progress == Started
      requires current.EffectiveNotAfter() > now && current.leaseUntil < leaseUntil <= now + MAX_LEASE
      modifies this, bell
      ensures Within(old(worlds), old(steps)) && holder == Some(now) && progress == Over(current.id, changed)
      ensures bell.rung == old(bell.rung) + if changed then 1 else 0
      ensures exists p: Persist ::
                && Present() == GuardMachine.StoreTunnel(old(Present()), Renewed(current, leaseUntil, now), p)
                && (changed <==> p == Committed)
    {
      var p := StoreRenewed(current, leaseUntil, now);
      changed := p.Committed?;
      if changed {
        bell.Ring();
      }
    }

    method GrantAfterPreflight(r: TunnelResource, now: Time)
      returns (resource: Option<TunnelResource>, err: Option<ApiError>)
      requires Valid() && holder == Some(now) && Fresh(r, now) && PortFree(Mem(), r)
      requires r.id in tunnels ==> MayReplace(tunnels[r.id], r)
      requires progress == Started
      modifies this, bell
      ensures progress == if err in {Some(AgentPreflightFailed), Some(PortInUse)} then Started else Over(r.id, err.Some?)
      ensures Within(old(worlds), old(steps)) && holder == Some(now)
      ensures bell.rung == old(bell.rung) + ApplyRings(GrantNew, err)
      ensures err == None ==> resource.Some? && RunningIn(Present(), r, resource.value)
      ensures err.Some? ==> err.value in {AgentPreflightFailed, PortInUse, StatePersistFailed, AclApplyFailed, AgentApplyFailed}
      ensures err in {Some(AgentPreflightFailed), Some(PortInUse)} ==> Interfered(old(Present()), Present())
      ensures err == Some(AclApplyFailed) ==> live == old(live)
      ensures err in {Some(AclApplyFailed), Some(AgentApplyFailed)} ==> DueNow(Present(), r)
      ensures err == Some(StatePersistFailed) ==>
                Interfered(old(Present()), Present().(read := old(read))) || DueNow(Present(), r) || StillActive(Present(), r)
    {
      err := PreflightPort();
      ghost var w := Present();
      OthersRun();
      PortStaysFree(w, Present(), r);
      if err.Some? {
        return None, err;
      }
      ghost var ws, ss, mid := worlds, steps, Present();
      var granted;
      granted, err := Grant(r, now);
      resource := Some(granted);
      GoesTransitive(old(worlds), old(steps), ws, ss, worlds, steps);
      if Interfered(mid, Present().(read := mid.read)) {
        InterferedTransitive(w, mid, Present().(read := mid.read));
      }
      if err.Some? {
        bell.Ring();
      }
    }

    /** ApplyTunnel. `now` is its clock reading and `seen` the world in which it read the record
        of the resource; a request that is refused changes nothing. */
    method ApplyTunnel(q: ApplyRequest)
      returns (resource: Option<TunnelResource>, changed: bool, err: Option<ApiError>, ghost now: Time, ghost seen: World)
      requires Valid() && holder.None?
      modifies this, bell
      ensures bell.rung == old(bell.rung) + if SentAtTheEnd(steps) then 1 else 0
      ensures Extends(old(worlds), old(steps)) && now >= old(clock) && holder.None?
      ensures Interfered(old(Present()).(clock := now, read := old(tunnels)), seen)
      ensures OthersKept(old(Present()), Present(), Trim(q.id))
      ensures ApplyAnswers(seen, q, now, Present(), resource, changed, err)
      ensures bell.rung == old(bell.rung) + ApplyRequestRings(seen.mem, q, now, err)
    {
      var started := LockOperations();
      now := started;
      ghost var ws, ss, w := worlds, steps, Present();
      resource, changed, err, seen := Answer(q, started);
      OperationKeepsOthers(ws, ss, w, worlds, steps, Present(), progress, Trim(q.id));
      ContinuesTransitive(old(worlds), old(steps), ws, ss, worlds, steps);
      ApplyAnswersUnlocked(seen, q, now, Present(), resource, changed, err);
      ws, ss := worlds, steps;
      UnlockOperations();
      ContinuesTransitive(old(worlds), old(steps), ws, ss, worlds, steps);
      seen := seen.(holder := None);
    }

    /** A restricted tunnel needs nftables. */
    method CanRestrict(r: TunnelResource) returns (available: bool)
      requires Valid()
      modifies this
      ensures Within(old(worlds), old(steps)) && Interfered(old(Present()), Present()) && progress == old(progress)
      ensures !available ==> |r.sources| > 0
    {
      available := true;
      if |r.sources| > 0 {
        available := NftAvailable();
        OthersRun();
      }
    }

    /** The request itself, under the lock taken at `started`. */
    method Answer(q: ApplyRequest, started: Time)
      returns (resource: Option<TunnelResource>, changed: bool, err: Option<ApiError>, ghost seen: World)
      requires Valid() && holder == Some(started) && progress == Started && read == tunnels
      modifies this, bell
      ensures Within(old(worlds), old(steps)) && holder == Some(started) && (progress == Started || (progress.Over? && progress.id == Trim(q.id)))
      ensures bell.rung == old(bell.rung) + if Owing(progress) then 1 else 0
      ensures Interfered(old(Present()), seen)
      ensures ApplyAnswers(seen, q, started, Present(), resource, changed, err)
      ensures bell.rung == old(bell.rung) + ApplyRequestRings(seen.mem, q, started, err)
    {
      seen := Present();
      resource, changed, err := None, false, None;
      var normalized := Normalize(q, started);
      if normalized.Err? {
        return None, false, Some(normalized.error), seen;
      }
      var r := Provisioned(normalized.value);
      RequestIsFresh(worlds, steps, Present(), q, started);
      ghost var first, firstSteps, locked := worlds, steps, Present();
      var available := CanRestrict(r);
      seen := Present();
      if !available {
        return None, false, Some(CapabilityUnavailable), seen;
      }
      ReadAtTheStart(first, firstSteps, locked, Present());
      ghost var ws, ss := worlds, steps;
      resource, changed, err := Decide(r, started);
      GoesTransitive(old(worlds), old(steps), ws, ss, worlds, steps);
    }

    // -------------------------------------------------------------------------------------
    // Taking a tunnel down
    // -------------------------------------------------------------------------------------

    method StoreCleaningUp(b: TunnelResource, generation: nat, terminal: State) returns (p: Persist)
      requires Valid() && holder.Some? && Holds(Mem(), b) && terminal in {Suspended, Deleted}
      requires generation >= b.generation && (terminal.Suspended? ==> b.state !in {Deleted, DeletePending})
      requires !(generation == b.generation && AlreadyHeading(b, terminal))
      requires progress == Started
      modifies this
      ensures progress == if p.Committed? then Removing(b.id) else Over(b.id, false)
      ensures Within(old(worlds), old(steps))
      ensures Present() == GuardMachine.StoreTunnel(old(Present()), CleaningUp(b, generation, terminal, old(clock)), p)
    {
      p := StoreTunnel(CleaningUp(b, generation, terminal, clock), BeginCleanup(b, generation, terminal, Committed));
    }

    method StoreExpiring(b: TunnelResource) returns (p: Persist)
      requires Valid() && holder.Some? && Holds(Mem(), b) && b.state.Active? && clock >= b.EffectiveNotAfter()
      requires progress == Started
      modifies this
      ensures progress == if p.Committed? then Lapsing(b.id) else Over(b.id, false)
      ensures Within(old(worlds), old(steps))
      ensures steps == old(steps) + [BeginExpiry(b, p)]
      ensures Present() == GuardMachine.StoreTunnel(old(Present()), Expiring(b, old(clock)), p)
    {
      p := StoreTunnel(Expiring(b, clock), BeginExpiry(b, Committed));
    }

    method StorePostponed(b: TunnelResource, attempts: nat, next: Time, message: string, updatedAt: Time)
      returns (p: Persist)
      requires Valid() && holder.Some? && Holds(Mem(), b) && b.Revisited() && !b.state.Active?
      requires b.updatedAt <= updatedAt <= clock
      requires progress in {Lapsing(b.id), Removing(b.id)}
      modifies this
      ensures progress == Over(b.id, old(progress).Removing?)
      ensures Within(old(worlds), old(steps))
      ensures steps == old(steps) + [Postpone(b, attempts, next, message, updatedAt, p)]
      ensures Present() == GuardMachine.StoreTunnel(old(Present()), Postponed(b, attempts, next, message, updatedAt), p)
    {
      p := StoreTunnel(Postponed(b, attempts, next, message, updatedAt),
                       Postpone(b, attempts, next, message, updatedAt, Committed));
    }

    method StoreFinished(b: TunnelResource) returns (p: Persist)
      requires Valid() && holder.Some? && Holds(Mem(), b) && b.Revisited() && !b.state.Active?
      requires b.id !in live && (|b.sources| > 0 ==> !Lists(acl, b.id))
      requires progress in {Lapsing(b.id), Removing(b.id)}
      modifies this
      ensures progress == Over(b.id, old(progress).Removing? && !p.Committed?)
      ensures Within(old(worlds), old(steps))
      ensures steps == old(steps) + [Finish(b, p)]
      ensures Present() == GuardMachine.StoreTunnel(old(Present()), Finished(b, old(clock)), p)
    {
      p := StoreTunnel(Finished(b, clock), Finish(b, Committed));
    }

    /** The two outside effects of a cleanup, in order: the inbound first, verified gone, and only
        then its table entry. */
    method Dismantle(b: TunnelResource) returns (err: Option<ApiError>)
      requires Valid() && holder.Some? && Holds(Mem(), b)
      requires progress in {Started, Lapsing(b.id), Removing(b.id)}
      modifies this
      ensures progress == if old(progress).Started? then Lapsing(b.id) else old(progress)
      ensures Within(old(worlds), old(steps)) && holder == old(holder) && Holds(Mem(), b) && clock >= old(clock)
      ensures Works(old(steps), steps, b.id) && (NoneToClose(old(Mem())) ==> NoneToClose(Mem()))
      ensures err in {None, Some(AgentRemoveFailed), Some(AclCleanupFailed)}
      ensures err == Some(AgentRemoveFailed) ==> acl == old(acl)
      ensures err == None ==> b.id !in live && (|b.sources| > 0 ==> !Lists(acl, b.id))
    {
      ghost var w := Present();
      var removed := RemoveTunnelInbound(b);
      assert Holds(Mem(), b);
      ghost var ws, ss := worlds, steps;
      w := Present();
      OthersRun();
      GoesTransitive(old(worlds), old(steps), ws, ss, worlds, steps);
      WorksTransitive(old(steps), ss, steps, b.id);
      HoldsSurvives(w, Present(), b);
      if NoneToClose(w.mem) {
        InterferenceClosesOnly(w, Present());
      }
      if !removed {
        return Some(AgentRemoveFailed);
      }
      if |b.sources| > 0 {
        ws, ss, w := worlds, steps, Present();
        var ok := RebuildTunnelAcl(b.id);
        GoesTransitive(old(worlds), old(steps), ws, ss, worlds, steps);
        WorksTransitive(old(steps), ss, steps, b.id);
        HoldsSurvives(w, Present().(acl := w.acl), b);
        if NoneToClose(w.mem) {
          InterferenceClosesOnly(w, Present().(acl := w.acl));
        }
        if !ok {
          return Some(AclCleanupFailed);
        }
        ListWithoutId(acl, tunnels, b.id);
      }
      return None;
    }

    /** transitionTunnelForCleanup. `seen` is the world in which the record was read. A refusal
        changes nothing; success means the record is terminal in both copies with nothing left
        outside; when the Agent or the table fails, the record stays pending towards the requested
        state and is attempted again within five seconds. */
    method TransitionForCleanup(rawId: string, generation: nat, terminal: State)
      returns (resource: Option<TunnelResource>, changed: bool, err: Option<ApiError>, ghost seen: World)
      requires Valid() && holder.None? && terminal in {Suspended, Deleted}
      modifies this, bell
      ensures bell.rung == old(bell.rung) + if SentAtTheEnd(steps) then 1 else 0
      ensures Extends(old(worlds), old(steps)) && holder.None?
      ensures seen == old(Present()).(clock := seen.clock, read := seen.read) && seen.clock >= old(clock)
      ensures OthersKept(old(Present()), Present(), Trim(rawId))
      ensures CleanupEnds(seen, Present(), Trim(rawId), generation, terminal, resource, changed, err)
      ensures bell.rung == old(bell.rung) + CleanupRequestRings(seen.mem, Trim(rawId), generation, terminal, err, resource)
    {
      var _ := LockOperations();
      ghost var ws, ss := worlds, steps;
      seen := Present();
      resource, changed, err := DecideCleanup(Trim(rawId), generation, terminal);
      OperationKeepsOthers(ws, ss, seen, worlds, steps, Present(), progress, Trim(rawId));
      ContinuesTransitive(old(worlds), old(steps), ws, ss, worlds, steps);
      CleanupEndsUnlocked(seen, Present(), Trim(rawId), generation, terminal, resource, changed, err);
      seen := seen.(holder := None);
      ws, ss := worlds, steps;
      UnlockOperations();
      ContinuesTransitive(old(worlds), old(steps), ws, ss, worlds, steps);
    }

    /** The body of transitionTunnelForCleanup, under the lock. */
    method DecideCleanup(id: string, generation: nat, terminal: State)
      returns (resource: Option<TunnelResource>, changed: bool, err: Option<ApiError>)
      requires Valid() && progress == Started && terminal in {Suspended, Deleted}
      modifies this, bell
      ensures Within(old(worlds), old(steps)) && holder == old(holder) && (progress == Started || (progress.Over? && progress.id == id))
      ensures bell.rung == old(bell.rung) + if Owing(progress) then 1 else 0
      ensures CleanupEnds(old(Present()), Present(), id, generation, terminal, resource, changed, err)
      ensures bell.rung == old(bell.rung) + CleanupRequestRings(old(Mem()), id, generation, terminal, err, resource)
    {
      if !ValidId(id) || generation == 0 {
        return None, false, Some(InvalidIdentity);
      }
      if id !in tunnels {
        return None, false, Some(NotFound);
      }
      var current := tunnels[id];
      resource := Some(current);
      StoredUnderItsId(worlds, steps, Present(), id);
      if generation < current.generation {
        return resource, false, Some(StaleGeneration);
      }
      if terminal == Suspended && (current.state == Deleted || current.state == DeletePending) {
        return resource, false, Some(ResourceDeleted);
      }
      if generation == current.generation && AlreadyHeading(current, terminal) {
        return resource, false, None;
      }
      resource, changed, err := TakeDown(current, generation, terminal);
    }

    /** A requested cleanup: durable intent, then dismantling, then the terminal record. */
    method TakeDown(current: TunnelResource, generation: nat, terminal: State)
      returns (resource: Option<TunnelResource>, changed: bool, err: Option<ApiError>)
      requires Valid() && progress == Started && terminal in {Suspended, Deleted}
      requires current.id in tunnels && tunnels[current.id] == current
      requires generation >= current.generation && (terminal.Suspended? ==> current.state !in {Deleted, DeletePending})
      requires !(generation == current.generation && AlreadyHeading(current, terminal))
      modifies this, bell
      ensures Within(old(worlds), old(steps)) && holder == old(holder) && progress.Over? && progress.id == current.id
      ensures bell.rung == old(bell.rung) + CleanupRings(err, resource, terminal)
      ensures progress.owes <==> CleanupRings(err, resource, terminal) == 1
      ensures TakenDown(old(Present()), Present(), current.id, generation, terminal, resource, changed, err)
    {
      var t := Now();
      var pending := CleaningUp(current, generation, terminal, t);
      ghost var ws, ss := worlds, steps;
      ghost var w := Present();
      var p := StoreCleaningUp(current, generation, terminal);
      GoesTransitive(old(worlds), old(steps), ws, ss, worlds, steps);
      if !p.Committed? {
        IntentFails(old(Present()), w, current, generation, terminal, p);
        return Some(pending), false, Some(StatePersistFailed);
      }
      ws, ss := worlds, steps;
      resource, err := CompleteCleanup(pending);
      GoesTransitive(old(worlds), old(steps), ws, ss, worlds, steps);
      if err == Some(StatePersistFailed) {
        EndFails(old(Present()), Present(), current, generation, terminal, t, resource.value);
      }
      changed := err.None?;
      if err.Some? {
        bell.Ring();
      }
    }

    /** A requested cleanup from its durable intent on. */
    method CompleteCleanup(pending: TunnelResource) returns (resource: Option<TunnelResource>, err: Option<ApiError>)
      requires Valid() && holder.Some? && Holds(Mem(), pending) && pending.Pending()
      requires pending.updatedAt <= clock && pending.nextAttemptAt == None
      requires progress == Removing(pending.id)
      modifies this
      ensures progress == Over(pending.id, err.Some?)
      ensures Within(old(worlds), old(steps)) && holder == old(holder)
      ensures err == None ==> resource.Some? && CleanedUp(Present(), resource.value)
                              && resource.value == Finished(pending, resource.value.updatedAt)
      ensures err.Some? ==> err.value in {StatePersistFailed, AgentRemoveFailed, AclCleanupFailed}
      ensures err == Some(StatePersistFailed) ==>
                resource.Some? && resource.value == Finished(pending, resource.value.updatedAt)
                && LastRecordLost(Present(), pending, resource.value)
      ensures err in {Some(AgentRemoveFailed), Some(AclCleanupFailed)} ==> StillPending(Present(), pending)
    {
      err := Dismantle(pending);
      ghost var ws, ss := worlds, steps;
      if err.Some? {
        var postponed := PostponeOnce(pending);
        GoesTransitive(old(worlds), old(steps), ws, ss, worlds, steps);
        return Some(postponed), err;
      }
      resource, err := FinishRequested(pending);
      GoesTransitive(old(worlds), old(steps), ws, ss, worlds, steps);
    }

    method PostponeOnce(pending: TunnelResource) returns (postponed: TunnelResource)
      requires Valid() && holder.Some? && Holds(Mem(), pending) && pending.Pending()
      requires pending.updatedAt <= clock && pending.nextAttemptAt == None
      requires progress == Removing(pending.id)
      modifies this
      ensures progress == Over(pending.id, true)
      ensures Within(old(worlds), old(steps)) && holder == old(holder) && StillPending(Present(), pending)
    {
      var t := Now();
      ghost var ws, ss := worlds, steps;
      var message := AnyMessage();
      postponed := Postponed(pending, 1, t + RetryDelay(1), message, pending.updatedAt);
      var _ := StorePostponed(pending, 1, t + RetryDelay(1), message, pending.updatedAt);
      GoesTransitive(old(worlds), old(steps), ws, ss, worlds, steps);
    }

    method FinishRequested(pending: TunnelResource) returns (resource: Option<TunnelResource>, err: Option<ApiError>)
      requires Valid() && holder.Some? && Holds(Mem(), pending) && pending.Pending()
      requires pending.updatedAt <= clock && pending.nextAttemptAt == None
      requires pending.id !in live && (|pending.sources| > 0 ==> !Lists(acl, pending.id))
      requires progress == Removing(pending.id)
      modifies this
      ensures progress == Over(pending.id, err.Some?)
      ensures Within(old(worlds), old(steps)) && holder == old(holder) && err in {None, Some(StatePersistFailed)}
      ensures resource.Some? && resource.value == Finished(pending, resource.value.updatedAt)
      ensures err == None ==> CleanedUp(Present(), resource.value)
      ensures err.Some? ==> LastRecordLost(Present(), pending, resource.value)
    {
      var t := Now();
      ghost var ws, ss := worlds, steps;
      ghost var w := Present();
      var p := StoreFinished(pending);
      FinishFails(w, pending, p);
      GoesTransitive(old(worlds), old(steps), ws, ss, worlds, steps);
      resource := Some(Finished(pending, t));
      err := if p.Committed? then None else Some(StatePersistFailed);
    }

    /** expireOrCleanupTunnel: one attempt on a record the scheduler found due. */
    method ExpireOrCleanup(expected: TunnelResource) returns (ghost attempt: Attempt, ghost seen: World)
      requires Valid() && holder.None? && expected.Revisited()
      modifies this
      ensures Extends(old(worlds), old(steps)) && holder.None?
      ensures Works(old(steps), steps, expected.id) && (attempt.Writes() ==> Wrote(old(steps), steps, attempt.p))
      ensures NoneToClose(old(Mem())) ==> NoneToClose(Mem())
      ensures seen == old(Present()).(clock := seen.clock, read := seen.read) && seen.clock >= old(clock)
      ensures OthersKept(old(Present()), Present(), expected.id)
      ensures AttemptEnds(attempt, expected, seen, Present())
    {
      var started := LockOperations();
      seen := Present().(holder := None);
      ghost var ws, ss := worlds, steps;
      ghost var w := Present();
      attempt := AttemptLocked(expected, started);
      OperationKeepsOthers(ws, ss, w, worlds, steps, Present(), progress, expected.id);
      ContinuesTransitive(old(worlds), old(steps), ws, ss, worlds, steps);
      WorksTransitive(old(steps), ss, steps, expected.id);
      ghost var mid := steps;
      ws := worlds;
      UnlockOperations();
      ContinuesTransitive(old(worlds), old(steps), ws, mid, worlds, steps);
      WorksTransitive(old(steps), mid, steps, expected.id);
      if attempt.Writes() {
        WroteAfter(old(steps), ss, mid, attempt.p);
        WroteBefore(old(steps), mid, steps, attempt.p);
      }
    }

    /** The attempt itself, under the lock taken at `started`. */
    method AttemptLocked(expected: TunnelResource, started: Time) returns (ghost attempt: Attempt)
      requires Valid() && holder == Some(started) && started == clock && expected.Revisited()
      requires progress == Started
      modifies this
      ensures progress in {Started, Over(expected.id, false)}
      ensures Within(old(worlds), old(steps)) && holder == old(holder)
      ensures Works(old(steps), steps, expected.id) && (attempt.Writes() ==> Wrote(old(steps), steps, attempt.p))
      ensures NoneToClose(old(Mem())) ==> NoneToClose(Mem())
      ensures AttemptEnds(attempt, expected, old(Present()).(holder := None), Present().(holder := None))
    {
      if expected.id !in tunnels || tunnels[expected.id].generation != expected.generation
         || tunnels[expected.id].state != expected.state {
        return Outdated;
      }
      var b := tunnels[expected.id];
      StoredUnderItsId(worlds, steps, Present(), expected.id);
      if b.state != Active {
        attempt := Cleanup(b);
      } else if started < b.EffectiveNotAfter() {
        attempt := TooEarly;
      } else {
        attempt := Expire(b);
      }
    }

    method Expire(b: TunnelResource) returns (ghost attempt: Attempt)
      requires Valid() && holder.Some? && Holds(Mem(), b) && b.state.Active? && clock >= b.EffectiveNotAfter()
      requires progress == Started
      modifies this
      ensures progress == Over(b.id, false)
      ensures Within(old(worlds), old(steps)) && holder == old(holder)
      ensures attempt.IntentLost? || attempt.RetryAt? || attempt.Closed?
      ensures AttemptRan(attempt, b, old(Present()), Present())
      ensures Works(old(steps), steps, b.id) && Wrote(old(steps), steps, attempt.p)
      ensures NoneToClose(old(Mem())) && !MustClose(b) ==> NoneToClose(Mem())
    {
      var t, p := RecordExpiring(b);
      if !p.Committed? {
        return IntentLost(p);
      }
      ghost var ws, ss := worlds, steps;
      ghost var mid := Present();
      attempt := Cleanup(Expiring(b, t));
      ExpiringRan(attempt, b, t, old(Present()), mid, Present());
      WroteAfter(old(steps), ss, steps, attempt.p);
      GoesTransitive(old(worlds), old(steps), ws, ss, worlds, steps);
      WorksTransitive(old(steps), ss, steps, b.id);
    }

    /** The durable intent to expire. */
    method RecordExpiring(b: TunnelResource) returns (t: Time, p: Persist)
      requires Valid() && holder.Some? && Holds(Mem(), b) && b.state.Active? && clock >= b.EffectiveNotAfter()
      requires progress == Started
      modifies this
      ensures progress == if p.Committed? then Lapsing(b.id) else Over(b.id, false)
      ensures Within(old(worlds), old(steps)) && t == clock >= old(clock)
      ensures Present() == GuardMachine.StoreTunnel(old(Present()).(clock := t), Expiring(b, t), p)
      ensures Works(old(steps), steps, b.id) && Wrote(old(steps), steps, p)
    {
      t := Now();
      ghost var ws, ss := worlds, steps;
      p := StoreExpiring(b);
      GoesTransitive(old(worlds), old(steps), ws, ss, worlds, steps);
      WorksTransitive(old(steps), ss, steps, b.id);
      WroteLast(ss, BeginExpiry(b, p));
      WroteAfter(old(steps), ss, steps, p);
    }

    method Cleanup(b: TunnelResource) returns (ghost attempt: Attempt)
      requires Valid() && holder.Some? && Holds(Mem(), b) && b.Revisited() && !b.state.Active?
      requires progress in {Started, Lapsing(b.id)}
      modifies this
      ensures progress == Over(b.id, false)
      ensures Within(old(worlds), old(steps)) && holder == old(holder)
      ensures attempt.RetryAt? || attempt.Closed?
      ensures AttemptRan(attempt, b, old(Present()), Present())
      ensures Works(old(steps), steps, b.id) && Wrote(old(steps), steps, attempt.p)
      ensures NoneToClose(old(Mem())) && !MustClose(b) ==> NoneToClose(Mem())
    {
      HeldIsOnDisk(worlds, steps, Present(), b);
      var err := Dismantle(b);
      ghost var ws, ss := worlds, steps;
      if err.Some? {
        attempt := Retry(b);
      } else {
        attempt := Close(b);
      }
      GoesTransitive(old(worlds), old(steps), ws, ss, worlds, steps);
      WorksTransitive(old(steps), ss, steps, b.id);
      WroteAfter(old(steps), ss, steps, attempt.p);
    }

    method Close(b: TunnelResource) returns (ghost attempt: Attempt)
      requires Valid() && holder.Some? && Holds(Mem(), b) && b.Revisited() && !b.state.Active?
      requires b.id !in live && (|b.sources| > 0 ==> !Lists(acl, b.id))
      requires progress == Lapsing(b.id)
      modifies this
      ensures progress == Over(b.id, false)
      ensures Within(old(worlds), old(steps)) && holder == old(holder)
      ensures attempt.Closed? && AttemptRan(attempt, b, old(Present()), Present())
      ensures Works(old(steps), steps, b.id) && Wrote(old(steps), steps, attempt.p)
      ensures NoneToClose(old(Mem())) ==> NoneToClose(Mem())
    {
      var t := Now();
      ghost var ws, ss := worlds, steps;
      ghost var w := Present();
      var p := StoreFinished(b);
      if NoneToClose(w.mem) {
        FinishingLeavesNone(ws, ss, w, b, t, p);
      }
      GoesTransitive(old(worlds), old(steps), ws, ss, worlds, steps);
      WorksTransitive(old(steps), ss, steps, b.id);
      WroteLast(ss, Finish(b, p));
      WroteAfter(old(steps), ss, steps, p);
      attempt := Closed(p);
    }

    method Retry(b: TunnelResource) returns (ghost attempt: Attempt)
      requires Valid() && holder.Some? && Holds(Mem(), b) && b.Revisited() && !b.state.Active? && b.updatedAt <= clock
      requires progress == Lapsing(b.id)
      modifies this
      ensures progress == Over(b.id, false)
      ensures Within(old(worlds), old(steps)) && holder == old(holder)
      ensures attempt.RetryAt? && AttemptRan(attempt, b, old(Present()), Present())
      ensures Works(old(steps), steps, b.id) && Wrote(old(steps), steps, attempt.p)
      ensures NoneToClose(old(Mem())) && !MustClose(b) ==> NoneToClose(Mem())
    {
      var t := Now();
      ghost var ws, ss := worlds, steps;
      var next := t + RetryDelay(b.attempts + 1);
      attempt := Reschedule(b, b.attempts + 1, next);
      GoesTransitive(old(worlds), old(steps), ws, ss, worlds, steps);
      WorksTransitive(old(steps), ss, steps, b.id);
      WroteAfter(old(steps), ss, steps, attempt.p);
    }

    method Reschedule(b: TunnelResource, attempts: nat, next: Time) returns (ghost attempt: Attempt)
      requires Valid() && holder.Some? && Holds(Mem(), b) && b.Revisited() && !b.state.Active? && b.updatedAt <= clock
      requires progress == Lapsing(b.id)
      modifies this
      ensures progress == Over(b.id, false)
      ensures Within(old(worlds), old(steps)) && holder == old(holder) && clock >= old(clock)
      ensures attempt.RetryAt? && attempt.next == next
      ensures attempt.p.NotCommitted? ||
                (b.id in tunnels && tunnels[b.id] == Postponed(b, attempts, next, tunnels[b.id].lastError, clock))
      ensures Works(old(steps), steps, b.id) && Wrote(old(steps), steps, attempt.p)
      ensures NoneToClose(old(Mem())) && !MustClose(b) ==> NoneToClose(Mem())
    {
      var message := AnyMessage();
      var t := Now();
      ghost var ws, ss := worlds, steps;
      ghost var w := Present();
      var p := StorePostponed(b, attempts, next, message, t);
      if NoneToClose(w.mem) && !MustClose(b) {
        PostponingLeavesNone(w, b, attempts, next, message, t, p);
      }
      GoesTransitive(old(worlds), old(steps), ws, ss, worlds, steps);
      WorksTransitive(old(steps), ss, steps, b.id);
      WroteLast(ss, Postpone(b, attempts, next, message, t, p));
      WroteAfter(old(steps), ss, steps, p);
      attempt := RetryAt(next, p);
    }

    // -------------------------------------------------------------------------------------
    // Start-up safety
    // -------------------------------------------------------------------------------------

    /** failClosedTunnelACL: withdraws every restricted tunnel that is meant to run. Unlike every
        other write, memory keeps the change when the file could not be replaced. */
    method FailClosedTunnelAcl(cause: string)
      requires Valid()
      modifies this, bell
      ensures progress == old(progress)
      ensures Within(old(worlds), old(steps)) && holder == old(holder) && live == old(live) && acl == old(acl)
      ensures bell.rung == old(bell.rung) + if exists id :: id in old(tunnels) && MustClose(old(tunnels)[id]) then 1 else 0
      ensures clock >= old(clock) && Mem() == FailClosedAll(old(Mem()), cause, clock)
    {
      var now := Now();
      ghost var ws, ss := worlds, steps;
      ghost var w := Present();
      var p, changed := CloseAll(cause, now);
      Record(w, FailClosed(cause, p));
      GoesTransitive(old(worlds), old(steps), ws, ss, worlds, steps);
      if changed {
        bell.Ring();
      }
    }

    method CloseAll(cause: string, now: Time) returns (p: Persist, changed: bool)
      requires FileHolds(file, disk) && now == clock
      modifies this`tunnels, this`file, this`disk
      ensures FileHolds(file, disk) && Mem() == FailClosedAll(old(Mem()), cause, clock)
      ensures changed <==> exists id :: id in old(tunnels) && MustClose(old(tunnels)[id])
      ensures Step(old(Present()), FailClosed(cause, p), Present())
    {
      ghost var w := Present();
      changed := WithdrawRestricted(cause, now);
      ClosedPointwise(w, tunnels, cause, changed);
      p := NotCommitted;
      if changed {
        p := PersistLocked();
      }
      assert Present() == if changed then WriteSticky(w, Mem(), p) else w;
    }

    method WithdrawRestricted(cause: string, now: Time) returns (changed: bool)
      modifies this`tunnels
      ensures tunnels.Keys == old(tunnels).Keys
      ensures forall id :: id in tunnels ==> tunnels[id] == ClosedIfRestricted(old(tunnels)[id], cause, now)
      ensures changed <==> exists id :: id in old(tunnels) && MustClose(old(tunnels)[id])
    {
      changed := false;
      var before := tunnels;
      var remaining := tunnels.Keys;
      while remaining != {}
        invariant remaining <= before.Keys == tunnels.Keys
        invariant forall id :: id in remaining ==> tunnels[id] == before[id]
        invariant forall id :: id in before && id !in remaining ==>
                    tunnels[id] == ClosedIfRestricted(before[id], cause, now)
        invariant changed <==> exists id :: id in before && id !in remaining && MustClose(before[id])
        decreases |remaining|
      {
        var id :| id in remaining;
        remaining := remaining - {id};
        var resource := tunnels[id];
        if |resource.sources| > 0 && (resource.state == Active || resource.state == Provisioning) {
          tunnels := tunnels[id := FailedClosed(resource, cause, now)];
          changed := true;
        }
      }
    }

    /** PrepareTunnelACL: a complete rebuild, skipped only when nothing needs one and there is no
        nftables. It runs before requests are served, so no operation is in flight. */
    method PrepareTunnelAcl() returns (ok: bool)
      requires Valid() && holder.None?
      modifies this
      ensures Within(old(worlds), old(steps)) && holder.None?
      ensures ok ==> SourcesProtected(Present())
    {
      NoBlankLiveId(worlds, steps, Present());
      var list := AclResources("");
      if |list| == 0 {
        var available := NftAvailable();
        if !available {
          NothingToProtect(worlds, steps, Present(), list);
          return true;
        }
      }
      ok := RebuildTunnelAcl("");
      if ok {
        CompleteListProtects(worlds, steps, Present());
      }
    }

    /** InitializeTunnelSafety: restore the table or withdraw what it would have protected, then
        attempt everything that is due. When it reports success, every live restricted tunnel is
        protected, and ProtectionContinues keeps it so; when it does not, no restricted tunnel is
        left that is meant to run. */
    method InitializeTunnelSafety() returns (ok: bool)
      requires Valid() && holder.None?
      modifies this, bell
      ensures Extends(old(worlds), old(steps)) && holder.None?
      ensures ok ==> SourcesProtected(Present())
      ensures !ok ==> NoneToClose(Mem())
    {
      ok := PrepareTunnelAcl();
      ghost var ws, ss := worlds, steps;
      if !ok {
        var cause := AnyMessage();
        ghost var m := Mem();
        FailClosedTunnelAcl(cause);
        FailClosedLeavesNone(m, cause, clock);
        ContinuesTransitive(old(worlds), old(steps), ws, ss, worlds, steps);
        ws, ss := worlds, steps;
      }
      var now := Now();
      ContinuesTransitive(old(worlds), old(steps), ws, ss, worlds, steps);
      ClockHasStarted(worlds, steps, Present());
      var due, next := DueTunnels(now);
      for i := 0 to |due|
        invariant Extends(old(worlds), old(steps)) && holder.None?
        invariant ok ==> SourcesProtected(Present())
        invariant !ok ==> NoneToClose(Mem())
      {
        ghost var w := Present();
        ws, ss := worlds, steps;
        var _, _ := ExpireOrCleanup(due[i]);
        ContinuesTransitive(old(worlds), old(steps), ws, ss, worlds, steps);
        if ok {
          ProtectionContinues(ws, ss, w, worlds, steps, Present());
        }
      }
    }

    // -------------------------------------------------------------------------------------
    // What is due
    // -------------------------------------------------------------------------------------

    /** dueTunnels: exactly the records whose attempt time has come, by ID, and the earliest
        attempt time of the rest (the zero time when there is none). */
    method DueTunnels(now: Time) returns (due: seq<TunnelResource>, next: Time)
      requires Valid() && now > ZERO_TIME
      ensures forall r: TunnelResource :: r in due <==> r.id in tunnels && tunnels[r.id] == r && DueAt(r, now)
      ensures forall i, j :: 0 <= i < j < |due| ==> Before(due[i].id, due[j].id)
      ensures next == ZERO_TIME ==> forall id :: id in tunnels && !DueAt(tunnels[id], now) ==> AttemptAt(tunnels[id]) == None
      ensures next != ZERO_TIME ==> next > now && EarliestAttempt(tunnels, now, next)
    {
      HistoryIsGood(worlds, steps, Present());
      var keys;
      keys, next := ScanTunnels(tunnels, now);
      due := ValuesAt(tunnels, keys);
      ValuesAtKeys(tunnels, keys);
    }

    // -------------------------------------------------------------------------------------
    // Client schedules
    // -------------------------------------------------------------------------------------

    /** Stores a client's deadline. A request that fails before the rename changes nothing. */
    method Upsert(s: Schedule) returns (ok: bool, ghost p: Persist)
      requires Valid()
      modifies this, bell
      ensures bell.rung == old(bell.rung) + if ok then 1 else 0
      ensures Within(old(worlds), old(steps))
      ensures var key := ScheduleKey(s.tag, s.client);
              if key.None? || s.notAfter == ZERO_TIME then !ok && Present() == old(Present()) && steps == old(steps)
              else (ok <==> p.Committed?) && steps == old(steps) + [PutSchedule(Admitted(s, key.value), p)]
                   && Present() == AfterUpsert(old(Present()), Admitted(s, key.value), p)
    {
      p := NotCommitted;
      var key := ScheduleKey(s.tag, s.client);
      if key.None? || s.notAfter == ZERO_TIME {
        return false, p;
      }
      AdmittedIsPersistable(s, key.value);
      ok, p := PutEntry(Admitted(s, key.value));
      if ok {
        bell.Ring();
      }
    }

    method PutEntry(s: Schedule) returns (ok: bool, ghost p: Persist)
      requires Valid() && PersistableSchedule(s)
      modifies this
      ensures Within(old(worlds), old(steps))
      ensures (ok <==> p.Committed?) && Present() == AfterUpsert(old(Present()), s, p)
      ensures steps == old(steps) + [PutSchedule(s, p)]
    {
      ghost var w := Present();
      var written := WriteEntry(s);
      p, ok := written, written.Committed?;
      Record(w, PutSchedule(s, written));
    }

    method WriteEntry(s: Schedule) returns (p: Persist)
      requires FileHolds(file, disk)
      modifies this`entries, this`file, this`disk
      ensures FileHolds(file, disk) && Present() == AfterUpsert(old(Present()), s, p)
    {
      var previous := entries;
      entries := entries[s.key := s];
      p := PersistLocked();
      if p.NotCommitted? {
        if s.key in previous {
          entries := entries[s.key := previous[s.key]];
        } else {
          entries := entries - {s.key};
        }
        assert entries == previous;
      }
    }

    /** Clears a client's deadline. */
    method Delete(tag: string, client: map<string, string>) returns (ok: bool, ghost p: Persist)
      requires Valid()
      modifies this, bell
      ensures bell.rung == old(bell.rung) + if ok then 1 else 0
      ensures Within(old(worlds), old(steps))
      ensures var key := ScheduleKey(tag, client);
              if key.None? then !ok && Present() == old(Present()) && steps == old(steps)
              else (ok <==> p.Committed?) && steps == old(steps) + [DropSchedule(key.value, p)]
                   && Present() == AfterDelete(old(Present()), key.value, p)
    {
      p := NotCommitted;
      var key := ScheduleKey(tag, client);
      if key.None? {
        return false, p;
      }
      ok, p := DropEntry(key.value);
      if ok {
        bell.Ring();
      }
    }

    method DropEntry(key: string) returns (ok: bool, ghost p: Persist)
      requires Valid()
      modifies this
      ensures Within(old(worlds), old(steps))
      ensures (ok <==> p.Committed?) && Present() == AfterDelete(old(Present()), key, p)
      ensures steps == old(steps) + [DropSchedule(key, p)]
    {
      ghost var w := Present();
      var written := EraseEntry(key);
      p, ok := written, written.Committed?;
      Record(w, DropSchedule(key, written));
    }

    method EraseEntry(key: string) returns (p: Persist)
      requires FileHolds(file, disk)
      modifies this`entries, this`file, this`disk
      ensures FileHolds(file, disk) && Present() == AfterDelete(old(Present()), key, p)
    {
      var previous := entries;
      entries := entries - {key};
      p := PersistLocked();
      if p.NotCommitted? {
        if key in previous {
          entries := entries[key := previous[key]];
        }
        assert entries == previous;
      }
    }

    method UpdateAgentToken(token: string) returns (ok: bool, ghost p: Persist)
      requires Valid()
      modifies this
      ensures Within(old(worlds), old(steps))
      ensures if Trim(token) == "" then !ok && Present() == old(Present())
              else (ok <==> p.Committed?)
                   && Present() == Write(old(Present()), old(Mem()).(token := Trim(token)), p)
    {
      p := NotCommitted;
      if Trim(token) == "" {
        return false, p;
      }
      TrimIdempotent(token);
      ghost var w := Present();
      var written := WriteToken(Trim(token));
      p, ok := written, written.Committed?;
      Record(w, SetToken(Trim(token), written));
    }

    method WriteToken(token: string) returns (p: Persist)
      requires FileHolds(file, disk)
      modifies this`agentToken, this`file, this`disk
      ensures FileHolds(file, disk) && Present() == Write(old(Present()), old(Mem()).(token := token), p)
    {
      var previous := agentToken;
      agentToken := token;
      p := PersistLocked();
      if p.NotCommitted? {
        agentToken := previous;
      }
    }

    /** The end of an attempt to remove a client: done, or to be retried. */
    method FinishAttempt(entry: Schedule, removed: bool, now: Time) returns (ghost p: Persist)
      requires Valid() && now <= clock
      modifies this
      ensures Within(old(worlds), old(steps)) && steps == old(steps) + [Action.FinishAttempt(entry, removed, now, p)]
      ensures Present() == AfterAttempt(old(Present()), entry, removed, now, p)
      ensures Settled(Mem(), entry.key, entry.notAfter, now + 5 * SECOND)
    {
      ghost var w := Present();
      p := SettleEntry(entry, removed, now);
      AttemptSettles(w, entry, removed, now, p, Present());
      Record(w, Action.FinishAttempt(entry, removed, now, p));
    }

    method SettleEntry(entry: Schedule, removed: bool, now: Time) returns (ghost p: Persist)
      requires FileHolds(file, disk)
      modifies this`entries, this`file, this`disk
      ensures FileHolds(file, disk) && Present() == AfterAttempt(old(Present()), entry, removed, now, p)
    {
      p := NotCommitted;
      if entry.key in entries && entries[entry.key].notAfter == entry.notAfter {
        p := FinishCurrent(entry, removed, now);
      }
    }

    method FinishCurrent(entry: Schedule, removed: bool, now: Time) returns (p: Persist)
      requires FileHolds(file, disk) && entry.key in entries && entries[entry.key].notAfter == entry.notAfter
      modifies this`entries, this`file, this`disk
      ensures FileHolds(file, disk) && Present() == AfterAttempt(old(Present()), entry, removed, now, p)
    {
      var current, before := entries[entry.key], entries;
      var retried := current.(attempts := current.attempts + 1, nextAttemptAt := Some(now + RetryDelay(current.attempts + 1)));
      if removed {
        entries := entries - {entry.key};
      } else {
        entries := entries[entry.key := retried];
      }
      p := PersistLocked();
      if p.NotCommitted? && removed {
        entries := entries[entry.key := retried];
        assert entries == before[entry.key := retried];
      }
    }

    /** due: exactly the schedules whose attempt time has come, each once, and the earliest
        attempt time of the rest (the zero time when there is none). */
    method Due(now: Time) returns (due: seq<Schedule>, next: Time)
      requires Valid() && now > ZERO_TIME
      ensures forall s: Schedule :: s in due <==> s.key in entries && entries[s.key] == s && s.AttemptAt() <= now
      ensures forall i, j :: 0 <= i < j < |due| ==> due[i].key != due[j].key
      ensures next == ZERO_TIME ==> forall key :: key in entries ==> entries[key].AttemptAt() <= now
      ensures next != ZERO_TIME ==>
                next > now && (exists key :: key in entries && entries[key].AttemptAt() == next)
                && forall key :: key in entries && entries[key].AttemptAt() > now ==> next <= entries[key].AttemptAt()
    {
      HistoryIsGood(worlds, steps, Present());
      due, next := ScanEntries(entries, now);
    }

    /** The call that asks the Agent to remove a client, and restarts Xray when only the
        configuration could be changed. */
    method RemoveClient(entry: Schedule) returns (ok: bool)
    {
      ok := *;
    }

    // -------------------------------------------------------------------------------------
    // The scheduler
    // -------------------------------------------------------------------------------------

    /** One round of Run's loop, which began at the clock reading `began`, and what it tried. A
        round that found nothing due changes nothing but the clock and says when to look again.
        After an undisturbed round nothing is due at the instant it began: everything it tried is
        gone, terminal, or due five to 320 seconds later. */
    method Round()
      returns (again: bool, alarm: Time, ghost began: Time, ghost tried: seq<Schedule>, ghost triedTunnels: seq<TunnelResource>)
      requires Valid() && holder.None?
      modifies this
      ensures Extends(old(worlds), old(steps)) && holder.None? && old(clock) <= began <= clock
      ensures again <==> |tried| > 0 || |triedTunnels| > 0
      ensures forall s: Schedule :: s in tried <==> s.key in old(entries) && old(entries)[s.key] == s && s.AttemptAt() <= began
      ensures !again ==> Present() == old(Present()).(clock := clock) && WakesAt(Mem(), clock, alarm)
      ensures Calm(old(steps), steps, began) ==>
                && RoundEnds(old(Mem()), Mem(), KeysOf(tried), IdsOf(triedTunnels), began, clock)
                && NothingDueBy(Mem(), began) && DueCount(Mem(), began) == 0
    {
      var now := Now();
      began := now;
      ghost var ws, ss := worlds, steps;
      var due, next, later, dueTunnels, nextTunnel := AttemptDue(now);
      ContinuesTransitive(old(worlds), old(steps), ws, ss, worlds, steps);
      tried, triedTunnels := due, dueTunnels;
      NothingDueCounts(Mem(), began);
      if |due| > 0 || |dueTunnels| > 0 {
        if Calm(old(steps), steps, now) {
          CalmParts(old(steps), ss, steps, now);
        }
        return true, clock, began, tried, triedTunnels;
      }
      ws, ss := worlds, steps;
      alarm := SetAlarm(due, dueTunnels, now, later, next, nextTunnel);
      ContinuesTransitive(old(worlds), old(steps), ws, ss, worlds, steps);
      IdleRound(Mem(), now, clock);
      NothingDueCounts(Mem(), began);
      again := false;
    }

    /** Both due lists of a round, and the attempts on them. */
    method AttemptDue(now: Time)
      returns (due: seq<Schedule>, next: Time, later: Time, dueTunnels: seq<TunnelResource>, nextTunnel: Time)
      requires Valid() && holder.None? && now == clock
      modifies this
      ensures Extends(old(worlds), old(steps)) && holder.None? && now <= later <= clock
      ensures forall s: Schedule :: s in due <==> s.key in old(entries) && old(entries)[s.key] == s && s.AttemptAt() <= now
      ensures next == ZERO_TIME ==> forall key :: key in old(entries) ==> old(entries)[key].AttemptAt() <= now
      ensures next != ZERO_TIME ==>
                (exists key :: key in old(entries) && old(entries)[key].AttemptAt() == next)
                && forall key :: key in old(entries) && old(entries)[key].AttemptAt() > now ==> next <= old(entries)[key].AttemptAt()
      ensures due == [] && dueTunnels == [] ==>
                && Present() == old(Present()).(clock := clock)
                && (forall r: TunnelResource :: r in dueTunnels <==> r.id in tunnels && tunnels[r.id] == r && DueAt(r, later))
                && (nextTunnel == ZERO_TIME ==> forall id :: id in tunnels && !DueAt(tunnels[id], later) ==> AttemptAt(tunnels[id]) == None)
                && (nextTunnel != ZERO_TIME ==> EarliestAttempt(tunnels, later, nextTunnel))
      ensures Calm(old(steps), steps, now) ==>
                RoundEnds(old(Mem()), Mem(), KeysOf(due), IdsOf(dueTunnels), now, clock) && NothingDueBy(Mem(), now)
    {
      ClockHasStarted(worlds, steps, Present());
      due, next := Due(now);
      AttemptEntries(due, now);
      ghost var ws1, ss1, w1 := worlds, steps, Present();
      later := Now();
      ContinuesTransitive(old(worlds), old(steps), ws1, ss1, worlds, steps);
      OutsideTransitive(old(steps), ss1, steps);
      ghost var ws2, ss2, w2 := worlds, steps, Present();
      ClockHasStarted(worlds, steps, Present());
      dueTunnels, nextTunnel := DueTunnels(later);
      AscendingIdsDiffer(dueTunnels);
      AttemptTunnels(dueTunnels, now);
      ContinuesTransitive(old(worlds), old(steps), ws2, ss2, worlds, steps);
      if Calm(old(steps), steps, now) {
        CalmParts(old(steps), ss1, steps, now);
        CalmParts(old(steps), ss2, steps, now);
        EntriesKeyed(old(worlds), old(steps), old(Present()));
        RoundAddsUp(old(worlds), old(steps), old(Present()), ws1, ss1, w1, ws2, ss2, w2, worlds, steps, Present(),
                    due, dueTunnels, now, later);
      }
    }

    /** The end of a round that found nothing due. */
    method SetAlarm(ghost due: seq<Schedule>, ghost dueTunnels: seq<TunnelResource>, ghost now: Time, ghost later: Time,
                    next: Time, nextTunnel: Time) returns (alarm: Time)
      requires Valid() && due == [] && dueTunnels == [] && now <= later
      requires forall s: Schedule :: s in due <==> s.key in entries && entries[s.key] == s && s.AttemptAt() <= now
      requires forall r: TunnelResource :: r in dueTunnels <==> r.id in tunnels && tunnels[r.id] == r && DueAt(r, later)
      requires next == ZERO_TIME ==> forall key :: key in entries ==> entries[key].AttemptAt() <= now
      requires next != ZERO_TIME ==>
                 (exists key :: key in entries && entries[key].AttemptAt() == next)
                 && forall key :: key in entries && entries[key].AttemptAt() > now ==> next <= entries[key].AttemptAt()
      requires nextTunnel == ZERO_TIME ==> forall id :: id in tunnels && !DueAt(tunnels[id], later) ==> AttemptAt(tunnels[id]) == None
      requires nextTunnel != ZERO_TIME ==> EarliestAttempt(tunnels, later, nextTunnel)
      modifies this`clock, this`worlds, this`steps, this`progress
      ensures Within(old(worlds), old(steps)) && Present() == old(Present()).(clock := clock) && clock >= old(clock)
      ensures WakesAt(Mem(), clock, alarm) && NothingDueBy(Mem(), now)
    {
      NothingDue(worlds, steps, Present(), due, dueTunnels, now, later);
      NextIsEarliest(Mem(), now, later, next, nextTunnel);
      var earliest := if nextTunnel != ZERO_TIME && (next == ZERO_TIME || nextTunnel < next) then nextTunnel else next;
      alarm := Alarm(earliest);
      NextSetsAlarm(Mem(), clock, earliest);
    }

    /** Reads the clock once more and turns the next attempt time into a wait. */
    method Alarm(next: Time) returns (alarm: Time)
      requires Valid()
      modifies this`clock, this`worlds, this`steps, this`progress
      ensures Within(old(worlds), old(steps)) && Present() == old(Present()).(clock := clock) && clock >= old(clock)
      ensures alarm == (if next == ZERO_TIME then clock + HOUR else if next < clock then clock else next)
    {
      var t := Now();
      var wait := HOUR;
      if next != ZERO_TIME {
        wait := next - t;
        if wait < 0 {
          wait := 0;
        }
      }
      alarm := t + wait;
    }

    method AttemptEntries(due: seq<Schedule>, began: Time)
      requires Valid() && holder.None? && began <= clock
      requires forall n :: 0 <= n < |due| ==> Unmoved(Mem(), due[n].key, due[n].notAfter) && due[n].notAfter <= began
      modifies this
      ensures Within(old(worlds), old(steps)) && holder.None? && Outside(old(steps), steps) && began <= clock
      ensures |due| == 0 ==> Present() == old(Present())
      ensures Calm(old(steps), steps, began) ==>
                forall n :: 0 <= n < |due| ==> Rested(Mem(), due[n].key, began + SHORTEST, clock + LONGEST)
    {
      for i := 0 to |due|
        invariant Within(old(worlds), old(steps)) && holder.None? && Outside(old(steps), steps)
        invariant i == 0 ==> Present() == old(Present())
        invariant began <= clock
        invariant Calm(old(steps), steps, began) ==> FirstRest(Present(), due, i, began)
      {
        ghost var ws, ss, w := worlds, steps, Present();
        AttemptEntry(due[i], began);
        GoesTransitive(old(worlds), old(steps), ws, ss, worlds, steps);
        OutsideTransitive(old(steps), ss, steps);
        if Calm(old(steps), steps, began) {
          CalmParts(old(steps), ss, steps, began);
          NextRests(old(worlds), old(steps), old(Present()), ws, ss, w, worlds, steps, Present(), due, i, began);
        }
      }
    }

    /** One attempt to remove a client whose deadline has come. */
    method AttemptEntry(entry: Schedule, began: Time)
      requires Valid() && holder.None? && entry.notAfter <= began <= clock
      modifies this
      ensures Within(old(worlds), old(steps)) && holder.None? && Outside(old(steps), steps) && began <= clock
      ensures Calm(old(steps), steps, began) && Unmoved(old(Mem()), entry.key, entry.notAfter) ==>
                Rested(Mem(), entry.key, began + SHORTEST, clock + LONGEST)
    {
      var removed, t := TryRemoval(entry);
      ghost var ws, ss, w := worlds, steps, Present();
      ghost var p := FinishAttempt(entry, removed, t);
      GoesTransitive(old(worlds), old(steps), ws, ss, worlds, steps);
      OutsideTransitive(old(steps), ss, steps);
      if Calm(old(steps), steps, began) && Unmoved(old(Mem()), entry.key, entry.notAfter) {
        AttemptedEntryRests(old(worlds), old(steps), old(Present()), ws, ss, w, steps, entry, removed, t, p, began);
      }
    }

    /** The call on the Agent, and the clock after it. */
    method TryRemoval(entry: Schedule) returns (removed: bool, t: Time)
      requires Valid() && holder.None?
      modifies this
      ensures Within(old(worlds), old(steps)) && holder.None? && Outside(old(steps), steps) && old(clock) <= t == clock
    {
      removed := RemoveClient(entry);
      OthersRun();
      ghost var ws, ss := worlds, steps;
      t := Now();
      GoesTransitive(old(worlds), old(steps), ws, ss, worlds, steps);
      OutsideTransitive(old(steps), ss, steps);
    }

    method AttemptTunnels(due: seq<TunnelResource>, ghost began: Time)
      requires Valid() && holder.None? && began <= clock
      requires forall n :: 0 <= n < |due| ==> due[n].id in tunnels && tunnels[due[n].id] == due[n] && DueAt(due[n], clock)
      requires forall n, k :: 0 <= n < k < |due| ==> due[n].id != due[k].id
      modifies this
      ensures Extends(old(worlds), old(steps)) && holder.None? && clock >= old(clock)
      ensures |due| == 0 ==> Present() == old(Present())
      ensures Calm(old(steps), steps, began) ==> TunnelsTreated(old(Mem()), Mem(), due, |due|, began, clock)
    {
      for i := 0 to |due|
        invariant Extends(old(worlds), old(steps)) && holder.None?
        invariant i == 0 ==> Present() == old(Present())
        invariant old(clock) <= clock
        invariant Calm(old(steps), steps, began) ==> TunnelsTreated(old(Mem()), Mem(), due, i, began, clock)
      {
        ghost var ws, ss, w := worlds, steps, Present();
        ghost var attempt, seen := ExpireOrCleanup(due[i]);
        ContinuesTransitive(old(worlds), old(steps), ws, ss, worlds, steps);
        TriedOneMore(old(Mem()), old(steps), ws, ss, w, worlds, steps, Present(), due, i, began, attempt, seen);
      }
    }

    /** An error text from outside, already trimmed and cut to 1024 bytes. */
    method AnyMessage() returns (message: string)
    {
      message := *;
    }
  }

  // ---------------------------------------------------------------------------------------
  // What is due
  // ---------------------------------------------------------------------------------------

  /** The records at the given keys are exactly the records of those keys, in their order. */
  lemma ValuesAtKeys(tunnels: map<string, TunnelResource>, keys: seq<string>)
    requires KeysAscend(keys) && forall k :: k in keys ==> k in tunnels && tunnels[k].id == k
    ensures var vs := ValuesAt(tunnels, keys);
            && (forall r: TunnelResource :: r in vs <==> r.id in keys && tunnels[r.id] == r)
            && (forall i, j :: 0 <= i < j < |vs| ==> Before(vs[i].id, vs[j].id))
  {
    var vs := ValuesAt(tunnels, keys);
    forall i | 0 <= i < |keys| ensures vs[i].id == keys[i] && vs[i] in vs {
      assert keys[i] in keys;
    }
  }

  lemma AscendingIdsDiffer(list: seq<TunnelResource>)
    requires forall i, j :: 0 <= i < j < |list| ==> Before(list[i].id, list[j].id)
    ensures forall i, j :: 0 <= i < j < |list| ==> list[i].id != list[j].id
  {
    forall i, j | 0 <= i < j < |list| ensures list[i].id != list[j].id {
      BeforeTotal(list[i].id, list[j].id);
    }
  }

  /** The loop of dueTunnels over the map. */
  method ScanTunnels(tunnels: map<string, TunnelResource>, now: Time) returns (keys: seq<string>, next: Time)
    requires now > ZERO_TIME
    ensures KeysAscend(keys) && forall k :: k in keys <==> k in tunnels && DueAt(tunnels[k], now)
    ensures next == ZERO_TIME ==> forall id :: id in tunnels && !DueAt(tunnels[id], now) ==> AttemptAt(tunnels[id]) == None
    ensures next != ZERO_TIME ==> next > now && EarliestAttempt(tunnels, now, next)
  {
    keys, next := [], ZERO_TIME;
    var remaining := tunnels.Keys;
    while remaining != {}
      invariant remaining <= tunnels.Keys && KeysAscend(keys)
      invariant forall k :: k in keys <==> k in tunnels && k !in remaining && DueAt(tunnels[k], now)
      invariant next == ZERO_TIME || next > now
      invariant forall id :: id in tunnels && id !in remaining && !DueAt(tunnels[id], now) && AttemptAt(tunnels[id]).Some? ==>
                  next != ZERO_TIME && next <= AttemptAt(tunnels[id]).value
      invariant next != ZERO_TIME ==>
                  exists id :: id in tunnels && id !in remaining && AttemptAt(tunnels[id]) == Some(next)
      decreases |remaining|
    {
      var id :| id in remaining;
      remaining := remaining - {id};
      var at := AttemptAt(tunnels[id]);
      if at.Some? {
        if now >= at.value {
          keys := InsertKey(id, keys);
        } else if next == ZERO_TIME || at.value < next {
          next := at.value;
        }
      }
    }
  }

  /** The loop of due over the map. */
  method ScanEntries(entries: map<string, Schedule>, now: Time) returns (due: seq<Schedule>, next: Time)
    requires now > ZERO_TIME && forall key :: key in entries ==> entries[key].key == key
    ensures forall s: Schedule :: s in due <==> s.key in entries && entries[s.key] == s && s.AttemptAt() <= now
    ensures forall i, j :: 0 <= i < j < |due| ==> due[i].key != due[j].key
    ensures next == ZERO_TIME ==> forall key :: key in entries ==> entries[key].AttemptAt() <= now
    ensures next != ZERO_TIME ==>
              next > now && (exists key :: key in entries && entries[key].AttemptAt() == next)
              && forall key :: key in entries && entries[key].AttemptAt() > now ==> next <= entries[key].AttemptAt()
  {
    due, next := [], ZERO_TIME;
    var remaining := entries.Keys;
    while remaining != {}
      invariant remaining <= entries.Keys
      invariant forall s: Schedule :: s in due <==>
                  s.key in entries && s.key !in remaining && entries[s.key] == s && s.AttemptAt() <= now
      invariant forall i, j :: 0 <= i < j < |due| ==> due[i].key != due[j].key
      invariant next == ZERO_TIME || next > now
      invariant forall key :: key in entries && key !in remaining && entries[key].AttemptAt() > now ==>
                  next != ZERO_TIME && next <= entries[key].AttemptAt()
      invariant next != ZERO_TIME ==> exists key :: key in entries && key !in remaining && entries[key].AttemptAt() == next
      decreases |remaining|
    {
      var key :| key in remaining;
      remaining := remaining - {key};
      var entry := entries[key];
      if now >= entry.AttemptAt() {
        assert forall i :: 0 <= i < |due| ==> due[i] in due && due[i].key != key;
        due := due + [entry];
      } else if next == ZERO_TIME || entry.AttemptAt() < next {
        next := entry.AttemptAt();
      }
    }
  }

  // ---------------------------------------------------------------------------------------
  // The ordered list of restricted resources
  // ---------------------------------------------------------------------------------------

  predicate EntriesAscend(list: seq<AclEntry>) {
    forall i, j :: 0 <= i < j < |list| ==> EntryBefore(list[i], list[j])
  }

  function InsertEntry(e: AclEntry, list: seq<AclEntry>): (r: seq<AclEntry>)
    requires EntriesAscend(list) && forall x :: x in list ==> x.id != e.id
    ensures EntriesAscend(r)
    ensures forall x :: x in r <==> x == e || x in list
  {
    assert Transitive(EntryBefore) && Ascending(list, EntryBefore) && Fits(e, list, EntryBefore) by { EntryFits(e, list); }
    InsertInto(e, list, EntryBefore)
  }

  lemma EntryFits(e: AclEntry, list: seq<AclEntry>)
    requires EntriesAscend(list) && forall x :: x in list ==> x.id != e.id
    ensures Transitive(EntryBefore) && Ascending(list, EntryBefore) && Fits(e, list, EntryBefore)
  {
    forall a, b, c | EntryBefore(a, b) && EntryBefore(b, c) ensures EntryBefore(a, c) {
      if Before(a.id, b.id) && Before(b.id, c.id) {
        BeforeTransitive(a.id, b.id, c.id);
      }
    }
    forall i | 0 <= i < |list| ensures EntryBefore(e, list[i]) || EntryBefore(list[i], e) {
      assert list[i] in list;
      BeforeTotal(e.id, list[i].id);
    }
  }

  method OrderedEntries(tunnels: map<string, TunnelResource>, exclude: string) returns (list: seq<AclEntry>)
    requires forall id :: id in tunnels ==> tunnels[id].id == id
    ensures IsAclList(list, tunnels, exclude)
  {
    list := [];
    var remaining := tunnels.Keys;
    while remaining != {}
      invariant remaining <= tunnels.Keys && EntriesAscend(list)
      invariant forall x :: x in list ==>
        x.id in tunnels && x.id !in remaining && x.id != exclude && tunnels[x.id].NeedsAcl() && x == tunnels[x.id].Entry()
      invariant forall id :: id in tunnels && id !in remaining && id != exclude && tunnels[id].NeedsAcl() ==>
                  tunnels[id].Entry() in list
      decreases |remaining|
    {
      var id :| id in remaining;
      remaining := remaining - {id};
      if id != exclude && tunnels[id].NeedsAcl() {
        list := InsertEntry(tunnels[id].Entry(), list);
      }
    }
  }
}
