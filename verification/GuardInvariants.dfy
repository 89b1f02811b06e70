/** What every step of the guard keeps, whatever fails and wherever it stops. */
module GuardInvariants {
  import opened Base
  import opened SourceAcl
  import opened TunnelModel
  import opened Schedules
  import opened GuardMachine

  // ---------------------------------------------------------------------------------------
  // The invariants
  // ---------------------------------------------------------------------------------------

  ghost predicate GoodMemory(m: Memory, clock: Time) {
    && GoodToken(m.token)
    && (forall id :: id in m.tunnels ==> m.tunnels[id].id == id && GoodRecord(m.tunnels[id], clock))
    && (forall key :: key in m.entries ==> m.entries[key].key == key && PersistableSchedule(m.entries[key]))
  }

  ghost predicate SameSchedule(a: Schedule, b: Schedule) {
    a == b.(attempts := a.attempts, nextAttemptAt := a.nextAttemptAt)
  }

  /** Memory and the state file tell the same story: the same schedules up to retry counters,
      the same tunnels up to a fail-closed pass that could not be written. */
  ghost predicate Agree(mem: Memory, disk: Memory) {
    && mem.token == disk.token
    && mem.entries.Keys == disk.entries.Keys
    && (forall key :: key in mem.entries ==> SameSchedule(mem.entries[key], disk.entries[key]))
    && mem.tunnels.Keys == disk.tunnels.Keys
    && (forall id :: id in mem.tunnels ==> Current(mem.tunnels[id], disk.tunnels[id]))
  }

  /** Nothing is exposed by the Agent that the guard does not still intend to come back to. */
  ghost predicate WriteAhead(w: World) {
    forall id :: id in w.live ==>
      id in w.mem.tunnels && w.mem.tunnels[id].Revisited()
      && id in w.disk.tunnels && w.disk.tunnels[id].Revisited()
  }

  predicate Occupying(r: TunnelResource) {
    r.state in {Provisioning, Active, ExpiryPending}
  }

  /** No two resources that are, or were just, entitled to run share a port. */
  ghost predicate PortsExclusive(m: Memory) {
    forall a, b :: a in m.tunnels && b in m.tunnels && a != b
      && Occupying(m.tunnels[a]) && Occupying(m.tunnels[b])
      ==> m.tunnels[a].listenPort != m.tunnels[b].listenPort
  }

  ghost predicate HolderTimely(w: World) {
    w.holder.Some? ==> ZERO_TIME < w.holder.value <= w.clock
  }

  /** The installed table only names resources that still reserve what it says about them. */
  ghost predicate AclFresh(w: World) {
    forall i :: 0 <= i < |w.acl| ==>
      w.acl[i].id in w.mem.tunnels && w.mem.tunnels[w.acl[i].id].NeedsAcl()
      && w.acl[i] == w.mem.tunnels[w.acl[i].id].Entry()
  }

  ghost predicate Inv(w: World) {
    && w.clock > ZERO_TIME
    && HolderTimely(w)
    && GoodMemory(w.mem, w.clock) && GoodMemory(w.disk, w.clock)
    && Agree(w.mem, w.disk)
    && WriteAhead(w)
    && PortsExclusive(w.mem) && PortsExclusive(w.disk)
    && AclFresh(w)
  }

  /** Every live source-restricted resource is named by the installed table. Unlike Inv it is
      lost when the table is, and restored by the next complete rebuild. */
  ghost predicate SourcesProtected(w: World) {
    forall id :: id in w.live && id in w.mem.tunnels ==> Covers(w.acl, w.mem.tunnels[id])
  }

  predicate StoresTunnel(a: Action) {
    a.Provision? || a.Renew? || a.Activate? || a.Withdraw? || a.Annotate? || a.BeginCleanup?
    || a.BeginExpiry? || a.Postpone? || a.Finish?
  }

  /** The record a storing action puts in place. */
  function Stored(w: World, a: Action): (r: TunnelResource)
    requires StoresTunnel(a) && w.holder.Some?
  {
    match a
    case Provision(r, p) => r
    case Renew(b, leaseUntil, p) => Renewed(b, leaseUntil, w.holder.value)
    case Activate(b, p) => Activated(b, w.clock)
    case Withdraw(b, next, e, updatedAt, p) => Withdrawn(b, next, e, updatedAt)
    case Annotate(b, e, p) => b.(lastError := e)
    case BeginCleanup(b, generation, terminal, p) => CleaningUp(b, generation, terminal, w.clock)
    case BeginExpiry(b, p) => Expiring(b, w.clock)
    case Postpone(b, attempts, next, e, updatedAt, p) => Postponed(b, attempts, next, e, updatedAt)
    case Finish(b, p) => Finished(b, w.clock)
  }

  lemma StoredIsNext(w: World, a: Action, w': World)
    requires Step(w, a, w') && StoresTunnel(a)
    ensures w' == StoreTunnel(w, Stored(w, a), a.p)
  {
  }

  // ---------------------------------------------------------------------------------------
  // Records
  // ---------------------------------------------------------------------------------------

  lemma GoodLater(m: Memory, clock: Time, clock': Time)
    requires GoodMemory(m, clock) && clock <= clock'
    ensures GoodMemory(m, clock')
  {
  }

  lemma BaseIsGood(w: World, b: TunnelResource)
    requires Inv(w) && Holds(w.mem, b)
    ensures GoodRecord(b, w.clock)
  {
    assert GoodRecord(w.mem.tunnels[b.id], w.clock);
  }

  lemma ChangeIsGood(b: TunnelResource, r: TunnelResource, clock: Time)
    requires GoodRecord(b, clock) && SameDefinition(b, r)
    requires r.generation > 0 && r.hardNotAfter == b.hardNotAfter && r.leaseUntil == b.leaseUntil
    requires b.updatedAt <= r.updatedAt <= clock && Coherent(r)
    ensures GoodRecord(r, clock)
  {
  }

  /** Every change of an existing record but a renewal keeps definition and deadlines. */
  lemma ChangeShape(w: World, a: Action)
    requires StoresTunnel(a) && !a.Provision? && !a.Renew? && Enabled(w, a) && HolderTimely(w)
    requires GoodRecord(a.base, w.clock)
    ensures var r := Stored(w, a);
            && SameDefinition(a.base, r) && r.generation >= a.base.generation
            && r.hardNotAfter == a.base.hardNotAfter && r.leaseUntil == a.base.leaseUntil
            && a.base.updatedAt <= r.updatedAt <= w.clock && Coherent(r)
  {
  }

  lemma StoredIsGood(w: World, a: Action)
    requires Inv(w) && Enabled(w, a) && StoresTunnel(a)
    ensures GoodRecord(Stored(w, a), w.clock)
  {
    if !a.Provision? {
      BaseIsGood(w, a.base);
      if !a.Renew? {
        ChangeShape(w, a);
        ChangeIsGood(a.base, Stored(w, a), w.clock);
      }
    }
  }

  // ---------------------------------------------------------------------------------------
  // Storing one tunnel record
  // ---------------------------------------------------------------------------------------

  /** What makes storing `r` harmless in world `w`. */
  ghost predicate GoodStore(w: World, r: TunnelResource) {
    && GoodRecord(r, w.clock)
    && (r.id in w.mem.tunnels ==> SameDefinition(w.mem.tunnels[r.id], r))
    && (r.Revisited() || r.id !in w.live)
    && (Occupying(r) ==> PortUnoccupied(w.mem, r))
    && (r.NeedsAcl() || !Lists(w.acl, r.id))
  }

  ghost predicate PortUnoccupied(m: Memory, r: TunnelResource) {
    forall id :: id in m.tunnels && id != r.id && Occupying(m.tunnels[id])
      ==> m.tunnels[id].listenPort != r.listenPort
  }

  lemma FreePortIsUnoccupied(m: Memory, r: TunnelResource, clock: Time)
    requires GoodMemory(m, clock) && PortFree(m, r) && Persistable(r)
    ensures PortUnoccupied(m, r)
  {
    forall id | id in m.tunnels && id != r.id && Occupying(m.tunnels[id])
      ensures m.tunnels[id].listenPort != r.listenPort
    {
      assert GoodRecord(m.tunnels[id], clock);
    }
  }

  /** A listed resource is restricted, and so is every record with its definition. */
  lemma ListedStaysRestricted(w: World, r: TunnelResource)
    requires AclFresh(w) && Lists(w.acl, r.id) && r.ReservesPort()
    requires r.id in w.mem.tunnels ==> SameDefinition(w.mem.tunnels[r.id], r)
    ensures r.NeedsAcl()
  {
    var i :| 0 <= i < |w.acl| && w.acl[i].id == r.id;
    assert w.mem.tunnels[r.id].NeedsAcl();
  }

  lemma ProvisionIsGoodStore(w: World, r: TunnelResource, p: Persist)
    requires Inv(w) && Enabled(w, Provision(r, p))
    ensures GoodStore(w, r)
  {
    FreshIsGood(r, w.holder.value, w.clock);
    FreePortIsUnoccupied(w.mem, r, w.clock);
    if Lists(w.acl, r.id) {
      ListedStaysRestricted(w, r);
    }
  }

  lemma FreshIsGood(r: TunnelResource, now: Time, clock: Time)
    requires Fresh(r, now) && ZERO_TIME < now <= clock
    ensures GoodRecord(r, clock) && r.Revisited() && r.ReservesPort()
  {
  }

  /** A change of a record the operation read under the lock. */
  lemma ChangeIsGoodStore(w: World, b: TunnelResource, r: TunnelResource)
    requires Inv(w) && Holds(w.mem, b) && SameDefinition(b, r) && GoodRecord(r, w.clock)
    requires r.Revisited() || r.id !in w.live
    requires Occupying(r) ==> Occupying(b)
    requires r.ReservesPort() || |r.sources| == 0 || !Lists(w.acl, r.id)
    ensures GoodStore(w, r)
  {
    var m := w.mem.tunnels[b.id];
    if Occupying(r) {
      assert Occupying(m);
    }
    if Lists(w.acl, r.id) {
      var i :| 0 <= i < |w.acl| && w.acl[i].id == r.id;
      assert m.NeedsAcl();
    }
  }

  lemma StoredIsGoodStore(w: World, a: Action)
    requires Inv(w) && Enabled(w, a) && StoresTunnel(a)
    ensures GoodStore(w, Stored(w, a))
  {
    if a.Provision? {
      ProvisionIsGoodStore(w, a.record, a.p);
    } else {
      StoredIsGood(w, a);
      BaseIsGood(w, a.base);
      BaseIsHeld(w, a);
      ChangeFlows(w, a);
      ChangeIsGoodStore(w, a.base, Stored(w, a));
    }
  }

  lemma BaseIsHeld(w: World, a: Action)
    requires Enabled(w, a) && StoresTunnel(a) && !a.Provision?
    ensures Holds(w.mem, a.base)
  {
  }

  /** Where each kind of change may lead. */
  lemma ChangeFlows(w: World, a: Action)
    requires Enabled(w, a) && StoresTunnel(a) && !a.Provision?
    requires GoodRecord(a.base, w.clock)
    ensures var r := Stored(w, a);
            && SameDefinition(a.base, r)
            && (r.Revisited() || r.id !in w.live)
            && (Occupying(r) ==> Occupying(a.base))
            && (r.ReservesPort() || |r.sources| == 0 || !Lists(w.acl, r.id))
  {
  }

  lemma StoreKeepsInv(w: World, r: TunnelResource, p: Persist)
    requires Inv(w) && GoodStore(w, r)
    ensures Inv(StoreTunnel(w, r, p))
  {
    var w' := StoreTunnel(w, r, p);
    StoreKeepsGood(w.mem, r, w.clock);
    StoreKeepsPorts(w.mem, r);
    StoreKeepsAclFresh(w, r);
    assert Agree(w'.mem, w'.disk);
  }

  lemma StoreKeepsGood(m: Memory, r: TunnelResource, clock: Time)
    requires GoodMemory(m, clock) && GoodRecord(r, clock)
    ensures GoodMemory(WithTunnel(m, r), clock)
  {
  }

  lemma StoreKeepsPorts(m: Memory, r: TunnelResource)
    requires PortsExclusive(m) && (Occupying(r) ==> PortUnoccupied(m, r))
    ensures PortsExclusive(WithTunnel(m, r))
  {
  }

  lemma StoreKeepsAclFresh(w: World, r: TunnelResource)
    requires AclFresh(w) && GoodStore(w, r)
    ensures AclFresh(w.(mem := WithTunnel(w.mem, r)))
  {
    if !r.NeedsAcl() {
      assert forall i :: 0 <= i < |w.acl| ==> w.acl[i].id != r.id;
    }
  }

  // ---------------------------------------------------------------------------------------
  // The other actions
  // ---------------------------------------------------------------------------------------

  lemma TickKeepsInv(w: World, clock: Time)
    requires Inv(w) && w.clock <= clock
    ensures Inv(w.(clock := clock))
  {
    GoodLater(w.mem, w.clock, clock);
    GoodLater(w.disk, w.clock, clock);
  }

  lemma FailClosedAllIsGood(m: Memory, e: string, clock: Time)
    requires GoodMemory(m, clock) && clock > ZERO_TIME
    ensures GoodMemory(FailClosedAll(m, e, clock), clock)
  {
    forall id | id in m.tunnels && |m.tunnels[id].sources| > 0 && m.tunnels[id].state in {Active, Provisioning}
      ensures GoodRecord(FailedClosed(m.tunnels[id], e, clock), clock)
    {
      ChangeIsGood(m.tunnels[id], FailedClosed(m.tunnels[id], e, clock), clock);
    }
  }

  lemma FailClosedStillAgrees(mem: Memory, disk: Memory, e: string, clock: Time)
    requires Agree(mem, disk) && GoodMemory(mem, clock) && GoodMemory(disk, clock)
    ensures Agree(FailClosedAll(mem, e, clock), disk)
  {
  }

  lemma FailClosedKeepsShape(m: Memory, e: string, clock: Time)
    ensures var n := FailClosedAll(m, e, clock);
            && n.tunnels.Keys == m.tunnels.Keys
            && forall id :: id in m.tunnels ==>
                 && SameDefinition(n.tunnels[id], m.tunnels[id])
                 && n.tunnels[id].Revisited() == m.tunnels[id].Revisited()
                 && Occupying(n.tunnels[id]) == Occupying(m.tunnels[id])
                 && n.tunnels[id].NeedsAcl() == m.tunnels[id].NeedsAcl()
  {
  }

  lemma FailClosedKeepsInv(w: World, e: string, p: Persist)
    requires Inv(w)
    ensures Inv(WriteSticky(w, FailClosedAll(w.mem, e, w.clock), p))
  {
    FailClosedAllIsGood(w.mem, e, w.clock);
    FailClosedStillAgrees(w.mem, w.disk, e, w.clock);
    FailClosedKeepsShape(w.mem, e, w.clock);
    ShapeKeepsInv(w, FailClosedAll(w.mem, e, w.clock), p);
  }

  lemma ShapeKeepsInv(w: World, m: Memory, p: Persist)
    requires Inv(w) && GoodMemory(m, w.clock) && Agree(m, w.disk)
    requires m.tunnels.Keys == w.mem.tunnels.Keys
    requires forall id :: id in m.tunnels ==>
                 && SameDefinition(m.tunnels[id], w.mem.tunnels[id])
                 && m.tunnels[id].Revisited() == w.mem.tunnels[id].Revisited()
                 && Occupying(m.tunnels[id]) == Occupying(w.mem.tunnels[id])
                 && m.tunnels[id].NeedsAcl() == w.mem.tunnels[id].NeedsAcl()
    ensures Inv(WriteSticky(w, m, p))
  {
    assert Agree(m, m) by { AgreeWithSelf(m); }
    ShapeKeepsPorts(w.mem, m);
    ShapeKeepsAcl(w, m);
    ShapeKeepsWriteAhead(w, m);
  }

  lemma ShapeKeepsPorts(n: Memory, m: Memory)
    requires PortsExclusive(n) && m.tunnels.Keys == n.tunnels.Keys
    requires forall id :: id in m.tunnels ==>
               SameDefinition(m.tunnels[id], n.tunnels[id]) && Occupying(m.tunnels[id]) == Occupying(n.tunnels[id])
    ensures PortsExclusive(m)
  {
  }

  lemma ShapeKeepsAcl(w: World, m: Memory)
    requires AclFresh(w) && m.tunnels.Keys == w.mem.tunnels.Keys
    requires forall id :: id in m.tunnels ==>
               SameDefinition(m.tunnels[id], w.mem.tunnels[id]) && m.tunnels[id].NeedsAcl() == w.mem.tunnels[id].NeedsAcl()
    ensures AclFresh(w.(mem := m))
  {
  }

  lemma ShapeKeepsWriteAhead(w: World, m: Memory)
    requires WriteAhead(w) && m.tunnels.Keys == w.mem.tunnels.Keys
    requires forall id :: id in m.tunnels ==> m.tunnels[id].Revisited() == w.mem.tunnels[id].Revisited()
    ensures WriteAhead(w.(mem := m)) && WriteAhead(w.(mem := m, disk := m))
  {
  }

  lemma AgreeWithSelf(m: Memory)
    ensures Agree(m, m)
  {
  }

  lemma AgentAddKeepsInv(w: World, id: string)
    requires Inv(w) && id in w.mem.tunnels && w.mem.tunnels[id].Revisited()
    ensures Inv(w.(live := w.live + {id}))
  {
    assert Current(w.mem.tunnels[id], w.disk.tunnels[id]);
  }

  lemma InstallAclKeepsInv(w: World, list: seq<AclEntry>, exclude: string)
    requires Inv(w) && IsAclList(list, w.mem.tunnels, exclude)
    ensures Inv(w.(acl := list))
  {
  }

  lemma RestartKeepsInv(w: World)
    requires Inv(w)
    ensures Inv(w.(mem := w.disk, holder := None))
  {
    RestartKeepsAclFresh(w);
    assert Agree(w.disk, w.disk);
  }

  lemma RestartKeepsAclFresh(w: World)
    requires AclFresh(w) && Agree(w.mem, w.disk)
    ensures AclFresh(w.(mem := w.disk, holder := None))
  {
    forall id | id in w.mem.tunnels
      ensures w.disk.tunnels[id].NeedsAcl() == w.mem.tunnels[id].NeedsAcl()
      ensures w.disk.tunnels[id].Entry() == w.mem.tunnels[id].Entry()
    {
      assert Current(w.mem.tunnels[id], w.disk.tunnels[id]);
    }
  }

  ghost predicate GoodEntries(entries: map<string, Schedule>) {
    forall key :: key in entries ==> entries[key].key == key && PersistableSchedule(entries[key])
  }

  /** Changing schedules or the token leaves everything about tunnels alone. */
  lemma EntriesKeepInv(w: World, mem: Memory, disk: Memory)
    requires Inv(w) && GoodEntries(mem.entries) && GoodEntries(disk.entries)
    requires GoodToken(mem.token) && mem.token == disk.token && mem.entries.Keys == disk.entries.Keys
    requires forall key :: key in mem.entries ==> SameSchedule(mem.entries[key], disk.entries[key])
    requires mem.tunnels == w.mem.tunnels && (disk.tunnels == w.disk.tunnels || disk == mem)
    ensures Inv(w.(mem := mem, disk := disk))
  {
    assert GoodMemory(mem, w.clock) && GoodMemory(disk, w.clock);
    assert Agree(mem, disk);
  }

  lemma PutScheduleKeepsInv(w: World, s: Schedule, p: Persist)
    requires Inv(w) && PersistableSchedule(s)
    ensures Inv(Write(w, w.mem.(entries := w.mem.entries[s.key := s]), p))
  {
    if !p.NotCommitted? {
      var m := w.mem.(entries := w.mem.entries[s.key := s]);
      EntriesKeepInv(w, m, m);
    }
  }

  lemma DropScheduleKeepsInv(w: World, key: string, p: Persist)
    requires Inv(w)
    ensures Inv(Write(w, w.mem.(entries := w.mem.entries - {key}), p))
  {
    if !p.NotCommitted? {
      var m := w.mem.(entries := w.mem.entries - {key});
      EntriesKeepInv(w, m, m);
    }
  }

  lemma SetTokenKeepsInv(w: World, token: string, p: Persist)
    requires Inv(w) && GoodToken(token)
    ensures Inv(Write(w, w.mem.(token := token), p))
  {
    if !p.NotCommitted? {
      var m := w.mem.(token := token);
      EntriesKeepInv(w, m, m);
    }
  }

  lemma RetryKeepsInv(w: World, key: string, now: Time, p: Persist)
    requires Inv(w) && key in w.mem.entries
    ensures Inv(WriteSticky(w, w.mem.(entries := w.mem.entries[key := Retried(w.mem.entries[key], now)]), p))
  {
    var m := w.mem.(entries := w.mem.entries[key := Retried(w.mem.entries[key], now)]);
    RetriedIsGood(w.mem.entries, w.disk.entries, key, now);
    if p.NotCommitted? {
      EntriesKeepInv(w, m, w.disk);
    } else {
      EntriesKeepInv(w, m, m);
    }
  }

  lemma RetriedIsGood(entries: map<string, Schedule>, stored: map<string, Schedule>, key: string, now: Time)
    requires GoodEntries(entries) && key in entries && entries.Keys == stored.Keys
    requires forall k :: k in entries ==> SameSchedule(entries[k], stored[k])
    ensures var retried := entries[key := Retried(entries[key], now)];
            && GoodEntries(retried) && retried.Keys == stored.Keys
            && forall k :: k in retried ==> SameSchedule(retried[k], stored[k])
  {
  }

  lemma FinishAttemptKeepsInv(w: World, entry: Schedule, removed: bool, now: Time, p: Persist)
    requires Inv(w)
    ensures Inv(AfterAttempt(w, entry, removed, now, p))
  {
    if entry.key in w.mem.entries && w.mem.entries[entry.key].notAfter == entry.notAfter {
      RetryKeepsInv(w, entry.key, now, p);
      DropScheduleKeepsInv(w, entry.key, p);
    }
  }

  lemma AgentRemoveKeepsInv(w: World, id: string)
    requires Inv(w)
    ensures Inv(w.(live := w.live - {id}))
  {
  }

  lemma LockKeepsInv(w: World, holder: Option<Time>, read: map<string, TunnelResource>)
    requires Inv(w) && holder in {None, Some(w.clock)}
    ensures Inv(w.(holder := holder, read := read))
  {
  }

  lemma TableLostKeepsInv(w: World)
    requires Inv(w)
    ensures Inv(w.(acl := []))
  {
  }

  // ---------------------------------------------------------------------------------------
  // Every step keeps every invariant
  // ---------------------------------------------------------------------------------------

  /** The invariant is inductive: every action, with every way its writes and calls can end. */
  lemma StepKeepsInv(w: World, a: Action, w': World)
    requires Inv(w) && Step(w, a, w')
    ensures Inv(w')
  {
    if StoresTunnel(a) {
      StoredIsNext(w, a, w');
      StoredIsGoodStore(w, a);
      StoreKeepsInv(w, Stored(w, a), a.p);
    } else {
      match a
      case Tick => TickKeepsInv(w, w'.clock);
      case Acquire => LockKeepsInv(w, Some(w.clock), w.mem.tunnels);
      case Release => LockKeepsInv(w, None, w.read);
      case FailClosed(e, p) => FailClosedKeepsInv(w, e, p);
      case AgentAdd(id, effect) => AgentAddKeepsInv(w, id);
      case AgentRemove(id, effect) => AgentRemoveKeepsInv(w, id);
      case InstallAcl(list, exclude, effect) => InstallAclKeepsInv(w, list, exclude);
      case TableLost => TableLostKeepsInv(w);
      case PutSchedule(s, p) => PutScheduleKeepsInv(w, s, p);
      case DropSchedule(key, p) => DropScheduleKeepsInv(w, key, p);
      case FinishAttempt(entry, removed, now, p) => FinishAttemptKeepsInv(w, entry, removed, now, p);
      case SetToken(token, p) => SetTokenKeepsInv(w, token, p);
      case Restart => RestartKeepsInv(w);
    }
  }
}
