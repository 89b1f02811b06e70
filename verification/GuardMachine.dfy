/** The expiry guard as a state machine. A world holds what the guard keeps in memory, what its
    last renamed state file holds, which managed inbounds the Agent exposes, the nftables table
    last installed, the clock, and who holds the tunnel-operations lock. Every action is one
    instant at which another goroutine, or a crash, can see the result. */
module GuardMachine {
  import opened Base
  import opened SourceAcl
  import opened TunnelModel
  import opened Schedules

  datatype Memory = Memory(
    token: string,
    entries: map<string, Schedule>,
    tunnels: map<string, TunnelResource>)

  /** `live` is the set of resources whose tag is present in the Agent's configuration or
      runtime; `holder` is the clock reading with which the operation that holds the
      tunnel-operations lock started, and `read` what memory held then, without the records that
      this operation has stored since. */
  datatype World = World(
    mem: Memory,
    disk: Memory,
    live: set<string>,
    acl: seq<AclEntry>,
    clock: Time,
    holder: Option<Time>,
    read: map<string, TunnelResource>)

  /** Writing the state file: renamed and synced, renamed but the directory sync failed, or
      not renamed. */
  datatype Persist = Committed | CommittedWithError | NotCommitted

  datatype Action =
    | Tick
    | Acquire
    | Release
    | Provision(record: TunnelResource, p: Persist)
    | Renew(base: TunnelResource, leaseUntil: Time, p: Persist)
    | Activate(base: TunnelResource, p: Persist)
    | Withdraw(base: TunnelResource, next: Time, lastError: string, updatedAt: Time, p: Persist)
    | Annotate(base: TunnelResource, lastError: string, p: Persist)
    | BeginCleanup(base: TunnelResource, generation: nat, terminal: State, p: Persist)
    | BeginExpiry(base: TunnelResource, p: Persist)
    | Postpone(base: TunnelResource, attempts: nat, next: Time, lastError: string, updatedAt: Time, p: Persist)
    | Finish(base: TunnelResource, p: Persist)
    | FailClosed(cause: string, p: Persist)
    | AgentAdd(id: string, effect: bool)
    | AgentRemove(id: string, effect: bool)
    | InstallAcl(list: seq<AclEntry>, exclude: string, effect: bool)
    | TableLost
    | PutSchedule(schedule: Schedule, p: Persist)
    | DropSchedule(key: string, p: Persist)
    | FinishAttempt(entry: Schedule, removed: bool, now: Time, p: Persist)
    | SetToken(token: string, p: Persist)
    | Restart

  // ---------------------------------------------------------------------------------------
  // Effects
  // ---------------------------------------------------------------------------------------

  /** A change of memory that is rolled back when the file was not renamed. */
  function Write(w: World, m: Memory, p: Persist): World {
    if p.NotCommitted? then w else w.(mem := m, disk := m)
  }

  /** A change of memory that stays even when the file was not renamed. */
  function WriteSticky(w: World, m: Memory, p: Persist): World {
    if p.NotCommitted? then w.(mem := m) else w.(mem := m, disk := m)
  }

  function WithTunnel(m: Memory, r: TunnelResource): Memory {
    m.(tunnels := m.tunnels[r.id := r])
  }

  function StoreTunnel(w: World, r: TunnelResource, p: Persist): World {
    Write(w.(read := w.read - {r.id}), WithTunnel(w.mem, r), p)
  }

  /** State and bookkeeping fields of one record fit together. */
  predicate Coherent(r: TunnelResource) {
    match r.state
    case Provisioning => r.cleanupTerminal == Some(Suspended)
    case Active => r.cleanupTerminal == None && r.nextAttemptAt == None
    case SuspendPending => r.cleanupTerminal == Some(Suspended)
    case DeletePending => r.cleanupTerminal == Some(Deleted)
    case ExpiryPending => r.cleanupTerminal in {Some(Expired), Some(Suspended)}
    case _ => r.cleanupTerminal == None && r.nextAttemptAt == None
  }

  predicate GoodRecord(r: TunnelResource, clock: Time) {
    Persistable(r) && Coherent(r) && ZERO_TIME < r.updatedAt <= clock && r.leaseUntil <= r.updatedAt + MAX_LEASE
  }

  /** `m` is what failing closed makes of the good record `b`, whatever the cause and instant. */
  predicate FailClosedFrom(m: TunnelResource, b: TunnelResource) {
    b.state in {Active, Provisioning} && |b.sources| > 0 && GoodRecord(b, m.updatedAt)
    && m == FailedClosed(b, m.lastError, m.updatedAt)
  }

  function FailedClosed(b: TunnelResource, lastError: string, now: Time): TunnelResource {
    b.(state := ExpiryPending, cleanupTerminal := Some(Suspended), lastError := lastError,
       updatedAt := now, nextAttemptAt := None, attempts := 0)
  }

  /** `m` is `b`, except that a concurrent fail-closed pass may have withdrawn it. */
  predicate Current(m: TunnelResource, b: TunnelResource) {
    m == b || FailClosedFrom(m, b)
  }

  predicate Holds(m: Memory, b: TunnelResource) {
    b.id in m.tunnels && Current(m.tunnels[b.id], b)
  }

  predicate MustClose(r: TunnelResource) {
    |r.sources| > 0 && r.state in {Active, Provisioning}
  }

  function ClosedIfRestricted(r: TunnelResource, lastError: string, now: Time): TunnelResource {
    if MustClose(r) then FailedClosed(r, lastError, now) else r
  }

  function FailClosedAll(m: Memory, lastError: string, now: Time): Memory {
    m.(tunnels := map id | id in m.tunnels :: ClosedIfRestricted(m.tunnels[id], lastError, now))
  }

  lemma FailClosedAllChanges(m: Memory, lastError: string, now: Time)
    ensures FailClosedAll(m, lastError, now) != m <==> exists id :: id in m.tunnels && MustClose(m.tunnels[id])
  {
    if id :| id in m.tunnels && MustClose(m.tunnels[id]) {
      assert FailClosedAll(m, lastError, now).tunnels[id].state != m.tunnels[id].state;
    } else {
      assert FailClosedAll(m, lastError, now).tunnels == m.tunnels;
    }
  }

  function Provisioned(r: TunnelResource): TunnelResource {
    r.(cleanupTerminal := Some(Suspended))
  }

  function Renewed(b: TunnelResource, leaseUntil: Time, now: Time): TunnelResource {
    b.(leaseUntil := leaseUntil, updatedAt := now, lastError := "")
  }

  function Activated(b: TunnelResource, now: Time): TunnelResource {
    b.(state := Active, cleanupTerminal := None, lastError := "", nextAttemptAt := None, updatedAt := now)
  }

  function Withdrawn(b: TunnelResource, next: Time, lastError: string, now: Time): TunnelResource {
    b.(state := Provisioning, cleanupTerminal := Some(Suspended), lastError := lastError,
       nextAttemptAt := Some(next), updatedAt := now)
  }

  function PendingState(terminal: State): State {
    if terminal == Suspended then SuspendPending else DeletePending
  }

  function CleaningUp(b: TunnelResource, generation: nat, terminal: State, now: Time): TunnelResource {
    b.(generation := generation, state := PendingState(terminal), cleanupTerminal := Some(terminal),
       attempts := 0, nextAttemptAt := None, lastError := "", updatedAt := now)
  }

  function Expiring(b: TunnelResource, now: Time): TunnelResource {
    b.(state := ExpiryPending, cleanupTerminal := Some(Expired), updatedAt := now,
       attempts := 0, nextAttemptAt := None)
  }

  function Postponed(b: TunnelResource, attempts: nat, next: Time, lastError: string, now: Time): TunnelResource {
    b.(attempts := attempts, nextAttemptAt := Some(next), lastError := lastError, updatedAt := now)
  }

  function Finished(b: TunnelResource, now: Time): TunnelResource {
    b.(state := if b.cleanupTerminal.None? then Suspended else b.cleanupTerminal.value,
       cleanupTerminal := None, attempts := 0, nextAttemptAt := None, lastError := "", updatedAt := now)
  }

  function Retried(s: Schedule, now: Time): Schedule {
    s.(attempts := s.attempts + 1, nextAttemptAt := Some(now + RetryDelay(s.attempts + 1)))
  }

  function AfterAttempt(w: World, entry: Schedule, removed: bool, now: Time, p: Persist): World {
    if entry.key !in w.mem.entries || w.mem.entries[entry.key].notAfter != entry.notAfter then w
    else
      var current := w.mem.entries[entry.key];
      if !removed then
        WriteSticky(w, w.mem.(entries := w.mem.entries[entry.key := Retried(current, now)]), p)
      else if p.NotCommitted? then
        w.(mem := w.mem.(entries := w.mem.entries[entry.key := Retried(current, now)]))
      else
        Write(w, w.mem.(entries := w.mem.entries - {entry.key}), p)
  }

  // ---------------------------------------------------------------------------------------
  // Guards
  // ---------------------------------------------------------------------------------------

  predicate GoodToken(token: string) {
    token != "" && Trim(token) == token
  }

  /** checkDurablePort */
  predicate PortFree(m: Memory, r: TunnelResource) {
    forall id :: id in m.tunnels && id != r.id && m.tunnels[id].ReservesPort()
      ==> m.tunnels[id].network != r.network || m.tunnels[id].listenPort != r.listenPort
  }

  /** A record as an admitted request asks for it, read at `now`. */
  predicate Fresh(r: TunnelResource, now: Time) {
    Persistable(r) && Coherent(r) && r.state.Provisioning? && r.attempts == 0 && r.nextAttemptAt == None
    && r.updatedAt == now && now < r.EffectiveNotAfter() && r.leaseUntil <= now + MAX_LEASE
  }

  lemma AdmittedIsFresh(q: ApplyRequest, now: Time)
    requires now > ZERO_TIME && Normalize(q, now).Ok?
    ensures Fresh(Provisioned(Normalize(q, now).value), now)
  {
    NormalizedIsPersistable(q, now);
  }

  /** What an existing record must satisfy before a newer generation may take over its ID. */
  predicate MayReplace(b: TunnelResource, r: TunnelResource) {
    b.state !in {Deleted, DeletePending} && r.generation > b.generation && SameDefinition(b, r)
  }

  /** The record already is, or is already on its way to, the requested terminal state. */
  predicate AlreadyHeading(b: TunnelResource, terminal: State) {
    b.state == terminal || (b.Pending() && b.cleanupTerminal == Some(terminal))
  }

  predicate EntryBefore(a: AclEntry, b: AclEntry) {
    a.port < b.port || (a.port == b.port && Before(a.id, b.id))
  }

  /** The list the guard hands to the compiler: every resource that needs a source ACL, except
      the excluded one, ordered by port and then by ID. */
  ghost predicate IsAclList(list: seq<AclEntry>, tunnels: map<string, TunnelResource>, exclude: string) {
    (forall i :: 0 <= i < |list| ==>
      list[i].id in tunnels && list[i].id != exclude && tunnels[list[i].id].NeedsAcl()
      && list[i] == tunnels[list[i].id].Entry())
    && (forall id :: id in tunnels && id != exclude && tunnels[id].NeedsAcl() ==> tunnels[id].Entry() in list)
    && (forall i, j :: 0 <= i < j < |list| ==> EntryBefore(list[i], list[j]))
  }

  ghost predicate Covers(acl: seq<AclEntry>, r: TunnelResource) {
    |r.sources| > 0 ==> r.Entry() in acl
  }

  predicate Lists(acl: seq<AclEntry>, id: string) {
    exists i :: 0 <= i < |acl| && acl[i].id == id
  }

  /** When an action may happen. What requires a holder is done by the operation that holds the
      tunnel-operations lock; everything else can come from any goroutine at any instant. */
  ghost predicate Enabled(w: World, a: Action) {
    match a
    case Tick => true
    case Acquire => w.holder.None?
    case Release => w.holder.Some?
    case Provision(r, p) =>
      w.holder.Some? && Fresh(r, w.holder.value)
      && (r.id in w.mem.tunnels ==> MayReplace(w.mem.tunnels[r.id], r)) && PortFree(w.mem, r)
    case Renew(b, leaseUntil, p) =>
      w.holder.Some? && Holds(w.mem, b) && b.id in w.read && w.read[b.id] == b
      && b.state.Active? && b.EffectiveNotAfter() > w.holder.value
      && b.leaseUntil < leaseUntil <= w.holder.value + MAX_LEASE
    case Activate(b, p) =>
      w.holder.Some? && Holds(w.mem, b) && b.state.Provisioning? && b.id in w.live
    case Withdraw(b, next, e, updatedAt, p) =>
      w.holder.Some? && Holds(w.mem, b) && b.state in {Active, Provisioning} && b.updatedAt <= updatedAt <= w.clock
    case Annotate(b, e, p) =>
      w.holder.Some? && Holds(w.mem, b) && b.state.Provisioning?
    case BeginCleanup(b, generation, terminal, p) =>
      w.holder.Some? && Holds(w.mem, b) && terminal in {Suspended, Deleted} && generation >= b.generation
      && (terminal.Suspended? ==> b.state !in {Deleted, DeletePending})
      && !(generation == b.generation && AlreadyHeading(b, terminal))
    case BeginExpiry(b, p) =>
      w.holder.Some? && Holds(w.mem, b) && b.state.Active? && w.clock >= b.EffectiveNotAfter()
    case Postpone(b, attempts, next, e, updatedAt, p) =>
      w.holder.Some? && Holds(w.mem, b) && b.Revisited() && !b.state.Active? && b.updatedAt <= updatedAt <= w.clock
    case Finish(b, p) =>
      w.holder.Some? && Holds(w.mem, b) && b.Revisited() && !b.state.Active? && b.id !in w.live
      && (|b.sources| > 0 ==> !Lists(w.acl, b.id))
    case FailClosed(e, p) => true
    case AgentAdd(id, effect) =>
      w.holder.Some? && id in w.mem.tunnels && id in w.disk.tunnels
      && w.mem.tunnels[id].state in {Provisioning, ExpiryPending} && Covers(w.acl, w.mem.tunnels[id])
    case AgentRemove(id, effect) => w.holder.Some?
    case InstallAcl(list, exclude, effect) =>
      IsAclList(list, w.mem.tunnels, exclude) && exclude !in w.live
    case TableLost => true
    case PutSchedule(s, p) => PersistableSchedule(s)
    case DropSchedule(key, p) => true
    case FinishAttempt(entry, removed, now, p) => now <= w.clock
    case SetToken(token, p) => GoodToken(token)
    case Restart => true
  }

  function Next(w: World, a: Action, clock: Time): World {
    match a
    case Tick => w.(clock := clock)
    case Acquire => w.(holder := Some(w.clock), read := w.mem.tunnels)
    case Release => w.(holder := None)
    case Provision(r, p) => StoreTunnel(w, r, p)
    case Renew(b, leaseUntil, p) =>
      if w.holder.None? then w else StoreTunnel(w, Renewed(b, leaseUntil, w.holder.value), p)
    case Activate(b, p) => StoreTunnel(w, Activated(b, w.clock), p)
    case Withdraw(b, next, e, updatedAt, p) => StoreTunnel(w, Withdrawn(b, next, e, updatedAt), p)
    case Annotate(b, e, p) => StoreTunnel(w, b.(lastError := e), p)
    case BeginCleanup(b, generation, terminal, p) => StoreTunnel(w, CleaningUp(b, generation, terminal, w.clock), p)
    case BeginExpiry(b, p) => StoreTunnel(w, Expiring(b, w.clock), p)
    case Postpone(b, attempts, next, e, updatedAt, p) =>
      StoreTunnel(w, Postponed(b, attempts, next, e, updatedAt), p)
    case Finish(b, p) => StoreTunnel(w, Finished(b, w.clock), p)
    case FailClosed(e, p) =>
      if FailClosedAll(w.mem, e, w.clock) == w.mem then w
      else WriteSticky(w, FailClosedAll(w.mem, e, w.clock), p)
    case AgentAdd(id, effect) => if effect then w.(live := w.live + {id}) else w
    case AgentRemove(id, effect) => if effect then w.(live := w.live - {id}) else w
    case InstallAcl(list, exclude, effect) => if effect then w.(acl := list) else w
    case TableLost => w.(acl := [])
    case PutSchedule(s, p) => Write(w, w.mem.(entries := w.mem.entries[s.key := s]), p)
    case DropSchedule(key, p) => Write(w, w.mem.(entries := w.mem.entries - {key}), p)
    case FinishAttempt(entry, removed, now, p) => AfterAttempt(w, entry, removed, now, p)
    case SetToken(token, p) => Write(w, w.mem.(token := token), p)
    case Restart => w.(mem := w.disk, holder := None)
  }

  /** One step of the machine: only Tick moves the clock, and never backwards. */
  ghost predicate Step(w: World, a: Action, w': World) {
    Enabled(w, a) && w.clock <= w'.clock && (!a.Tick? ==> w'.clock == w.clock) && w' == Next(w, a, w'.clock)
  }
}
