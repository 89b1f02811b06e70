/** How the steps of one operation follow each other, and which of them send the scheduler a
    message. The operations lock admits one operation at a time, so its position is a function of
    the steps taken so far. */
module Operations {
  import opened Base
  import opened TunnelModel
  import opened Schedules
  import opened GuardMachine
  import opened GuardInvariants
  import opened GuardRuns
  import opened GuardInterference

  /** Where the operation that holds the lock has got to: begun, the intent to run `id` recorded,
      `id` exposed but not recorded as active, the intent to take `id` down recorded by a request
      or by the scheduler, or past its last record. One operation is about one tunnel. `owes` says
      that it sends a message before it gives the lock back. */
  datatype Progress =
    | Idle
    | Started
    | Granting(id: string)
    | Unrecorded(id: string)
    | Removing(id: string)
    | Lapsing(id: string)
    | Over(id: string, owes: bool)

  /** Steps that do not move the operation in flight. */
  predicate Neutral(a: Action) {
    FromOutside(a) || a.TableLost? || a.InstallAcl?
  }

  /** The operation in flight after one more step; None when no operation goes on so. */
  function Advance(p: Progress, a: Action): Option<Progress> {
    if Neutral(a) then Some(p)
    else
      match a
      case Acquire => if p.Idle? then Some(Started) else None
      case Release => if p.Started? || p.Over? then Some(Idle) else None
      case Restart => Some(Idle)
      case AgentAdd(id, effect) => if p == Granting(id) then Some(p) else None
      case AgentRemove(id, effect) =>
        if p.Started? then Some(Lapsing(id))
        else if p in {Removing(id), Lapsing(id)} || (p.Over? && p.id == id) then Some(p)
        else None
      case Provision(r, q) =>
        if p.Started? then Some(if q.Committed? then Granting(r.id) else Over(r.id, true)) else None
      case Renew(b, until, q) => if p.Started? then Some(Over(b.id, q.Committed?)) else None
      case BeginCleanup(b, generation, terminal, q) =>
        if p.Started? then Some(if q.Committed? then Removing(b.id) else Over(b.id, false)) else None
      case BeginExpiry(b, q) =>
        if p.Started? then Some(if q.Committed? then Lapsing(b.id) else Over(b.id, false)) else None
      case Annotate(b, e, q) => if p == Granting(b.id) then Some(Over(b.id, true)) else None
      case Withdraw(b, next, e, at, q) =>
        if p == Granting(b.id) || p == Unrecorded(b.id) then Some(Over(b.id, true)) else None
      case Activate(b, q) =>
        if p == Granting(b.id) then Some(if q.Committed? then Over(b.id, false) else Unrecorded(b.id)) else None
      case Postpone(b, attempts, next, e, at, q) =>
        if p == Removing(b.id) then Some(Over(b.id, true))
        else if p == Lapsing(b.id) then Some(Over(b.id, false))
        else None
      case Finish(b, q) =>
        if p == Removing(b.id) then Some(Over(b.id, !q.Committed?))
        else if p == Lapsing(b.id) then Some(Over(b.id, false))
        else None
      case _ => None
  }

  /** Others may do their steps, and the table be lost, at any point of an operation. */
  lemma OthersAnytime(p: Progress, a: Action)
    requires a.Tick? || a.TableLost? || a.FailClosed? || a.PutSchedule? || a.DropSchedule? || a.FinishAttempt? || a.SetToken?
    ensures Advance(p, a) == Some(p)
  {
  }

  predicate Owing(p: Progress) {
    p.Over? && p.owes
  }

  /** Whether the scheduler gets a message at this step: an operation sends the one it owes before
      it gives the lock back, a request that stored or cleared a deadline sends one when its write
      succeeded, and a fail-closed pass when it withdrew something. */
  predicate Rings(w: World, p: Progress, a: Action) {
    match a
    case Release => Owing(p)
    case PutSchedule(s, q) => q.Committed?
    case DropSchedule(key, q) => q.Committed?
    case FailClosed(e, q) => FailClosedAll(w.mem, e, w.clock) != w.mem
    case _ => false
  }

  /** The operation in flight after the first `k` steps of a history. */
  function Walk(steps: seq<Action>, k: nat): Option<Progress>
    requires k <= |steps|
  {
    if k == 0 then Some(Idle)
    else
      var before := Walk(steps, k - 1);
      if before.None? then None else Advance(before.value, steps[k - 1])
  }

  lemma {:induction false} WalkOfPrefix(steps: seq<Action>, longer: seq<Action>, k: nat)
    requires steps <= longer && k <= |steps|
    ensures Walk(longer, k) == Walk(steps, k)
  {
    if k > 0 {
      WalkOfPrefix(steps, longer, k - 1);
    }
  }

  /** The steps so far are those of whole operations one after the other, and of one at `p`. */
  ghost predicate Operated(steps: seq<Action>, p: Progress) {
    Walk(steps, |steps|) == Some(p)
  }

  lemma OperatedGrows(steps: seq<Action>, p: Progress, a: Action)
    requires Operated(steps, p) && Advance(p, a).Some?
    ensures Operated(steps + [a], Advance(p, a).value)
  {
    WalkOfPrefix(steps, steps + [a], |steps|);
  }

  lemma EndedAdvances(p: Progress, a: Action, q: Persist)
    requires StoresTunnel(a) && Advance(p, a).Some?
    ensures Advance(p, Ended(a, q)).Some? && !Advance(p, Ended(a, q)).value.Idle?
  {
  }

  /** A process that starts on what another left behind has no operation in flight. */
  lemma RestartResumes(ws: seq<World>, ss: seq<Action>, w: World)
    requires History(ws, ss, w) && Walk(ss, |ss|).Some?
    ensures var w' := w.(mem := w.disk, holder := None);
            History(ws + [w'], ss + [Restart], w') && Operated(ss + [Restart], Idle)
  {
    HistoryGrows(ws, ss, w, Restart, w.(mem := w.disk, holder := None));
    OperatedGrows(ss, Walk(ss, |ss|).value, Restart);
  }

  /** The history ends with an operation that sent a message. */
  ghost predicate SentAtTheEnd(steps: seq<Action>) {
    |steps| > 0 && steps[|steps| - 1].Release?
    && Walk(steps, |steps| - 1).Some? && Owing(Walk(steps, |steps| - 1).value)
  }

  lemma EndsSending(steps: seq<Action>, p: Progress)
    requires Operated(steps, p)
    ensures SentAtTheEnd(steps + [Release]) <==> Owing(p)
  {
    WalkOfPrefix(steps, steps + [Release], |steps|);
  }

  lemma StepKeepsIdle(w: World, p: Progress, a: Action, w': World)
    requires Step(w, a, w') && Advance(p, a).Some? && (p.Idle? <==> w.holder.None?)
    ensures Advance(p, a).value.Idle? <==> w'.holder.None?
  {
  }

  /** No operation is in flight exactly when the lock is free. */
  lemma {:induction false} IdleIffFree(ws: seq<World>, steps: seq<Action>, k: nat)
    requires IsRun(ws, steps) && Initial(ws[0]) && k <= |steps| && Walk(steps, k).Some?
    ensures Walk(steps, k) == Some(Idle) <==> ws[k].holder.None?
  {
    if k > 0 {
      IdleIffFree(ws, steps, k - 1);
      StepKeepsIdle(ws[k - 1], Walk(steps, k - 1).value, steps[k - 1], ws[k]);
    }
  }

  // ---------------------------------------------------------------------------------------
  // One operation, one tunnel
  // ---------------------------------------------------------------------------------------

  /** The operation is about `id`, or has not turned to any tunnel yet. */
  predicate On(p: Progress, id: string) {
    p.Started? || p in {Granting(id), Unrecorded(id), Removing(id), Lapsing(id)} || (p.Over? && p.id == id)
  }

  /** The step is about `id`, or about no single tunnel. */
  predicate Regards(a: Action, id: string) {
    match a
    case Provision(r, _) => r.id == id
    case AgentAdd(x, _) => x == id
    case AgentRemove(x, _) => x == id
    case _ => StoresTunnel(a) ==> a.base.id == id
  }

  /** A step of an operation that is about `id` afterwards was about `id` before. */
  lemma AdvanceIsOnOne(p: Progress, a: Action, p': Progress, id: string)
    requires Advance(p, a) == Some(p') && !Locks(a) && On(p', id)
    ensures On(p, id) && Regards(a, id)
  {
  }

  /** ... and touches no other tunnel. */
  lemma StepIsOnOne(w: World, a: Action, w': World, id: string)
    requires Inv(w) && Step(w, a, w') && !Locks(a) && Regards(a, id)
    ensures OthersKept(w, w', id)
  {
    if StoresTunnel(a) {
      StoredIsNext(w, a, w');
      StoreKeepsOthers(w, a, id);
    } else if FromOutside(a) {
      OutsideStepInterferes(w, a, w');
    } else {
      CallsKeepRecords(w, a, w');
    }
  }

  lemma CallsKeepRecords(w: World, a: Action, w': World)
    requires Step(w, a, w') && !StoresTunnel(a) && !FromOutside(a) && !Locks(a)
    ensures w'.mem == w.mem
    ensures w'.live == w.live || ((a.AgentAdd? || a.AgentRemove?) && w'.live in {w.live + {a.id}, w.live - {a.id}})
  {
  }

  lemma StoreKeepsOthers(w: World, a: Action, id: string)
    requires StoresTunnel(a) && Enabled(w, a) && id == if a.Provision? then a.record.id else a.base.id
    ensures OthersKept(w, StoreTunnel(w, Stored(w, a), a.p), id)
  {
  }

  lemma OthersKeptTransitive(a: World, b: World, c: World, id: string)
    requires OthersKept(a, b, id) && OthersKept(b, c, id)
    ensures OthersKept(a, c, id)
  {
    forall other | other != id && other in a.mem.tunnels ensures Current(c.mem.tunnels[other], a.mem.tunnels[other]) {
      CurrentTransitive(c.mem.tunnels[other], b.mem.tunnels[other], a.mem.tunnels[other]);
    }
  }

  ghost predicate Unlocked(steps: seq<Action>, i: nat, j: nat)
    requires j <= |steps|
  {
    forall k :: i <= k < j ==> !Locks(steps[k])
  }

  /** An operation touches only the tunnel that it is about. */
  lemma {:induction false} OperationIsOnOne(ws: seq<World>, steps: seq<Action>, i: nat, j: nat, id: string)
    requires IsRun(ws, steps) && Initial(ws[0]) && i <= j <= |steps| && Unlocked(steps, i, j)
    requires Walk(steps, j).Some? && On(Walk(steps, j).value, id)
    ensures OthersKept(ws[i], ws[j], id)
    decreases j
  {
    if i < j {
      WasOnOne(steps, j, id);
      OperationIsOnOne(ws, steps, i, j - 1, id);
      KeptOneMore(ws, steps, i, j, id);
    } else {
      NothingKeepsOthers(ws[i], id);
    }
  }

  lemma NothingKeepsOthers(w: World, id: string)
    ensures OthersKept(w, w, id)
  {
  }

  lemma MoveIsOnOne(w: World, p: Progress, a: Action, w': World, p': Progress, id: string)
    requires Inv(w) && Step(w, a, w') && Advance(p, a) == Some(p') && !Locks(a) && On(p', id)
    ensures On(p, id) && OthersKept(w, w', id)
  {
    AdvanceIsOnOne(p, a, p', id);
    StepIsOnOne(w, a, w', id);
  }

  lemma WasOnOne(steps: seq<Action>, j: nat, id: string)
    requires 0 < j <= |steps| && !Locks(steps[j - 1]) && Walk(steps, j).Some? && On(Walk(steps, j).value, id)
    ensures Walk(steps, j - 1).Some? && On(Walk(steps, j - 1).value, id)
  {
    AdvanceIsOnOne(Walk(steps, j - 1).value, steps[j - 1], Walk(steps, j).value, id);
  }

  lemma KeptOneMore(ws: seq<World>, steps: seq<Action>, i: nat, j: nat, id: string)
    requires IsRun(ws, steps) && Initial(ws[0]) && i < j < |ws| && !Locks(steps[j - 1])
    requires Walk(steps, j).Some? && On(Walk(steps, j).value, id) && OthersKept(ws[i], ws[j - 1], id)
    ensures OthersKept(ws[i], ws[j], id)
  {
    RunKeepsInvFromStart(ws, steps, j - 1);
    MoveIsOnOne(ws[j - 1], Walk(steps, j - 1).value, steps[j - 1], ws[j], Walk(steps, j).value, id);
    OthersKeptTransitive(ws[i], ws[j - 1], ws[j], id);
  }

  lemma RunKeepsInvFromStart(ws: seq<World>, steps: seq<Action>, i: nat)
    requires IsRun(ws, steps) && Initial(ws[0]) && i < |ws|
    ensures Inv(ws[i])
  {
    InitialIsGood(ws[0]);
    RunKeepsInv(ws, steps, i);
  }

  lemma OperationKeepsOthers(ws: seq<World>, ss: seq<Action>, w: World, ws': seq<World>, ss': seq<Action>, w': World,
                             p: Progress, id: string)
    requires History(ws, ss, w) && History(ws', ss', w') && Goes(ws, ss, ws', ss') && Operated(ss', p) && On(p, id)
    ensures OthersKept(w, w', id)
  {
    OperationIsOnOne(ws', ss', |ss|, |ss'|, id);
  }
}
