/** One round of the scheduler: what it leaves of the items that were due, and why its inner loop
    cannot spin. */
module RoundProgress {
  import opened Base
  import opened TunnelModel
  import opened Schedules
  import opened GuardMachine
  import opened GuardInvariants
  import opened GuardRuns
  import opened GuardInterference
  import opened ScheduleRuns

  const SHORTEST: int := 5 * SECOND
  const LONGEST: int := 320 * SECOND

  /** A step of an undisturbed round that began at `began`: nobody changes schedules or tunnels
      besides, and every write is committed. */
  predicate CalmStep(a: Action, began: Time) {
    match a
    case Tick => true
    case Acquire => true
    case Release => true
    case AgentRemove(_, _) => true
    case InstallAcl(_, _, _) => true
    case FinishAttempt(_, _, now, p) => now >= began && p.Committed?
    case BeginExpiry(_, p) => p.Committed?
    case Postpone(_, _, _, _, _, p) => p.Committed?
    case Finish(_, p) => p.Committed?
    case _ => false
  }

  ghost predicate Calm(before: seq<Action>, after: seq<Action>, began: Time) {
    before <= after && forall k :: |before| <= k < |after| ==> CalmStep(after[k], began)
  }

  lemma CalmParts(u: seq<Action>, v: seq<Action>, w: seq<Action>, began: Time)
    requires u <= v <= w && Calm(u, w, began)
    ensures Calm(u, v, began) && Calm(v, w, began)
  {
    forall k | |u| <= k < |v| ensures CalmStep(v[k], began) {
      assert v[k] == w[k];
    }
  }

  // ---------------------------------------------------------------------------------------
  // Schedules
  // ---------------------------------------------------------------------------------------

  predicate Unmoved(m: Memory, key: string, notAfter: Time) {
    key in m.entries ==> m.entries[key].notAfter == notAfter
  }

  /** Gone, or due no earlier than `from` and no later than `until`. */
  predicate Rested(m: Memory, key: string, from: Time, until: Time) {
    key in m.entries ==> from <= m.entries[key].AttemptAt() <= until
  }

  predicate NotBefore(m: Memory, key: string, from: Time) {
    key in m.entries ==> m.entries[key].AttemptAt() >= from
  }

  lemma FinishedAt(w: World, entry: Schedule, removed: bool, now: Time, p: Persist, key: string)
    requires p.Committed? && key == entry.key && key in AfterAttempt(w, entry, removed, now, p).mem.entries
    ensures key in w.mem.entries
    ensures var s := AfterAttempt(w, entry, removed, now, p).mem.entries[key];
            s == w.mem.entries[key] || (s == Retried(w.mem.entries[key], now) && w.mem.entries[key].notAfter == entry.notAfter)
  {
  }

  /** A calm step moves no deadline, and makes nothing due that was not. */
  lemma CalmStepKeepsEntries(w: World, a: Action, w': World, began: Time, key: string)
    requires Step(w, a, w') && CalmStep(a, began)
    ensures key in w'.mem.entries ==>
              && key in w.mem.entries
              && w'.mem.entries[key].notAfter == w.mem.entries[key].notAfter
              && (w'.mem.entries[key] == w.mem.entries[key]
                  || (began + SHORTEST <= w'.mem.entries[key].AttemptAt()
                      && (w'.mem.entries[key].AttemptAt() == w.mem.entries[key].notAfter
                          || w'.mem.entries[key].AttemptAt() <= w'.clock + LONGEST)))
  {
    if TouchesEntries(a) {
      if a.entry.key == key && key in w'.mem.entries {
        FinishedAt(w, a.entry, a.removed, a.now, a.p, key);
        RetryDelayBounds(w.mem.entries[key].attempts + 1);
      }
    } else {
      EntriesUntouched(w, a, w'.clock);
    }
  }

  /** The same along a calm stretch of a run. */
  lemma {:induction false} CalmRunKeepsEntries(ws: seq<World>, steps: seq<Action>, i: nat, j: nat, began: Time, key: string,
                                               notAfter: Time, from: Time)
    requires IsRun(ws, steps) && i <= j < |ws| && forall k :: i <= k < j ==> CalmStep(steps[k], began)
    requires from <= began + SHORTEST
    ensures ws[i].clock <= ws[j].clock
    ensures Unmoved(ws[i].mem, key, notAfter) ==> Unmoved(ws[j].mem, key, notAfter)
    ensures NotBefore(ws[i].mem, key, from) ==> NotBefore(ws[j].mem, key, from)
    ensures Rested(ws[i].mem, key, from, ws[i].clock + LONGEST) ==> Rested(ws[j].mem, key, from, ws[j].clock + LONGEST)
    ensures key in ws[j].mem.entries ==> key in ws[i].mem.entries
  {
    if i < j {
      CalmRunKeepsEntries(ws, steps, i, j - 1, began, key, notAfter, from);
      assert Step(ws[j - 1], steps[j - 1], ws[j]);
      CalmStepKeepsEntries(ws[j - 1], steps[j - 1], ws[j], began, key);
    }
  }

  lemma CalmHistoryKeepsEntries(ws: seq<World>, ss: seq<Action>, w: World, ws': seq<World>, ss': seq<Action>, w': World,
                                began: Time, key: string, notAfter: Time, from: Time)
    requires History(ws, ss, w) && History(ws', ss', w') && Continues(ws, ss, ws', ss')
    requires Calm(ss, ss', began) && from <= began + SHORTEST
    ensures w.clock <= w'.clock
    ensures Unmoved(w.mem, key, notAfter) ==> Unmoved(w'.mem, key, notAfter)
    ensures NotBefore(w.mem, key, from) ==> NotBefore(w'.mem, key, from)
    ensures Rested(w.mem, key, from, w.clock + LONGEST) ==> Rested(w'.mem, key, from, w'.clock + LONGEST)
    ensures key in w'.mem.entries ==> key in w.mem.entries
  {
    assert ws'[|ws| - 1] == w;
    CalmRunKeepsEntries(ws', ss', |ws| - 1, |ws'| - 1, began, key, notAfter, from);
  }

  /** The end of an attempt on a schedule that was due. */
  lemma AttemptRests(w: World, entry: Schedule, removed: bool, now: Time, p: Persist, began: Time)
    requires Unmoved(w.mem, entry.key, entry.notAfter) && entry.notAfter <= began <= now <= w.clock && p.Committed?
    ensures Rested(AfterAttempt(w, entry, removed, now, p).mem, entry.key, began + SHORTEST, w.clock + LONGEST)
  {
    if entry.key in w.mem.entries {
      RetryDelayBounds(w.mem.entries[entry.key].attempts + 1);
    }
  }

  /** The first `i` schedules of the list rest. */
  ghost predicate FirstRest(w: World, due: seq<Schedule>, i: nat, began: Time) {
    i <= |due| && forall n :: 0 <= n < i ==> Rested(w.mem, due[n].key, began + SHORTEST, w.clock + LONGEST)
  }

  /** One more attempt: what rests goes on resting, and the schedule that was tried joins it. */
  lemma NextRests(ws0: seq<World>, ss0: seq<Action>, w0: World, ws: seq<World>, ss: seq<Action>, w: World,
                  ws': seq<World>, ss': seq<Action>, w': World, due: seq<Schedule>, i: nat, began: Time)
    requires History(ws0, ss0, w0) && History(ws, ss, w) && History(ws', ss', w')
    requires Continues(ws0, ss0, ws, ss) && Continues(ws, ss, ws', ss') && Calm(ss0, ss', began)
    requires FirstRest(w, due, i, began) && i < |due| && due[i].notAfter <= began
    requires Unmoved(w0.mem, due[i].key, due[i].notAfter)
    requires Unmoved(w.mem, due[i].key, due[i].notAfter) ==> Rested(w'.mem, due[i].key, began + SHORTEST, w'.clock + LONGEST)
    ensures FirstRest(w', due, i + 1, began)
  {
    CalmParts(ss0, ss, ss', began);
    CalmHistoryKeepsEntries(ws0, ss0, w0, ws, ss, w, began, due[i].key, due[i].notAfter, began);
    forall n | 0 <= n < i ensures Rested(w'.mem, due[n].key, began + SHORTEST, w'.clock + LONGEST) {
      CalmHistoryKeepsEntries(ws, ss, w, ws', ss', w', began, due[n].key, due[n].notAfter, began + SHORTEST);
    }
  }

  /** The same over the history of the attempt, which begins at `w0`, calls outside until `w`, and
      then records how that went. */
  lemma AttemptedEntryRests(ws0: seq<World>, ss0: seq<Action>, w0: World, ws: seq<World>, ss: seq<Action>, w: World,
                            steps: seq<Action>, entry: Schedule, removed: bool, now: Time, p: Persist, began: Time)
    requires History(ws0, ss0, w0) && History(ws, ss, w) && Continues(ws0, ss0, ws, ss)
    requires steps == ss + [FinishAttempt(entry, removed, now, p)] && Calm(ss0, steps, began)
    requires Unmoved(w0.mem, entry.key, entry.notAfter) && entry.notAfter <= began <= now <= w.clock
    ensures Rested(AfterAttempt(w, entry, removed, now, p).mem, entry.key, began + SHORTEST, w.clock + LONGEST)
  {
    CalmParts(ss0, ss, steps, began);
    CalmHistoryKeepsEntries(ws0, ss0, w0, ws, ss, w, began, entry.key, entry.notAfter, began);
    assert CalmStep(steps[|ss|], began);
    AttemptRests(w, entry, removed, now, p, began);
  }

  // ---------------------------------------------------------------------------------------
  // Tunnels
  // ---------------------------------------------------------------------------------------

  /** Off the schedule, or due between `from` and `until`. */
  predicate TunnelRested(m: Memory, id: string, from: Time, until: Time) {
    id in m.tunnels && (AttemptAt(m.tunnels[id]) == None || from <= AttemptAt(m.tunnels[id]).value <= until)
  }

  lemma CalmStepLeavesOthers(w: World, a: Action, w': World, began: Time, id: string, other: string)
    requires Step(w, a, w') && CalmStep(a, began) && (OwnStep(a, id) || FromOutside(a)) && other != id
    ensures other in w'.mem.tunnels <==> other in w.mem.tunnels
    ensures other in w.mem.tunnels ==> w'.mem.tunnels[other] == w.mem.tunnels[other]
  {
    if StoresTunnel(a) {
      StoredIsNext(w, a, w');
    } else {
      StepLeavesTunnels(w, a, w');
    }
  }

  /** A calm attempt on one tunnel leaves every other record as it is. */
  lemma {:induction false} CalmRunLeavesOthers(ws: seq<World>, steps: seq<Action>, i: nat, j: nat, began: Time, id: string, other: string)
    requires IsRun(ws, steps) && i <= j < |ws| && other != id
    requires forall k :: i <= k < j ==> CalmStep(steps[k], began) && (OwnStep(steps[k], id) || FromOutside(steps[k]))
    ensures other in ws[j].mem.tunnels <==> other in ws[i].mem.tunnels
    ensures other in ws[i].mem.tunnels ==> ws[j].mem.tunnels[other] == ws[i].mem.tunnels[other]
  {
    if i < j {
      CalmRunLeavesOthers(ws, steps, i, j - 1, began, id, other);
      assert Step(ws[j - 1], steps[j - 1], ws[j]);
      CalmStepLeavesOthers(ws[j - 1], steps[j - 1], ws[j], began, id, other);
    }
  }

  lemma CalmHistoryLeavesOthers(ws: seq<World>, ss: seq<Action>, w: World, ws': seq<World>, ss': seq<Action>, w': World,
                                began: Time, id: string, other: string)
    requires History(ws, ss, w) && History(ws', ss', w') && Continues(ws, ss, ws', ss') && other != id
    requires Calm(ss, ss', began) && Works(ss, ss', id)
    ensures other in w'.mem.tunnels <==> other in w.mem.tunnels
    ensures other in w.mem.tunnels ==> w'.mem.tunnels[other] == w.mem.tunnels[other]
  {
    assert ws'[|ws| - 1] == w;
    CalmRunLeavesOthers(ws', ss', |ws| - 1, |ws'| - 1, began, id, other);
  }

  lemma CalmWrites(before: seq<Action>, after: seq<Action>, began: Time, p: Persist)
    requires Calm(before, after, began) && Wrote(before, after, p)
    ensures p.Committed?
  {
  }

  /** The end of an attempt on a tunnel that was due and whose record nobody had changed. */
  lemma AttemptRestsTunnel(attempt: Attempt, r: TunnelResource, seen: World, end: World, began: Time)
    requires r.id in seen.mem.tunnels && seen.mem.tunnels[r.id] == r && DueAt(r, seen.clock)
    requires GoodRecord(r, seen.clock) && AttemptEnds(attempt, r, seen, end) && (attempt.Writes() ==> attempt.p.Committed?)
    requires began <= seen.clock
    requires r.id in end.mem.tunnels ==> end.mem.tunnels[r.id].updatedAt <= end.clock
    ensures TunnelRested(end.mem, r.id, began + SHORTEST, end.clock + LONGEST)
  {
    RetryDelayBounds(Intent(r).attempts + 1);
  }

  // ---------------------------------------------------------------------------------------
  // A round
  // ---------------------------------------------------------------------------------------

  ghost predicate NothingDueBy(m: Memory, t: Time) {
    && (forall key :: key in m.entries ==> m.entries[key].AttemptAt() > t)
    && (forall id :: id in m.tunnels ==> !DueAt(m.tunnels[id], t))
  }

  function DueKeys(m: Memory, t: Time): set<string> {
    set key | key in m.entries && m.entries[key].AttemptAt() <= t
  }

  function DueIds(m: Memory, t: Time): set<string> {
    set id | id in m.tunnels && DueAt(m.tunnels[id], t)
  }

  /** How many items are due at `t`. */
  function DueCount(m: Memory, t: Time): nat {
    |DueKeys(m, t)| + |DueIds(m, t)|
  }

  lemma NothingDueCounts(m: Memory, t: Time)
    ensures NothingDueBy(m, t) <==> DueCount(m, t) == 0
  {
    if NothingDueBy(m, t) {
      assert DueKeys(m, t) == {} && DueIds(m, t) == {};
    }
    if DueCount(m, t) == 0 {
      assert forall key :: key in m.entries && m.entries[key].AttemptAt() <= t ==> key in DueKeys(m, t);
      assert forall id :: id in m.tunnels && DueAt(m.tunnels[id], t) ==> id in DueIds(m, t);
    }
  }

  /** What an undisturbed round leaves: everything it tried rests for five to 320 seconds, and
      nothing else has changed for the worse. */
  ghost predicate RoundEnds(before: Memory, after: Memory, tried: set<string>, triedTunnels: set<string>, began: Time, clock: Time) {
    && after.tunnels.Keys == before.tunnels.Keys && after.entries.Keys <= before.entries.Keys
    && (forall key :: key in tried ==> Rested(after, key, began + SHORTEST, clock + LONGEST))
    && (forall id :: id in triedTunnels ==> TunnelRested(after, id, began + SHORTEST, clock + LONGEST))
    && (forall key, from :: key !in tried && from <= began + SHORTEST && NotBefore(before, key, from) ==> NotBefore(after, key, from))
    && (forall id :: id in before.tunnels && id !in triedTunnels ==> after.tunnels[id] == before.tunnels[id])
  }

  /** The inner loop cannot spin: at any horizon within five seconds of a round, an undisturbed
      round leaves fewer items due than before, unless it tried nothing that was due by then; so in
      five seconds it can go round at most once for every item there is. */
  lemma RoundShrinks(before: Memory, after: Memory, tried: set<string>, triedTunnels: set<string>,
                     began: Time, clock: Time, horizon: Time)
    requires RoundEnds(before, after, tried, triedTunnels, began, clock) && horizon < began + SHORTEST
    ensures DueKeys(after, horizon) <= DueKeys(before, horizon) - tried
    ensures DueIds(after, horizon) <= DueIds(before, horizon) - triedTunnels
    ensures DueCount(after, horizon) <= DueCount(before, horizon)
    ensures DueKeys(before, horizon) * tried != {} || DueIds(before, horizon) * triedTunnels != {} ==>
              DueCount(after, horizon) < DueCount(before, horizon)
  {
    forall key | key in DueKeys(after, horizon) ensures key in DueKeys(before, horizon) && key !in tried {
      if key !in DueKeys(before, horizon) {
        assert NotBefore(before, key, horizon + 1);
      }
    }
    var keys, ids := DueKeys(before, horizon), DueIds(before, horizon);
    SubsetCounts(DueKeys(after, horizon), keys, keys * tried);
    SubsetCounts(DueIds(after, horizon), ids, ids * triedTunnels);
  }

  datatype RoundRecord = RoundRecord(tried: set<string>, triedTunnels: set<string>, began: Time, clock: Time)

  /** Undisturbed rounds in a row, each of which finds something due by the horizon. */
  ghost predicate Spins(ms: seq<Memory>, rounds: seq<RoundRecord>, horizon: Time) {
    |ms| == |rounds| + 1 && forall k :: 0 <= k < |rounds| ==> SpinsOnce(ms[k], ms[k + 1], rounds[k], horizon)
  }

  ghost predicate SpinsOnce(before: Memory, after: Memory, r: RoundRecord, horizon: Time) {
    && RoundEnds(before, after, r.tried, r.triedTunnels, r.began, r.clock) && horizon < r.began + SHORTEST
    && (DueKeys(before, horizon) * r.tried != {} || DueIds(before, horizon) * r.triedTunnels != {})
  }

  lemma SpinsBefore(ms: seq<Memory>, rounds: seq<RoundRecord>, horizon: Time)
    requires Spins(ms, rounds, horizon) && rounds != []
    ensures Spins(ms[..|rounds|], rounds[..|rounds| - 1], horizon)
  {
    var n := |rounds| - 1;
    forall k | 0 <= k < n ensures SpinsOnce(ms[..n + 1][k], ms[..n + 1][k + 1], rounds[..n][k], horizon) {
      assert SpinsOnce(ms[k], ms[k + 1], rounds[k], horizon);
    }
  }

  /** There are never more of them than items that were due by the horizon at first. */
  lemma {:induction false} SpinBound(ms: seq<Memory>, rounds: seq<RoundRecord>, horizon: Time)
    requires Spins(ms, rounds, horizon)
    ensures |rounds| + DueCount(ms[|rounds|], horizon) <= DueCount(ms[0], horizon)
  {
    if rounds != [] {
      var n := |rounds| - 1;
      SpinsBefore(ms, rounds, horizon);
      SpinBound(ms[..n + 1], rounds[..n], horizon);
      var r := rounds[n];
      assert SpinsOnce(ms[n], ms[n + 1], r, horizon);
      RoundShrinks(ms[n], ms[n + 1], r.tried, r.triedTunnels, r.began, r.clock, horizon);
    }
  }

  lemma SubsetCounts(a: set<string>, b: set<string>, out: set<string>)
    requires a <= b - out && out <= b
    ensures |a| + |out| <= |b|
  {
    assert a + out <= b && a * out == {};
    SubsetSize(a + out, b);
  }

  lemma {:induction false} SubsetSize(a: set<string>, b: set<string>)
    requires a <= b
    ensures |a| <= |b|
  {
    if a != {} {
      var x :| x in a;
      SubsetSize(a - {x}, b - {x});
    }
  }

  // ---------------------------------------------------------------------------------------
  // The loops of a round
  // ---------------------------------------------------------------------------------------

  ghost predicate Outside(before: seq<Action>, after: seq<Action>) {
    before <= after && forall k :: |before| <= k < |after| ==> FromOutside(after[k])
  }

  lemma OutsideTransitive(u: seq<Action>, v: seq<Action>, w: seq<Action>)
    requires Outside(u, v) && Outside(v, w)
    ensures Outside(u, w)
  {
  }

  ghost function KeysOf(list: seq<Schedule>): set<string> {
    set i | 0 <= i < |list| :: list[i].key
  }

  ghost function IdsOf(list: seq<TunnelResource>): set<string> {
    set i | 0 <= i < |list| :: list[i].id
  }

  /** The first `i` of the due tunnels rest, and every other record is as it was. */
  ghost predicate TunnelsTreated(before: Memory, m: Memory, due: seq<TunnelResource>, i: nat, began: Time, clock: Time) {
    && i <= |due| && m.tunnels.Keys == before.tunnels.Keys
    && (forall n :: 0 <= n < i ==> TunnelRested(m, due[n].id, began + SHORTEST, clock + LONGEST))
    && (forall id :: id in before.tunnels && (forall n :: 0 <= n < i ==> due[n].id != id) ==> m.tunnels[id] == before.tunnels[id])
  }

  lemma NextTreated(before: Memory, ws: seq<World>, ss: seq<Action>, w: World, ws': seq<World>, ss': seq<Action>, w': World,
                    due: seq<TunnelResource>, i: nat, began: Time, attempt: Attempt, seen: World)
    requires History(ws, ss, w) && History(ws', ss', w') && Continues(ws, ss, ws', ss')
    requires i < |due| && TunnelsTreated(before, w.mem, due, i, began, w.clock) && began <= w.clock
    requires forall n :: 0 <= n < |due| ==> due[n].id in before.tunnels && before.tunnels[due[n].id] == due[n] && DueAt(due[n], w.clock)
    requires forall n, k :: 0 <= n < k < |due| ==> due[n].id != due[k].id
    requires Calm(ss, ss', began) && Works(ss, ss', due[i].id) && (attempt.Writes() ==> Wrote(ss, ss', attempt.p))
    requires seen.mem == w.mem && seen.clock >= w.clock && AttemptEnds(attempt, due[i], seen, w')
    ensures TunnelsTreated(before, w'.mem, due, i + 1, began, w'.clock)
  {
    var r := due[i];
    ClockGrew(ws, ss, w, ws', ss', w');
    assert w.mem.tunnels[r.id] == r;
    if attempt.Writes() {
      CalmWrites(ss, ss', began, attempt.p);
    }
    GoodAt(ws, ss, w, r.id);
    GoodAt(ws', ss', w', r.id);
    AttemptRestsTunnel(attempt, r, seen, w', began);
    TreatedOneMore(before, w, w', due, i, began, ws, ss, ws', ss');
  }

  /** One more attempt of a round that began after the steps `first`. */
  lemma TriedOneMore(before: Memory, first: seq<Action>, ws: seq<World>, ss: seq<Action>, w: World,
                     ws': seq<World>, ss': seq<Action>, w': World, due: seq<TunnelResource>, i: nat, began: Time,
                     attempt: Attempt, seen: World)
    requires History(ws, ss, w) && History(ws', ss', w') && first <= ss && Continues(ws, ss, ws', ss')
    requires Calm(first, ss, began) ==> TunnelsTreated(before, w.mem, due, i, began, w.clock)
    requires i < |due| && began <= w.clock
    requires forall n :: 0 <= n < |due| ==> due[n].id in before.tunnels && before.tunnels[due[n].id] == due[n] && DueAt(due[n], w.clock)
    requires forall n, k :: 0 <= n < k < |due| ==> due[n].id != due[k].id
    requires Works(ss, ss', due[i].id) && (attempt.Writes() ==> Wrote(ss, ss', attempt.p))
    requires seen.mem == w.mem && seen.clock >= w.clock && AttemptEnds(attempt, due[i], seen, w')
    ensures w.clock <= w'.clock
    ensures Calm(first, ss', began) ==> TunnelsTreated(before, w'.mem, due, i + 1, began, w'.clock)
  {
    ClockGrew(ws, ss, w, ws', ss', w');
    if Calm(first, ss', began) {
      CalmParts(first, ss, ss', began);
      NextTreated(before, ws, ss, w, ws', ss', w', due, i, began, attempt, seen);
    }
  }

  lemma TreatedOneMore(before: Memory, w: World, w': World, due: seq<TunnelResource>, i: nat, began: Time,
                       ws: seq<World>, ss: seq<Action>, ws': seq<World>, ss': seq<Action>)
    requires History(ws, ss, w) && History(ws', ss', w') && Continues(ws, ss, ws', ss') && w.clock <= w'.clock
    requires i < |due| && TunnelsTreated(before, w.mem, due, i, began, w.clock)
    requires forall n, k :: 0 <= n < k < |due| ==> due[n].id != due[k].id
    requires Calm(ss, ss', began) && Works(ss, ss', due[i].id) && due[i].id in w.mem.tunnels
    requires TunnelRested(w'.mem, due[i].id, began + SHORTEST, w'.clock + LONGEST)
    ensures TunnelsTreated(before, w'.mem, due, i + 1, began, w'.clock)
  {
    forall id | id != due[i].id
      ensures id in w'.mem.tunnels <==> id in w.mem.tunnels
      ensures id in w.mem.tunnels ==> w'.mem.tunnels[id] == w.mem.tunnels[id]
    {
      CalmHistoryLeavesOthers(ws, ss, w, ws', ss', w', began, due[i].id, id);
    }
  }

  lemma EntriesKeyed(ws: seq<World>, ss: seq<Action>, w: World)
    requires History(ws, ss, w)
    ensures forall key :: key in w.mem.entries ==> w.mem.entries[key].key == key
  {
    HistoryIsGood(ws, ss, w);
  }

  lemma GoodAt(ws: seq<World>, ss: seq<Action>, w: World, id: string)
    requires History(ws, ss, w)
    ensures id in w.mem.tunnels ==> GoodRecord(w.mem.tunnels[id], w.clock)
  {
    HistoryIsGood(ws, ss, w);
  }

  lemma ClockGrew(ws: seq<World>, ss: seq<Action>, w: World, ws': seq<World>, ss': seq<Action>, w': World)
    requires History(ws, ss, w) && History(ws', ss', w') && Continues(ws, ss, ws', ss')
    ensures w.clock <= w'.clock
  {
    assert ws'[|ws| - 1] == w;
    ClockNeverGoesBack(ws', ss', |ws| - 1, |ws'| - 1);
  }

  /** A round that finds nothing. */
  lemma IdleRound(m: Memory, began: Time, clock: Time)
    ensures RoundEnds(m, m, KeysOf([]), IdsOf([]), began, clock)
  {
  }

  /** The three phases of an undisturbed round together. */
  lemma RoundAddsUp(ws0: seq<World>, ss0: seq<Action>, w0: World, ws1: seq<World>, ss1: seq<Action>, w1: World,
                    ws2: seq<World>, ss2: seq<Action>, w2: World, ws3: seq<World>, ss3: seq<Action>, w3: World,
                    due: seq<Schedule>, dueTunnels: seq<TunnelResource>, began: Time, later: Time)
    requires History(ws0, ss0, w0) && History(ws1, ss1, w1) && History(ws2, ss2, w2) && History(ws3, ss3, w3)
    requires Continues(ws0, ss0, ws1, ss1) && Continues(ws1, ss1, ws2, ss2) && Continues(ws2, ss2, ws3, ss3)
    requires Calm(ss0, ss3, began) && Outside(ss0, ss2) && began <= later
    requires forall s: Schedule :: s in due <==> s.key in w0.mem.entries && w0.mem.entries[s.key] == s && s.AttemptAt() <= began
    requires forall key :: key in w0.mem.entries ==> w0.mem.entries[key].key == key
    requires Calm(ss0, ss1, began) ==> forall n :: 0 <= n < |due| ==> Rested(w1.mem, due[n].key, began + SHORTEST, w1.clock + LONGEST)
    requires forall r: TunnelResource :: r in dueTunnels <==> r.id in w2.mem.tunnels && w2.mem.tunnels[r.id] == r && DueAt(r, later)
    requires Calm(ss2, ss3, began) ==> TunnelsTreated(w2.mem, w3.mem, dueTunnels, |dueTunnels|, began, w3.clock)
    ensures RoundEnds(w0.mem, w3.mem, KeysOf(due), IdsOf(dueTunnels), began, w3.clock) && NothingDueBy(w3.mem, began)
  {
    CalmParts(ss0, ss1, ss3, began);
    CalmParts(ss1, ss2, ss3, began);
    OutsideKeepsTunnels(ws0, ss0, w0, ws2, ss2, w2, began);
    EntriesAddUp(ws0, ss0, w0, ws1, ss1, w1, ws3, ss3, w3, due, began);
    TunnelsAddUp(w2, w3, dueTunnels, began, later, ws2, ss2);
  }

  lemma OutsideKeepsTunnels(ws: seq<World>, ss: seq<Action>, w: World, ws': seq<World>, ss': seq<Action>, w': World, began: Time)
    requires History(ws, ss, w) && History(ws', ss', w') && Continues(ws, ss, ws', ss')
    requires Calm(ss, ss', began) && Outside(ss, ss')
    ensures w'.mem.tunnels == w.mem.tunnels
  {
    forall id
      ensures id in w'.mem.tunnels <==> id in w.mem.tunnels
      ensures id in w.mem.tunnels ==> w'.mem.tunnels[id] == w.mem.tunnels[id]
    {
      var another := id + "x";
      assert |another| != |id|;
      CalmHistoryLeavesOthers(ws, ss, w, ws', ss', w', began, another, id);
    }
  }

  lemma EntriesAddUp(ws0: seq<World>, ss0: seq<Action>, w0: World, ws1: seq<World>, ss1: seq<Action>, w1: World,
                     ws3: seq<World>, ss3: seq<Action>, w3: World, due: seq<Schedule>, began: Time)
    requires History(ws0, ss0, w0) && History(ws1, ss1, w1) && History(ws3, ss3, w3)
    requires Continues(ws0, ss0, ws1, ss1) && Continues(ws1, ss1, ws3, ss3)
    requires Calm(ss0, ss3, began) && Calm(ss1, ss3, began)
    requires forall s: Schedule :: s in due <==> s.key in w0.mem.entries && w0.mem.entries[s.key] == s && s.AttemptAt() <= began
    requires forall key :: key in w0.mem.entries ==> w0.mem.entries[key].key == key
    requires forall n :: 0 <= n < |due| ==> Rested(w1.mem, due[n].key, began + SHORTEST, w1.clock + LONGEST)
    ensures w3.mem.entries.Keys <= w0.mem.entries.Keys
    ensures forall key :: key in KeysOf(due) ==> Rested(w3.mem, key, began + SHORTEST, w3.clock + LONGEST)
    ensures forall key, from :: from <= began + SHORTEST && NotBefore(w0.mem, key, from) ==> NotBefore(w3.mem, key, from)
    ensures forall key :: key in w3.mem.entries ==> w3.mem.entries[key].AttemptAt() > began
  {
    forall key | key in KeysOf(due) ensures Rested(w3.mem, key, began + SHORTEST, w3.clock + LONGEST) {
      CalmHistoryKeepsEntries(ws1, ss1, w1, ws3, ss3, w3, began, key, began, began + SHORTEST);
    }
    ContinuesTransitive(ws0, ss0, ws1, ss1, ws3, ss3);
    forall key, from | from <= began + SHORTEST && NotBefore(w0.mem, key, from) ensures NotBefore(w3.mem, key, from) {
      CalmHistoryKeepsEntries(ws0, ss0, w0, ws3, ss3, w3, began, key, began, from);
    }
    forall key | key in w3.mem.entries ensures key in w0.mem.entries && w3.mem.entries[key].AttemptAt() > began {
      CalmHistoryKeepsEntries(ws0, ss0, w0, ws3, ss3, w3, began, key, began, began);
      if w0.mem.entries[key].AttemptAt() <= began {
        assert w0.mem.entries[key] in due;
        var n :| 0 <= n < |due| && due[n] == w0.mem.entries[key];
        assert key == due[n].key;
        assert key in KeysOf(due);
      } else {
        assert NotBefore(w0.mem, key, began + 1);
        assert NotBefore(w3.mem, key, began + 1);
      }
    }
  }

  lemma NotListed(list: seq<TunnelResource>, r: TunnelResource)
    requires forall n :: 0 <= n < |list| ==> list[n].id != r.id
    ensures r !in list
  {
  }

  lemma TunnelsAddUp(w2: World, w3: World, dueTunnels: seq<TunnelResource>, began: Time, later: Time, ws: seq<World>, ss: seq<Action>)
    requires History(ws, ss, w2) && began <= later
    requires forall r: TunnelResource :: r in dueTunnels <==> r.id in w2.mem.tunnels && w2.mem.tunnels[r.id] == r && DueAt(r, later)
    requires TunnelsTreated(w2.mem, w3.mem, dueTunnels, |dueTunnels|, began, w3.clock)
    ensures w3.mem.tunnels.Keys == w2.mem.tunnels.Keys
    ensures forall id :: id in IdsOf(dueTunnels) ==> TunnelRested(w3.mem, id, began + SHORTEST, w3.clock + LONGEST)
    ensures forall id :: id in w2.mem.tunnels && id !in IdsOf(dueTunnels) ==> w3.mem.tunnels[id] == w2.mem.tunnels[id]
    ensures forall id :: id in w3.mem.tunnels ==> !DueAt(w3.mem.tunnels[id], began)
  {
    HistoryIsGood(ws, ss, w2);
    forall id | id in w2.mem.tunnels && id !in IdsOf(dueTunnels)
      ensures w3.mem.tunnels[id] == w2.mem.tunnels[id] && !DueAt(w3.mem.tunnels[id], began)
    {
      forall n | 0 <= n < |dueTunnels| ensures dueTunnels[n].id != id {
        assert dueTunnels[n].id in IdsOf(dueTunnels);
      }
      var r := w2.mem.tunnels[id];
      assert r.id == id;
      NotListed(dueTunnels, r);
    }
    forall id | id in IdsOf(dueTunnels)
      ensures TunnelRested(w3.mem, id, began + SHORTEST, w3.clock + LONGEST) && !DueAt(w3.mem.tunnels[id], began)
    {
      var n :| 0 <= n < |dueTunnels| && dueTunnels[n].id == id;
    }
  }
}
