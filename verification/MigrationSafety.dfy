/** When moving a credential to its new email leaves the database and the Agent together, and the
    ways in which it does not. */
module MigrationSafety {
  import opened Base
  import opened InboundClients
  import opened ClientExpirations
  import opened ManagedClients
  import opened ClientSafety
  import opened CredentialMigration

  /** The Agent has the inbound, running as configured, with this protocol and this client list. */
  ghost predicate Holding(s: Store, tag: string, protocol: string, list: seq<Element>) {
    var found := Lookup(s.config, tag);
    && found.Some? && found.value.protocol == protocol && ListOfInbound(found.value) == Ok(list)
    && Synced(s, tag) && SoundToo(s) && Trim(tag) != ""
  }

  lemma WantedList(s: Store, q: ClientRequest, now: Time, protocol: string, list: seq<Element>)
    requires Holding(s, q.tag, protocol, list) && Usable(q.client, protocol)
    ensures var w := Wanted(s, q, now);
            && w.Some? && w.value.inbound.tag == q.tag && w.value.inbound.protocol == protocol
            && ListOfInbound(w.value.inbound) == Ok(Rewritten(list, q.client, protocol, Adds(q, now)))
            && (!w.value.changed ==> w.value.inbound == Lookup(s.config, q.tag).value)
  {
    MutateFrame(Lookup(s.config, q.tag).value, q.client, Adds(q, now));
  }

  /** A request that was done, whether or not the reply arrived. */
  lemma DoneRewrites(s: Store, q: ClientRequest, now: Time, o: Outcomes, protocol: string, list: seq<Element>)
    requires Holding(s, q.tag, protocol, list) && Usable(q.client, protocol) && Act(s, q, now, o).reply.Done?
    ensures Holding(Act(s, q, now, o).store, q.tag, protocol, Rewritten(list, q.client, protocol, Adds(q, now)))
  {
    WantedList(s, q, now, protocol, list);
    DoneMeansWanted(s, q, now, o);
    ActIsSound(s, q, now, o);
  }

  /** The call had no effect on the inbound, if it was not acknowledged. */
  ghost predicate Harmless(s: Store, q: ClientRequest, c: Call) {
    c.NotDelivered?
    || (c.Answered? && RollbacksWork(c.o) && (q.add || !Act(s, q, c.now, c.o).reply.ExpiryFailed?))
  }

  lemma FailedActKeeps(s: Store, q: ClientRequest, now: Time, o: Outcomes, protocol: string, list: seq<Element>)
    requires Holding(s, q.tag, protocol, list) && Usable(q.client, protocol) && q.notAfter == None
    requires RollbacksWork(o) && !Act(s, q, now, o).reply.Done? && (q.add || !Act(s, q, now, o).reply.ExpiryFailed?)
    ensures Holding(Act(s, q, now, o).store, q.tag, protocol, list)
  {
    ActIsSound(s, q, now, o);
    ActKeepsSynced(s, q, now, o, q.tag);
    var found := Lookup(s.config, q.tag).value;
    var m := Mutate(found, q.client, q.add);
    if o.connected && o.readable && m.Ok? {
      MutateFrame(found, q.client, q.add);
      if m.value.changed {
        ActChangedInbounds(s, q, now, found, m.value.inbound, o, q.tag);
      } else {
        UpdateLeavesInbounds(s, q.tag, found.protocol, q.client, Deadline(q, now), o.expiry);
      }
    }
  }

  /** One forwarded request: done, or without effect. */
  lemma ForwardedEnds(s: Store, q: ClientRequest, c: Call, protocol: string, list: seq<Element>)
    requires Holding(s, q.tag, protocol, list) && Usable(q.client, protocol) && q.notAfter == None
    ensures var f := Forwarded(s, q, c);
            && (f.end.Acked? ==> Holding(f.agent, q.tag, protocol, Rewritten(list, q.client, protocol, q.add)))
            && (f.end.Failed? && Harmless(s, q, c) ==> Holding(f.agent, q.tag, protocol, list))
  {
    if c.Answered? && Act(s, q, c.now, c.o).reply.Done? {
      DoneRewrites(s, q, c.now, c.o, protocol, list);
    } else if c.Answered? && Harmless(s, q, c) {
      FailedActKeeps(s, q, c.now, c.o, protocol, list);
    }
  }

  /** Changing the email changes neither the credential nor whether the client can be named. */
  lemma RenamedKeepsCredential(row: Row, former: ClientFields, protocol: string)
    ensures Primary(Renamed(former, row), protocol) == Primary(former, protocol)
    ensures Email(Renamed(former, row)) == Trim(NewEmail(row)) && Email(Renamed(former, row)) != ""
    ensures Usable(Renamed(former, row), protocol)
  {
    PrimaryIsNotEmail(protocol);
    TrimKeepsLetter(NewEmail(row), |row.username|);
  }

  lemma TrimKeepsLetter(s: string, i: nat)
    requires i < |s| && !IsSpace(s[i])
    ensures Trim(s) != ""
  {
    TrimLeftKeeps(s, i);
    TrimRightKeepsHead(TrimLeft(s));
  }

  lemma {:induction false} TrimLeftKeeps(s: string, i: nat)
    requires i < |s| && !IsSpace(s[i])
    ensures TrimLeft(s) != "" && !IsSpace(TrimLeft(s)[0])
  {
    if IsSpace(s[0]) {
      TrimLeftKeeps(s[1..], i - 1);
    }
  }

  // ---------------------------------------------------------------------------------------
  // Success
  // ---------------------------------------------------------------------------------------

  ghost predicate TookOrphanPath(s: Store, row: Row, former: ClientFields, k: Calls) {
    Forwarded(s, RemoveRequest(row, former), k.remove).end.Failed?
  }

  /** Success on the normal path: the row has the new email, and the Agent's list is the old one
      with the old client taken out and the new one added, in the runtime and in the file. */
  lemma SuccessMeansBoth(s: Store, row: Row, former: ClientFields, k: Calls, protocol: string, list: seq<Element>)
    requires Holding(s, row.tag, protocol, list) && Usable(former, protocol)
    requires Migrate(s, row, former, k).failure == None && !TookOrphanPath(s, row, former, k)
    ensures var m := Migrate(s, row, former, k);
            && m.credential == Renamed(former, row)
            && Holding(m.agent, row.tag, protocol, Added(Removed(list, former, protocol), Renamed(former, row), protocol))
  {
    RenamedKeepsCredential(row, former, protocol);
    ForwardedEnds(s, RemoveRequest(row, former), k.remove, protocol, list);
    var agent := Forwarded(s, RemoveRequest(row, former), k.remove).agent;
    ForwardedEnds(agent, AddRequest(row, Renamed(former, row)), k.add, protocol, Removed(list, former, protocol));
  }

  predicate HasCredential(list: seq<Element>, primary: string, protocol: string) {
    exists i :: 0 <= i < |list| && list[i].Client? && Primary(list[i].fields, protocol) == primary
  }

  predicate HasEmail(list: seq<Element>, email: string) {
    exists i :: 0 <= i < |list| && list[i].Client? && Email(list[i].fields) == email
  }

  /** After success the user's credential still works exactly when no other client had the new
      email: adding the new client is otherwise taken for done already. */
  lemma SuccessKeepsAccessIff(s: Store, row: Row, former: ClientFields, k: Calls, protocol: string, list: seq<Element>)
    requires Holding(s, row.tag, protocol, list) && Primary(former, protocol) != ""
    requires Migrate(s, row, former, k).failure == None && !TookOrphanPath(s, row, former, k)
    ensures var after := Added(Removed(list, former, protocol), Renamed(former, row), protocol);
            && Holding(Migrate(s, row, former, k).agent, row.tag, protocol, after)
            && (HasCredential(after, Primary(former, protocol), protocol)
                <==> !HasEmail(Removed(list, former, protocol), Trim(NewEmail(row))))
  {
    SuccessMeansBoth(s, row, former, k, protocol, list);
    RenamedKeepsCredential(row, former, protocol);
    RemovedHasIff(list, row, former, protocol);
  }

  lemma RemovedHasIff(list: seq<Element>, row: Row, former: ClientFields, protocol: string)
    requires Primary(former, protocol) != ""
    ensures var rest, after := Removed(list, former, protocol), Added(Removed(list, former, protocol), Renamed(former, row), protocol);
            HasCredential(after, Primary(former, protocol), protocol) <==> !HasEmail(rest, Trim(NewEmail(row)))
  {
    var rest, renamed := Removed(list, former, protocol), Renamed(former, row);
    RenamedKeepsCredential(row, former, protocol);
    RemoveLeavesNoMatch(list, former, protocol);
    forall i | 0 <= i < |rest| && rest[i].Client? ensures Primary(rest[i].fields, protocol) != Primary(former, protocol) {
      assert rest[i] in rest;
    }
    if HasEmail(rest, Trim(NewEmail(row))) {
      var i :| 0 <= i < |rest| && rest[i].Client? && Email(rest[i].fields) == Trim(NewEmail(row));
      assert SameForAdd(rest[i], renamed, protocol);
      assert Added(rest, renamed, protocol) == rest;
    } else {
      assert !Has(rest, renamed, protocol);
      var after := Added(rest, renamed, protocol);
      assert after[|rest|] == Client(renamed);
    }
  }

  // ---------------------------------------------------------------------------------------
  // Failure
  // ---------------------------------------------------------------------------------------

  /** The row describes one client of the list, and the new email is free. */
  ghost predicate Registered(list: seq<Element>, row: Row, former: ClientFields, protocol: string) {
    && Unique(list, protocol) && Primary(former, protocol) != ""
    && (exists i :: 0 <= i < |list| && list[i].Client? && Primary(list[i].fields, protocol) == Primary(former, protocol)
                    && Email(list[i].fields) == Email(former))
    && !HasEmail(Removed(list, former, protocol), Trim(NewEmail(row)))
  }

  lemma RestHasNeither(list: seq<Element>, row: Row, former: ClientFields, protocol: string)
    requires Registered(list, row, former, protocol)
    ensures var rest := Removed(list, former, protocol);
            !Has(rest, former, protocol) && !Has(rest, Renamed(former, row), protocol)
  {
    var rest := Removed(list, former, protocol);
    RenamedKeepsCredential(row, former, protocol);
    RemoveLeavesNoMatch(list, former, protocol);
    var i :| 0 <= i < |list| && list[i].Client? && Primary(list[i].fields, protocol) == Primary(former, protocol)
             && Email(list[i].fields) == Email(former);
    forall k | 0 <= k < |rest|
      ensures !SameForAdd(rest[k], former, protocol) && !SameForAdd(rest[k], Renamed(former, row), protocol)
    {
      assert rest[k] in rest && rest[k] in list;
      var j :| 0 <= j < |list| && list[j] == rest[k];
      assert i != j;
    }
  }

  /** Every call that fails has no effect, and every call that compensates is acknowledged. */
  ghost predicate CleanFailure(s: Store, row: Row, former: ClientFields, k: Calls) {
    var removal := RemoveRequest(row, former);
    var removed := Forwarded(s, removal, k.remove);
    var addition := AddRequest(row, Renamed(former, row));
    var added := Forwarded(removed.agent, addition, k.add);
    var withdrawn := Forwarded(added.agent, RemoveRequest(row, Renamed(former, row)), k.removeNew);
    && (removed.end.Failed? ==> Harmless(s, removal, k.remove))
    && (added.end.Failed? ==> Harmless(removed.agent, addition, k.add)
                              && Forwarded(added.agent, AddRequest(row, former), k.rollback).end.Acked?)
    && (added.end.Acked? && !k.updated ==>
          withdrawn.end.Acked? && Forwarded(withdrawn.agent, AddRequest(row, former), k.restore).end.Acked?)
  }

  /** An error after which nothing failed to compensate leaves the old email in the database and
      on the Agent, and every other client where it was. */
  lemma CleanFailureKeepsOld(s: Store, row: Row, former: ClientFields, k: Calls, protocol: string, list: seq<Element>)
    requires Holding(s, row.tag, protocol, list) && Registered(list, row, former, protocol)
    requires Migrate(s, row, former, k).failure.Some? && CleanFailure(s, row, former, k)
    ensures var m := Migrate(s, row, former, k);
            && m.credential == former
            && (Holding(m.agent, row.tag, protocol, list)
                || Holding(m.agent, row.tag, protocol, Removed(list, former, protocol) + [Client(former)]))
  {
    RenamedKeepsCredential(row, former, protocol);
    RestHasNeither(list, row, former, protocol);
    var renamed, rest := Renamed(former, row), Removed(list, former, protocol);
    var removed := Forwarded(s, RemoveRequest(row, former), k.remove);
    ForwardedEnds(s, RemoveRequest(row, former), k.remove, protocol, list);
    if removed.end.Acked? {
      ForwardedEnds(removed.agent, AddRequest(row, renamed), k.add, protocol, rest);
      var added := Forwarded(removed.agent, AddRequest(row, renamed), k.add);
      if added.end.Failed? {
        ForwardedEnds(added.agent, AddRequest(row, former), k.rollback, protocol, rest);
      } else {
        RemoveUndoesAdd(rest, renamed, protocol);
        ForwardedEnds(added.agent, RemoveRequest(row, renamed), k.removeNew, protocol, rest + [Client(renamed)]);
        var withdrawn := Forwarded(added.agent, RemoveRequest(row, renamed), k.removeNew);
        ForwardedEnds(withdrawn.agent, AddRequest(row, former), k.restore, protocol, rest);
      }
    }
  }

  // ---------------------------------------------------------------------------------------
  // Exactly when an error keeps the old client
  // ---------------------------------------------------------------------------------------

  /** The call changed what the Agent holds as it was asked to, whatever came back. */
  ghost predicate TookEffect(s: Store, q: ClientRequest, c: Call) {
    && !c.NotDelivered?
    && (Act(s, q, c.now, c.o).reply.Done? || (!q.add && RemovalReaches(s, q, c.now, c.o)))
  }

  /** The Agent's own undoing works, if the call reached it. */
  predicate Steady(c: Call) {
    c.NotDelivered? || RollbacksWork(c.o)
  }

  predicate AllSteady(k: Calls) {
    Steady(k.remove) && Steady(k.add) && Steady(k.rollback) && Steady(k.removeNew) && Steady(k.restore)
  }

  lemma FailedRemovalRewrites(s: Store, q: ClientRequest, now: Time, o: Outcomes, protocol: string, list: seq<Element>)
    requires Holding(s, q.tag, protocol, list) && Usable(q.client, protocol) && !q.add && q.notAfter == None
    requires RollbacksWork(o) && RemovalReaches(s, q, now, o) && !Act(s, q, now, o).reply.Done?
    ensures Holding(Act(s, q, now, o).store, q.tag, protocol, Removed(list, q.client, protocol))
  {
    ActIsSound(s, q, now, o);
    WantedList(s, q, now, protocol, list);
    ActChangedInbounds(s, q, now, Lookup(s.config, q.tag).value, Wanted(s, q, now).value.inbound, o, q.tag);
  }

  lemma FailedCallKeeps(s: Store, q: ClientRequest, now: Time, o: Outcomes, protocol: string, list: seq<Element>)
    requires Holding(s, q.tag, protocol, list) && Usable(q.client, protocol) && q.notAfter == None
    requires RollbacksWork(o) && !Act(s, q, now, o).reply.Done? && (q.add || !RemovalReaches(s, q, now, o))
    ensures Holding(Act(s, q, now, o).store, q.tag, protocol, list)
  {
    if q.add {
      FailedActKeeps(s, q, now, o, protocol, list);
    } else {
      ActIsSound(s, q, now, o);
      FailedRemovalKeepsIff(s, q, now, o);
    }
  }

  /** One forwarded request, however it ends: done as asked, or without effect. */
  lemma CallEnds(s: Store, q: ClientRequest, c: Call, protocol: string, list: seq<Element>)
    requires Holding(s, q.tag, protocol, list) && Usable(q.client, protocol) && q.notAfter == None && Steady(c)
    ensures Holding(Forwarded(s, q, c).agent, q.tag, protocol,
                    if TookEffect(s, q, c) then Rewritten(list, q.client, protocol, q.add) else list)
    ensures Forwarded(s, q, c).end.Acked? ==> TookEffect(s, q, c)
  {
    if !c.NotDelivered? {
      if Act(s, q, c.now, c.o).reply.Done? {
        DoneRewrites(s, q, c.now, c.o, protocol, list);
      } else if !q.add && RemovalReaches(s, q, c.now, c.o) {
        FailedRemovalRewrites(s, q, c.now, c.o, protocol, list);
      } else {
        FailedCallKeeps(s, q, c.now, c.o, protocol, list);
      }
    }
  }

  /** The client as the database still describes it. */
  predicate OldPresent(list: seq<Element>, former: ClientFields, protocol: string) {
    exists i :: 0 <= i < |list| && list[i].Client?
      && Primary(list[i].fields, protocol) == Primary(former, protocol) && Email(list[i].fields) == Email(former)
  }

  /** How the calls must have ended for the old client to be there after an error: the removal
      never took effect, or it was taken back in effect. */
  ghost predicate TakenBack(s: Store, row: Row, former: ClientFields, k: Calls) {
    var removal, renamed := RemoveRequest(row, former), Renamed(former, row);
    var removed := Forwarded(s, removal, k.remove);
    var added := Forwarded(removed.agent, AddRequest(row, renamed), k.add);
    var withdrawn := Forwarded(added.agent, RemoveRequest(row, renamed), k.removeNew);
    if removed.end.Failed? then !TookEffect(s, removal, k.remove)
    else if added.end.Failed? then
      !TookEffect(removed.agent, AddRequest(row, renamed), k.add)
      && TookEffect(added.agent, AddRequest(row, former), k.rollback)
    else withdrawn.end.Acked? && TookEffect(withdrawn.agent, AddRequest(row, former), k.restore)
  }

  lemma OldIsPresent(list: seq<Element>, former: ClientFields, protocol: string)
    ensures OldPresent(list + [Client(former)], former, protocol)
  {
    assert (list + [Client(former)])[|list|] == Client(former);
  }

  lemma RestLacksOld(list: seq<Element>, row: Row, former: ClientFields, protocol: string)
    requires Registered(list, row, former, protocol) && Email(former) != Trim(NewEmail(row))
    ensures var rest, renamed := Removed(list, former, protocol), Renamed(former, row);
            && !OldPresent(rest, former, protocol) && !OldPresent(rest + [Client(renamed)], former, protocol)
            && Added(rest + [Client(renamed)], former, protocol) == rest + [Client(renamed)]
            && Added(rest, renamed, protocol) == rest + [Client(renamed)] && Added(rest, former, protocol) == rest + [Client(former)]
            && Removed(rest + [Client(renamed)], renamed, protocol) == rest
            && Removed(rest + [Client(renamed)], former, protocol) == rest && Removed(rest + [Client(former)], former, protocol) == rest
            && Removed(rest, former, protocol) == rest && OldPresent(list, former, protocol)
  {
    var rest, renamed := Removed(list, former, protocol), Renamed(former, row);
    RenamedKeepsCredential(row, former, protocol);
    RestHasNeither(list, row, former, protocol);
    RemoveUndoesAdd(rest, renamed, protocol);
    RemoveUndoesAdd(rest, former, protocol);
    RemoveTwice(list, former, protocol);
    var both := rest + [Client(renamed)];
    assert both[..|both| - 1] == rest;
    assert SameForAdd(both[|rest|], former, protocol);
    RemoveLeavesNoMatch(list, former, protocol);
    forall i | 0 <= i < |rest| && rest[i].Client? ensures Primary(rest[i].fields, protocol) != Primary(former, protocol) {
      assert rest[i] in rest;
    }
  }

  /** After an error the database has the old email, every other client is in its place, and the
      old client is on the Agent if and only if the removal was taken back, whichever replies were
      lost and whichever calls failed. */
  lemma ErrorKeepsOldIff(s: Store, row: Row, former: ClientFields, k: Calls, protocol: string, list: seq<Element>)
    returns (after: seq<Element>)
    requires Holding(s, row.tag, protocol, list) && Registered(list, row, former, protocol)
    requires Email(former) != Trim(NewEmail(row)) && AllSteady(k) && Migrate(s, row, former, k).failure.Some?
    ensures Migrate(s, row, former, k).credential == former && Holding(Migrate(s, row, former, k).agent, row.tag, protocol, after)
    ensures Removed(after, former, protocol) == Removed(list, former, protocol)
    ensures OldPresent(after, former, protocol) <==> TakenBack(s, row, former, k)
  {
    MigrateShape(s, row, former, k);
    if Forwarded(s, RemoveRequest(row, former), k.remove).end.Failed? {
      after := ErrorAtRemoval(s, row, former, k, protocol, list);
    } else {
      after := ErrorPastRemoval(s, row, former, k, protocol, list);
    }
  }

  lemma MigrateShape(s: Store, row: Row, former: ClientFields, k: Calls)
    ensures var removed, m := Forwarded(s, RemoveRequest(row, former), k.remove), Migrate(s, row, former, k);
            && (m.failure.Some? ==> m.credential == former)
            && (removed.end.Failed? ==> m.agent == removed.agent)
            && (removed.end.Acked? ==> m == MigrateFrom(removed.agent, row, former, Renamed(former, row), k))
  {
  }

  lemma ErrorAtRemoval(s: Store, row: Row, former: ClientFields, k: Calls, protocol: string, list: seq<Element>)
    returns (after: seq<Element>)
    requires Holding(s, row.tag, protocol, list) && Registered(list, row, former, protocol) && Email(former) != Trim(NewEmail(row))
    requires Steady(k.remove) && Forwarded(s, RemoveRequest(row, former), k.remove).end.Failed?
    ensures Holding(Forwarded(s, RemoveRequest(row, former), k.remove).agent, row.tag, protocol, after)
    ensures Removed(after, former, protocol) == Removed(list, former, protocol)
    ensures OldPresent(after, former, protocol) <==> TakenBack(s, row, former, k)
  {
    RestLacksOld(list, row, former, protocol);
    var removal := RemoveRequest(row, former);
    CallEnds(s, removal, k.remove, protocol, list);
    after := if TookEffect(s, removal, k.remove) then Removed(list, former, protocol) else list;
  }

  lemma ErrorPastRemoval(s: Store, row: Row, former: ClientFields, k: Calls, protocol: string, list: seq<Element>)
    returns (after: seq<Element>)
    requires Holding(s, row.tag, protocol, list) && Registered(list, row, former, protocol) && Email(former) != Trim(NewEmail(row))
    requires var removed := Forwarded(s, RemoveRequest(row, former), k.remove);
             removed.end.Acked? && MigrateFrom(removed.agent, row, former, Renamed(former, row), k).failure.Some?
    requires AllSteady(k)
    ensures Holding(MigrateFrom(Forwarded(s, RemoveRequest(row, former), k.remove).agent, row, former, Renamed(former, row), k).agent,
                    row.tag, protocol, after)
    ensures Removed(after, former, protocol) == Removed(list, former, protocol)
    ensures OldPresent(after, former, protocol) <==> TakenBack(s, row, former, k)
  {
    var rest := Removed(list, former, protocol);
    RestLacksOld(list, row, former, protocol);
    OldIsPresent(rest, former, protocol);
    CallEnds(s, RemoveRequest(row, former), k.remove, protocol, list);
    after := ErrorAfterRemoval(Forwarded(s, RemoveRequest(row, former), k.remove).agent, row, former, k, protocol, rest);
  }

  lemma ErrorAfterRemoval(agent: Store, row: Row, former: ClientFields, k: Calls, protocol: string, rest: seq<Element>)
    returns (after: seq<Element>)
    requires Holding(agent, row.tag, protocol, rest) && Primary(former, protocol) != "" && AllSteady(k)
    requires Added(rest, Renamed(former, row), protocol) == rest + [Client(Renamed(former, row))]
    requires Added(rest, former, protocol) == rest + [Client(former)]
    requires Added(rest + [Client(Renamed(former, row))], former, protocol) == rest + [Client(Renamed(former, row))]
    requires Removed(rest + [Client(Renamed(former, row))], Renamed(former, row), protocol) == rest
    requires MigrateFrom(agent, row, former, Renamed(former, row), k).failure.Some? && Email(former) != Trim(NewEmail(row))
    ensures Holding(MigrateFrom(agent, row, former, Renamed(former, row), k).agent, row.tag, protocol, after)
    ensures after in {rest, rest + [Client(Renamed(former, row))], rest + [Client(former)]}
    ensures var added := Forwarded(agent, AddRequest(row, Renamed(former, row)), k.add);
            var withdrawn := Forwarded(added.agent, RemoveRequest(row, Renamed(former, row)), k.removeNew);
            var back := if added.end.Failed? then
                          !TookEffect(agent, AddRequest(row, Renamed(former, row)), k.add)
                          && TookEffect(added.agent, AddRequest(row, former), k.rollback)
                        else withdrawn.end.Acked? && TookEffect(withdrawn.agent, AddRequest(row, former), k.restore);
            back <==> after == rest + [Client(former)]
  {
    var renamed := Renamed(former, row);
    RenamedKeepsCredential(row, former, protocol);
    var addition := AddRequest(row, renamed);
    CallEnds(agent, addition, k.add, protocol, rest);
    var added := Forwarded(agent, addition, k.add);
    var list1 := if TookEffect(agent, addition, k.add) then rest + [Client(renamed)] else rest;
    if added.end.Failed? {
      CallEnds(added.agent, AddRequest(row, former), k.rollback, protocol, list1);
      after := if TookEffect(added.agent, AddRequest(row, former), k.rollback) then Added(list1, former, protocol) else list1;
    } else {
      var removal := RemoveRequest(row, renamed);
      CallEnds(added.agent, removal, k.removeNew, protocol, list1);
      var withdrawn := Forwarded(added.agent, removal, k.removeNew);
      var list2 := if TookEffect(added.agent, removal, k.removeNew) then rest else list1;
      after := list2;
      if withdrawn.end.Acked? {
        CallEnds(withdrawn.agent, AddRequest(row, former), k.restore, protocol, list2);
        if TookEffect(withdrawn.agent, AddRequest(row, former), k.restore) {
          after := rest + [Client(former)];
        }
      }
    }
    assert Client(renamed) != Client(former);
    assert (rest + [Client(renamed)])[|rest|] != (rest + [Client(former)])[|rest|];
  }

  // ---------------------------------------------------------------------------------------
  // How it comes apart
  // ---------------------------------------------------------------------------------------

  /** No reply is lost, and yet the client is: the Agent removed it, could not clear its deadline,
      and answered that it failed. */
  lemma RefusedRemovalLocksOut(s: Store, row: Row, former: ClientFields, k: Calls, protocol: string, list: seq<Element>)
    requires Holding(s, row.tag, protocol, list) && Registered(list, row, former, protocol)
    requires var removal := RemoveRequest(row, former);
             && k.remove.Answered? && RollbacksWork(k.remove.o) && !SaysInboundNotFound(k.remove.text)
             && Act(s, removal, k.remove.now, k.remove.o).reply == ExpiryFailed && RemovalReaches(s, removal, k.remove.now, k.remove.o)
    ensures var m := Migrate(s, row, former, k);
            && m.failure == Some(RemoveOld) && m.credential == former
            && Holding(m.agent, row.tag, protocol, Removed(list, former, protocol))
            && !HasCredential(Removed(list, former, protocol), Primary(former, protocol), protocol)
  {
    FailedRemovalRewrites(s, RemoveRequest(row, former), k.remove.now, k.remove.o, protocol, list);
    RemovalTakesCredential(list, former, protocol);
  }

  lemma RemovalTakesCredential(list: seq<Element>, former: ClientFields, protocol: string)
    requires Primary(former, protocol) != ""
    ensures !HasCredential(Removed(list, former, protocol), Primary(former, protocol), protocol)
  {
    RemoveLeavesNoMatch(list, former, protocol);
    var rest := Removed(list, former, protocol);
    forall i | 0 <= i < |rest| && rest[i].Client? ensures Primary(rest[i].fields, protocol) != Primary(former, protocol) {
      assert rest[i] in rest;
    }
  }

  /** The removal took effect, but its reply did not arrive: the error is reported, the database
      keeps the old email, and the Agent has no such client. */
  lemma LostRemovalLocksOut(s: Store, row: Row, former: ClientFields, k: Calls, protocol: string, list: seq<Element>)
    requires Holding(s, row.tag, protocol, list) && Registered(list, row, former, protocol)
    requires k.remove.LostReply? && Act(s, RemoveRequest(row, former), k.remove.now, k.remove.o).reply.Done?
    requires !SaysInboundNotFound(k.remove.text)
    ensures var m := Migrate(s, row, former, k);
            && m.failure == Some(RemoveOld) && m.credential == former
            && Holding(m.agent, row.tag, protocol, Removed(list, former, protocol))
            && !HasCredential(Removed(list, former, protocol), Primary(former, protocol), protocol)
  {
    DoneRewrites(s, RemoveRequest(row, former), k.remove.now, k.remove.o, protocol, list);
    RemovalTakesCredential(list, former, protocol);
  }

  /** The addition took effect, but its reply did not arrive: putting the old client back is then
      taken for done already, and the Agent keeps the new email beside the database's old one. */
  lemma LostAdditionSplits(s: Store, row: Row, former: ClientFields, k: Calls, protocol: string, list: seq<Element>)
    requires Holding(s, row.tag, protocol, list) && Registered(list, row, former, protocol)
    requires Forwarded(s, RemoveRequest(row, former), k.remove).end.Acked?
    requires var agent := Forwarded(s, RemoveRequest(row, former), k.remove).agent;
             && k.add.LostReply? && Act(agent, AddRequest(row, Renamed(former, row)), k.add.now, k.add.o).reply.Done?
             && Forwarded(Forwarded(agent, AddRequest(row, Renamed(former, row)), k.add).agent, AddRequest(row, former), k.rollback).end.Acked?
    ensures var m := Migrate(s, row, former, k);
            && m.failure == Some(AddNew) && m.credential == former
            && Holding(m.agent, row.tag, protocol, Removed(list, former, protocol) + [Client(Renamed(former, row))])
  {
    var renamed, rest := Renamed(former, row), Removed(list, former, protocol);
    RenamedKeepsCredential(row, former, protocol);
    RestHasNeither(list, row, former, protocol);
    ForwardedEnds(s, RemoveRequest(row, former), k.remove, protocol, list);
    var agent := Forwarded(s, RemoveRequest(row, former), k.remove).agent;
    DoneRewrites(agent, AddRequest(row, renamed), k.add.now, k.add.o, protocol, rest);
    var holding := rest + [Client(renamed)];
    assert SameForAdd(holding[|rest|], former, protocol);
    var added := Forwarded(agent, AddRequest(row, renamed), k.add).agent;
    ForwardedEnds(added, AddRequest(row, former), k.rollback, protocol, holding);
  }

  /** Migration sends no deadlines, so whatever deadline the client had is forgotten. */
  lemma MigrationForgetsDeadline(s: Store, row: Row, former: ClientFields, k: Calls, protocol: string, list: seq<Element>)
    requires Holding(s, row.tag, protocol, list) && Usable(former, protocol)
    requires Migrate(s, row, former, k).failure == None && !TookOrphanPath(s, row, former, k)
    ensures var entries := Migrate(s, row, former, k).agent.entries;
            && ClientIdentity(protocol, former).Ok? && ClientIdentity(protocol, Renamed(former, row)).Ok?
            && IdentityKey(row.tag, ClientIdentity(protocol, former).value) !in entries
            && IdentityKey(row.tag, ClientIdentity(protocol, Renamed(former, row)).value) !in entries
  {
    var renamed := Renamed(former, row);
    RenamedKeepsCredential(row, former, protocol);
    var removed := Forwarded(s, RemoveRequest(row, former), k.remove).agent;
    ForwardedEnds(s, RemoveRequest(row, former), k.remove, protocol, list);
    AckedClears(s, RemoveRequest(row, former), k.remove, protocol);
    AckedClears(removed, AddRequest(row, renamed), k.add, protocol);
  }

  /** An acknowledged request without a deadline leaves none for its client, and adds no other. */
  lemma AckedClears(s: Store, q: ClientRequest, c: Call, protocol: string)
    requires SoundToo(s) && Lookup(s.config, q.tag).Some? && Lookup(s.config, q.tag).value.protocol == protocol
    requires q.notAfter == None && Forwarded(s, q, c).end.Acked?
    ensures var s' := Forwarded(s, q, c).agent;
            && ClientIdentity(protocol, q.client).Ok? && s'.loaded
            && IdentityKey(q.tag, ClientIdentity(protocol, q.client).value) !in s'.entries
            && (s.loaded ==> s'.entries.Keys <= s.entries.Keys)
  {
    DoneSays(s, q, c.now, c.o);
    DoneIsLoaded(s, q, c.now, c.o);
    var s', key := Act(s, q, c.now, c.o).store, KeyOf(s, q);
    if s.loaded {
      forall x | x in s'.entries ensures x in s.entries {
        assert x in s'.entries - {key};
      }
    }
  }

  lemma DoneIsLoaded(s: Store, q: ClientRequest, now: Time, o: Outcomes)
    requires Act(s, q, now, o).reply.Done?
    ensures Act(s, q, now, o).store.loaded
  {
  }

  function IdentityKey(tag: string, id: Identity): string {
    ExpirationKey(tag, id.key, id.value)
  }

  // ---------------------------------------------------------------------------------------
  // Orphaned rows
  // ---------------------------------------------------------------------------------------

  /** A piece of text without spaces that does not start inside `prefix` or in `suffix` lies within
      what is between them. */
  lemma OccursInside(prefix: string, tag: string, suffix: string, part: string)
    requires part != "" && part[0] !in prefix && part[0] !in suffix
    requires suffix != "" && suffix[0] !in part
    ensures Contains(prefix + tag + suffix, part) <==> Contains(tag, part)
  {
    var s, e := prefix + tag + suffix, |prefix| + |tag|;
    forall j | 0 <= j < |prefix| || e <= j < |s| ensures s[j] != part[0] {
      assert s[j] == if j < |prefix| then prefix[j] else suffix[j - e];
    }
    forall j | 0 <= j < |part| ensures part[j] != s[e] {
      assert s[e] == suffix[0];
    }
    if i: nat :| i <= |s| && OccursAt(s, part, i) {
      forall j | 0 <= j < |part| ensures s[i + j] == part[j] {
        assert s[i..i + |part|][j] == s[i + j];
      }
      assert s[i + 0] == part[0];
      assert |prefix| <= i < e && i + |part| <= e;
      assert tag[i - |prefix|..i - |prefix| + |part|] == s[i..i + |part|];
      assert OccursAt(tag, part, i - |prefix|);
    }
    if i: nat :| i <= |tag| && OccursAt(tag, part, i) {
      assert s[|prefix| + i..|prefix| + i + |part|] == tag[i..i + |part|];
      assert OccursAt(s, part, |prefix| + i);
    }
  }

  lemma EndsWith(prefix: string, part: string)
    ensures Contains(prefix + part, part)
  {
    assert (prefix + part)[|prefix|..|prefix| + |part|] == part;
    assert OccursAt(prefix + part, part, |prefix|);
  }

  /** The words stand somewhere in the text. */
  predicate Says(text: string, words: string) {
    exists i :: 0 <= i <= |text| && words <= text[i..]
  }

  /** A removal that is answered by an error ends the migration of the row, which keeps its email, unless
      the error speaks of an inbound and of something not found; then the row is an orphan, and only the
      database is brought up to date. */
  lemma OnlyOrphansGoOn(s: Store, row: Row, former: ClientFields, k: Calls)
    requires Forwarded(s, RemoveRequest(row, former), k.remove).end.Failed?
    ensures var m, text := Migrate(s, row, former, k), Forwarded(s, RemoveRequest(row, former), k.remove).end.text;
            && m.agent == Forwarded(s, RemoveRequest(row, former), k.remove).agent
            && if Says(text, "inbound") && Says(text, "not found") then
                 if k.updated then m.failure == None && m.credential == former["email" := Printed(row.username + "__" + row.tag)]
                 else m.failure == Some(OrphanUpdate) && m.credential == former
               else m.failure == Some(RemoveOld) && m.credential == former
  {
    var text := Forwarded(s, RemoveRequest(row, former), k.remove).end.text;
    SaysIsContains(text, "inbound");
    SaysIsContains(text, "not found");
  }

  lemma SaysIsContains(text: string, words: string)
    ensures Says(text, words) <==> Contains(text, words)
  {
    if Contains(text, words) {
      var i: nat :| i <= |text| && OccursAt(text, words, i);
      assert text[i..][..|words|] == text[i..i + |words|];
      assert words <= text[i..];
    }
    if Says(text, words) {
      var i :| 0 <= i <= |text| && words <= text[i..];
      assert text[i..][..|words|] == text[i..i + |words|];
      assert OccursAt(text, words, i);
    }
  }

  /** An Agent without the inbound says so with a capital letter. The row is brought up to date in
      the database exactly when its tag itself contains the word that is looked for; any other
      orphaned row fails on every run. */
  lemma OrphanIsRecognisedIff(s: Store, row: Row, former: ClientFields, k: Calls)
    requires k.remove.Answered? && Act(s, RemoveRequest(row, former), k.remove.now, k.remove.o).reply == InboundNotFound
    ensures var m := Migrate(s, row, former, k);
            && m.agent == s
            && (m.failure == None <==> Contains(row.tag, "inbound") && k.updated)
            && (!Contains(row.tag, "inbound") ==> m.failure == Some(RemoveOld) && m.credential == former)
            && (m.failure == None ==> m.credential == Renamed(former, row))
  {
    RecognisedByItsTag(row.tag);
  }

  lemma RecognisedByItsTag(tag: string)
    ensures SaysInboundNotFound(NotFoundText(tag)) <==> Contains(tag, "inbound")
  {
    OccursInside("Inbound ", tag, " not found", "inbound");
    EndsWith("Inbound " + tag + " ", "not found");
    assert "Inbound " + tag + " not found" == "Inbound " + tag + " " + "not found";
  }
}
