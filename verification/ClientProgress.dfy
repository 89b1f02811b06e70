/** What client actions, expiry and migration achieve when no outside call fails, and what one
    unreported write is then enough for. */
module ClientProgress {
  import opened Base
  import opened InboundClients
  import opened ClientExpirations
  import opened ManagedClients
  import opened ClientSafety
  import opened CredentialMigration
  import opened MigrationSafety

  predicate Readable(s: Store) {
    s.loaded || Load(s.sidecar).Ok?
  }

  /** The request is one that the inbound can take. */
  ghost predicate Acceptable(s: Store, q: ClientRequest, now: Time) {
    && Trim(q.tag) != "" && Lookup(s.config, q.tag).Some? && ListIn(s, q).Some?
    && ClientIdentity(Lookup(s.config, q.tag).value.protocol, q.client).Ok?
    && Deadline(q, now) != Some(ZERO_TIME)
  }

  lemma SetSucceedsIff(entries: Expirations, tag: string, protocol: string, client: ClientFields, notAfter: Option<Time>)
    requires Trim(tag) != ""
    ensures Set(entries, tag, protocol, client, notAfter).Ok?
            <==> ClientIdentity(protocol, client).Ok? && notAfter != Some(ZERO_TIME)
  {
    IdentityByName(protocol, client);
  }

  lemma UpdateSucceedsIff(s: Store, tag: string, protocol: string, client: ClientFields, notAfter: Option<Time>)
    requires Trim(tag) != ""
    ensures UpdateExpiration(s, tag, protocol, client, notAfter, FINE.expiry).result.Ok?
            <==> Readable(s) && ClientIdentity(protocol, client).Ok? && notAfter != Some(ZERO_TIME)
  {
    var l := LoadedStore(s, true);
    if l.Some? {
      SetSucceedsIff(l.value.entries, tag, protocol, client, notAfter);
    }
  }

  /** When nothing fails, an action succeeds exactly when the deadlines can be read and the inbound
      can take the request. */
  lemma ActSucceedsIff(s: Store, q: ClientRequest, now: Time)
    ensures Act(s, q, now, FINE).reply.Done? <==> Readable(s) && Acceptable(s, q, now)
  {
    var found := Lookup(s.config, q.tag);
    if Trim(q.tag) != "" && found.Some? {
      var m := Mutate(found.value, q.client, Adds(q, now));
      if m.Ok? {
        var s2 := AfterReplace(AfterAdd(s, m.value.inbound, Applied), m.value.inbound);
        UpdateSucceedsIff(if m.value.changed then s2 else s, q.tag, found.value.protocol, q.client, Deadline(q, now));
      }
    }
  }

  /** When nothing fails, an attempt on a current deadline succeeds exactly when the inbound is
      gone or its list can be searched for the client. */
  lemma ExpireSucceedsIff(s: Store, e: Expiration)
    requires s.loaded && CurrentIn(s, e)
    ensures Expire(s, e, FINE).ok
            <==> Lookup(s.config, e.tag).None? || ClientList(Lookup(s.config, e.tag).value, e.Client()).Ok?
  {
  }

  /** Every deadline can be lost. From any sound state and for any new client: after it was added
      with a deadline, removed with an unreported write, and added again with nothing failing, the
      client is in the list and the file has no deadline for it. */
  lemma AnyDeadlineCanBeLost(s: Store, q: ClientRequest, now: Time)
    requires SoundToo(s) && Readable(s) && Synced(s, q.tag) && Acceptable(s, q, now)
    requires q.add && q.notAfter.Some? && now < q.notAfter.value && q.notAfter.value != ZERO_TIME
    requires !Has(ListIn(s, q).value, q.client, Lookup(s.config, q.tag).value.protocol)
    ensures var held := Act(s, q, now, FINE).store;
            var removed := Act(held, q.(add := false), now, UNREPORTED).store;
            var again := Act(removed, q, now, FINE);
            && again.reply == Done(true, true)
            && ListIn(again.store, q).Some? && Client(q.client) in ListIn(again.store, q).value
            && again.store.sidecar.Some?
            && forall e: Expiration :: e in again.store.sidecar.value.entries ==> e.Key() != KeyOf(s, q)
  {
    ActSucceedsIff(s, q, now);
    var held := Act(s, q, now, FINE).store;
    HeldAfterAdd(s, q, now);
    ReaddedWithoutDurableDeadline(held, q.tag, q.client, q.notAfter.value, now);
    assert q == ClientRequest(true, q.tag, q.client, Some(q.notAfter.value));
  }

  lemma HeldAfterAdd(s: Store, q: ClientRequest, now: Time)
    requires SoundToo(s) && Synced(s, q.tag) && Act(s, q, now, FINE).reply.Done?
    requires q.add && q.notAfter.Some? && now < q.notAfter.value
    requires Lookup(s.config, q.tag).Some? && ListIn(s, q).Some?
    requires !Has(ListIn(s, q).value, q.client, Lookup(s.config, q.tag).value.protocol)
    ensures var held, protocol := Act(s, q, now, FINE).store, Lookup(s.config, q.tag).value.protocol;
            && Sound(held) && held.loaded && Synced(held, q.tag)
            && Lookup(held.config, q.tag).Some? && Lookup(held.config, q.tag).value.protocol == protocol
            && ListIn(held, q).Some? && ClientIdentity(protocol, q.client).Ok?
            && KeyOf(held, q) == KeyOf(s, q) && KeyOf(s, q) in held.entries
            && NewExpiration(q.tag, protocol, q.client, q.notAfter.value) == Ok(held.entries[KeyOf(s, q)])
            && !Has(Removed(ListIn(held, q).value, q.client, protocol), q.client, protocol)
            && Has(ListIn(held, q).value, q.client, protocol)
  {
    var held, protocol, list := Act(s, q, now, FINE).store, Lookup(s.config, q.tag).value.protocol, ListIn(s, q).value;
    ActIsSound(s, q, now, FINE);
    DoneIsLoaded(s, q, now, FINE);
    DoneMeansWanted(s, q, now, FINE);
    DoneRewritesTheList(s, q, now, FINE);
    MutateFrame(Lookup(s.config, q.tag).value, q.client, true);
    DoneSays(s, q, now, FINE);
    HeldEntry(s, q, now);
    RemoveUndoesAdd(list, q.client, protocol);
    assert SameForAdd((list + [Client(q.client)])[|list|], q.client, protocol);
  }

  lemma HeldEntry(s: Store, q: ClientRequest, now: Time)
    requires Act(s, q, now, FINE).reply.Done? && Adds(q, now) && q.notAfter.Some?
    ensures var protocol := Lookup(s.config, q.tag).value.protocol;
            && ClientIdentity(protocol, q.client).Ok?
            && KeyOf(s, q) in Act(s, q, now, FINE).store.entries
            && NewExpiration(q.tag, protocol, q.client, q.notAfter.value) == Ok(Act(s, q, now, FINE).store.entries[KeyOf(s, q)])
  {
    var found := Lookup(s.config, q.tag).value;
    var m := Mutate(found, q.client, true).value;
    UpdateHolds(if m.changed then AfterReplace(AfterAdd(s, m.inbound, Applied), m.inbound) else s,
                q.tag, found.protocol, q.client, q.notAfter.value, FINE.expiry);
    NewIsNormal(q.tag, found.protocol, q.client, q.notAfter.value);
  }

  function FineCall(now: Time): Call {
    Answered(now, FINE, "")
  }

  function FineCalls(now: Time): Calls {
    Calls(FineCall(now), FineCall(now), FineCall(now), true, FineCall(now), FineCall(now))
  }

  /** When nothing fails, a row whose client can be named moves: the new email in the database, and
      on the Agent the old list with the one client replaced. */
  lemma MigrationSucceeds(s: Store, row: Row, former: ClientFields, now: Time, protocol: string, list: seq<Element>)
    requires Holding(s, row.tag, protocol, list) && Readable(s) && ClientIdentity(protocol, former).Ok?
    ensures var m := Migrate(s, row, former, FineCalls(now));
            && m.failure == None && m.credential == Renamed(former, row)
            && Holding(m.agent, row.tag, protocol, Added(Removed(list, former, protocol), Renamed(former, row), protocol))
  {
    var renamed := Renamed(former, row);
    RenamedKeepsCredential(row, former, protocol);
    FineForward(s, RemoveRequest(row, former), now, protocol, list);
    var removed := Forwarded(s, RemoveRequest(row, former), FineCall(now)).agent;
    FineForward(removed, AddRequest(row, renamed), now, protocol, Removed(list, former, protocol));
    SuccessMeansBoth(s, row, former, FineCalls(now), protocol, list);
  }

  lemma FineForward(s: Store, q: ClientRequest, now: Time, protocol: string, list: seq<Element>)
    requires Holding(s, q.tag, protocol, list) && Readable(s) && ClientIdentity(protocol, q.client).Ok? && q.notAfter == None
    ensures var f := Forwarded(s, q, FineCall(now));
            && f.end.Acked? && Readable(f.agent)
            && Holding(f.agent, q.tag, protocol, Rewritten(list, q.client, protocol, q.add))
  {
    IdentityIsUsable(protocol, q.client);
    assert ListIn(s, q) == Some(list);
    ActSucceedsIff(s, q, now);
    DoneIsLoaded(s, q, now, FINE);
    ForwardedEnds(s, q, FineCall(now), protocol, list);
  }

  lemma IdentityIsUsable(protocol: string, client: ClientFields)
    requires ClientIdentity(protocol, client).Ok?
    ensures Usable(client, protocol)
  {
  }
}
