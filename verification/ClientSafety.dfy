/** What client actions and expiry keep true about the three stores, how they fail, and when a
    deadline that was accepted is enforced. */
module ClientSafety {
  import opened Base
  import opened InboundClients
  import opened ClientExpirations
  import opened ManagedClients

  /** The runtime runs what the file defines for the tag. */
  predicate Synced(s: Store, tag: string) {
    Lookup(s.config, tag).Some? ==> tag in s.runtime && s.runtime[tag] == Lookup(s.config, tag).value
  }

  /** No call that undoes something fails. */
  predicate RollbacksWork(o: Outcomes) {
    o.rollback in {Applied, Unacknowledged} && o.restored
  }

  predicate DefinedAs(s: Store, tag: string, inbound: Inbound) {
    Lookup(s.config, tag) == Some(inbound) && tag in s.runtime && s.runtime[tag] == inbound
  }

  predicate SameAt(s: Store, s': Store, tag: string) {
    && Lookup(s'.config, tag) == Lookup(s.config, tag)
    && (tag in s'.runtime <==> tag in s.runtime)
    && (tag in s.runtime ==> s'.runtime[tag] == s.runtime[tag])
  }

  lemma ReplaceDefines(s: Store, inbound: Inbound, other: string)
    requires Lookup(s.config, inbound.tag).Some?
    ensures var s' := AfterReplace(s, inbound);
            Lookup(s'.config, inbound.tag) == Some(inbound) && (other != inbound.tag ==> SameAt(s, s', other))
  {
    RewriteSets(s.config, inbound);
    RewriteKeepsOthers(s.config, inbound, false);
    if other != inbound.tag {
      LookupAmongOthers(s.config, inbound.tag, other);
      LookupAmongOthers(AfterReplace(s, inbound).config, inbound.tag, other);
    }
  }

  lemma AddSets(s: Store, inbound: Inbound, o: AddOutcome, other: string)
    ensures var s' := AfterAdd(s, inbound, o);
            && s'.config == s.config && s'.entries == s.entries && s'.sidecar == s.sidecar && s'.loaded == s.loaded
            && (o in {Applied, Unacknowledged} ==> inbound.tag in s'.runtime && s'.runtime[inbound.tag] == inbound)
            && (other != inbound.tag ==> SameAt(s, s', other))
  {
  }

  /** Deadlines live beside the runtime and the file. */
  lemma UpdateLeavesInbounds(s: Store, tag: string, protocol: string, client: ClientFields, notAfter: Option<Time>, o: ExpiryOutcome)
    ensures var x := UpdateExpiration(s, tag, protocol, client, notAfter, o);
            x.store.runtime == s.runtime && x.store.config == s.config
  {
  }

  // ---------------------------------------------------------------------------------------
  // Atomicity
  // ---------------------------------------------------------------------------------------

  /** An add that took effect, followed by replacing the definition. */
  lemma Installs(s: Store, inbound: Inbound, o: AddOutcome, other: string)
    requires Lookup(s.config, inbound.tag).Some? && o in {Applied, Unacknowledged}
    ensures DefinedAs(AfterReplace(AfterAdd(s, inbound, o), inbound), inbound.tag, inbound)
    ensures other != inbound.tag ==> SameAt(s, AfterReplace(AfterAdd(s, inbound, o), inbound), other)
  {
    AddSets(s, inbound, o, other);
    ReplaceDefines(AfterAdd(s, inbound, o), inbound, other);
  }

  /** An add that ended in any way, undone. */
  lemma Undoes(s: Store, original: Inbound, inbound: Inbound, o: AddOutcome, rollback: AddOutcome, other: string)
    requires Lookup(s.config, original.tag) == Some(original) && inbound.tag == original.tag
    requires rollback in {Applied, Unacknowledged}
    ensures var s' := AfterAdd(AfterAdd(s, inbound, o), original, rollback);
            DefinedAs(s', original.tag, original) && (other != original.tag ==> SameAt(s, s', other))
  {
    AddSets(s, inbound, o, other);
    AddSets(AfterAdd(s, inbound, o), original, rollback, other);
  }

  /** The three ways the runtime and the file can look after an action on a tag: untouched,
      put back, or both with the new definition. */
  lemma ActChangedInbounds(s: Store, q: ClientRequest, now: Time, original: Inbound, inbound: Inbound, o: Outcomes, other: string)
    requires Lookup(s.config, q.tag) == Some(original) && inbound.tag == q.tag && RollbacksWork(o)
    ensures var end := ActChanged(s, q, now, original, inbound, o);
            var done := end.reply.Done? || (end.reply.ExpiryFailed? && !Adds(q, now));
            && DefinedAs(end.store, q.tag, if done then inbound else original)
            && (other != q.tag ==> SameAt(s, end.store, other))
            && end.reply in {ApplyFailed, PersistFailed, ExpiryFailed, Done(true, true)}
  {
    Undoes(s, original, inbound, o.apply, o.rollback, other);
    if o.apply.Applied? && o.persisted {
      var s2 := AfterReplace(AfterAdd(s, inbound, o.apply), inbound);
      Installs(s, inbound, o.apply, other);
      UpdateLeavesInbounds(s2, q.tag, original.protocol, q.client, Deadline(q, now), o.expiry);
      var x := UpdateExpiration(s2, q.tag, original.protocol, q.client, Deadline(q, now), o.expiry);
      Installs(x.store, original, o.rollback, other);
    }
  }

  /** Every exit of an action, with any single call failing in any way, leaves the runtime and
      the file with the same definition for every tag that had one, as long as no rollback call
      fails; and no other tag is touched. */
  lemma ActKeepsSynced(s: Store, q: ClientRequest, now: Time, o: Outcomes, tag: string)
    requires Synced(s, tag) && RollbacksWork(o)
    ensures Synced(Act(s, q, now, o).store, tag)
    ensures tag != q.tag ==> Lookup(Act(s, q, now, o).store.config, tag) == Lookup(s.config, tag)
  {
    var found := Lookup(s.config, q.tag);
    if o.connected && Trim(q.tag) != "" && o.readable && found.Some? {
      var m := Mutate(found.value, q.client, Adds(q, now));
      if m.Ok? && m.value.changed {
        MutateFrame(found.value, q.client, Adds(q, now));
        ActChangedInbounds(s, q, now, found.value, m.value.inbound, o, tag);
      } else if m.Ok? {
        UpdateLeavesInbounds(s, q.tag, found.value.protocol, q.client, Deadline(q, now), o.expiry);
      }
    }
  }

  /** An add that is reported as failed has changed no definition: a client that was absent is
      absent from the runtime and from the file. */
  lemma FailedAddChangesNothing(s: Store, q: ClientRequest, now: Time, o: Outcomes)
    requires Synced(s, q.tag) && RollbacksWork(o) && Adds(q, now)
    requires !Act(s, q, now, o).reply.Done?
    ensures Lookup(Act(s, q, now, o).store.config, q.tag) == Lookup(s.config, q.tag)
    ensures Synced(Act(s, q, now, o).store, q.tag)
  {
    ActKeepsSynced(s, q, now, o, q.tag);
    var found := Lookup(s.config, q.tag);
    if o.connected && Trim(q.tag) != "" && o.readable && found.Some? {
      var m := Mutate(found.value, q.client, true);
      if m.Ok? && m.value.changed {
        MutateFrame(found.value, q.client, true);
        ActChangedInbounds(s, q, now, found.value, m.value.inbound, o, q.tag);
      } else if m.Ok? {
        UpdateLeavesInbounds(s, q.tag, found.value.protocol, q.client, Deadline(q, now), o.expiry);
      }
    }
  }

  /** The client list of a tag, in the file. */
  function ListIn(s: Store, q: ClientRequest): Option<seq<Element>> {
    var found := Lookup(s.config, q.tag);
    if found.None? || ClientList(found.value, q.client).Err? then None
    else Some(ClientList(found.value, q.client).value)
  }

  /** The definition that an action asks for. */
  function Wanted(s: Store, q: ClientRequest, now: Time): Option<Mutation> {
    var found := Lookup(s.config, q.tag);
    if found.None? then None
    else
      var m := Mutate(found.value, q.client, Adds(q, now));
      if m.Err? then None else Some(m.value)
  }

  lemma DoneMeansWanted(s: Store, q: ClientRequest, now: Time, o: Outcomes)
    requires Synced(s, q.tag) && Act(s, q, now, o).reply.Done?
    ensures var w, end := Wanted(s, q, now), Act(s, q, now, o);
            && w.Some? && end.reply.clientChanged == w.value.changed
            && Lookup(end.store.config, q.tag) == Some(w.value.inbound) && Synced(end.store, q.tag)
  {
    var found := Lookup(s.config, q.tag).value;
    var m := Mutate(found, q.client, Adds(q, now)).value;
    if m.changed {
      MutateFrame(found, q.client, Adds(q, now));
      var s2 := AfterReplace(AfterAdd(s, m.inbound, o.apply), m.inbound);
      Installs(s, m.inbound, o.apply, q.tag);
      UpdateLeavesInbounds(s2, q.tag, found.protocol, q.client, Deadline(q, now), o.expiry);
    } else {
      UpdateLeavesInbounds(s, q.tag, found.protocol, q.client, Deadline(q, now), o.expiry);
    }
  }

  /** A successful action has added the client at the end of the list unless it was there, or has
      removed every matching one, in the runtime and in the file alike. */
  lemma DoneRewritesTheList(s: Store, q: ClientRequest, now: Time, o: Outcomes)
    requires Synced(s, q.tag) && Act(s, q, now, o).reply.Done?
    ensures var protocol, end := Lookup(s.config, q.tag).value.protocol, Act(s, q, now, o);
            && ListIn(s, q).Some? && Synced(end.store, q.tag)
            && ListIn(end.store, q) == Some(Rewritten(ListIn(s, q).value, q.client, protocol, Adds(q, now)))
            && (end.reply.clientChanged <==> ListIn(end.store, q) != ListIn(s, q))
  {
    DoneMeansWanted(s, q, now, o);
    MutateFrame(Lookup(s.config, q.tag).value, q.client, Adds(q, now));
  }

  /** A deadline in the past never lets the client in: it is gone, and so is its deadline. */
  lemma PastDeadlineRemoves(s: Store, q: ClientRequest, now: Time, o: Outcomes)
    requires Synced(s, q.tag) && Act(s, q, now, o).reply.Done?
    requires q.notAfter.Some? && q.notAfter.value <= now
    ensures var protocol, end := Lookup(s.config, q.tag).value.protocol, Act(s, q, now, o);
            && ListIn(end.store, q).Some?
            && (forall e :: e in ListIn(end.store, q).value ==> !SameForRemove(e, q.client, protocol))
            && ClientIdentity(protocol, q.client).Ok? && KeyOf(s, q) !in end.store.entries
  {
    DoneSays(s, q, now, o);
    DoneRewritesTheList(s, q, now, o);
    RemoveLeavesNoMatch(ListIn(s, q).value, q.client, Lookup(s.config, q.tag).value.protocol);
  }

  /** A removal gets past the runtime and the file with something to remove. */
  predicate RemovalReaches(s: Store, q: ClientRequest, now: Time, o: Outcomes) {
    && o.connected && o.readable && Trim(q.tag) != "" && o.apply.Applied? && o.persisted
    && Wanted(s, q, now).Some? && Wanted(s, q, now).value.changed
  }

  /** A failed removal leaves the definition as it was if and only if it was refused, nothing
      matched, the runtime did not take it, or the file was not written. Otherwise, when only its
      deadline could not be cleared, the client is gone from the runtime and from the file. */
  lemma FailedRemovalKeepsIff(s: Store, q: ClientRequest, now: Time, o: Outcomes)
    requires Synced(s, q.tag) && RollbacksWork(o) && !Adds(q, now) && !Act(s, q, now, o).reply.Done?
    ensures var end := Act(s, q, now, o);
            && (Lookup(end.store.config, q.tag) == Lookup(s.config, q.tag) <==> !RemovalReaches(s, q, now, o))
            && Synced(end.store, q.tag)
            && (RemovalReaches(s, q, now, o) ==>
                  end.reply == ExpiryFailed && ListIn(s, q).Some? && ListIn(end.store, q) != ListIn(s, q)
                  && ListIn(end.store, q) == Some(Removed(ListIn(s, q).value, q.client, Lookup(s.config, q.tag).value.protocol)))
  {
    ActKeepsSynced(s, q, now, o, q.tag);
    var found := Lookup(s.config, q.tag);
    if o.connected && Trim(q.tag) != "" && o.readable && found.Some? {
      var m := Mutate(found.value, q.client, false);
      if m.Ok? {
        MutateFrame(found.value, q.client, false);
        if m.value.changed {
          ActChangedInbounds(s, q, now, found.value, m.value.inbound, o, q.tag);
        } else {
          UpdateLeavesInbounds(s, q.tag, found.value.protocol, q.client, Deadline(q, now), o.expiry);
        }
      }
    }
  }

  // ---------------------------------------------------------------------------------------
  // Deadlines
  // ---------------------------------------------------------------------------------------

  /** The key under which the deadline of the request's client is kept. */
  function KeyOf(s: Store, q: ClientRequest): string
    requires Lookup(s.config, q.tag).Some? && ClientIdentity(Lookup(s.config, q.tag).value.protocol, q.client).Ok?
  {
    var id := ClientIdentity(Lookup(s.config, q.tag).value.protocol, q.client).value;
    ExpirationKey(q.tag, id.key, id.value)
  }

  predicate MemorySays(entries: Expirations, key: string, deadline: Option<Time>) {
    if deadline.None? then key !in entries else key in entries && entries[key].notAfter == deadline.value
  }

  /** The entry that a request asks for under its key; none when it clears the deadline. */
  function Want(s: Store, q: ClientRequest, now: Time): Option<Expiration> {
    var deadline, found := Deadline(q, now), Lookup(s.config, q.tag);
    if deadline.None? || found.None? then None
    else
      var e := NewExpiration(q.tag, found.value.protocol, q.client, deadline.value);
      if e.Err? then None else Some(e.value)
  }

  /** Memory holds just that under the key, so that nothing has to be written. */
  predicate Held(entries: Expirations, key: string, want: Option<Expiration>) {
    if want.None? then key !in entries else key in entries && entries[key] == want.value
  }

  ghost predicate FileHas(f: Option<Sidecar>, key: string, want: Option<Expiration>) {
    if want.Some? then f.Some? && want.value in f.value.entries
    else f.Some? ==> forall e: Expiration :: e in f.value.entries ==> e.Key() != key
  }

  lemma SetSays(entries: Expirations, tag: string, protocol: string, client: ClientFields, notAfter: Option<Time>)
    requires Set(entries, tag, protocol, client, notAfter).Ok?
    ensures var next, id := Set(entries, tag, protocol, client, notAfter).value, ClientIdentity(protocol, client);
            && id.Ok?
            && var key := ExpirationKey(tag, id.value.key, id.value.value);
               && MemorySays(next, key, notAfter) && next - {key} == entries - {key}
               && (notAfter.Some? ==> NewExpiration(tag, protocol, client, notAfter.value).Ok?)
               && var want := if notAfter.None? then None else Some(NewExpiration(tag, protocol, client, notAfter.value).value);
                  Held(next, key, want) && (Held(entries, key, want) <==> next == entries)
  {
  }

  lemma SavedSays(entries: Expirations, key: string, want: Option<Expiration>)
    requires Good(entries) && Held(entries, key, want)
    ensures FileHas(Some(FileOf(entries)), key, want)
  {
  }

  /** What a successful update leaves: the entries it was asked for, written if they differ. */
  lemma UpdateEnds(s: Store, tag: string, protocol: string, client: ClientFields, notAfter: Option<Time>, o: ExpiryOutcome)
    requires UpdateExpiration(s, tag, protocol, client, notAfter, o).result.Ok?
    ensures var x, l := UpdateExpiration(s, tag, protocol, client, notAfter, o), LoadedStore(s, o.readable);
            && l.Some? && l.value.sidecar == s.sidecar && x.store.loaded
            && Set(l.value.entries, tag, protocol, client, notAfter) == Ok(x.store.entries)
            && (x.result.value <==> x.store.entries != l.value.entries)
            && x.store.sidecar == if x.result.value then Some(FileOf(x.store.entries)) else s.sidecar
  {
  }

  /** The store on which a successful action updates its deadline, and what the update leaves. */
  lemma DoneUpdates(s: Store, q: ClientRequest, now: Time, o: Outcomes) returns (s2: Store)
    requires Act(s, q, now, o).reply.Done?
    ensures Lookup(s.config, q.tag).Some?
    ensures s2.entries == s.entries && s2.sidecar == s.sidecar && s2.loaded == s.loaded
    ensures var x := UpdateExpiration(s2, q.tag, Lookup(s.config, q.tag).value.protocol, q.client, Deadline(q, now), o.expiry);
            x.result.Ok? && x.store == Act(s, q, now, o).store
  {
    var m := Mutate(Lookup(s.config, q.tag).value, q.client, Adds(q, now)).value;
    s2 := if m.changed then AfterReplace(AfterAdd(s, m.inbound, o.apply), m.inbound) else s;
  }

  /** After success, memory has exactly the deadline asked for and no other deadline has changed. */
  lemma DoneSays(s: Store, q: ClientRequest, now: Time, o: Outcomes)
    requires Act(s, q, now, o).reply.Done?
    ensures var end, l := Act(s, q, now, o), LoadedStore(s, o.expiry.readable);
            && Lookup(s.config, q.tag).Some? && l.Some?
            && ClientIdentity(Lookup(s.config, q.tag).value.protocol, q.client).Ok?
            && MemorySays(end.store.entries, KeyOf(s, q), Deadline(q, now))
            && end.store.entries - {KeyOf(s, q)} == l.value.entries - {KeyOf(s, q)}
  {
    var s2 := DoneUpdates(s, q, now, o);
    var found, l := Lookup(s.config, q.tag).value, LoadedStore(s2, o.expiry.readable);
    UpdateEnds(s2, q.tag, found.protocol, q.client, Deadline(q, now), o.expiry);
    SetSays(l.value.entries, q.tag, found.protocol, q.client, Deadline(q, now));
  }

  /** After success the file has the deadline asked for if and only if memory did not already hold
      that very entry before the call, or the file already had it. */
  lemma DeadlineIsDurableIff(s: Store, q: ClientRequest, now: Time, o: Outcomes)
    requires Sound(s) && Act(s, q, now, o).reply.Done?
    ensures var end, l := Act(s, q, now, o), LoadedStore(s, o.expiry.readable);
            && Lookup(s.config, q.tag).Some? && l.Some?
            && ClientIdentity(Lookup(s.config, q.tag).value.protocol, q.client).Ok?
            && Held(end.store.entries, KeyOf(s, q), Want(s, q, now))
            && (FileHas(end.store.sidecar, KeyOf(s, q), Want(s, q, now)) <==>
                  !Held(l.value.entries, KeyOf(s, q), Want(s, q, now)) || FileHas(s.sidecar, KeyOf(s, q), Want(s, q, now)))
  {
    var s2 := DoneUpdates(s, q, now, o);
    var found, l := Lookup(s.config, q.tag).value, LoadedStore(s2, o.expiry.readable);
    UpdateEnds(s2, q.tag, found.protocol, q.client, Deadline(q, now), o.expiry);
    SetSays(l.value.entries, q.tag, found.protocol, q.client, Deadline(q, now));
    SetKeepsGood(l.value.entries, q.tag, found.protocol, q.client, Deadline(q, now));
    SavedSays(Act(s, q, now, o).store.entries, KeyOf(s, q), Want(s, q, now));
  }

  const FINE: Outcomes := Outcomes(true, true, Applied, true, ExpiryOutcome(true, Written), Applied, true)
  const UNREPORTED: Outcomes := FINE.(expiry := ExpiryOutcome(true, Unreported))

  /** A removal whose sidecar write was renamed but reported as failed, followed by adding the
      same client with the same deadline, everything succeeding: the client is back, success is
      reported, and the file has no deadline for it. */
  lemma ReaddedWithoutDurableDeadline(s: Store, tag: string, client: ClientFields, notAfter: Time, now: Time)
    requires Sound(s) && s.loaded && Trim(tag) != "" && Lookup(s.config, tag).Some? && Synced(s, tag)
    requires now < notAfter && notAfter != ZERO_TIME
    requires var q := ClientRequest(true, tag, client, Some(notAfter));
             && ListIn(s, q).Some? && ClientIdentity(Lookup(s.config, tag).value.protocol, client).Ok?
             && KeyOf(s, q) in s.entries
             && NewExpiration(tag, Lookup(s.config, tag).value.protocol, client, notAfter) == Ok(s.entries[KeyOf(s, q)])
             && !Has(Removed(ListIn(s, q).value, client, Lookup(s.config, tag).value.protocol), client, Lookup(s.config, tag).value.protocol)
             && Has(ListIn(s, q).value, client, Lookup(s.config, tag).value.protocol)
    ensures var q := ClientRequest(true, tag, client, Some(notAfter));
            var removed := Act(s, q.(add := false), now, UNREPORTED);
            var added := Act(removed.store, q, now, FINE);
            && removed.reply == ExpiryFailed && added.reply == Done(true, true)
            && ListIn(added.store, q).Some? && Client(client) in ListIn(added.store, q).value
            && MemorySays(added.store.entries, KeyOf(s, q), Some(notAfter))
            && added.store.sidecar.Some? && forall e: Expiration :: e in added.store.sidecar.value.entries ==> e.Key() != KeyOf(s, q)
  {
    var q := ClientRequest(true, tag, client, Some(notAfter));
    var r := q.(add := false);
    var found := Lookup(s.config, tag).value;
    var list := ListIn(s, q).value;
    var key := KeyOf(s, q);
    var m := Mutate(found, client, false).value;
    MutateFrame(found, client, false);
    assert m.changed;
    ActChangedInbounds(s, r, now, found, m.inbound, UNREPORTED, tag);
    var removed := Act(s, r, now, UNREPORTED);
    RemovalUnreported(s, r, now, found, m.inbound, key);
    var again := Mutate(m.inbound, client, true).value;
    MutateFrame(m.inbound, client, true);
    assert again.changed;
    ActChangedInbounds(removed.store, q, now, m.inbound, again.inbound, FINE, tag);
    var s2 := AfterReplace(AfterAdd(removed.store, again.inbound, Applied), again.inbound);
    assert Set(s2.entries, tag, m.inbound.protocol, client, Some(notAfter)) == Ok(s2.entries);
  }

  lemma RemovalUnreported(s: Store, r: ClientRequest, now: Time, found: Inbound, inbound: Inbound, key: string)
    requires Sound(s) && s.loaded && !r.add && ClientIdentity(found.protocol, r.client).Ok?
    requires key == ExpirationKey(r.tag, ClientIdentity(found.protocol, r.client).value.key, ClientIdentity(found.protocol, r.client).value.value)
    requires key in s.entries
    ensures var end := ActChanged(s, r, now, found, inbound, UNREPORTED);
            && end.reply == ExpiryFailed && end.store.entries == s.entries && end.store.loaded
            && end.store.sidecar.Some? && forall e: Expiration :: e in end.store.sidecar.value.entries ==> e.Key() != key
  {
    assert s.entries - {key} != s.entries by { assert key !in s.entries - {key}; }
  }

  // ---------------------------------------------------------------------------------------
  // Expiry
  // ---------------------------------------------------------------------------------------

  /** A deadline that was moved or cleared since the snapshot changes nothing anywhere. */
  lemma RenewedClientIsLeftAlone(s: Store, e: Expiration, o: Outcomes)
    requires Sound(s) && s.loaded && !CurrentIn(s, e)
    ensures Expire(s, e, o) == ExpireEnd(s, true)
  {
  }

  predicate Identifies(e: Expiration, element: Element) {
    element.Client? && Credential(element.fields, e.identityKey) == e.identityValue
  }

  function ElementsOf(inbound: Option<Inbound>): seq<Element> {
    if inbound.None? || ListOfInbound(inbound.value).Err? then [] else ListOfInbound(inbound.value).value
  }

  function RunningAs(s: Store, tag: string): Option<Inbound> {
    if tag in s.runtime then Some(s.runtime[tag]) else None
  }

  /** No running client of the tag has the identity that the deadline is for. */
  predicate NoneRuns(s: Store, e: Expiration) {
    forall i :: 0 <= i < |ElementsOf(RunningAs(s, e.tag))| ==> !Identifies(e, ElementsOf(RunningAs(s, e.tag))[i])
  }

  predicate NoneDefined(s: Store, e: Expiration) {
    forall i :: 0 <= i < |ElementsOf(Lookup(s.config, e.tag))| ==> !Identifies(e, ElementsOf(Lookup(s.config, e.tag))[i])
  }

  /** No client that the deadline is for is left, in the file or in the runtime. */
  predicate Gone(s: Store, e: Expiration) {
    NoneRuns(s, e) && NoneDefined(s, e)
  }

  /** The file defines the tag without such a client, and the runtime runs it so. */
  ghost predicate Cleared(s: Store, e: Expiration) {
    && Lookup(s.config, e.tag).Some?
    && ClientList(Lookup(s.config, e.tag).value, e.Client()).Ok?
    && (forall x :: x in ClientList(Lookup(s.config, e.tag).value, e.Client()).value ==> !Identifies(e, x))
    && e.tag in s.runtime && s.runtime[e.tag] == Lookup(s.config, e.tag).value
  }

  lemma ClearedIsGone(s: Store, e: Expiration)
    requires Cleared(s, e)
    ensures Gone(s, e)
  {
    var list := ElementsOf(Lookup(s.config, e.tag));
    assert list == ClientList(Lookup(s.config, e.tag).value, e.Client()).value;
    forall i | 0 <= i < |list| ensures !Identifies(e, list[i]) {
      assert list[i] in list;
    }
  }

  lemma ExpiryMatches(e: Expiration, element: Element, protocol: string)
    requires Normal(e) && Usable(e.Client(), protocol)
    ensures SameForRemove(element, e.Client(), protocol) <==> Identifies(e, element)
  {
    assert Credential(e.Client(), e.identityKey) == e.identityValue;
    assert forall k :: k != e.identityKey ==> Credential(e.Client(), k) == "";
    PrimaryIsNotEmail(protocol);
  }

  lemma PrimaryIsNotEmail(protocol: string)
    ensures PrimaryKey(protocol) != "email"
  {
  }

  lemma RemovalLeavesNone(inbound: Inbound, e: Expiration)
    requires Normal(e) && Mutate(inbound, e.Client(), false).Ok?
    ensures var m := Mutate(inbound, e.Client(), false).value;
            && ClientList(m.inbound, e.Client()).Ok?
            && (forall x :: x in ClientList(m.inbound, e.Client()).value ==> !Identifies(e, x))
            && (m.changed <==> exists x :: x in ClientList(inbound, e.Client()).value && Identifies(e, x))
  {
    MutateFrame(inbound, e.Client(), false);
    var list := ClientList(inbound, e.Client()).value;
    RemoveLeavesNoMatch(list, e.Client(), inbound.protocol);
    forall x ensures SameForRemove(x, e.Client(), inbound.protocol) <==> Identifies(e, x) {
      ExpiryMatches(e, x, inbound.protocol);
    }
    if forall x :: x in list ==> !Identifies(e, x) {
      RemoveIdentity(list, e.Client(), inbound.protocol);
    }
  }

  lemma DropChanges(s: Store, e: Expiration, o: WriteOutcome)
    requires CurrentIn(s, e)
    ensures var end := DropEntry(s, e, o);
            && end.store.config == s.config && end.store.runtime == s.runtime && end.store.loaded == s.loaded
            && (end.ok ==> end.store.entries == s.entries - {e.Key()})
            && (!end.ok ==> CurrentIn(end.store, e))
            && (o.NotWritten? ==> end.store == s)
  {
  }

  lemma DefinedIsCleared(s: Store, e: Expiration, found: Inbound)
    requires Normal(e) && found.tag == e.tag && Mutate(found, e.Client(), false).Ok?
    requires DefinedAs(s, e.tag, Mutate(found, e.Client(), false).value.inbound)
    ensures Cleared(s, e)
  {
    RemovalLeavesNone(found, e);
  }

  /** An attempt that gets as far as dropping the deadline. */
  lemma ExpireReachesEnd(s: Store, e: Expiration, o: Outcomes)
    requires Sound(s) && s.loaded && CurrentIn(s, e) && Synced(s, e.tag)
    requires var end := Expire(s, e, o); end.ok || !CurrentIn(end.store, e) || end.store.sidecar != s.sidecar
    ensures Lookup(s.config, e.tag).Some? ==> Cleared(Expire(s, e, o).store, e)
    ensures Lookup(s.config, e.tag).None? ==>
              Expire(s, e, o).store.runtime == s.runtime && Expire(s, e, o).store.config == s.config
    ensures Expire(s, e, o).ok ==> Expire(s, e, o).store.entries == s.entries - {e.Key()}
    ensures !Expire(s, e, o).ok ==> CurrentIn(Expire(s, e, o).store, e)
  {
    var found := Lookup(s.config, e.tag);
    DropChanges(s, e, o.expiry.write);
    if found.Some? {
      var m := Mutate(found.value, e.Client(), false);
      if m.Ok? && !m.value.changed {
        MutateFrame(found.value, e.Client(), false);
        DefinedIsCleared(DropEntry(s, e, o.expiry.write).store, e, found.value);
      } else if m.Ok? {
        MutateFrame(found.value, e.Client(), false);
        ExpireChangedClears(s, e, found.value, m.value.inbound, o);
      }
    }
  }

  lemma ExpireChangedClears(s: Store, e: Expiration, found: Inbound, inbound: Inbound, o: Outcomes)
    requires CurrentIn(s, e) && Normal(e) && Lookup(s.config, e.tag) == Some(found)
    requires Mutate(found, e.Client(), false) == Ok(Mutation(inbound, true)) && inbound.tag == e.tag
    requires var end := ExpireChanged(s, e, found, inbound, o);
             end.ok || !CurrentIn(end.store, e) || end.store.sidecar != s.sidecar
    ensures var end := ExpireChanged(s, e, found, inbound, o);
            && Cleared(end.store, e)
            && (end.ok ==> end.store.entries == s.entries - {e.Key()})
            && (!end.ok ==> CurrentIn(end.store, e))
  {
    var s1 := AfterAdd(s, inbound, o.apply);
    AddSets(s, inbound, o.apply, e.tag);
    AddSets(s1, found, o.rollback, e.tag);
    if o.apply.Applied? && o.persisted {
      var s2 := AfterReplace(s1, inbound);
      Installs(s, inbound, o.apply, e.tag);
      DropChanges(s2, e, o.expiry.write);
      DefinedIsCleared(DropEntry(s2, e, o.expiry.write).store, e, found);
    }
  }

  /** After a successful attempt on a current deadline no matching client is left, in the file or
      in the runtime, if and only if the file defined the inbound, or the runtime had no such
      client anyway. The deadline, and no other, is dropped. An attempt that fails keeps it in
      memory, and may drop it from the file only under the same condition. */
  lemma ExpiryRemovesTheClientIff(s: Store, e: Expiration, o: Outcomes)
    requires Sound(s) && s.loaded && CurrentIn(s, e) && Synced(s, e.tag)
    ensures var end := Expire(s, e, o);
            && (end.ok || end.store.sidecar != s.sidecar ==>
                  (Gone(end.store, e) <==> Lookup(s.config, e.tag).Some? || NoneRuns(s, e)))
            && (end.ok ==> end.store.entries == s.entries - {e.Key()})
            && (!end.ok ==> CurrentIn(end.store, e))
  {
    var end := Expire(s, e, o);
    if end.ok || !CurrentIn(end.store, e) || end.store.sidecar != s.sidecar {
      ExpireReachesEnd(s, e, o);
      if Lookup(s.config, e.tag).Some? {
        ClearedIsGone(end.store, e);
      } else {
        UndefinedStays(s, end.store, e);
      }
    }
  }

  lemma UndefinedStays(s: Store, s': Store, e: Expiration)
    requires Lookup(s.config, e.tag).None? && s'.config == s.config && s'.runtime == s.runtime
    ensures Gone(s', e) <==> NoneRuns(s, e)
  {
    assert RunningAs(s', e.tag) == RunningAs(s, e.tag);
    assert ElementsOf(Lookup(s'.config, e.tag)) == [];
    assert NoneDefined(s', e) && (NoneRuns(s', e) <==> NoneRuns(s, e));
  }

  /** How such a state comes about: the inbound is removed while its deadlines cannot be written,
      and added again while the file cannot. It then runs without being defined, its deadline is
      still held, and the attempt on the deadline forgets it and leaves the client running. */
  lemma RuntimeOnlyClientOutlives(s: Store, e: Expiration, inbound: Inbound, i: nat)
    requires SoundToo(s) && s.loaded && CurrentIn(s, e) && inbound.tag == e.tag
    requires ListOfInbound(inbound).Ok? && i < |ListOfInbound(inbound).value| && Identifies(e, ListOfInbound(inbound).value[i])
    ensures var removed := AfterRemoval(s, e.tag, Removal(Withdrawn, true, ExpiryOutcome(true, NotWritten)));
            var added := AfterAddition(removed, inbound, Applied, false);
            var end := Expire(added, e, FINE);
            && SoundToo(added) && Synced(added, e.tag) && CurrentIn(added, e) && Lookup(added.config, e.tag).None?
            && end.ok && e.Key() !in end.store.entries && !Gone(end.store, e)
            && RunningAs(end.store, e.tag) == Some(inbound)
  {
    var removed := AfterRemoval(s, e.tag, Removal(Withdrawn, true, ExpiryOutcome(true, NotWritten)));
    var added := AfterAddition(removed, inbound, Applied, false);
    RuntimeOnly(s, inbound);
    SoundSurvives(s, added);
    UndefinedExpires(added, e, inbound, i);
  }

  /** Removed, and added again without reaching the file: it runs undefined, and its deadlines stay. */
  lemma RuntimeOnly(s: Store, inbound: Inbound)
    requires s.loaded
    ensures var removed := AfterRemoval(s, inbound.tag, Removal(Withdrawn, true, ExpiryOutcome(true, NotWritten)));
            var added := AfterAddition(removed, inbound, Applied, false);
            && added.entries == s.entries && added.sidecar == s.sidecar && added.loaded
            && Lookup(added.config, inbound.tag).None? && RunningAs(added, inbound.tag) == Some(inbound)
  {
    OthersLack(s.config, inbound.tag);
  }

  /** Any store in which the inbound runs without being defined: the attempt succeeds, drops the
      deadline, and changes nothing that runs. */
  lemma UndefinedExpires(s: Store, e: Expiration, inbound: Inbound, i: nat)
    requires s.loaded && CurrentIn(s, e) && Lookup(s.config, e.tag).None? && RunningAs(s, e.tag) == Some(inbound)
    requires ListOfInbound(inbound).Ok? && i < |ListOfInbound(inbound).value| && Identifies(e, ListOfInbound(inbound).value[i])
    ensures var end := Expire(s, e, FINE);
            end.ok && e.Key() !in end.store.entries && end.store.runtime == s.runtime && !Gone(end.store, e)
  {
    DropChanges(s, e, Written);
    var end := Expire(s, e, FINE);
    var list := ElementsOf(RunningAs(end.store, e.tag));
    assert list == ListOfInbound(inbound).value;
    assert Identifies(e, list[i]);
  }

  lemma {:induction false} OthersLack(config: seq<ConfigItem>, tag: string)
    ensures Lookup(Others(config, tag), tag).None?
  {
    if config != [] {
      OthersLack(config[1..], tag);
      var rest := Others(config[1..], tag);
      assert ([config[0]] + rest)[1..] == rest;
    }
  }

  lemma ExpireChangedInbounds(s: Store, e: Expiration, original: Inbound, inbound: Inbound, o: Outcomes, other: string)
    requires Lookup(s.config, e.tag) == Some(original) && inbound.tag == e.tag && CurrentIn(s, e)
    ensures var end := ExpireChanged(s, e, original, inbound, o);
            && (other != e.tag ==> SameAt(s, end.store, other))
            && (end.ok ==> DefinedAs(end.store, e.tag, inbound))
            && (RollbacksWork(o) ==> DefinedAs(end.store, e.tag, original) || DefinedAs(end.store, e.tag, inbound))
  {
    var s1 := AfterAdd(s, inbound, o.apply);
    AddSets(s, inbound, o.apply, other);
    AddSets(s1, original, o.rollback, other);
    if o.apply.Applied? && o.persisted {
      Installs(s, inbound, o.apply, other);
      DropChanges(AfterReplace(s1, inbound), e, o.expiry.write);
    } else if RollbacksWork(o) {
      Undoes(s, original, inbound, o.apply, o.rollback, other);
    }
  }

  /** Expiry keeps the runtime and the file together, like the actions do, and touches no other
      tag whatever fails. */
  lemma ExpireKeepsSynced(s: Store, e: Expiration, o: Outcomes, tag: string)
    ensures tag != e.tag ==> SameAt(s, Expire(s, e, o).store, tag)
    ensures Synced(s, tag) && RollbacksWork(o) ==> Synced(Expire(s, e, o).store, tag)
  {
    var found, l := Lookup(s.config, e.tag), LoadedStore(s, o.expiry.readable);
    if l.Some? && CurrentIn(l.value, e) {
      DropChanges(l.value, e, o.expiry.write);
      if found.Some? {
        var m := Mutate(found.value, e.Client(), false);
        if m.Ok? && m.value.changed {
          MutateFrame(found.value, e.Client(), false);
          ExpireChangedInbounds(l.value, e, found.value, m.value.inbound, o, tag);
        }
      }
    }
  }

  // ---------------------------------------------------------------------------------------
  // Well-formed deadlines
  // ---------------------------------------------------------------------------------------

  /** Memory, the file, and what a restart would load are all well formed. */
  ghost predicate SoundToo(s: Store) {
    Sound(s) && (Load(s.sidecar).Ok? ==> Good(Load(s.sidecar).value))
  }

  lemma SavedIsSound(s: Store, entries: Expirations, o: WriteOutcome)
    requires SoundToo(s) && s.loaded && Good(entries)
    ensures SoundToo(Saved(s, entries, o)) && Saved(s, entries, o).loaded
  {
    ReloadsIff(FileOf(entries), entries);
  }

  lemma UpdateIsSound(s: Store, tag: string, protocol: string, client: ClientFields, notAfter: Option<Time>, o: ExpiryOutcome)
    requires SoundToo(s)
    ensures SoundToo(UpdateExpiration(s, tag, protocol, client, notAfter, o).store)
  {
    var l := LoadedStore(s, o.readable);
    if l.Some? {
      var next := Set(l.value.entries, tag, protocol, client, notAfter);
      if next.Ok? {
        SetKeepsGood(l.value.entries, tag, protocol, client, notAfter);
        SavedIsSound(l.value, next.value, o.write);
      }
    }
  }

  lemma SoundSurvives(s: Store, s': Store)
    requires SoundToo(s) && s'.entries == s.entries && s'.sidecar == s.sidecar && s'.loaded == s.loaded
    ensures SoundToo(s')
  {
  }

  lemma AddLeavesEntries(s: Store, inbound: Inbound, o: AddOutcome)
    ensures var s' := AfterAdd(s, inbound, o);
            s'.entries == s.entries && s'.sidecar == s.sidecar && s'.loaded == s.loaded && s'.config == s.config
  {
  }

  lemma ActChangedIsSound(s: Store, q: ClientRequest, now: Time, original: Inbound, inbound: Inbound, o: Outcomes)
    requires SoundToo(s)
    ensures SoundToo(ActChanged(s, q, now, original, inbound, o).store)
  {
    var s1 := AfterAdd(s, inbound, o.apply);
    AddLeavesEntries(s, inbound, o.apply);
    AddLeavesEntries(s1, original, o.rollback);
    SoundSurvives(s, AfterAdd(s1, original, o.rollback));
    var s2 := AfterReplace(s1, inbound);
    SoundSurvives(s, s2);
    UpdateIsSound(s2, q.tag, original.protocol, q.client, Deadline(q, now), o.expiry);
    var x := UpdateExpiration(s2, q.tag, original.protocol, q.client, Deadline(q, now), o.expiry);
    var s3 := AfterAdd(x.store, original, o.rollback);
    AddLeavesEntries(x.store, original, o.rollback);
    SoundSurvives(x.store, s3);
    SoundSurvives(s3, AfterReplace(s3, original));
  }

  lemma ActIsSound(s: Store, q: ClientRequest, now: Time, o: Outcomes)
    requires SoundToo(s)
    ensures SoundToo(Act(s, q, now, o).store)
  {
    var found := Lookup(s.config, q.tag);
    if found.Some? {
      var m := Mutate(found.value, q.client, Adds(q, now));
      if m.Ok? {
        ActChangedIsSound(s, q, now, found.value, m.value.inbound, o);
        UpdateIsSound(s, q.tag, found.value.protocol, q.client, Deadline(q, now), o.expiry);
      }
    }
  }

  lemma ExpireIsSound(s: Store, e: Expiration, o: Outcomes)
    requires SoundToo(s)
    ensures SoundToo(Expire(s, e, o).store)
  {
    var l := LoadedStore(s, o.expiry.readable);
    if l.Some? && CurrentIn(l.value, e) {
      var less := l.value.entries - {e.Key()};
      SavedIsSound(l.value, less, o.expiry.write);
      if Lookup(s.config, e.tag).Some? {
        var original := Lookup(s.config, e.tag).value;
        var m := Mutate(original, e.Client(), false);
        if m.Ok? {
          var s1 := AfterAdd(l.value, m.value.inbound, o.apply);
          AddLeavesEntries(l.value, m.value.inbound, o.apply);
          AddLeavesEntries(s1, original, o.rollback);
          SoundSurvives(l.value, AfterAdd(s1, original, o.rollback));
          SoundSurvives(l.value, AfterReplace(s1, m.value.inbound));
          SavedIsSound(AfterReplace(s1, m.value.inbound), less, o.expiry.write);
        }
      }
    }
  }

  // ---------------------------------------------------------------------------------------
  // Is an accepted deadline enforced?
  // ---------------------------------------------------------------------------------------

  lemma UpdateHolds(s: Store, tag: string, protocol: string, client: ClientFields, notAfter: Time, o: ExpiryOutcome)
    requires UpdateExpiration(s, tag, protocol, client, Some(notAfter), o).result.Ok?
    ensures var e := NewExpiration(tag, protocol, client, notAfter);
            && e.Ok? && Normal(e.value)
            && CurrentIn(UpdateExpiration(s, tag, protocol, client, Some(notAfter), o).store, e.value)
  {
    NewIsNormal(tag, protocol, client, notAfter);
  }

  /** A client just added with a deadline is removed by the next successful attempt on it if and
      only if the tag of the request has no white space around it; a padded tag names an inbound
      that the scheduler does not look up. */
  lemma DeadlineIsEnforcedIff(s: Store, q: ClientRequest, now: Time, o: Outcomes, e: Expiration, o': Outcomes)
    requires Synced(s, q.tag) && Act(s, q, now, o).reply == Done(true, true) && Adds(q, now)
    requires var added := Act(s, q, now, o).store;
             && Sound(added) && added.loaded && CurrentIn(added, e) && Synced(added, e.tag)
             && e.tag == Trim(q.tag) && Credential(q.client, e.identityKey) == e.identityValue
             && Expire(added, e, o').ok
    ensures var end := Expire(Act(s, q, now, o).store, e, o').store;
            ListIn(end, q).Some? && (Client(q.client) !in ListIn(end, q).value <==> Trim(q.tag) == q.tag)
  {
    DoneRewritesTheList(s, q, now, o);
    var added := Act(s, q, now, o).store;
    var end := Expire(added, e, o').store;
    if e.tag == q.tag {
      ExpireReachesEnd(added, e, o');
      ExpiredList(added, e, o', q);
    } else {
      ExpireKeepsSynced(added, e, o', q.tag);
    }
  }

  /** The list the deadline's own request would look at is the list any request looks at. */
  lemma ExpiredList(s: Store, e: Expiration, o: Outcomes, q: ClientRequest)
    requires Sound(s) && s.loaded && CurrentIn(s, e) && Synced(s, e.tag) && q.tag == e.tag && Expire(s, e, o).ok
    requires ListIn(s, q).Some? && Credential(q.client, e.identityKey) == e.identityValue
    ensures ListIn(Expire(s, e, o).store, q).Some? && Client(q.client) !in ListIn(Expire(s, e, o).store, q).value
  {
    ExpireReachesEnd(s, e, o);
    ExpireKeepsUsable(s, e, o, q);
    assert Identifies(e, Client(q.client));
  }

  lemma ExpireKeepsUsable(s: Store, e: Expiration, o: Outcomes, q: ClientRequest)
    requires s.loaded && CurrentIn(s, e) && q.tag == e.tag && Expire(s, e, o).ok && ListIn(s, q).Some?
    ensures var found := Lookup(Expire(s, e, o).store.config, q.tag);
            found.Some? && Usable(q.client, found.value.protocol)
  {
    DropChanges(s, e, o.expiry.write);
    var found := Lookup(s.config, e.tag).value;
    var m := Mutate(found, e.Client(), false);
    if m.Ok? && m.value.changed {
      MutateFrame(found, e.Client(), false);
      ExpireChangedInbounds(s, e, found, m.value.inbound, o, e.tag);
    }
  }

  /** A request for a client that is already there, by its credential, records its deadline under
      the email it was sent with. The attempt on that deadline takes something away if and only if
      a client with that very identity exists; otherwise it succeeds, forgets the deadline and
      leaves the client in. */
  lemma DeadlineOfPresentClientIff(s: Store, q: ClientRequest, now: Time, o: Outcomes, e: Expiration, o': Outcomes)
    requires Synced(s, q.tag) && Act(s, q, now, o).reply.Done? && !Act(s, q, now, o).reply.clientChanged && Adds(q, now)
    requires var seen := Act(s, q, now, o).store;
             && Sound(seen) && seen.loaded && CurrentIn(seen, e) && e.tag == q.tag && Expire(seen, e, o').ok
    ensures var end := Expire(Act(s, q, now, o).store, e, o').store;
            && e.Key() !in end.entries
            && (Lookup(end.config, q.tag) == Lookup(s.config, q.tag) <==>
                  forall x :: x in ListFor(s, e) ==> !Identifies(e, x))
  {
    DoneMeansWanted(s, q, now, o);
    var seen := Act(s, q, now, o).store;
    assert Lookup(seen.config, q.tag) == Lookup(s.config, q.tag);
    ExpireReachesEnd(seen, e, o');
    var found := Lookup(seen.config, q.tag).value;
    DropChanges(seen, e, o'.expiry.write);
    var m := Mutate(found, e.Client(), false);
    if m.Ok? {
      RemovalLeavesNone(found, e);
      MutateFrame(found, e.Client(), false);
      if m.value.changed {
        ExpireChangedInbounds(seen, e, found, m.value.inbound, o', e.tag);
      }
    }
  }

  function ListFor(s: Store, e: Expiration): seq<Element> {
    var found := Lookup(s.config, e.tag);
    if found.None? || ClientList(found.value, e.Client()).Err? then [] else ClientList(found.value, e.Client()).value
  }

  const HELD := Client(map["id" := Printed("a"), "email" := Printed("x")])
  const RENAMED: ClientFields := map["id" := Printed("a"), "email" := Printed("y")]
  const SAMPLE := Inbound("in", "vless", Some(map["clients" := Items([HELD])]), map[])

  /** The concrete case: the inbound holds credential a under email x; a request for a under
      email y is accepted with a deadline that no attempt will ever enforce on it. */
  lemma DeadlineMissesPresentClient(notAfter: Time)
    requires notAfter > 1
    ensures var s := Store(map["in" := SAMPLE], [Definition(SAMPLE)], map[], None, true);
            var q := ClientRequest(true, "in", RENAMED, Some(notAfter));
            var e := Expiration("in", "vless", "email", "y", notAfter);
            && Act(s, q, 1, FINE).reply == Done(true, false) && CurrentIn(Act(s, q, 1, FINE).store, e)
            && Expire(Act(s, q, 1, FINE).store, e, FINE).ok
            && ListFor(Expire(Act(s, q, 1, FINE).store, e, FINE).store, e) == [HELD]
  {
    PlainNames();
    var list := [HELD];
    assert SameForAdd(list[0], RENAMED, "vless");
    assert Has(list, RENAMED, "vless");
    var s := Store(map["in" := SAMPLE], [Definition(SAMPLE)], map[], None, true);
    var q := ClientRequest(true, "in", RENAMED, Some(notAfter));
    var e := Expiration("in", "vless", "email", "y", notAfter);
    assert ClientList(SAMPLE, RENAMED) == Ok(list);
    assert Mutate(SAMPLE, RENAMED, true) == Ok(Mutation(SAMPLE, false));
    assert NewExpiration("in", "vless", RENAMED, notAfter) == Ok(e);
    assert Set(map[], "in", "vless", RENAMED, Some(notAfter)) == Ok(map[e.Key() := e]);
    assert map[e.Key() := e] != map[] by { assert e.Key() in map[e.Key() := e]; }
    assert ClientList(SAMPLE, e.Client()) == Ok(list);
    assert !SameForRemove(list[0], e.Client(), "vless");
    RemoveIdentity(list, e.Client(), "vless");
    assert Mutate(SAMPLE, e.Client(), false) == Ok(Mutation(SAMPLE, false));
  }

  lemma PlainNames()
    ensures Trim("in") == "in" && ProtocolName("vless") == "vless" && PrimaryKey("vless") == "id"
    ensures Trim("a") == "a" && Trim("x") == "x" && Trim("y") == "y"
  {
    TrimPlain("vless");
    TrimPlain("in");
    assert Lower("vless") == "vless";
  }

  const PADDED := Inbound(" in", "vless", Some(map["clients" := Items([])]), map[])
  const NEWCOMER: ClientFields := map["email" := Printed("y")]

  /** The concrete case of a padded tag: the client is added with a deadline, the attempt on the
      deadline looks for an inbound that does not exist, succeeds, and leaves the client in. */
  lemma PaddedDeadlineIsForgotten(notAfter: Time)
    requires notAfter > 1
    ensures var q, e := ClientRequest(true, " in", NEWCOMER, Some(notAfter)), PaddedEntry(notAfter);
            var added := Act(PaddedStore(), q, 1, FINE);
            var end := Expire(added.store, e, FINE);
            && added.reply == Done(true, true) && CurrentIn(added.store, e)
            && end.ok && end.store.entries == map[]
            && ListIn(end.store, q).Some? && Client(NEWCOMER) in ListIn(end.store, q).value
  {
    PaddedAdd(notAfter);
    PaddedExpire(notAfter);
  }

  function PaddedStore(): Store {
    Store(map[" in" := PADDED], [Definition(PADDED)], map[], None, true)
  }

  function PaddedEntry(notAfter: Time): Expiration {
    Expiration("in", "vless", "email", "y", notAfter)
  }

  lemma PaddedNames()
    ensures Trim(" in") == "in" && Email(NEWCOMER) == "y" && Usable(NEWCOMER, "vless") && PrimaryKey("vless") == "id"
    ensures ProtocolName("vless") == "vless" && Primary(NEWCOMER, "vless") == ""
  {
    PlainNames();
    assert TrimLeft(" in") == TrimLeft("in") by { assert " in"[1..] == "in"; }
  }

  lemma PaddedMutation()
    ensures Mutate(PADDED, NEWCOMER, true) == Ok(Mutation(WithList(PADDED, [Client(NEWCOMER)]), true))
  {
    PaddedNames();
    assert ClientList(PADDED, NEWCOMER) == Ok([]);
    assert [] + [Client(NEWCOMER)] == [Client(NEWCOMER)];
  }

  lemma PaddedSet(notAfter: Time)
    requires notAfter > 1
    ensures var e := PaddedEntry(notAfter);
            Set(map[], " in", "vless", NEWCOMER, Some(notAfter)) == Ok(map[e.Key() := e]) && map[e.Key() := e] != map[]
  {
    PaddedNames();
    var e := PaddedEntry(notAfter);
    assert Trim("in") == "in" by { PlainNames(); }
    assert e.Key() in map[e.Key() := e];
  }

  /** An addition whose calls all work, from what the change and the deadline update come to. */
  lemma FineAddition(s: Store, q: ClientRequest, now: Time, found: Inbound, inbound: Inbound)
    requires Trim(q.tag) != "" && Lookup(s.config, q.tag) == Some(found) && Adds(q, now)
    requires Mutate(found, q.client, true) == Ok(Mutation(inbound, true))
    ensures var x := UpdateExpiration(AfterReplace(AfterAdd(s, inbound, Applied), inbound), q.tag, found.protocol, q.client,
                                      q.notAfter, FINE.expiry);
            x.result.Ok? ==> Act(s, q, now, FINE) == ActionEnd(x.store, Done(true, true))
  {
  }

  /** With no definition the attempt only drops the deadline. */
  lemma UndefinedDrops(s: Store, e: Expiration)
    requires s.loaded && CurrentIn(s, e) && Lookup(s.config, e.tag).None?
    ensures Expire(s, e, FINE) == DropEntry(s, e, Written)
  {
  }

  lemma PaddedUpdate(s: Store, notAfter: Time)
    requires notAfter > 1 && s.loaded && s.entries == map[]
    ensures var e := PaddedEntry(notAfter);
            UpdateExpiration(s, " in", "vless", NEWCOMER, Some(notAfter), FINE.expiry)
            == ExpiryReply(Saved(s, map[e.Key() := e], Written), Ok(true))
  {
    PaddedSet(notAfter);
  }

  lemma PaddedRewrite(inbound: Inbound)
    requires inbound.tag == " in"
    ensures Rewrite([Definition(PADDED)], inbound, false) == [Definition(inbound)]
  {
    assert Rewrite([], inbound, true) == [];
  }

  lemma PaddedAdd(notAfter: Time)
    requires notAfter > 1
    ensures var added := Act(PaddedStore(), ClientRequest(true, " in", NEWCOMER, Some(notAfter)), 1, FINE);
            var e := PaddedEntry(notAfter);
            && added.reply == Done(true, true) && added.store.loaded && added.store.entries == map[e.Key() := e]
            && added.store.config == [Definition(WithList(PADDED, [Client(NEWCOMER)]))]
  {
    var q, inbound := ClientRequest(true, " in", NEWCOMER, Some(notAfter)), WithList(PADDED, [Client(NEWCOMER)]);
    PaddedMutation();
    PaddedNames();
    PaddedRewrite(inbound);
    PaddedUpdate(AfterReplace(AfterAdd(PaddedStore(), inbound, Applied), inbound), notAfter);
    FineAddition(PaddedStore(), q, 1, PADDED, inbound);
  }

  lemma PaddedExpire(notAfter: Time)
    requires notAfter > 1
    ensures var q := ClientRequest(true, " in", NEWCOMER, Some(notAfter));
            var added, e := Act(PaddedStore(), q, 1, FINE), PaddedEntry(notAfter);
            var end := Expire(added.store, e, FINE);
            && CurrentIn(added.store, e) && end.ok && end.store.entries == map[]
            && ListIn(end.store, q).Some? && Client(NEWCOMER) in ListIn(end.store, q).value
  {
    PaddedAdd(notAfter);
    PaddedNames();
    var q, e := ClientRequest(true, " in", NEWCOMER, Some(notAfter)), PaddedEntry(notAfter);
    var added := Act(PaddedStore(), q, 1, FINE).store;
    assert |" in"| != |"in"|;
    UndefinedDrops(added, e);
    assert Lookup(added.config[1..], "in").None?;
    assert map[e.Key() := e] - {e.Key()} == map[];
    assert ClientList(WithList(PADDED, [Client(NEWCOMER)]), NEWCOMER) == Ok([Client(NEWCOMER)]);
  }
}
