/** Sessions of the Agent: client actions, expiries, whole inbounds added and removed, restarts of
    the Agent and of Xray, and crashes in the middle of an action. Exactly when the runtime and the
    file stay together. */
module ClientSessions {
  import opened Base
  import opened InboundClients
  import opened ClientExpirations
  import opened ManagedClients
  import opened ClientSafety

  /** How far a client action or an expiry had got when the Agent crashed: past the call to the
      runtime, the new definition in the file, the deadline, or the undoing of the first. */
  datatype Stage = Applying | Rewriting | Recording | Undoing

  datatype Event =
    | Acted(q: ClientRequest, now: Time, o: Outcomes)
    | Expired(e: Expiration, o: Outcomes)
    | CrashedActing(q: ClientRequest, now: Time, o: Outcomes, stage: Stage)
    | CrashedExpiring(e: Expiration, o: Outcomes, stage: Stage)
    | InboundAdded(inbound: Inbound, added: AddOutcome, persisted: bool)
    | InboundRemoved(tag: string, removal: Removal)
    | AgentRestarted
    | XrayRestarted

  // ---------------------------------------------------------------------------------------
  // What an event does
  // ---------------------------------------------------------------------------------------

  /** What the action makes of its inbound, when it gets as far as changing it. */
  function Change(s: Store, q: ClientRequest, now: Time, o: Outcomes): Option<Inbound> {
    if !o.connected || Trim(q.tag) == "" || !o.readable || Lookup(s.config, q.tag).None? then None
    else
      var m := Mutate(Lookup(s.config, q.tag).value, q.client, Adds(q, now));
      if m.Ok? && m.value.changed then Some(m.value.inbound) else None
  }

  /** The same for an expiry; the deadlines are loaded. */
  function ExpiryChange(s: Store, e: Expiration, o: Outcomes): Option<Inbound> {
    if !CurrentIn(s, e) || !o.readable || Lookup(s.config, e.tag).None? || !o.connected then None
    else
      var m := Mutate(Lookup(s.config, e.tag).value, e.Client(), false);
      if m.Ok? && m.value.changed then Some(m.value.inbound) else None
  }

  ghost function Recorded(s: Store, q: ClientRequest, now: Time, o: Outcomes): ExpiryReply
    requires Lookup(s.config, q.tag).Some?
  {
    UpdateExpiration(s, q.tag, Lookup(s.config, q.tag).value.protocol, q.client, Deadline(q, now), o.expiry)
  }

  /** The deadline update once the runtime and the file have the new definition. */
  ghost function RecordedAfter(s: Store, q: ClientRequest, now: Time, o: Outcomes, inbound: Inbound): ExpiryReply
    requires Lookup(s.config, q.tag).Some?
  {
    UpdateExpiration(AfterReplace(AfterAdd(s, inbound, o.apply), inbound), q.tag, Lookup(s.config, q.tag).value.protocol,
                     q.client, Deadline(q, now), o.expiry)
  }

  /** The stores once an action has gone through a stage. */
  ghost function ActUntil(s: Store, q: ClientRequest, now: Time, o: Outcomes, stage: Stage): Store {
    var change := Change(s, q, now, o);
    if change.None? then (if stage in {Applying, Rewriting} then s else Act(s, q, now, o).store)
    else
      var original := Lookup(s.config, q.tag).value;
      var s1 := AfterAdd(s, change.value, o.apply);
      if stage.Applying? then s1
      else if !o.apply.Applied? || !o.persisted then (if stage.Undoing? then AfterAdd(s1, original, o.rollback) else s1)
      else if stage.Rewriting? then AfterReplace(s1, change.value)
      else
        var x := RecordedAfter(s, q, now, o, change.value);
        if stage.Undoing? && x.result.Err? && Adds(q, now) then AfterAdd(x.store, original, o.rollback) else x.store
  }

  ghost function ExpireUntil(s: Store, e: Expiration, o: Outcomes, stage: Stage): Store {
    var l := LoadedStore(s, o.expiry.readable);
    if l.None? then s
    else
      var change := ExpiryChange(l.value, e, o);
      if change.None? then (if stage in {Applying, Rewriting} then l.value else Expire(s, e, o).store)
      else
        var s1 := AfterAdd(l.value, change.value, o.apply);
        if stage.Applying? then s1
        else if !o.apply.Applied? || !o.persisted then (if stage.Undoing? then Expire(s, e, o).store else s1)
        else if stage.Rewriting? then AfterReplace(s1, change.value)
        else Expire(s, e, o).store
  }

  function Forgotten(s: Store): Store {
    s.(entries := map[], loaded := false)
  }

  /** What a started Xray runs: what the file defines. */
  function Definitions(config: seq<ConfigItem>): map<string, Inbound> {
    if config == [] then map[]
    else if config[0].Definition? then Definitions(config[1..])[config[0].inbound.tag := config[0].inbound]
    else Definitions(config[1..])
  }

  ghost function After(s: Store, event: Event): Store {
    match event
    case Acted(q, now, o) => Act(s, q, now, o).store
    case Expired(e, o) => Expire(s, e, o).store
    case CrashedActing(q, now, o, stage) => Forgotten(ActUntil(s, q, now, o, stage))
    case CrashedExpiring(e, o, stage) => Forgotten(ExpireUntil(s, e, o, stage))
    case InboundAdded(inbound, added, persisted) => AfterAddition(s, inbound, added, persisted)
    case InboundRemoved(tag, removal) => AfterRemoval(s, tag, removal)
    case AgentRestarted => Forgotten(s)
    case XrayRestarted => s.(runtime := Definitions(s.config))
  }

  ghost predicate Session(ss: seq<Store>, events: seq<Event>) {
    && |ss| == |events| + 1 && SoundToo(ss[0])
    && forall i :: 0 <= i < |events| ==> ss[i + 1] == After(ss[i], events[i])
  }

  // ---------------------------------------------------------------------------------------
  // What keeps runtime and file together
  // ---------------------------------------------------------------------------------------

  /** Every tag in the file runs as the file says. */
  ghost predicate AllSynced(s: Store) {
    forall tag :: Synced(s, tag)
  }

  /** Undoing the call to the runtime leaves the original: it takes effect, or neither call did. */
  predicate UndoneRuntime(o: Outcomes) {
    o.rollback in {Applied, Unacknowledged} || (o.apply.Refused? && o.rollback.Refused?)
  }

  /** The calls of an action end so that nothing is left half done. */
  ghost predicate CleanAct(s: Store, q: ClientRequest, now: Time, o: Outcomes) {
    Change(s, q, now, o).Some? ==>
      if !o.apply.Applied? || !o.persisted then UndoneRuntime(o)
      else if Recorded(s, q, now, o).result.Ok? || !Adds(q, now) then true
      else if o.restored then o.rollback in {Applied, Unacknowledged}
      else o.rollback.Refused?
  }

  predicate CleanExpire(s: Store, e: Expiration, o: Outcomes) {
    var l := LoadedStore(s, o.expiry.readable);
    l.Some? && ExpiryChange(l.value, e, o).Some? ==> (o.apply.Applied? && o.persisted) || UndoneRuntime(o)
  }

  /** A crash at a stage leaves runtime and file together: nothing was changed, or both were. */
  ghost predicate CleanCrash(s: Store, q: ClientRequest, now: Time, o: Outcomes, stage: Stage) {
    Change(s, q, now, o).Some? ==>
      match stage
      case Applying => o.apply.Refused?
      case Undoing =>
        if !o.apply.Applied? || !o.persisted then UndoneRuntime(o)
        else Recorded(s, q, now, o).result.Ok? || !Adds(q, now) || o.rollback.Refused?
      case _ => o.apply.Refused? || (o.apply.Applied? && o.persisted)
  }

  predicate CleanExpiryCrash(s: Store, e: Expiration, o: Outcomes, stage: Stage) {
    var l := LoadedStore(s, o.expiry.readable);
    l.Some? && ExpiryChange(l.value, e, o).Some? ==>
      match stage
      case Applying => o.apply.Refused?
      case Undoing => (o.apply.Applied? && o.persisted) || UndoneRuntime(o)
      case _ => o.apply.Refused? || (o.apply.Applied? && o.persisted)
  }

  /** The event keeps the runtime and the file together; a condition on how its calls end, and for
      whole inbounds on what the file defines. */
  ghost predicate Clean(s: Store, event: Event) {
    match event
    case Acted(q, now, o) => CleanAct(s, q, now, o)
    case Expired(e, o) => CleanExpire(s, e, o)
    case CrashedActing(q, now, o, stage) => CleanCrash(s, q, now, o, stage)
    case CrashedExpiring(e, o, stage) => CleanExpiryCrash(s, e, o, stage)
    case InboundAdded(inbound, added, persisted) =>
      added.Refused? || Lookup(s.config, inbound.tag).None?
      || (!added.Vanished? && Lookup(s.config, inbound.tag) == Some(inbound))
    case InboundRemoved(tag, removal) =>
      removal.runtime.NotWithdrawn? || Lookup(s.config, tag).None? || (removal.runtime.Withdrawn? && removal.persisted)
    case AgentRestarted => true
    case XrayRestarted => true
  }

  /** Only the tag that an event concerns can fall apart. */
  lemma OneTagDecides(s: Store, s': Store, tag: string)
    requires AllSynced(s) && forall other :: other != tag ==> SameAt(s, s', other)
    ensures AllSynced(s') <==> Synced(s', tag)
  {
    if Synced(s', tag) {
      forall other ensures Synced(s', other) {
        if other != tag {
          assert SameAt(s, s', other) && Synced(s, other);
        }
      }
    }
  }

  lemma ChangeIsReal(original: Inbound, client: ClientFields, add: bool)
    requires Mutate(original, client, add).Ok? && Mutate(original, client, add).value.changed
    ensures var inbound := Mutate(original, client, add).value.inbound; inbound != original && inbound.tag == original.tag
  {
    MutateFrame(original, client, add);
    MutateTwice(original, client, add);
  }

  /** The runtime after a call and its undoing. */
  lemma UndoneIff(s: Store, original: Inbound, inbound: Inbound, o: Outcomes)
    requires Lookup(s.config, original.tag) == Some(original) && Synced(s, original.tag)
    requires inbound.tag == original.tag && inbound != original
    ensures Synced(AfterAdd(AfterAdd(s, inbound, o.apply), original, o.rollback), original.tag) <==> UndoneRuntime(o)
  {
  }

  lemma AppliedIff(s: Store, original: Inbound, inbound: Inbound, o: AddOutcome)
    requires Lookup(s.config, original.tag) == Some(original) && Synced(s, original.tag)
    requires inbound.tag == original.tag && inbound != original
    ensures Synced(AfterAdd(s, inbound, o), original.tag) <==> o.Refused?
  {
  }

  lemma RewrittenIff(s: Store, inbound: Inbound)
    requires Lookup(s.config, inbound.tag).Some?
    ensures Synced(AfterReplace(AfterAdd(s, inbound, Applied), inbound), inbound.tag)
  {
    Installs(s, inbound, Applied, inbound.tag);
  }

  /** A store in which both have the new definition, after the call that would undo the runtime and,
      if `restored`, the rewrite that would undo the file. */
  lemma RestoredIff(s: Store, original: Inbound, inbound: Inbound, rollback: AddOutcome, restored: bool)
    requires DefinedAs(s, inbound.tag, inbound) && original.tag == inbound.tag && inbound != original
    ensures var s' := AfterAdd(s, original, rollback);
            Synced(if restored then AfterReplace(s', original) else s', inbound.tag)
            <==> if restored then rollback in {Applied, Unacknowledged} else rollback.Refused?
  {
    AddSets(s, original, rollback, original.tag);
    ReplaceDefines(AfterAdd(s, original, rollback), original, original.tag);
  }

  // ---------------------------------------------------------------------------------------
  // Actions
  // ---------------------------------------------------------------------------------------

  /** The deadline update does not look at the runtime or the file. */
  lemma RecordingIsAlike(s: Store, s': Store, tag: string, protocol: string, client: ClientFields, notAfter: Option<Time>, o: ExpiryOutcome)
    requires s'.entries == s.entries && s'.sidecar == s.sidecar && s'.loaded == s.loaded
    ensures UpdateExpiration(s', tag, protocol, client, notAfter, o).result == UpdateExpiration(s, tag, protocol, client, notAfter, o).result
  {
  }

  /** An action that changes an inbound, after its deadline update. */
  lemma RecordedBoth(s: Store, q: ClientRequest, now: Time, o: Outcomes, inbound: Inbound, other: string)
    requires Change(s, q, now, o) == Some(inbound) && o.apply.Applied?
    ensures var x := RecordedAfter(s, q, now, o, inbound);
            && x.result == Recorded(s, q, now, o).result && DefinedAs(x.store, q.tag, inbound)
            && (other != q.tag ==> SameAt(s, x.store, other))
  {
    var original := Lookup(s.config, q.tag).value;
    ChangeIsReal(original, q.client, Adds(q, now));
    var s2 := AfterReplace(AfterAdd(s, inbound, o.apply), inbound);
    Installs(s, inbound, o.apply, other);
    RecordingIsAlike(s, s2, q.tag, original.protocol, q.client, Deadline(q, now), o.expiry);
    UpdateLeavesInbounds(s2, q.tag, original.protocol, q.client, Deadline(q, now), o.expiry);
  }

  /** Without a change an action leaves the runtime and the file alone. */
  lemma NoChange(s: Store, q: ClientRequest, now: Time, o: Outcomes, stage: Stage)
    requires Change(s, q, now, o).None?
    ensures Act(s, q, now, o).store.runtime == s.runtime && Act(s, q, now, o).store.config == s.config
    ensures ActUntil(s, q, now, o, stage).runtime == s.runtime && ActUntil(s, q, now, o, stage).config == s.config
  {
    var found := Lookup(s.config, q.tag);
    if found.Some? {
      UpdateLeavesInbounds(s, q.tag, found.value.protocol, q.client, Deadline(q, now), o.expiry);
    }
  }

  /** The last stage of an action, but for the rewrite that restores the file, is its end. */
  lemma ActIsUndoing(s: Store, q: ClientRequest, now: Time, o: Outcomes)
    requires Change(s, q, now, o).Some?
    ensures var until := ActUntil(s, q, now, o, Undoing);
            Act(s, q, now, o).store
            == if o.apply.Applied? && o.persisted && Recorded(s, q, now, o).result.Err? && Adds(q, now) && o.restored
               then AfterReplace(until, Lookup(s.config, q.tag).value) else until
  {
    if o.apply.Applied? {
      RecordedBoth(s, q, now, o, Change(s, q, now, o).value, q.tag);
    }
  }

  lemma ActUntilElsewhere(s: Store, q: ClientRequest, now: Time, o: Outcomes, stage: Stage, other: string)
    requires other != q.tag
    ensures SameAt(s, ActUntil(s, q, now, o, stage), other)
  {
    var change := Change(s, q, now, o);
    if change.None? {
      NoChange(s, q, now, o, stage);
    } else {
      var original := Lookup(s.config, q.tag).value;
      ChangeIsReal(original, q.client, Adds(q, now));
      AddSets(s, change.value, o.apply, other);
      AddSets(AfterAdd(s, change.value, o.apply), original, o.rollback, other);
      if o.apply.Applied? && o.persisted {
        Installs(s, change.value, o.apply, other);
        RecordedBoth(s, q, now, o, change.value, other);
        AddSets(RecordedAfter(s, q, now, o, change.value).store, original, o.rollback, other);
      }
    }
  }

  lemma ActElsewhere(s: Store, q: ClientRequest, now: Time, o: Outcomes, other: string)
    requires other != q.tag
    ensures SameAt(s, Act(s, q, now, o).store, other)
  {
    ActUntilElsewhere(s, q, now, o, Undoing, other);
    if Change(s, q, now, o).None? {
      NoChange(s, q, now, o, Undoing);
    } else {
      var original := Lookup(s.config, q.tag).value;
      ActIsUndoing(s, q, now, o);
      UntilStillDefines(s, q, now, o);
      ReplaceDefines(ActUntil(s, q, now, o, Undoing), original, other);
    }
  }

  lemma UntilStillDefines(s: Store, q: ClientRequest, now: Time, o: Outcomes)
    requires Change(s, q, now, o).Some?
    ensures Lookup(ActUntil(s, q, now, o, Undoing).config, q.tag).Some?
  {
    var original, inbound := Lookup(s.config, q.tag).value, Change(s, q, now, o).value;
    if o.apply.Applied? && o.persisted {
      RecordedBoth(s, q, now, o, inbound, q.tag);
      AddSets(RecordedAfter(s, q, now, o, inbound).store, original, o.rollback, q.tag);
    } else {
      AddSets(s, inbound, o.apply, q.tag);
      AddSets(AfterAdd(s, inbound, o.apply), original, o.rollback, q.tag);
    }
  }

  lemma CrashedActIff(s: Store, q: ClientRequest, now: Time, o: Outcomes, stage: Stage)
    requires Synced(s, q.tag)
    ensures Synced(ActUntil(s, q, now, o, stage), q.tag) <==> CleanCrash(s, q, now, o, stage)
  {
    var change := Change(s, q, now, o);
    if change.None? {
      NoChange(s, q, now, o, stage);
    } else {
      var original, inbound := Lookup(s.config, q.tag).value, change.value;
      ChangeIsReal(original, q.client, Adds(q, now));
      AppliedIff(s, original, inbound, o.apply);
      UndoneIff(s, original, inbound, o);
      if o.apply.Applied? {
        RewrittenIff(s, inbound);
        RecordedBoth(s, q, now, o, inbound, q.tag);
        RestoredIff(RecordedAfter(s, q, now, o, inbound).store, original, inbound, o.rollback, false);
      }
    }
  }

  lemma ActSyncedIff(s: Store, q: ClientRequest, now: Time, o: Outcomes)
    requires Synced(s, q.tag)
    ensures Synced(Act(s, q, now, o).store, q.tag) <==> CleanAct(s, q, now, o)
  {
    var change := Change(s, q, now, o);
    if change.None? {
      NoChange(s, q, now, o, Undoing);
    } else {
      CrashedActIff(s, q, now, o, Undoing);
      ActIsUndoing(s, q, now, o);
      if o.apply.Applied? {
        var original := Lookup(s.config, q.tag).value;
        ChangeIsReal(original, q.client, Adds(q, now));
        RecordedBoth(s, q, now, o, change.value, q.tag);
        RestoredIff(RecordedAfter(s, q, now, o, change.value).store, original, change.value, o.rollback, true);
      }
    }
  }

  // ---------------------------------------------------------------------------------------
  // Expiries
  // ---------------------------------------------------------------------------------------

  lemma ExpireStages(s: Store, e: Expiration, o: Outcomes, stage: Stage)
    requires s.loaded
    ensures var change := ExpiryChange(s, e, o);
            if change.None? then
              && Expire(s, e, o).store.runtime == s.runtime && Expire(s, e, o).store.config == s.config
              && ExpireUntil(s, e, o, stage).runtime == s.runtime && ExpireUntil(s, e, o, stage).config == s.config
            else Expire(s, e, o) == ExpireChanged(s, e, Lookup(s.config, e.tag).value, change.value, o)
  {
    if ExpiryChange(s, e, o).None? {
      UnchangedExpiry(s, e, o, stage);
    }
  }

  lemma UnchangedExpiry(s: Store, e: Expiration, o: Outcomes, stage: Stage)
    requires s.loaded && ExpiryChange(s, e, o).None?
    ensures Expire(s, e, o).store.runtime == s.runtime && Expire(s, e, o).store.config == s.config
    ensures ExpireUntil(s, e, o, stage) in {s, Expire(s, e, o).store}
  {
    if CurrentIn(s, e) {
      DropChanges(s, e, o.expiry.write);
    }
  }

  /** Before its last stages an expiry has touched only the runtime and the file. */
  lemma ExpireUntilCases(s: Store, e: Expiration, o: Outcomes, stage: Stage)
    ensures var l, until := LoadedStore(s, o.expiry.readable), ExpireUntil(s, e, o, stage);
            if l.None? then until == s
            else
              || until == Expire(s, e, o).store
              || (until.entries == l.value.entries && until.sidecar == l.value.sidecar && until.loaded == l.value.loaded)
  {
    var l := LoadedStore(s, o.expiry.readable);
    if l.Some? && ExpiryChange(l.value, e, o).Some? {
      AddLeavesEntries(l.value, ExpiryChange(l.value, e, o).value, o.apply);
    }
  }

  lemma ExpireUntilElsewhere(s: Store, e: Expiration, o: Outcomes, stage: Stage, other: string)
    requires other != e.tag && s.loaded
    ensures SameAt(s, ExpireUntil(s, e, o, stage), other)
  {
    ExpireStages(s, e, o, stage);
    ExpireKeepsSynced(s, e, o, other);
    var change := ExpiryChange(s, e, o);
    if change.Some? {
      ChangeIsReal(Lookup(s.config, e.tag).value, e.Client(), false);
      AddSets(s, change.value, o.apply, other);
      if o.apply.Applied? {
        Installs(s, change.value, o.apply, other);
      }
    }
  }

  lemma ExpireSyncedIff(s: Store, e: Expiration, o: Outcomes)
    requires Synced(s, e.tag) && s.loaded
    ensures Synced(Expire(s, e, o).store, e.tag) <==> CleanExpire(s, e, o)
  {
    ExpireStages(s, e, o, Undoing);
    var change := ExpiryChange(s, e, o);
    if change.Some? {
      var original := Lookup(s.config, e.tag).value;
      ChangeIsReal(original, e.Client(), false);
      UndoneIff(s, original, change.value, o);
      if o.apply.Applied? && o.persisted {
        ExpireChangedInbounds(s, e, original, change.value, o, e.tag);
        DropChanges(AfterReplace(AfterAdd(s, change.value, o.apply), change.value), e, o.expiry.write);
        Installs(s, change.value, o.apply, e.tag);
      }
    }
  }

  lemma CrashedExpiryIff(s: Store, e: Expiration, o: Outcomes, stage: Stage)
    requires Synced(s, e.tag) && s.loaded
    ensures Synced(ExpireUntil(s, e, o, stage), e.tag) <==> CleanExpiryCrash(s, e, o, stage)
  {
    ExpireStages(s, e, o, stage);
    ExpireSyncedIff(s, e, o);
    var change := ExpiryChange(s, e, o);
    if change.Some? {
      var original := Lookup(s.config, e.tag).value;
      ChangeIsReal(original, e.Client(), false);
      AppliedIff(s, original, change.value, o.apply);
      if o.apply.Applied? {
        RewrittenIff(s, change.value);
      }
    }
  }

  lemma ExpireAfterLoading(s: Store, e: Expiration, o: Outcomes)
    requires LoadedStore(s, o.expiry.readable).Some?
    ensures Expire(s, e, o) == Expire(LoadedStore(s, o.expiry.readable).value, e, o)
  {
  }

  /** Loading the deadlines first makes no difference to an expiry. */
  lemma ExpiryLoads(s: Store, e: Expiration, o: Outcomes, stage: Stage)
    requires LoadedStore(s, o.expiry.readable).Some?
    ensures var l := LoadedStore(s, o.expiry.readable).value;
            && l.loaded && l.runtime == s.runtime && l.config == s.config
            && Expire(s, e, o) == Expire(l, e, o) && ExpireUntil(s, e, o, stage) == ExpireUntil(l, e, o, stage)
            && (CleanExpire(s, e, o) <==> CleanExpire(l, e, o))
            && (CleanExpiryCrash(s, e, o, stage) <==> CleanExpiryCrash(l, e, o, stage))
  {
    ExpireAfterLoading(s, e, o);
  }

  // ---------------------------------------------------------------------------------------
  // Whole inbounds and Xray
  // ---------------------------------------------------------------------------------------

  lemma {:induction false} LookupAppended(config: seq<ConfigItem>, item: ConfigItem, tag: string)
    ensures Lookup(config + [item], tag)
            == if Lookup(config, tag).Some? then Lookup(config, tag) else if Defines(item, tag) then Some(item.inbound) else None
  {
    if config == [] {
      assert config + [item] == [item];
    } else {
      assert (config + [item])[1..] == config[1..] + [item];
      LookupAppended(config[1..], item, tag);
    }
  }

  lemma AdditionSyncedIff(s: Store, inbound: Inbound, added: AddOutcome, persisted: bool, other: string)
    requires Synced(s, inbound.tag)
    ensures Synced(AfterAddition(s, inbound, added, persisted), inbound.tag) <==> Clean(s, InboundAdded(inbound, added, persisted))
    ensures other != inbound.tag ==> SameAt(s, AfterAddition(s, inbound, added, persisted), other)
  {
    LookupAppended(s.config, Definition(inbound), inbound.tag);
    LookupAppended(s.config, Definition(inbound), other);
  }

  lemma DropTagLeavesInbounds(s: Store, tag: string, o: ExpiryOutcome)
    ensures AfterDropTag(s, tag, o).runtime == s.runtime && AfterDropTag(s, tag, o).config == s.config
  {
  }

  lemma RemovalSyncedIff(s: Store, tag: string, removal: Removal, other: string)
    requires Synced(s, tag)
    ensures Synced(AfterRemoval(s, tag, removal), tag) <==> Clean(s, InboundRemoved(tag, removal))
    ensures other != tag ==> SameAt(s, AfterRemoval(s, tag, removal), other)
  {
    var s1 := if removal.runtime.NotWithdrawn? then s else s.(runtime := s.runtime - {tag});
    var s2 := if removal.persisted then s1.(config := Others(s1.config, tag)) else s1;
    DropTagLeavesInbounds(s2, tag, removal.expiry);
    OthersLack(s.config, tag);
    if other != tag {
      LookupAmongOthers(s.config, tag, other);
    }
  }

  lemma {:induction false} DefinitionsRun(config: seq<ConfigItem>, tag: string)
    ensures tag in Definitions(config) <==> Lookup(config, tag).Some?
    ensures tag in Definitions(config) ==> Definitions(config)[tag] == Lookup(config, tag).value
  {
    if config != [] {
      DefinitionsRun(config[1..], tag);
    }
  }

  // ---------------------------------------------------------------------------------------
  // Sessions
  // ---------------------------------------------------------------------------------------

  lemma ActEventIff(s: Store, q: ClientRequest, now: Time, o: Outcomes)
    requires AllSynced(s)
    ensures AllSynced(Act(s, q, now, o).store) <==> CleanAct(s, q, now, o)
  {
    var s' := Act(s, q, now, o).store;
    forall other | other != q.tag ensures SameAt(s, s', other) {
      ActElsewhere(s, q, now, o, other);
    }
    OneTagDecides(s, s', q.tag);
    ActSyncedIff(s, q, now, o);
  }

  lemma CrashEventIff(s: Store, q: ClientRequest, now: Time, o: Outcomes, stage: Stage)
    requires AllSynced(s)
    ensures AllSynced(Forgotten(ActUntil(s, q, now, o, stage))) <==> CleanCrash(s, q, now, o, stage)
  {
    var s' := ActUntil(s, q, now, o, stage);
    SameInbounds(s', Forgotten(s'));
    forall other | other != q.tag ensures SameAt(s, s', other) {
      ActUntilElsewhere(s, q, now, o, stage, other);
    }
    OneTagDecides(s, s', q.tag);
    CrashedActIff(s, q, now, o, stage);
  }

  lemma LoadedExpiryEventIff(s: Store, e: Expiration, o: Outcomes, stage: Stage)
    requires AllSynced(s) && s.loaded
    ensures AllSynced(Expire(s, e, o).store) <==> CleanExpire(s, e, o)
    ensures AllSynced(ExpireUntil(s, e, o, stage)) <==> CleanExpiryCrash(s, e, o, stage)
  {
    var s', s'' := Expire(s, e, o).store, ExpireUntil(s, e, o, stage);
    forall other | other != e.tag ensures SameAt(s, s', other) && SameAt(s, s'', other) {
      ExpireKeepsSynced(s, e, o, other);
      ExpireUntilElsewhere(s, e, o, stage, other);
    }
    OneTagDecides(s, s', e.tag);
    OneTagDecides(s, s'', e.tag);
    ExpireSyncedIff(s, e, o);
    CrashedExpiryIff(s, e, o, stage);
  }

  lemma ExpiryEventIff(s: Store, e: Expiration, o: Outcomes, stage: Stage)
    requires AllSynced(s)
    ensures AllSynced(Expire(s, e, o).store) <==> CleanExpire(s, e, o)
    ensures AllSynced(Forgotten(ExpireUntil(s, e, o, stage))) <==> CleanExpiryCrash(s, e, o, stage)
  {
    SameInbounds(ExpireUntil(s, e, o, stage), Forgotten(ExpireUntil(s, e, o, stage)));
    var l := LoadedStore(s, o.expiry.readable);
    if l.Some? {
      ExpiryLoads(s, e, o, stage);
      SameInbounds(s, l.value);
      LoadedExpiryEventIff(l.value, e, o, stage);
    }
  }

  lemma SameInbounds(s: Store, s': Store)
    requires s'.runtime == s.runtime && s'.config == s.config
    ensures AllSynced(s') <==> AllSynced(s)
  {
    if AllSynced(s) {
      forall tag ensures Synced(s', tag) {
        assert Synced(s, tag);
      }
    }
    if AllSynced(s') {
      forall tag ensures Synced(s, tag) {
        assert Synced(s', tag);
      }
    }
  }

  lemma AdditionEventIff(s: Store, inbound: Inbound, added: AddOutcome, persisted: bool)
    requires AllSynced(s)
    ensures AllSynced(AfterAddition(s, inbound, added, persisted)) <==> Clean(s, InboundAdded(inbound, added, persisted))
  {
    var s' := AfterAddition(s, inbound, added, persisted);
    forall other | other != inbound.tag ensures SameAt(s, s', other) {
      AdditionSyncedIff(s, inbound, added, persisted, other);
    }
    OneTagDecides(s, s', inbound.tag);
    AdditionSyncedIff(s, inbound, added, persisted, inbound.tag);
  }

  lemma RemovalEventIff(s: Store, tag: string, removal: Removal)
    requires AllSynced(s)
    ensures AllSynced(AfterRemoval(s, tag, removal)) <==> Clean(s, InboundRemoved(tag, removal))
  {
    var s' := AfterRemoval(s, tag, removal);
    forall other | other != tag ensures SameAt(s, s', other) {
      RemovalSyncedIff(s, tag, removal, other);
    }
    OneTagDecides(s, s', tag);
    RemovalSyncedIff(s, tag, removal, tag);
  }

  /** A restart of Xray brings the runtime and the file together, whatever they were before. */
  lemma XrayEventSyncs(s: Store)
    ensures AllSynced(After(s, XrayRestarted))
  {
    forall tag ensures Synced(After(s, XrayRestarted), tag) {
      DefinitionsRun(s.config, tag);
    }
  }

  /** One event after a store whose runtime and file agree: they still do exactly when it is clean. */
  lemma EventSyncedIff(s: Store, event: Event)
    requires AllSynced(s)
    ensures AllSynced(After(s, event)) <==> Clean(s, event)
  {
    match event
    case Acted(q, now, o) => ActEventIff(s, q, now, o);
    case Expired(e, o) => ExpiryEventIff(s, e, o, Undoing);
    case CrashedActing(q, now, o, stage) => CrashEventIff(s, q, now, o, stage);
    case CrashedExpiring(e, o, stage) => ExpiryEventIff(s, e, o, stage);
    case InboundAdded(inbound, added, persisted) => AdditionEventIff(s, inbound, added, persisted);
    case InboundRemoved(tag, removal) => RemovalEventIff(s, tag, removal);
    case AgentRestarted => SameInbounds(s, After(s, event));
    case XrayRestarted => XrayEventSyncs(s);
  }

  /** Along every session the runtime and the file agree on every tag at every instant if and only if
      they agree at the start and every event is clean. */
  lemma {:induction false} SessionsStaySyncedIff(ss: seq<Store>, events: seq<Event>, i: nat)
    requires Session(ss, events) && i < |ss|
    ensures (forall k :: 0 <= k <= i ==> AllSynced(ss[k]))
            <==> AllSynced(ss[0]) && forall k :: 0 <= k < i ==> Clean(ss[k], events[k])
  {
    if i > 0 {
      SessionsStaySyncedIff(ss, events, i - 1);
      if AllSynced(ss[i - 1]) {
        EventSyncedIff(ss[i - 1], events[i - 1]);
        assert ss[i] == After(ss[i - 1], events[i - 1]);
      }
      assert (forall k :: 0 <= k < i ==> Clean(ss[k], events[k]))
             <==> (forall k :: 0 <= k < i - 1 ==> Clean(ss[k], events[k])) && Clean(ss[i - 1], events[i - 1]);
      assert (forall k :: 0 <= k <= i ==> AllSynced(ss[k])) <==> (forall k :: 0 <= k <= i - 1 ==> AllSynced(ss[k])) && AllSynced(ss[i]);
    }
  }

  /** A request or an expiry is clean whenever the calls that undo something work, and so are
      sessions of these and of restarts. */
  lemma SessionsStaySynced(ss: seq<Store>, events: seq<Event>, i: nat)
    requires Session(ss, events) && i < |ss| && AllSynced(ss[0])
    requires forall k :: 0 <= k < i ==>
               || events[k].AgentRestarted? || events[k].XrayRestarted?
               || ((events[k].Acted? || events[k].Expired?) && RollbacksWork(events[k].o))
    ensures AllSynced(ss[i])
  {
    forall k | 0 <= k < i ensures Clean(ss[k], events[k]) {
      assert events[k].Acted? || events[k].Expired? ==> RollbacksWork(events[k].o);
    }
    SessionsStaySyncedIff(ss, events, i);
  }
}
