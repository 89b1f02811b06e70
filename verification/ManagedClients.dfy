/** Client actions of the Agent (manageInbound and expireManagedClient in
    internal/handler/child_manage.go): three stores, the Xray runtime, the configuration file and
    the deadlines, changed one after the other with rollback. */
module ManagedClients {
  import opened Base
  import opened InboundClients
  import opened ClientExpirations

  // ---------------------------------------------------------------------------------------
  // The configuration file
  // ---------------------------------------------------------------------------------------

  datatype ConfigItem = Definition(inbound: Inbound) | OtherItem(text: string)

  predicate Defines(item: ConfigItem, tag: string) {
    item.Definition? && item.inbound.tag == tag
  }

  /** getInboundFromConfig: the first definition with the tag. */
  function Lookup(config: seq<ConfigItem>, tag: string): (r: Option<Inbound>)
    ensures r.Some? ==> r.value.tag == tag
  {
    if config == [] then None
    else if Defines(config[0], tag) then Some(config[0].inbound)
    else Lookup(config[1..], tag)
  }

  /** replaceInboundInConfig: the first definition with the tag is replaced, the others with it
      are dropped. */
  function Rewrite(config: seq<ConfigItem>, inbound: Inbound, replaced: bool): seq<ConfigItem> {
    if config == [] then []
    else if !Defines(config[0], inbound.tag) then [config[0]] + Rewrite(config[1..], inbound, replaced)
    else if replaced then Rewrite(config[1..], inbound, true)
    else [Definition(inbound)] + Rewrite(config[1..], inbound, true)
  }

  /** Everything in the file but the definitions with the tag, in order. */
  function Others(config: seq<ConfigItem>, tag: string): seq<ConfigItem> {
    if config == [] then []
    else if Defines(config[0], tag) then Others(config[1..], tag)
    else [config[0]] + Others(config[1..], tag)
  }

  lemma {:induction false} RewriteKeepsOthers(config: seq<ConfigItem>, inbound: Inbound, replaced: bool)
    ensures Others(Rewrite(config, inbound, replaced), inbound.tag) == Others(config, inbound.tag)
    ensures replaced ==> Rewrite(config, inbound, replaced) == Others(config, inbound.tag)
  {
    if config != [] {
      RewriteKeepsOthers(config[1..], inbound, replaced);
      RewriteKeepsOthers(config[1..], inbound, true);
      var rest := Rewrite(config[1..], inbound, replaced);
      assert ([config[0]] + rest)[1..] == rest;
      var rest' := Rewrite(config[1..], inbound, true);
      assert ([Definition(inbound)] + rest')[1..] == rest';
    }
  }

  lemma {:induction false} RewriteSets(config: seq<ConfigItem>, inbound: Inbound)
    requires Lookup(config, inbound.tag).Some?
    ensures Lookup(Rewrite(config, inbound, false), inbound.tag) == Some(inbound)
  {
    if !Defines(config[0], inbound.tag) {
      RewriteSets(config[1..], inbound);
      var rest := Rewrite(config[1..], inbound, false);
      assert ([config[0]] + rest)[1..] == rest;
    }
  }

  lemma {:induction false} LookupAmongOthers(config: seq<ConfigItem>, tag: string, other: string)
    requires tag != other
    ensures Lookup(Others(config, tag), other) == Lookup(config, other)
  {
    if config != [] {
      LookupAmongOthers(config[1..], tag, other);
      var rest := Others(config[1..], tag);
      assert ([config[0]] + rest)[1..] == rest;
    }
  }

  // ---------------------------------------------------------------------------------------
  // The stores and how calls on them may end
  // ---------------------------------------------------------------------------------------

  datatype Store = Store(
    runtime: map<string, Inbound>,
    config: seq<ConfigItem>,
    entries: Expirations,
    sidecar: Option<Sidecar>,
    loaded: bool)

  /** addInbound removes the running inbound and adds the new one: done, refused before anything
      happened, failed in between, or done although an error came back. */
  datatype AddOutcome = Applied | Refused | Vanished | Unacknowledged

  /** Writing the sidecar: done, renamed but reported as failed, or failed. */
  datatype WriteOutcome = Written | Unreported | NotWritten

  datatype ExpiryOutcome = ExpiryOutcome(readable: bool, write: WriteOutcome)

  function AfterAdd(s: Store, inbound: Inbound, o: AddOutcome): Store {
    match o
    case Refused => s
    case Vanished => s.(runtime := s.runtime - {inbound.tag})
    case _ => s.(runtime := s.runtime[inbound.tag := inbound])
  }

  function AfterReplace(s: Store, inbound: Inbound): Store {
    s.(config := Rewrite(s.config, inbound, false))
  }

  function LoadedStore(s: Store, readable: bool): Option<Store> {
    if s.loaded then Some(s)
    else if readable && Load(s.sidecar).Ok? then Some(s.(entries := Load(s.sidecar).value, loaded := true))
    else None
  }

  ghost function Saved(s: Store, entries: Expirations, o: WriteOutcome): Store {
    match o
    case Written => s.(entries := entries, sidecar := Some(FileOf(entries)))
    case Unreported => s.(sidecar := Some(FileOf(entries)))
    case NotWritten => s
  }

  datatype ExpiryReply = ExpiryReply(store: Store, result: Result<bool, ExpirationError>)

  /** What is in memory once loaded is keyed as it should be. */
  ghost predicate Sound(s: Store) {
    (s.loaded ==> Good(s.entries)) && (!s.loaded && Load(s.sidecar).Ok? ==> Good(Load(s.sidecar).value))
  }

  /** updateClientExpiration */
  ghost function UpdateExpiration(s: Store, tag: string, protocol: string, client: ClientFields, notAfter: Option<Time>,
                                  o: ExpiryOutcome): ExpiryReply
  {
    var l := LoadedStore(s, o.readable);
    if l.None? then ExpiryReply(s, Err(SidecarUnavailable))
    else
      var next := Set(l.value.entries, tag, protocol, client, notAfter);
      if next.Err? then ExpiryReply(l.value, Err(next.error))
      else if next.value == l.value.entries then ExpiryReply(l.value, Ok(false))
      else
        ExpiryReply(Saved(l.value, next.value, o.write),
                    if o.write.Written? then Ok(true) else Err(SidecarUnavailable))
  }

  // ---------------------------------------------------------------------------------------
  // add-client and remove-client
  // ---------------------------------------------------------------------------------------

  datatype ClientRequest = ClientRequest(add: bool, tag: string, client: ClientFields, notAfter: Option<Time>)

  datatype Reply =
    | Unavailable | TagMissing | ConfigUnreadable | InboundNotFound | BadClient(error: ClientError)
    | ApplyFailed | PersistFailed | ExpiryFailed
    | Done(changed: bool, clientChanged: bool)

  /** How each call that the action makes on the outside ends. */
  datatype Outcomes = Outcomes(
    connected: bool,
    readable: bool,
    apply: AddOutcome,
    persisted: bool,
    expiry: ExpiryOutcome,
    rollback: AddOutcome,
    restored: bool)

  datatype ActionEnd = ActionEnd(store: Store, reply: Reply)

  predicate Adds(q: ClientRequest, now: Time) {
    q.add && !(q.notAfter.Some? && q.notAfter.value <= now)
  }

  function Deadline(q: ClientRequest, now: Time): Option<Time> {
    if Adds(q, now) then q.notAfter else None
  }

  ghost function Act(s: Store, q: ClientRequest, now: Time, o: Outcomes): ActionEnd
  {
    if !o.connected then ActionEnd(s, Unavailable)
    else if Trim(q.tag) == "" then ActionEnd(s, TagMissing)
    else if !o.readable then ActionEnd(s, ConfigUnreadable)
    else if Lookup(s.config, q.tag).None? then ActionEnd(s, InboundNotFound)
    else
      var original := Lookup(s.config, q.tag).value;
      var m := Mutate(original, q.client, Adds(q, now));
      if m.Err? then ActionEnd(s, BadClient(m.error))
      else if m.value.changed then ActChanged(s, q, now, original, m.value.inbound, o)
      else
        var x := UpdateExpiration(s, q.tag, original.protocol, q.client, Deadline(q, now), o.expiry);
        ActionEnd(x.store, if x.result.Ok? then Done(x.result.value, false) else ExpiryFailed)
  }

  ghost function ActChanged(s: Store, q: ClientRequest, now: Time, original: Inbound, inbound: Inbound, o: Outcomes): ActionEnd
  {
    var s1 := AfterAdd(s, inbound, o.apply);
    if !o.apply.Applied? then ActionEnd(AfterAdd(s1, original, o.rollback), ApplyFailed)
    else if !o.persisted then ActionEnd(AfterAdd(s1, original, o.rollback), PersistFailed)
    else
      var x := UpdateExpiration(AfterReplace(s1, inbound), q.tag, original.protocol, q.client, Deadline(q, now), o.expiry);
      if x.result.Ok? then ActionEnd(x.store, Done(true, true))
      else if !Adds(q, now) then ActionEnd(x.store, ExpiryFailed)
      else
        var s3 := AfterAdd(x.store, original, o.rollback);
        ActionEnd(if o.restored then AfterReplace(s3, original) else s3, ExpiryFailed)
  }

  // ---------------------------------------------------------------------------------------
  // Expiry
  // ---------------------------------------------------------------------------------------

  datatype ExpireEnd = ExpireEnd(store: Store, ok: bool)

  predicate CurrentIn(s: Store, e: Expiration) {
    e.Key() in s.entries && s.entries[e.Key()] == e
  }

  ghost function DropEntry(s: Store, e: Expiration, o: WriteOutcome): ExpireEnd
  {
    ExpireEnd(Saved(s, s.entries - {e.Key()}, o), o.Written?)
  }

  /** expireManagedClient */
  ghost function Expire(s: Store, e: Expiration, o: Outcomes): ExpireEnd {
    var l := LoadedStore(s, o.expiry.readable);
    if l.None? then ExpireEnd(s, false)
    else if !CurrentIn(l.value, e) then ExpireEnd(l.value, true)
    else if !o.readable then ExpireEnd(l.value, false)
    else if Lookup(s.config, e.tag).None? then DropEntry(l.value, e, o.expiry.write)
    else
      var original := Lookup(s.config, e.tag).value;
      var m := Mutate(original, e.Client(), false);
      if m.Err? then ExpireEnd(l.value, false)
      else if !m.value.changed then DropEntry(l.value, e, o.expiry.write)
      else if !o.connected then ExpireEnd(l.value, false)
      else ExpireChanged(l.value, e, original, m.value.inbound, o)
  }

  ghost function ExpireChanged(s: Store, e: Expiration, original: Inbound, inbound: Inbound, o: Outcomes): ExpireEnd {
    var s1 := AfterAdd(s, inbound, o.apply);
    if !o.apply.Applied? || !o.persisted then ExpireEnd(AfterAdd(s1, original, o.rollback), false)
    else DropEntry(AfterReplace(s1, inbound), e, o.expiry.write)
  }

  // ---------------------------------------------------------------------------------------
  // Whole inbounds
  // ---------------------------------------------------------------------------------------

  /** The "add" action: the runtime first, then one more definition at the end of the file, whose
      failure is only a warning. */
  function AfterAddition(s: Store, inbound: Inbound, o: AddOutcome, persisted: bool): Store {
    var s1 := AfterAdd(s, inbound, o);
    if o.Applied? && persisted then s1.(config := s1.config + [Definition(inbound)]) else s1
  }

  datatype RemoveOutcome = Withdrawn | NotWithdrawn | WithdrawnUnacknowledged

  /** How the calls of a "remove" end: the runtime, the file, the deadlines of the tag. */
  datatype Removal = Removal(runtime: RemoveOutcome, persisted: bool, expiry: ExpiryOutcome)

  function WithoutTag(entries: Expirations, tag: string): Expirations {
    map key | key in entries && entries[key].tag != tag :: entries[key]
  }

  /** removeClientExpirationsForTag */
  ghost function AfterDropTag(s: Store, tag: string, o: ExpiryOutcome): Store {
    var l := LoadedStore(s, o.readable);
    if l.None? then s
    else if WithoutTag(l.value.entries, tag) == l.value.entries then l.value
    else Saved(l.value, WithoutTag(l.value.entries, tag), o.write)
  }

  /** The "remove" action: failures past the runtime are only logged. */
  ghost function AfterRemoval(s: Store, tag: string, o: Removal): Store {
    var s1 := if o.runtime.NotWithdrawn? then s else s.(runtime := s.runtime - {tag});
    if !o.runtime.Withdrawn? then s1
    else AfterDropTag(if o.persisted then s1.(config := Others(s1.config, tag)) else s1, tag, o.expiry)
  }

  // ---------------------------------------------------------------------------------------
  // The Agent
  // ---------------------------------------------------------------------------------------

  class ChildManager {
    var runtime: map<string, Inbound>
    var config: seq<ConfigItem>
    var entries: Expirations
    var sidecar: Option<Sidecar>
    var loaded: bool

    ghost function Value(): Store
      reads this
    {
      Store(runtime, config, entries, sidecar, loaded)
    }

    constructor (s: Store)
      ensures Value() == s
    {
      runtime, config, entries, sidecar, loaded := s.runtime, s.config, s.entries, s.sidecar, s.loaded;
    }

    method AddInbound(inbound: Inbound) returns (ok: bool, ghost o: AddOutcome)
      modifies this`runtime
      ensures Value() == AfterAdd(old(Value()), inbound, o) && (ok <==> o.Applied?)
    {
      var ending: AddOutcome := *;
      match ending {
        case Refused =>
        case Vanished => runtime := runtime - {inbound.tag};
        case _ =>
          runtime := runtime - {inbound.tag};
          runtime := runtime[inbound.tag := inbound];
      }
      o, ok := ending, ending.Applied?;
    }

    method GetInboundFromConfig(tag: string) returns (r: Option<Inbound>)
      ensures r == Lookup(config, tag)
    {
      for i := 0 to |config|
        invariant Lookup(config, tag) == Lookup(config[i..], tag)
      {
        if config[i].Definition? && config[i].inbound.tag == tag {
          return Some(config[i].inbound);
        }
        assert config[i..][1..] == config[i + 1..];
      }
      r := None;
    }

    method ReplaceInboundInConfig(inbound: Inbound) returns (ok: bool)
      modifies this`config
      ensures ok ==> Value() == AfterReplace(old(Value()), inbound)
      ensures !ok ==> Value() == old(Value())
    {
      if Trim(inbound.tag) == "" {
        return false;
      }
      var updated := [];
      var replaced := false;
      for i := 0 to |config|
        invariant Rewrite(config, inbound, false) == updated + Rewrite(config[i..], inbound, replaced)
      {
        var item := config[i];
        assert config[i..][1..] == config[i + 1..];
        if !Defines(item, inbound.tag) {
          updated := updated + [item];
        } else if !replaced {
          updated := updated + [Definition(inbound)];
          replaced := true;
        }
      }
      ok := *;
      if !replaced {
        ok := false;
      }
      if ok {
        config := updated;
      }
    }

    method EnsureLoaded() returns (ok: bool, ghost readable: bool)
      modifies this`entries, this`loaded
      ensures match LoadedStore(old(Value()), readable)
              case Some(s) => ok && Value() == s
              case None => !ok && Value() == old(Value())
    {
      readable := true;
      if loaded {
        return true, true;
      }
      var reading: bool := *;
      readable := reading;
      if !reading {
        return false, readable;
      }
      var r := ReadSidecar(sidecar);
      if r.Err? {
        return false, readable;
      }
      entries, loaded := r.value, true;
      ok := true;
    }

    /** Writes the given entries and, when that is reported as done, keeps them. */
    method Save(next: Expirations) returns (ok: bool, ghost o: WriteOutcome)
      requires Keyed(next)
      modifies this`entries, this`sidecar
      ensures Value() == Saved(old(Value()), next, o) && (ok <==> o.Written?)
    {
      var f := StateFile(next);
      var ending: WriteOutcome := *;
      o, ok := ending, false;
      match ending {
        case NotWritten =>
        case Unreported => sidecar := Some(f);
        case Written =>
          sidecar := Some(f);
          entries, ok := next, true;
      }
    }

    /** setManagedClientExpiration, on a copy of the entries. */
    method SetExpiration(copy: Expirations, tag: string, protocol: string, client: ClientFields, notAfter: Option<Time>)
      returns (next: Expirations, r: Result<bool, ExpirationError>)
      ensures match Set(copy, tag, protocol, client, notAfter)
              case Err(e) => r == Err(e)
              case Ok(m) => next == m && r == Ok(m != copy)
    {
      next := copy;
      var id := ClientIdentity(protocol, client);
      if id.Err? {
        return next, Err(id.error);
      }
      var key := ExpirationKey(tag, id.value.key, id.value.value);
      if notAfter.None? {
        if key !in next {
          assert copy - {key} == copy;
          return next, Ok(false);
        }
        next := next - {key};
        return next, Ok(true);
      }
      var entry := NewExpiration(tag, protocol, client, notAfter.value);
      if entry.Err? {
        return next, Err(entry.error);
      }
      if key in next && next[key] == entry.value {
        assert copy[key := entry.value] == copy;
        return next, Ok(false);
      }
      next := next[key := entry.value];
      assert next[key] == entry.value;
      return next, Ok(true);
    }

    method UpdateClientExpiration(tag: string, protocol: string, client: ClientFields, notAfter: Option<Time>)
      returns (r: Result<bool, ExpirationError>, ghost o: ExpiryOutcome)
      requires Sound(Value())
      modifies this`entries, this`sidecar, this`loaded
      ensures ExpiryReply(Value(), r) == UpdateExpiration(old(Value()), tag, protocol, client, notAfter, o)
    {
      ghost var readable;
      var ok;
      ok, readable := EnsureLoaded();
      o := ExpiryOutcome(readable, NotWritten);
      if !ok {
        return Err(SidecarUnavailable), o;
      }
      var next;
      next, r := SetExpiration(entries, tag, protocol, client, notAfter);
      if r.Err? || !r.value {
        return;
      }
      SetKeepsGood(entries, tag, protocol, client, notAfter);
      ghost var write;
      ok, write := Save(next);
      o := ExpiryOutcome(readable, write);
      r := if ok then Ok(true) else Err(SidecarUnavailable);
    }

    /** The add-client and remove-client actions, at the clock reading `now`. */
    method ManageClient(q: ClientRequest, now: Time) returns (reply: Reply, ghost o: Outcomes)
      requires Sound(Value())
      modifies this
      ensures ActionEnd(Value(), reply) == Act(old(Value()), q, now, o)
    {
      var connected, readable := *, *;
      o := Outcomes(connected, readable, Applied, true, ExpiryOutcome(true, Written), Applied, true);
      if !connected {
        return Unavailable, o;
      }
      if Trim(q.tag) == "" {
        return TagMissing, o;
      }
      if !readable {
        return ConfigUnreadable, o;
      }
      var original := GetInboundFromConfig(q.tag);
      if original.None? {
        return InboundNotFound, o;
      }
      var shouldAdd, expiration := q.add, q.notAfter;
      if shouldAdd && expiration.Some? && expiration.value <= now {
        shouldAdd, expiration := false, None;
      }
      if !q.add {
        expiration := None;
      }
      var target := new InboundObject(original.value);
      var changed := target.MutateClient(q.client, shouldAdd);
      if changed.Err? {
        return BadClient(changed.error), o;
      }
      if changed.value {
        reply, o := ApplyAndPersist(q, now, original.value, target.Value(), o);
        return;
      }
      var r, x := UpdateClientExpiration(q.tag, original.value.protocol, q.client, expiration);
      o := o.(expiry := x);
      reply := if r.Ok? then Done(r.value, false) else ExpiryFailed;
    }

    /** The part of an action that changes the inbound: runtime, file, deadline, each undone when
        a later one fails. */
    method ApplyAndPersist(q: ClientRequest, now: Time, original: Inbound, inbound: Inbound, ghost seen: Outcomes)
      returns (reply: Reply, ghost o: Outcomes)
      requires Sound(Value())
      modifies this
      ensures o.connected == seen.connected && o.readable == seen.readable
      ensures ActionEnd(Value(), reply) == ActChanged(old(Value()), q, now, original, inbound, o)
    {
      o := seen;
      ghost var apply, rollback;
      var ok, undone;
      ok, apply := AddInbound(inbound);
      o := o.(apply := apply);
      if !ok {
        undone, rollback := AddInbound(original);
        return ApplyFailed, o.(rollback := rollback);
      }
      ok := ReplaceInboundInConfig(inbound);
      o := o.(persisted := ok);
      if !ok {
        undone, rollback := AddInbound(original);
        return PersistFailed, o.(rollback := rollback);
      }
      var r, x := UpdateClientExpiration(q.tag, original.protocol, q.client, Deadline(q, now));
      o := o.(expiry := x);
      if r.Ok? {
        return Done(true, true), o;
      }
      if Adds(q, now) {
        undone, rollback := AddInbound(original);
        undone := ReplaceInboundInConfig(original);
        o := o.(rollback := rollback, restored := undone);
      }
      return ExpiryFailed, o;
    }

    /** The "add" action for a whole inbound. */
    method AddWholeInbound(inbound: Inbound) returns (ok: bool, ghost o: AddOutcome, ghost persisted: bool)
      modifies this`runtime, this`config
      ensures Value() == AfterAddition(old(Value()), inbound, o, persisted) && (ok <==> o.Applied?)
    {
      persisted := false;
      ok, o := AddInbound(inbound);
      if ok {
        var written: bool := *;
        if written {
          config := config + [Definition(inbound)];
        }
        persisted := written;
      }
    }

    method RemoveInboundFromConfig(tag: string) returns (ok: bool)
      modifies this`config
      ensures Value() == old(Value()).(config := if ok then Others(old(config), tag) else old(config))
    {
      var kept := [];
      for i := 0 to |config|
        invariant Others(config, tag) == kept + Others(config[i..], tag)
      {
        assert config[i..][1..] == config[i + 1..];
        if !Defines(config[i], tag) {
          kept := kept + [config[i]];
        }
      }
      ok := *;
      if ok {
        config := kept;
      }
    }

    method RemoveExpirationsForTag(tag: string) returns (ghost o: ExpiryOutcome)
      requires Sound(Value())
      modifies this`entries, this`sidecar, this`loaded
      ensures Value() == AfterDropTag(old(Value()), tag, o)
    {
      ghost var readable;
      var ok;
      ok, readable := EnsureLoaded();
      o := ExpiryOutcome(readable, NotWritten);
      if !ok {
        return;
      }
      var next := DropTag(entries, tag);
      if next != entries {
        ghost var write;
        ok, write := Save(next);
        o := ExpiryOutcome(readable, write);
      }
    }

    /** The loop over the copy of the entries. */
    method DropTag(copy: Expirations, tag: string) returns (next: Expirations)
      ensures next == WithoutTag(copy, tag)
    {
      next := copy;
      var remaining := copy.Keys;
      while remaining != {}
        invariant remaining <= copy.Keys && next.Keys <= copy.Keys
        invariant forall key :: key in next ==> next[key] == copy[key]
        invariant forall key :: key in copy ==> (key in next <==> key in remaining || copy[key].tag != tag)
        decreases |remaining|
      {
        var key :| key in remaining;
        remaining := remaining - {key};
        if copy[key].tag == tag {
          next := next - {key};
        }
      }
      assert next == WithoutTag(copy, tag);
    }

    /** The "remove" action for a whole inbound. */
    method RemoveWholeInbound(tag: string) returns (ok: bool, ghost o: Removal)
      requires Sound(Value())
      modifies this
      ensures Value() == AfterRemoval(old(Value()), tag, o) && (ok <==> o.runtime.Withdrawn?)
    {
      var ending: RemoveOutcome := *;
      o := Removal(ending, false, ExpiryOutcome(true, NotWritten));
      match ending {
        case NotWithdrawn => return false, o;
        case WithdrawnUnacknowledged =>
          runtime := runtime - {tag};
          return false, o;
        case Withdrawn => runtime := runtime - {tag};
      }
      var persisted := RemoveInboundFromConfig(tag);
      ghost var x := RemoveExpirationsForTag(tag);
      o := Removal(ending, persisted, x);
      ok := true;
    }

    /** Drops a deadline unless it has changed. */
    method RemoveExpirationIfCurrent(e: Expiration) returns (ok: bool, ghost o: WriteOutcome)
      requires loaded && Good(entries)
      modifies this`entries, this`sidecar
      ensures if CurrentIn(old(Value()), e) then ExpireEnd(Value(), ok) == DropEntry(old(Value()), e, o)
              else ok && Value() == old(Value())
    {
      o := Written;
      if e.Key() !in entries || entries[e.Key()] != e {
        return true, o;
      }
      ok, o := Save(entries - {e.Key()});
    }

    /** One attempt of the expiry scheduler. */
    method ExpireManagedClient(e: Expiration) returns (ok: bool, ghost o: Outcomes)
      requires Sound(Value())
      modifies this
      ensures ExpireEnd(Value(), ok) == Expire(old(Value()), e, o)
    {
      var connected, readable := *, *;
      o := Outcomes(connected, readable, Applied, true, ExpiryOutcome(true, Written), Applied, true);
      ghost var canRead, write, apply, rollback;
      ok, canRead := EnsureLoaded();
      o := o.(expiry := ExpiryOutcome(canRead, Written));
      if !ok {
        return false, o;
      }
      if e.Key() !in entries || entries[e.Key()] != e {
        return true, o;
      }
      if !readable {
        return false, o;
      }
      var original := GetInboundFromConfig(e.tag);
      if original.Some? {
        var target := new InboundObject(original.value);
        var changed := target.MutateClient(e.Client(), false);
        if changed.Err? {
          return false, o;
        }
        if changed.value {
          if !connected {
            return false, o;
          }
          var inbound := target.Value();
          var undone;
          ok, apply := AddInbound(inbound);
          o := o.(apply := apply);
          if !ok {
            undone, rollback := AddInbound(original.value);
            return false, o.(rollback := rollback);
          }
          ok := ReplaceInboundInConfig(inbound);
          o := o.(persisted := ok);
          if !ok {
            undone, rollback := AddInbound(original.value);
            return false, o.(rollback := rollback);
          }
        }
      }
      ok, write := RemoveExpirationIfCurrent(e);
      o := o.(expiry := ExpiryOutcome(canRead, write));
    }
  }
}
