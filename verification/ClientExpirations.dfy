/** Deadlines of managed clients and the sidecar file that keeps them
    (internal/handler/child_manage.go). */
module ClientExpirations {
  import opened Base
  import opened Ordering
  import opened InboundClients

  const SIDECAR_VERSION := 1

  datatype Expiration = Expiration(
    tag: string,
    protocol: string,
    identityKey: string,
    identityValue: string,
    notAfter: Time)
  {
    function Key(): string {
      ExpirationKey(tag, identityKey, identityValue)
    }

    /** The request that removes the client this deadline is for. */
    function Client(): ClientFields {
      map[identityKey := Printed(identityValue)]
    }
  }

  type Expirations = map<string, Expiration>

  datatype Sidecar = Sidecar(version: int, entries: seq<Expiration>)

  datatype ExpirationError =
    | NoUsableIdentity | ProtocolUnsupported | TagRequired | NotAfterRequired
    | VersionUnsupported | EntryInvalid | SidecarUnavailable

  function ExpirationKey(tag: string, identityKey: string, identityValue: string): string {
    Trim(tag) + "\0" + identityKey + "\0" + identityValue
  }

  datatype Identity = Identity(key: string, value: string)

  /** The email first, the credential of the protocol otherwise. */
  function ClientIdentity(protocol: string, client: ClientFields): (r: Result<Identity, ExpirationError>)
    ensures r.Ok? ==> r.value.value != "" && Credential(client, r.value.key) == r.value.value
  {
    if Email(client) != "" then Ok(Identity("email", Email(client)))
    else if PrimaryKey(protocol) == "" then Err(ProtocolUnsupported)
    else if Primary(client, protocol) == "" then Err(NoUsableIdentity)
    else Ok(Identity(PrimaryKey(protocol), Primary(client, protocol)))
  }

  function NewExpiration(tag: string, protocol: string, client: ClientFields, notAfter: Time): Result<Expiration, ExpirationError> {
    var id := ClientIdentity(ProtocolName(protocol), client);
    if Trim(tag) == "" then Err(TagRequired)
    else if notAfter == ZERO_TIME then Err(NotAfterRequired)
    else if id.Err? then Err(id.error)
    else Ok(Expiration(Trim(tag), ProtocolName(protocol), id.value.key, id.value.value, notAfter))
  }

  /** setManagedClientExpiration: the entries with one deadline set, or cleared. */
  function Set(entries: Expirations, tag: string, protocol: string, client: ClientFields, notAfter: Option<Time>)
    : Result<Expirations, ExpirationError>
  {
    var id := ClientIdentity(protocol, client);
    if id.Err? then Err(id.error)
    else
      var key := ExpirationKey(tag, id.value.key, id.value.value);
      if notAfter.None? then Ok(entries - {key})
      else
        var e := NewExpiration(tag, protocol, client, notAfter.value);
        if e.Err? then Err(e.error) else Ok(entries[key := e.value])
  }

  /** An entry as this program makes them. */
  predicate Normal(e: Expiration) {
    && Trim(e.tag) == e.tag && e.tag != ""
    && ProtocolName(e.protocol) == e.protocol
    && (e.identityKey == "email" || (e.identityKey == PrimaryKey(e.protocol) && e.identityKey != ""))
    && Trim(e.identityValue) == e.identityValue && e.identityValue != ""
    && e.notAfter != ZERO_TIME
  }

  predicate Good(entries: Expirations) {
    forall key :: key in entries ==> entries[key].Key() == key && Normal(entries[key])
  }

  lemma LowerTrimStable(s: string)
    ensures ProtocolName(ProtocolName(s)) == ProtocolName(s)
  {
    TrimIdempotent(s);
    LowerTrimmed(Trim(s));
    assert Lower(Lower(Trim(s))) == Lower(Trim(s));
  }

  /** Lower-casing neither makes nor removes white space at the ends. */
  lemma LowerTrimmed(s: string)
    requires Trim(s) == s
    ensures Trim(Lower(s)) == Lower(s)
  {
    TrimLeftHead(s);
    TrimRightLast(TrimLeft(s));
    if s != [] {
      TrimFixed(s);
      assert !IsSpace(Lower(s)[0]) && !IsSpace(Lower(s)[|s| - 1]);
      assert TrimLeft(Lower(s)) == Lower(s);
    }
  }

  lemma TrimLeftShorter(s: string)
    ensures |TrimLeft(s)| <= |s| && (|TrimLeft(s)| == |s| ==> TrimLeft(s) == s)
  {
  }

  lemma TrimRightShorter(s: string)
    ensures |TrimRight(s)| <= |s| && (|TrimRight(s)| == |s| ==> TrimRight(s) == s)
  {
  }

  lemma TrimFixed(s: string)
    requires Trim(s) == s && s != []
    ensures !IsSpace(s[0]) && !IsSpace(s[|s| - 1])
  {
    TrimLeftShorter(s);
    TrimRightShorter(TrimLeft(s));
    TrimLeftHead(s);
    TrimRightLast(TrimLeft(s));
  }

  lemma IdentityIsTrimmed(protocol: string, client: ClientFields)
    requires ClientIdentity(protocol, client).Ok?
    ensures var id := ClientIdentity(protocol, client).value;
            Trim(id.value) == id.value && id.value != ""
            && (id.key == "email" || (id.key == PrimaryKey(protocol) && id.key != ""))
  {
    var id := ClientIdentity(protocol, client).value;
    TrimIdempotent(client[id.key].text);
  }

  lemma IdentityByName(protocol: string, client: ClientFields)
    ensures PrimaryKey(ProtocolName(protocol)) == PrimaryKey(protocol)
    ensures ClientIdentity(ProtocolName(protocol), client) == ClientIdentity(protocol, client)
  {
    LowerTrimStable(protocol);
  }

  lemma NewIsNormal(tag: string, protocol: string, client: ClientFields, notAfter: Time)
    requires NewExpiration(tag, protocol, client, notAfter).Ok?
    ensures var e, id := NewExpiration(tag, protocol, client, notAfter).value, ClientIdentity(protocol, client);
            && Normal(e) && id.Ok? && PrimaryKey(e.protocol) == PrimaryKey(protocol)
            && e.identityKey == id.value.key && e.identityValue == id.value.value
            && e.Key() == ExpirationKey(tag, id.value.key, id.value.value)
  {
    IdentityByName(protocol, client);
    IdentityIsTrimmed(protocol, client);
    LowerTrimStable(protocol);
    TrimIdempotent(tag);
  }

  lemma SetKeepsGood(entries: Expirations, tag: string, protocol: string, client: ClientFields, notAfter: Option<Time>)
    requires Good(entries) && Set(entries, tag, protocol, client, notAfter).Ok?
    ensures Good(Set(entries, tag, protocol, client, notAfter).value)
  {
    if notAfter.Some? {
      NewIsNormal(tag, protocol, client, notAfter.value);
    }
  }

  // ---------------------------------------------------------------------------------------
  // The sidecar file
  // ---------------------------------------------------------------------------------------

  predicate Sooner(a: Expiration, b: Expiration) {
    a.notAfter < b.notAfter || (a.notAfter == b.notAfter && Before(a.Key(), b.Key()))
  }

  predicate Ordered(list: seq<Expiration>) {
    forall i, j :: 0 <= i < j < |list| ==> Sooner(list[i], list[j])
  }

  /** `f` is what managedClientExpirationState makes of the entries: each once, in order. */
  ghost predicate Records(f: Sidecar, entries: Expirations) {
    && f.version == SIDECAR_VERSION && Ordered(f.entries)
    && forall e: Expiration :: e in f.entries <==> e.Key() in entries && entries[e.Key()] == e
  }

  function Normalized(e: Expiration): Expiration {
    Expiration(Trim(e.tag), ProtocolName(e.protocol), Trim(e.identityKey), Trim(e.identityValue), e.notAfter)
  }

  predicate Loadable(e: Expiration) {
    && Trim(e.tag) != "" && e.notAfter != ZERO_TIME && Trim(e.identityValue) != ""
    && PrimaryKey(e.protocol) != ""
    && (e.identityKey == "email" || e.identityKey == PrimaryKey(e.protocol))
  }

  function LoadEntries(list: seq<Expiration>): Result<Expirations, ExpirationError> {
    if list == [] then Ok(map[])
    else
      var rest, e := LoadEntries(list[..|list| - 1]), Normalized(list[|list| - 1]);
      if rest.Err? then rest else if !Loadable(e) then Err(EntryInvalid) else Ok(rest.value[e.Key() := e])
  }

  function Load(f: Option<Sidecar>): Result<Expirations, ExpirationError> {
    if f.None? then Ok(map[])
    else if f.value.version != SIDECAR_VERSION then Err(VersionUnsupported)
    else LoadEntries(f.value.entries)
  }

  lemma NormalizedIsSame(e: Expiration)
    requires Normal(e)
    ensures Normalized(e) == e
  {
    assert Trim("email") == "email" by { TrimPlain("email"); }
    PrimaryKeyIsPlain(e.protocol);
  }

  lemma TrimPlain(s: string)
    requires s != [] ==> !IsSpace(s[0]) && !IsSpace(s[|s| - 1])
    ensures Trim(s) == s
  {
  }

  lemma PrimaryKeyIsPlain(protocol: string)
    ensures Trim(PrimaryKey(protocol)) == PrimaryKey(protocol)
  {
    TrimPlain(PrimaryKey(protocol));
  }

  lemma {:induction false} LoadedPrefix(list: seq<Expiration>)
    requires forall e :: e in list ==> Normal(e)
    ensures LoadEntries(list).Ok? <==> forall e :: e in list ==> PrimaryKey(e.protocol) != ""
    ensures LoadEntries(list).Ok? ==>
              && (forall e :: e in list ==> e.Key() in LoadEntries(list).value)
              && (forall k :: k in LoadEntries(list).value ==> LoadEntries(list).value[k] in list && LoadEntries(list).value[k].Key() == k)
  {
    if list != [] {
      var front, e := list[..|list| - 1], list[|list| - 1];
      assert forall x :: x in list <==> x in front || x == e;
      LoadedPrefix(front);
      NormalizedIsSame(e);
    }
  }

  /** A written sidecar loads back to exactly the entries it was written from if and only if every
      one of them is for a protocol with a credential field; otherwise it does not load at all. */
  lemma ReloadsIff(f: Sidecar, entries: Expirations)
    requires Good(entries) && Records(f, entries)
    ensures Load(Some(f)) == Ok(entries) <==> forall key :: key in entries ==> PrimaryKey(entries[key].protocol) != ""
    ensures Load(Some(f)) != Ok(entries) ==> Load(Some(f)).Err?
  {
    assert forall key :: key in entries ==> entries[key] in f.entries;
    LoadedPrefix(f.entries);
    if Load(Some(f)).Ok? {
      assert Load(Some(f)).value == entries;
    }
  }

  /** A deadline on one inbound of another protocol, whose clients have emails, is accepted and
      makes the whole file unreadable. */
  lemma OneEntryBlocksReload(entries: Expirations, tag: string, protocol: string, client: ClientFields, notAfter: Time, f: Sidecar)
    requires Good(entries) && PrimaryKey(protocol) == "" && Email(client) != "" && Trim(tag) != "" && notAfter != ZERO_TIME
    requires Set(entries, tag, protocol, client, Some(notAfter)).Ok?
             ==> Records(f, Set(entries, tag, protocol, client, Some(notAfter)).value)
    ensures Set(entries, tag, protocol, client, Some(notAfter)).Ok? && Load(Some(f)).Err?
  {
    IdentityByName(protocol, client);
    NewIsNormal(tag, protocol, client, notAfter);
    SetKeepsGood(entries, tag, protocol, client, Some(notAfter));
    var after := Set(entries, tag, protocol, client, Some(notAfter)).value;
    var e := NewExpiration(tag, protocol, client, notAfter).value;
    assert after[e.Key()] == e;
    ReloadsIff(f, after);
  }

  lemma DeadlinesAreOrdered()
    ensures Transitive(Sooner) && forall e :: !Sooner(e, e)
  {
    forall a, b, c | Sooner(a, b) && Sooner(b, c) ensures Sooner(a, c) {
      if Before(a.Key(), b.Key()) && Before(b.Key(), c.Key()) {
        BeforeTransitive(a.Key(), b.Key(), c.Key());
      }
    }
    forall e ensures !Sooner(e, e) {
      BeforeTotal(e.Key(), e.Key());
    }
  }

  /** The file is determined by the entries. */
  lemma OrderedIsUnique(a: seq<Expiration>, b: seq<Expiration>)
    requires Ordered(a) && Ordered(b) && forall e :: e in a <==> e in b
    ensures a == b
  {
    DeadlinesAreOrdered();
    AscendingIsUnique(a, b, Sooner);
  }

  function InsertExpiration(e: Expiration, list: seq<Expiration>): (r: seq<Expiration>)
    requires Ordered(list) && forall x :: x in list ==> x.Key() != e.Key()
    ensures Ordered(r) && forall x :: x in r <==> x == e || x in list
  {
    assert Transitive(Sooner) && Ascending(list, Sooner) && Fits(e, list, Sooner) by { ExpirationFits(e, list); }
    InsertInto(e, list, Sooner)
  }

  lemma ExpirationFits(e: Expiration, list: seq<Expiration>)
    requires Ordered(list) && forall x :: x in list ==> x.Key() != e.Key()
    ensures Transitive(Sooner) && Ascending(list, Sooner) && Fits(e, list, Sooner)
  {
    DeadlinesAreOrdered();
    forall i | 0 <= i < |list| ensures Sooner(e, list[i]) || Sooner(list[i], e) {
      assert list[i] in list;
      BeforeTotal(e.Key(), list[i].Key());
    }
  }

  predicate Keyed(entries: Expirations) {
    forall key :: key in entries ==> entries[key].Key() == key
  }

  ghost function ListOf(entries: Expirations, keys: set<string>): (list: seq<Expiration>)
    requires Keyed(entries) && keys <= entries.Keys
    ensures Ordered(list) && forall e: Expiration :: e in list <==> e.Key() in keys && entries[e.Key()] == e
  {
    if keys == {} then []
    else
      var k :| k in keys;
      InsertExpiration(entries[k], ListOf(entries, keys - {k}))
  }

  /** managedClientExpirationState */
  ghost function FileOf(entries: Expirations): (f: Sidecar)
    ensures Keyed(entries) ==> Records(f, entries)
  {
    Sidecar(SIDECAR_VERSION, if Keyed(entries) then ListOf(entries, entries.Keys) else [])
  }

  /** Collects the entries and sorts them. */
  method StateFile(entries: Expirations) returns (f: Sidecar)
    requires Keyed(entries)
    ensures f == FileOf(entries)
  {
    var list := [];
    var remaining := entries.Keys;
    while remaining != {}
      invariant remaining <= entries.Keys && Ordered(list)
      invariant forall e: Expiration :: e in list <==> e.Key() in entries && e.Key() !in remaining && entries[e.Key()] == e
      decreases |remaining|
    {
      var key :| key in remaining;
      remaining := remaining - {key};
      list := InsertExpiration(entries[key], list);
    }
    f := Sidecar(SIDECAR_VERSION, list);
    OrderedIsUnique(list, FileOf(entries).entries);
  }

  /** The loading loop. */
  method ReadSidecar(f: Option<Sidecar>) returns (r: Result<Expirations, ExpirationError>)
    ensures r == Load(f)
  {
    if f.None? {
      return Ok(map[]);
    }
    if f.value.version != SIDECAR_VERSION {
      return Err(VersionUnsupported);
    }
    var list := f.value.entries;
    var entries: Expirations := map[];
    for i := 0 to |list|
      invariant LoadEntries(list[..i]) == Ok(entries)
    {
      assert list[..i + 1][..i] == list[..i];
      var e := Normalized(list[i]);
      if !Loadable(e) {
        LoadStopsAt(list, i);
        return Err(EntryInvalid);
      }
      entries := entries[e.Key() := e];
    }
    assert list[..|list|] == list;
    return Ok(entries);
  }

  lemma {:induction false} LoadStopsAt(list: seq<Expiration>, i: nat)
    requires i < |list| && LoadEntries(list[..i]).Ok? && !Loadable(Normalized(list[i]))
    ensures LoadEntries(list) == Err(EntryInvalid)
    decreases |list|
  {
    if i < |list| - 1 {
      assert list[..|list| - 1][..i] == list[..i];
      LoadStopsAt(list[..|list| - 1], i);
    }
  }

  /** dueManagedClientExpirations: exactly the deadlines that have come, the oldest first, and the
      next one of the rest. */
  method Due(entries: Expirations, now: Time) returns (due: seq<Expiration>, next: Option<Time>)
    requires forall key :: key in entries ==> entries[key].Key() == key
    ensures Ordered(due) && forall e: Expiration :: e in due <==> e.Key() in entries && entries[e.Key()] == e && e.notAfter <= now
    ensures next.None? ==> forall key :: key in entries ==> entries[key].notAfter <= now
    ensures next.Some? ==> next.value > now && (exists key :: key in entries && entries[key].notAfter == next.value)
                           && forall key :: key in entries && entries[key].notAfter > now ==> next.value <= entries[key].notAfter
  {
    due, next := [], None;
    var remaining := entries.Keys;
    while remaining != {}
      invariant remaining <= entries.Keys && Ordered(due)
      invariant forall e: Expiration :: e in due <==>
                  e.Key() in entries && e.Key() !in remaining && entries[e.Key()] == e && e.notAfter <= now
      invariant forall key :: key in entries && key !in remaining && entries[key].notAfter > now ==>
                  next.Some? && next.value <= entries[key].notAfter
      invariant next.Some? ==> next.value > now && exists key :: key in entries && key !in remaining && entries[key].notAfter == next.value
      decreases |remaining|
    {
      var key :| key in remaining;
      remaining := remaining - {key};
      var entry := entries[key];
      if entry.notAfter <= now {
        due := InsertExpiration(entry, due);
      } else if next.None? || entry.notAfter < next.value {
        next := Some(entry.notAfter);
      }
    }
  }
}
