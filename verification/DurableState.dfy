/** The guard's state file: what persistLocked writes, what load accepts, and that a file
    written in any reachable world reloads to the memory it was written from. */
module DurableState {
  import opened Base
  import opened Ordering
  import opened SourceAcl
  import opened TunnelModel
  import opened Schedules
  import opened GuardMachine
  import opened GuardInvariants

  const STATE_VERSION := 2
  const LEGACY_STATE_VERSION := 1

  datatype StateFile = StateFile(
    version: int,
    agentToken: string,
    entries: seq<Schedule>,
    tunnels: seq<TunnelResource>)

  datatype LoadError = UnsupportedVersion | InvalidEntry | InvalidTunnel | DuplicateTunnel

  // ---------------------------------------------------------------------------------------
  // Writing
  // ---------------------------------------------------------------------------------------

  predicate KeysAscend(keys: seq<string>) {
    forall i, j :: 0 <= i < j < |keys| ==> Before(keys[i], keys[j])
  }

  function InsertKey(k: string, keys: seq<string>): (r: seq<string>)
    requires KeysAscend(keys)
    ensures KeysAscend(r)
    ensures forall x :: x in r <==> x == k || x in keys
  {
    assert Transitive(Before) && Ascending(keys, Before) && Fits(k, keys, Before) by { KeysFit(k, keys); }
    InsertInto(k, keys, Before)
  }

  lemma KeysFit(k: string, keys: seq<string>)
    requires KeysAscend(keys)
    ensures Transitive(Before) && Ascending(keys, Before) && Fits(k, keys, Before)
  {
    StringsAreOrdered();
    forall i | 0 <= i < |keys| ensures keys[i] == k || Before(k, keys[i]) || Before(keys[i], k) {
      BeforeTotal(k, keys[i]);
    }
  }

  lemma StringsAreOrdered()
    ensures Transitive(Before) && forall x :: !Before(x, x)
  {
    forall a, b, c | Before(a, b) && Before(b, c) ensures Before(a, c) {
      BeforeTransitive(a, b, c);
    }
    forall x ensures !Before(x, x) {
      BeforeTotal(x, x);
    }
  }

  /** The keys in ascending order. */
  ghost function SortedKeys(keys: set<string>): (r: seq<string>)
    ensures KeysAscend(r)
    ensures forall x :: x in r <==> x in keys
  {
    if keys == {} then []
    else
      var k :| k in keys;
      InsertKey(k, SortedKeys(keys - {k}))
  }

  lemma KeysAreUnique(a: seq<string>, b: seq<string>)
    requires KeysAscend(a) && KeysAscend(b) && forall x :: x in a <==> x in b
    ensures a == b
  {
    StringsAreOrdered();
    AscendingIsUnique(a, b, Before);
  }

  function ValuesAt<V>(m: map<string, V>, keys: seq<string>): seq<V>
    requires forall k :: k in keys ==> k in m
  {
    seq(|keys|, i requires 0 <= i < |keys| => m[keys[i]])
  }

  /** The values of a map, in ascending order of their keys. */
  ghost function Listing<V>(m: map<string, V>): seq<V> {
    ValuesAt(m, SortedKeys(m.Keys))
  }

  /** The file persistLocked writes for a memory. */
  ghost function Image(m: Memory): StateFile {
    StateFile(STATE_VERSION, m.token, Listing(m.entries), Listing(m.tunnels))
  }

  /** Collects a map's values key by key and orders them. */
  method ListValues<V>(m: map<string, V>) returns (list: seq<V>)
    ensures list == Listing(m)
  {
    var remaining := m.Keys;
    var keys: seq<string> := [];
    while remaining != {}
      invariant remaining <= m.Keys && KeysAscend(keys)
      invariant forall k :: k in keys <==> k in m.Keys && k !in remaining
      decreases |remaining|
    {
      var k :| k in remaining;
      remaining := remaining - {k};
      keys := InsertKey(k, keys);
    }
    KeysAreUnique(keys, SortedKeys(m.Keys));
    list := ValuesAt(m, keys);
  }

  // ---------------------------------------------------------------------------------------
  // Reading
  // ---------------------------------------------------------------------------------------

  predicate AcceptedTunnel(r: TunnelResource) {
    ValidId(r.id) && r.tag == Tag(r.id) && r.generation != 0
    && ValidPorts(r.listenPort, r.targetPort) && r.network == "tcp"
    && r.hardNotAfter != ZERO_TIME && r.leaseUntil != ZERO_TIME && r.updatedAt != ZERO_TIME
    && NormalizeSources(Texts(r.sources)) == Ok(r.sources)
  }

  function LoadEntries(list: seq<Schedule>): Result<map<string, Schedule>, LoadError> {
    if list == [] then Ok(map[])
    else
      var last := list[|list| - 1];
      var before := LoadEntries(list[..|list| - 1]);
      if before.Err? then before
      else if !PersistableSchedule(last) then Err(InvalidEntry)
      else Ok(before.value[last.key := last])
  }

  function LoadTunnels(list: seq<TunnelResource>): Result<map<string, TunnelResource>, LoadError> {
    if list == [] then Ok(map[])
    else
      var last := list[|list| - 1];
      var before := LoadTunnels(list[..|list| - 1]);
      if before.Err? then before
      else if !AcceptedTunnel(last) then Err(InvalidTunnel)
      else if last.id in before.value then Err(DuplicateTunnel)
      else Ok(before.value[last.id := last])
  }

  /** load: a missing file leaves the guard empty; a stored token replaces the configured one. */
  function Load(file: Option<StateFile>, token: string): Result<Memory, LoadError> {
    match file
    case None => Ok(Memory(token, map[], map[]))
    case Some(f) =>
      if f.version != LEGACY_STATE_VERSION && f.version != STATE_VERSION then Err(UnsupportedVersion)
      else
        var token' := if Trim(f.agentToken) != "" then Trim(f.agentToken) else token;
        var entries := LoadEntries(f.entries);
        var tunnels := LoadTunnels(f.tunnels);
        if entries.Err? then Err(entries.error)
        else if tunnels.Err? then Err(tunnels.error)
        else Ok(Memory(token', entries.value, tunnels.value))
  }

  lemma AcceptedIffPersistable(r: TunnelResource)
    ensures AcceptedTunnel(r) <==> Persistable(r)
  {
    CanonicalSourcesAreNormal(r.sources);
  }

  function Restrict<V>(m: map<string, V>, keys: seq<string>): map<string, V> {
    map k | k in keys && k in m :: m[k]
  }

  lemma {:induction false} ReloadEntries(m: map<string, Schedule>, keys: seq<string>)
    requires KeysAscend(keys) && forall k :: k in keys ==> k in m
    requires forall k :: k in m ==> m[k].key == k && PersistableSchedule(m[k])
    ensures LoadEntries(ValuesAt(m, keys)) == Ok(Restrict(m, keys))
  {
    if keys == [] {
      assert Restrict(m, keys) == map[];
    } else {
      var front, last := keys[..|keys| - 1], keys[|keys| - 1];
      ReloadEntries(m, front);
      RestrictGrows(m, keys);
      LoadOneMoreEntry(ValuesAt(m, keys), Restrict(m, front));
    }
  }

  lemma LoadOneMoreEntry(list: seq<Schedule>, front: map<string, Schedule>)
    requires list != [] && LoadEntries(list[..|list| - 1]) == Ok(front) && PersistableSchedule(list[|list| - 1])
    ensures LoadEntries(list) == Ok(front[list[|list| - 1].key := list[|list| - 1]])
  {
  }

  lemma LoadOneMore(list: seq<TunnelResource>, front: map<string, TunnelResource>)
    requires list != [] && LoadTunnels(list[..|list| - 1]) == Ok(front)
    requires AcceptedTunnel(list[|list| - 1]) && list[|list| - 1].id !in front
    ensures LoadTunnels(list) == Ok(front[list[|list| - 1].id := list[|list| - 1]])
  {
  }

  lemma LastIsNew(keys: seq<string>)
    requires KeysAscend(keys) && keys != []
    ensures keys[|keys| - 1] !in keys[..|keys| - 1]
  {
    BeforeTotal(keys[|keys| - 1], keys[|keys| - 1]);
  }

  lemma RestrictGrows<V>(m: map<string, V>, keys: seq<string>)
    requires keys != [] && forall k :: k in keys ==> k in m
    ensures var front, last := keys[..|keys| - 1], keys[|keys| - 1];
            && last in keys && last in m && ValuesAt(m, keys)[..|keys| - 1] == ValuesAt(m, front)
            && ValuesAt(m, keys)[|keys| - 1] == m[last]
            && Restrict(m, keys) == Restrict(m, front)[last := m[last]]
  {
    var front, last := keys[..|keys| - 1], keys[|keys| - 1];
    assert forall k :: k in keys <==> k in front || k == last;
  }

  lemma {:induction false} ReloadTunnels(m: map<string, TunnelResource>, keys: seq<string>)
    requires KeysAscend(keys) && forall k :: k in keys ==> k in m
    requires forall k :: k in m ==> m[k].id == k && AcceptedTunnel(m[k])
    ensures LoadTunnels(ValuesAt(m, keys)) == Ok(Restrict(m, keys))
  {
    if keys == [] {
      assert Restrict(m, keys) == map[];
    } else {
      var front, last := keys[..|keys| - 1], keys[|keys| - 1];
      ReloadTunnels(m, front);
      LastIsNew(keys);
      RestrictGrows(m, keys);
      LoadOneMore(ValuesAt(m, keys), Restrict(m, front));
    }
  }

  /** What is written is what is read back, whatever token the process was started with. */
  lemma WriteThenLoad(m: Memory, clock: Time, token: string)
    requires GoodMemory(m, clock)
    ensures Load(Some(Image(m)), token) == Ok(m)
  {
    ReloadEntries(m.entries, SortedKeys(m.entries.Keys));
    forall id | id in m.tunnels ensures m.tunnels[id].id == id && AcceptedTunnel(m.tunnels[id]) {
      assert GoodRecord(m.tunnels[id], clock);
      AcceptedIffPersistable(m.tunnels[id]);
    }
    ReloadTunnels(m.tunnels, SortedKeys(m.tunnels.Keys));
    assert Restrict(m.entries, SortedKeys(m.entries.Keys)) == m.entries;
    assert Restrict(m.tunnels, SortedKeys(m.tunnels.Keys)) == m.tunnels;
  }

  /** Restarting from the file of any good world is the Restart step of the machine. */
  lemma RestartLoadsTheFile(w: World, token: string)
    requires Inv(w)
    ensures Load(Some(Image(w.disk)), token).Ok?
    ensures Step(w, Restart, w.(mem := Load(Some(Image(w.disk)), token).value, holder := None))
  {
    WriteThenLoad(w.disk, w.clock, token);
  }

  method ReadEntries(list: seq<Schedule>) returns (r: Result<map<string, Schedule>, LoadError>)
    ensures r == LoadEntries(list)
  {
    var entries: map<string, Schedule> := map[];
    for i := 0 to |list|
      invariant LoadEntries(list[..i]) == Ok(entries)
    {
      assert list[..i + 1][..i] == list[..i];
      if !PersistableSchedule(list[i]) {
        EntriesStayRejected(list, i + 1);
        return Err(InvalidEntry);
      }
      entries := entries[list[i].key := list[i]];
    }
    assert list[..|list|] == list;
    return Ok(entries);
  }

  lemma {:induction false} EntriesStayRejected(list: seq<Schedule>, i: nat)
    requires i <= |list| && LoadEntries(list[..i]).Err?
    ensures LoadEntries(list) == LoadEntries(list[..i])
    decreases |list|
  {
    if i == |list| {
      assert list[..i] == list;
    } else {
      assert list[..|list| - 1][..i] == list[..i];
      EntriesStayRejected(list[..|list| - 1], i);
    }
  }

  method ReadTunnels(list: seq<TunnelResource>) returns (r: Result<map<string, TunnelResource>, LoadError>)
    ensures r == LoadTunnels(list)
  {
    var tunnels: map<string, TunnelResource> := map[];
    for i := 0 to |list|
      invariant LoadTunnels(list[..i]) == Ok(tunnels)
    {
      assert list[..i + 1][..i] == list[..i];
      if !AcceptedTunnel(list[i]) {
        TunnelsStayRejected(list, i + 1);
        return Err(InvalidTunnel);
      }
      if list[i].id in tunnels {
        TunnelsStayRejected(list, i + 1);
        return Err(DuplicateTunnel);
      }
      tunnels := tunnels[list[i].id := list[i]];
    }
    assert list[..|list|] == list;
    return Ok(tunnels);
  }

  lemma {:induction false} TunnelsStayRejected(list: seq<TunnelResource>, i: nat)
    requires i <= |list| && LoadTunnels(list[..i]).Err?
    ensures LoadTunnels(list) == LoadTunnels(list[..i])
    decreases |list|
  {
    if i == |list| {
      assert list[..i] == list;
    } else {
      assert list[..|list| - 1][..i] == list[..i];
      TunnelsStayRejected(list[..|list| - 1], i);
    }
  }

  // ---------------------------------------------------------------------------------------
  // What is written and what is read
  // ---------------------------------------------------------------------------------------

  /** The record of every key stands in the list once, in the order of the keys. */
  ghost predicate ListsAll<V(!new)>(list: seq<V>, key: V -> string, m: map<string, V>) {
    && (forall i, j :: 0 <= i < j < |list| ==> Before(key(list[i]), key(list[j])))
    && (forall v :: v in list <==> key(v) in m && m[key(v)] == v)
  }

  lemma ListingListsAll<V(!new)>(m: map<string, V>, key: V -> string)
    requires forall k :: k in m ==> key(m[k]) == k
    ensures ListsAll(Listing(m), key, m)
  {
    var keys := SortedKeys(m.Keys);
    forall v ensures v in Listing(m) <==> key(v) in m && m[key(v)] == v {
      if key(v) in m && m[key(v)] == v {
        var i :| 0 <= i < |keys| && keys[i] == key(v);
        assert Listing(m)[i] == v;
      }
    }
  }

  /** The file holds the token and every schedule and tunnel once, by key and by ID. */
  lemma ImageMeans(m: Memory, clock: Time)
    requires GoodMemory(m, clock)
    ensures Image(m).version == 2 && Image(m).agentToken == m.token
    ensures ListsAll(Image(m).entries, (s: Schedule) => s.key, m.entries)
    ensures ListsAll(Image(m).tunnels, (r: TunnelResource) => r.id, m.tunnels)
  {
    ListingListsAll(m.entries, (s: Schedule) => s.key);
    ListingListsAll(m.tunnels, (r: TunnelResource) => r.id);
  }

  /** The last schedule of the list that has the key. */
  predicate LastOf(list: seq<Schedule>, key: string, s: Schedule) {
    exists i :: 0 <= i < |list| && list[i] == s && s.key == key && forall j :: i < j < |list| ==> list[j].key != key
  }

  lemma LastOfGrows(front: seq<Schedule>, last: Schedule, key: string, s: Schedule)
    ensures LastOf(front + [last], key, s) <==> if key == last.key then s == last else LastOf(front, key, s)
  {
    var list := front + [last];
    assert list[|front|] == last;
    if key != last.key && LastOf(front, key, s) {
      var i :| 0 <= i < |front| && front[i] == s && forall j :: i < j < |front| ==> front[j].key != key;
      assert list[i] == s;
    }
    if LastOf(list, key, s) {
      var i :| 0 <= i < |list| && list[i] == s && forall j :: i < j < |list| ==> list[j].key != key;
      assert i < |front| ==> front[i] == s && list[|front|].key != key && front == list[..|front|];
    }
  }

  /** Schedules are read exactly when each is well formed, and of those with one key the last counts. */
  lemma {:induction false} ReadEntriesMean(list: seq<Schedule>)
    ensures LoadEntries(list).Ok? <==> forall s :: s in list ==> PersistableSchedule(s)
    ensures LoadEntries(list).Err? ==> LoadEntries(list).error == InvalidEntry
    ensures LoadEntries(list).Ok? ==> forall key, s ::
              key in LoadEntries(list).value && LoadEntries(list).value[key] == s <==> LastOf(list, key, s)
  {
    if list != [] {
      var front, last := list[..|list| - 1], list[|list| - 1];
      assert list == front + [last];
      ReadEntriesMean(front);
      forall key, s ensures LastOf(list, key, s) <==> if key == last.key then s == last else LastOf(front, key, s) {
        LastOfGrows(front, last, key, s);
      }
    }
  }

  /** Tunnels are read exactly when each is well formed and no two have one ID, and then all of them. */
  lemma {:induction false} ReadTunnelsMean(list: seq<TunnelResource>)
    ensures LoadTunnels(list).Ok? <==> && (forall r :: r in list ==> Persistable(r))
                                       && (forall i, j :: 0 <= i < j < |list| ==> list[i].id != list[j].id)
    ensures LoadTunnels(list).Ok? ==> forall id, r ::
              id in LoadTunnels(list).value && LoadTunnels(list).value[id] == r <==> r in list && r.id == id
  {
    if list != [] {
      var front, last := list[..|list| - 1], list[|list| - 1];
      assert list == front + [last];
      ReadTunnelsMean(front);
      AcceptedIffPersistable(last);
      if LoadTunnels(front).Ok? && last.id in LoadTunnels(front).value {
        var r := LoadTunnels(front).value[last.id];
        var i :| 0 <= i < |front| && front[i] == r;
        assert list[i].id == list[|front|].id;
      }
    }
  }

  /** A file is read exactly when its version is one of two and both lists are; a token in it counts
      before the configured one. Without a file the guard starts empty. */
  lemma LoadMeans(f: StateFile, token: string)
    ensures Load(None, token) == Ok(Memory(token, map[], map[]))
    ensures Load(Some(f), token).Ok? <==>
              f.version in {1, 2} && LoadEntries(f.entries).Ok? && LoadTunnels(f.tunnels).Ok?
    ensures var m := Load(Some(f), token);
            m.Ok? ==> && m.value.entries == LoadEntries(f.entries).value
                      && m.value.tunnels == LoadTunnels(f.tunnels).value
                      && m.value.token == if Trim(f.agentToken) != "" then Trim(f.agentToken) else token
  {
  }
}
