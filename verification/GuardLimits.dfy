/** Where the guard's guarantees stop: runs that break a stronger reading of them, and the exact
    conditions under which they hold. */
module GuardLimits {
  import opened Base
  import opened SourceAcl
  import opened TunnelModel
  import opened GuardMachine
  import opened GuardInvariants
  import opened GuardRuns
  import opened PortReservations

  // ---------------------------------------------------------------------------------------
  // A reclaimed port shadows its new owner
  // ---------------------------------------------------------------------------------------

  predicate Rivals(x: TunnelResource, y: TunnelResource) {
    && Fresh(x, 1) && Fresh(y, 1)
    && x.id != y.id && x.listenPort == y.listenPort && Before(x.id, y.id)
    && |x.sources| > 0 && |y.sources| > 0
  }

  ghost predicate Reaches(ws: seq<World>, steps: seq<Action>, w: World) {
    IsRun(ws, steps) && Initial(ws[0]) && ws[|ws| - 1] == w
    && forall k :: 0 <= k < |steps| ==> !steps[k].TableLost?
  }

  lemma Extend(ws: seq<World>, steps: seq<Action>, w: World, a: Action, w': World)
    requires Reaches(ws, steps, w) && Step(w, a, w') && !a.TableLost?
    ensures Reaches(ws + [w'], steps + [a], w')
  {
    assert ws[..|ws| - 1 + 1] == ws && steps[..|ws| - 1] == steps;
    RunPrefix(ws, steps, |ws| - 1, a, w');
  }

  /** x is provisioned and deleted before it ever ran. */
  lemma ProvisionAndDelete(x: TunnelResource, w: World) returns (ws: seq<World>, steps: seq<Action>, w': World)
    requires Fresh(x, 1) && Initial(w) && w.clock == 1
    ensures Reaches(ws, steps, w')
    ensures var gone := Finished(CleaningUp(x, x.generation, Deleted, 1), 1);
            w' == StoreTunnel(w.(holder := Some(1), read := w.mem.tunnels), gone, Committed)
  {
    var gone := CleaningUp(x, x.generation, Deleted, 1);
    var w1 := w.(holder := Some(1), read := w.mem.tunnels);
    var w2 := StoreTunnel(w1, x, Committed);
    var w3 := StoreTunnel(w2, gone, Committed);
    w' := StoreTunnel(w3, Finished(gone, 1), Committed);
    ws, steps := [w], [];
    Extend(ws, steps, w, Acquire, w1);
    ws, steps := ws + [w1], steps + [Acquire];
    Extend(ws, steps, w1, Provision(x, Committed), w2);
    ws, steps := ws + [w2], steps + [Provision(x, Committed)];
    Extend(ws, steps, w2, BeginCleanup(x, x.generation, Deleted, Committed), w3);
    ws, steps := ws + [w3], steps + [BeginCleanup(x, x.generation, Deleted, Committed)];
    Extend(ws, steps, w3, Finish(gone, Committed), w');
    ws, steps := ws + [w'], steps + [Finish(gone, Committed)];
    assert w'.mem.tunnels == map[x.id := Finished(gone, 1)];
  }

  /** y takes the port over, with its restriction installed, and goes live. */
  lemma TakeOver(x: TunnelResource, y: TunnelResource, ws0: seq<World>, steps0: seq<Action>, w: World)
    returns (ws: seq<World>, steps: seq<Action>, w': World)
    requires Reaches(ws0, steps0, w) && Rivals(x, y) && w.holder == Some(1) && w.clock == 1
    requires w.mem.tunnels.Keys == {x.id} && w.mem.tunnels[x.id].state == Deleted && w.live == {}
    ensures Reaches(ws, steps, w')
    ensures w' == StoreTunnel(w, y, Committed).(acl := [y.Entry()], live := {y.id})
  {
    var w5 := StoreTunnel(w, y, Committed);
    var w6 := w5.(acl := [y.Entry()]);
    w' := w6.(live := {y.id});
    assert IsAclList([y.Entry()], w5.mem.tunnels, "");
    Extend(ws0, steps0, w, Provision(y, Committed), w5);
    ws, steps := ws0 + [w5], steps0 + [Provision(y, Committed)];
    Extend(ws, steps, w5, InstallAcl([y.Entry()], "", true), w6);
    ws, steps := ws + [w6], steps + [InstallAcl([y.Entry()], "", true)];
    Extend(ws, steps, w6, AgentAdd(y.id, true), w');
    ws, steps := ws + [w'], steps + [AgentAdd(y.id, true)];
  }

  lemma PairIsAclList(x: TunnelResource, y: TunnelResource, tunnels: map<string, TunnelResource>)
    requires Rivals(x, y) && tunnels.Keys == {x.id, y.id} && tunnels[y.id] == y
    requires SameDefinition(tunnels[x.id], x) && tunnels[x.id].ReservesPort()
    ensures IsAclList([x.Entry(), y.Entry()], tunnels, "")
  {
    var list := [x.Entry(), y.Entry()];
    assert list[0] == x.Entry() && list[1] == y.Entry();
    assert ValidId(x.id) && ValidId(y.id);
  }

  /** A newer deletion of x reserves its old port again, and the table is rebuilt. */
  lemma Reclaim(x: TunnelResource, y: TunnelResource, gone: TunnelResource,
                ws0: seq<World>, steps0: seq<Action>, w: World)
    returns (ws: seq<World>, steps: seq<Action>, w': World)
    requires Reaches(ws0, steps0, w) && Rivals(x, y) && w.holder == Some(1) && w.clock == 1
    requires gone == Finished(CleaningUp(x, x.generation, Deleted, 1), 1)
    requires w.mem.tunnels == map[x.id := gone, y.id := y] && w.live == {y.id}
    ensures Reaches(ws, steps, w')
    ensures w'.acl == [x.Entry(), y.Entry()] && w'.live == w.live
    ensures w'.mem.tunnels == map[x.id := CleaningUp(gone, x.generation + 1, Deleted, 1), y.id := y]
  {
    var w8 := StoreTunnel(w, CleaningUp(gone, x.generation + 1, Deleted, 1), Committed);
    assert w8.mem.tunnels == map[x.id := CleaningUp(gone, x.generation + 1, Deleted, 1), y.id := y];
    Extend(ws0, steps0, w, BeginCleanup(gone, x.generation + 1, Deleted, Committed), w8);
    ws, steps, w' := InstallPair(x, y, ws0 + [w8], steps0 + [BeginCleanup(gone, x.generation + 1, Deleted, Committed)], w8);
  }

  /** A complete rebuild while both are reserved. */
  lemma InstallPair(x: TunnelResource, y: TunnelResource, ws0: seq<World>, steps0: seq<Action>, w: World)
    returns (ws: seq<World>, steps: seq<Action>, w': World)
    requires Reaches(ws0, steps0, w) && Rivals(x, y) && w.live == {y.id} && w.mem.tunnels.Keys == {x.id, y.id}
    requires w.mem.tunnels[y.id] == y && SameDefinition(w.mem.tunnels[x.id], x) && w.mem.tunnels[x.id].ReservesPort()
    ensures Reaches(ws, steps, w') && w' == w.(acl := [x.Entry(), y.Entry()])
  {
    var install := InstallAcl([x.Entry(), y.Entry()], "", true);
    w' := w.(acl := [x.Entry(), y.Entry()]);
    PairIsAclList(x, y, w.mem.tunnels);
    assert ValidId(y.id);
    Extend(ws0, steps0, w, install, w');
    ws, steps := ws0 + [w'], steps0 + [install];
  }

  /** For every such pair there is a run, in which the table is never lost, whose last world has
      y live and listed by the installed table, and yet the kernel applies x's sources to y's
      port: what y's owner allowed may be refused, and what x's owner allowed is admitted. */
  lemma ReclaimedPortShadows(x: TunnelResource, y: TunnelResource, w: World)
    returns (ws: seq<World>, steps: seq<Action>, last: World)
    requires Rivals(x, y) && Initial(w) && w.clock == 1
    ensures Reaches(ws, steps, last) && SourcesProtected(last)
    ensures y.id in last.live && y.id in last.mem.tunnels && last.mem.tunnels[y.id] == y
    ensures forall p: Packet :: p.port == y.listenPort ==>
              (Accepts(Compile(last.acl), p) <==> InAny(x.sources, p.source))
  {
    var gone := Finished(CleaningUp(x, x.generation, Deleted, 1), 1);
    var w4, w7;
    ws, steps, w4 := ProvisionAndDelete(x, w);
    assert w4.mem.tunnels == map[x.id := gone];
    ws, steps, w7 := TakeOver(x, y, ws, steps, w4);
    assert w7.mem.tunnels == map[x.id := gone, y.id := y];
    ws, steps, last := Reclaim(x, y, gone, ws, steps, w7);
    assert last.acl[1] == y.Entry();
    forall p: Packet | p.port == y.listenPort
      ensures Accepts(Compile(last.acl), p) <==> InAny(x.sources, p.source)
    {
      CompilerCorrect(last.acl, p);
    }
  }

  const HOST_A := Address(V4, 0xCB007107)   // 203.0.113.7
  const HOST_B := Address(V4, 0xC6336414)   // 198.51.100.20

  function Sample(id: string, port: int, host: Address): TunnelResource {
    TunnelResource(id, Tag(id), 1, Address(V4, 0), port, Address(V4, 0xC6336401), 443, "tcp",
                   [Cidr(host.family, host.bits, 32)], 100, 100, Provisioning, Some(Suspended), 0, None, "", 1)
  }

  lemma HostRange(host: Address)
    requires host in {HOST_A, HOST_B}
    ensures Canonical(host, 32) == Cidr(V4, host.bits, 32)
    ensures CanonicalSources([Cidr(V4, host.bits, 32)])
    ensures forall a: Address :: InAny([Cidr(V4, host.bits, 32)], a) <==> a == host
  {
    assert HostSize(V4, 32) == 1;
    assert Pow2(28) == 0x1000_0000 by {
      assert Pow2(7) == 128 && Pow2(14) == 128 * 128 by { PowAdd(7, 7); }
      PowAdd(14, 14);
    }
    forall a: Address ensures InAny([Cidr(V4, host.bits, 32)], a) <==> a == host {
      assert [Cidr(V4, host.bits, 32)][0] == Cidr(V4, host.bits, 32);
    }
  }

  lemma {:induction false} PowAdd(a: nat, b: nat)
    ensures Pow2(a + b) == Pow2(a) * Pow2(b)
  {
    if a > 0 {
      PowAdd(a - 1, b);
    }
  }

  lemma SampleIsFresh(id: string, host: Address)
    requires ValidId(id) && host in {HOST_A, HOST_B}
    ensures Fresh(Sample(id, 24001, host), 1)
  {
    HostRange(host);
  }

  /** The concrete case: resource-b admits only 198.51.100.20, and in the end the kernel admits
      203.0.113.7 to its port and refuses 198.51.100.20. */
  lemma ShadowedTunnel(w: World) returns (ws: seq<World>, steps: seq<Action>, last: World)
    requires Initial(w) && w.clock == 1
    ensures Reaches(ws, steps, last) && "resource-b" in last.live && "resource-b" in last.mem.tunnels
    ensures last.mem.tunnels["resource-b"].sources == [Cidr(V4, HOST_B.bits, 32)]
    ensures Accepts(Compile(last.acl), Packet(HOST_A, 24001))
    ensures !Accepts(Compile(last.acl), Packet(HOST_B, 24001))
  {
    SamplesAreRivals();
    HostRange(HOST_A);
    HostRange(HOST_B);
    ws, steps, last := ReclaimedPortShadows(
      Sample("resource-a", 24001, HOST_A), Sample("resource-b", 24001, HOST_B), w);
  }

  lemma SamplesAreRivals()
    ensures Rivals(Sample("resource-a", 24001, HOST_A), Sample("resource-b", 24001, HOST_B))
  {
    SampleIsFresh("resource-a", HOST_A);
    SampleIsFresh("resource-b", HOST_B);
    PrefixBefore("resource-", "a", "b");
    assert "resource-" + "a" == "resource-a" && "resource-" + "b" == "resource-b";
  }

  lemma {:induction false} PrefixBefore(prefix: string, a: string, b: string)
    requires Before(a, b)
    ensures Before(prefix + a, prefix + b)
  {
    if prefix == [] {
      assert prefix + a == a && prefix + b == b;
    } else {
      assert (prefix + a)[1..] == prefix[1..] + a && (prefix + b)[1..] == prefix[1..] + b;
      PrefixBefore(prefix[1..], a, b);
    }
  }

  // ---------------------------------------------------------------------------------------
  // A renewal in flight may outlive the deadline
  // ---------------------------------------------------------------------------------------

  /** The run up to `i` goes on as `ws'`, and at `j` the generation of `m` has a longer lease. */
  ghost predicate Revives(ws: seq<World>, steps: seq<Action>, i: nat, m: TunnelResource,
                          ws': seq<World>, steps': seq<Action>, j: nat) {
    && IsRun(ws', steps') && i < |ws| <= |steps| + 1 && i <= j < |ws'|
    && ws'[..i + 1] == ws[..i + 1] && steps'[..i] == steps[..i]
    && m.id in ws'[j].mem.tunnels && ws'[j].mem.tunnels[m.id].generation == m.generation
    && ws'[j].mem.tunnels[m.id].leaseUntil > m.leaseUntil
  }

  /** From any world in which a generation's deadline has passed, some continuation extends it if
      and only if an operation is in flight that read the clock before the deadline, read the
      record as active and has not stored it since, and whose longest lease exceeds its lease. */
  lemma RevivalIffInFlight(ws: seq<World>, steps: seq<Action>, i: nat, id: string)
    requires IsRun(ws, steps) && i < |ws| && Initial(ws[0]) && id in ws[i].mem.tunnels
    requires ws[i].mem.tunnels[id].EffectiveNotAfter() <= ws[i].clock
    ensures (exists ws', steps', j :: Revives(ws, steps, i, ws[i].mem.tunnels[id], ws', steps', j))
            <==> MayRenew(ws[i], ws[i].mem.tunnels[id])
  {
    var m := ws[i].mem.tunnels[id];
    if MayRenew(ws[i], m) {
      var ws', steps' := RevivalHappens(ws, steps, i, id);
    }
    forall ws', steps', j | Revives(ws, steps, i, m, ws', steps', j) ensures MayRenew(ws[i], m) {
      RevivalNeedsIt(ws, steps, i, id, ws', steps', j);
    }
  }

  lemma RevivalHappens(ws: seq<World>, steps: seq<Action>, i: nat, id: string) returns (ws': seq<World>, steps': seq<Action>)
    requires IsRun(ws, steps) && i < |ws| && Initial(ws[0]) && id in ws[i].mem.tunnels
    requires MayRenew(ws[i], ws[i].mem.tunnels[id])
    ensures Revives(ws, steps, i, ws[i].mem.tunnels[id], ws', steps', i + 1)
  {
    var w, m := ws[i], ws[i].mem.tunnels[id];
    InitialIsGood(ws[0]);
    RunKeepsInv(ws, steps, i);
    RunKeepsReads(ws, steps, i);
    RenewalExtends(w, m);
    var step := Renew(w.read[m.id], w.holder.value + MAX_LEASE, Committed);
    var w' := Next(w, step, w.clock);
    RunPrefix(ws, steps, i, step, w');
    ws', steps' := ws[..i + 1] + [w'], steps[..i] + [step];
  }

  lemma RevivalNeedsIt(ws: seq<World>, steps: seq<Action>, i: nat, id: string,
                       ws': seq<World>, steps': seq<Action>, j: nat)
    requires IsRun(ws, steps) && i < |ws| && Initial(ws[0]) && id in ws[i].mem.tunnels
    requires ws[i].mem.tunnels[id].EffectiveNotAfter() <= ws[i].clock
    requires Revives(ws, steps, i, ws[i].mem.tunnels[id], ws', steps', j)
    ensures MayRenew(ws[i], ws[i].mem.tunnels[id])
  {
    InitialIsGood(ws[0]);
    RunKeepsInv(ws, steps, i);
    assert ws'[i] == ws'[..i + 1][i] == ws[i] && ws'[0] == ws'[..i + 1][0] == ws[0];
    if !MayRenew(ws[i], ws[i].mem.tunnels[id]) {
      NoRevival(ws', steps', i, j, id);
    }
  }

  lemma RenewalExtends(w: World, m: TunnelResource)
    requires Inv(w) && ReadsCurrent(w) && m.id in w.mem.tunnels && w.mem.tunnels[m.id] == m && MayRenew(w, m)
    ensures var step := Renew(w.read[m.id], w.holder.value + MAX_LEASE, Committed);
            var w' := Next(w, step, w.clock);
            && Step(w, step, w') && m.id in w'.mem.tunnels && w'.mem.tunnels[m.id].generation == m.generation
            && w'.mem.tunnels[m.id].leaseUntil > m.leaseUntil
  {
    assert Current(m, w.read[m.id]);
    assert GoodRecord(m, w.clock);
  }

  /** From any idle world without tunnels, a tunnel without source restriction is provisioned and
      runs. */
  lemma GoLive(r: TunnelResource, ws0: seq<World>, steps0: seq<Action>, w: World)
    returns (ws: seq<World>, steps: seq<Action>, w': World)
    requires Reaches(ws0, steps0, w) && w.holder == None && w.mem.tunnels == map[] && w.live == {}
    requires w.mem == w.disk && Fresh(r, w.clock) && r.sources == []
    ensures Reaches(ws, steps, w') && ws0 <= ws && steps0 <= steps
    ensures w' == StoreTunnel(w, Activated(r, w.clock), Committed).(live := {r.id}, read := map[])
  {
    var w1 := w.(holder := Some(w.clock), read := w.mem.tunnels);
    var w2 := StoreTunnel(w1, r, Committed);
    var w3 := w2.(live := {r.id});
    var w4 := StoreTunnel(w3, Activated(r, w.clock), Committed);
    w' := w4.(holder := None);
    ws, steps := ws0, steps0;
    Extend(ws, steps, w, Acquire, w1);
    ws, steps := ws + [w1], steps + [Acquire];
    Extend(ws, steps, w1, Provision(r, Committed), w2);
    ws, steps := ws + [w2], steps + [Provision(r, Committed)];
    assert w2.live + {r.id} == {r.id};
    Extend(ws, steps, w2, AgentAdd(r.id, true), w3);
    ws, steps := ws + [w3], steps + [AgentAdd(r.id, true)];
    Extend(ws, steps, w3, Activate(r, Committed), w4);
    ws, steps := ws + [w4], steps + [Activate(r, Committed)];
    Extend(ws, steps, w4, Release, w');
    ws, steps := ws + [w'], steps + [Release];
    assert w'.mem.tunnels == w.mem.tunnels[r.id := Activated(r, w.clock)];
  }

  /** Such a run exists: an operation starts at 50, the deadline passes at 100, and at 150 the
      operation still moves the lease to 200. */
  lemma RevivedInFlight(w: World) returns (ws: seq<World>, steps: seq<Action>, late: World, last: World)
    requires Initial(w) && w.clock == 1
    ensures Reaches(ws, steps, last) && |ws| > 1 && ws[|ws| - 2] == late
    ensures "resource-a" in late.mem.tunnels && "resource-a" in last.mem.tunnels
    ensures late.mem.tunnels["resource-a"].EffectiveNotAfter() < late.clock == last.clock
    ensures late.mem.tunnels["resource-a"].generation == last.mem.tunnels["resource-a"].generation
    ensures last.clock < last.mem.tunnels["resource-a"].EffectiveNotAfter()
  {
    var r := Sample("resource-a", 24001, HOST_A).(sources := [], hardNotAfter := 1000);
    assert Fresh(r, 1);
    var active := Activated(r, 1);
    var w5;
    ws, steps, w5 := GoLive(r, [w], [], w);
    var w6 := w5.(clock := 50);
    var w7 := w6.(holder := Some(50), read := w6.mem.tunnels);
    late := w7.(clock := 150);
    last := StoreTunnel(late, Renewed(active, 200, 50), Committed);
    Extend(ws, steps, w5, Tick, w6);
    ws, steps := ws + [w6], steps + [Tick];
    Extend(ws, steps, w6, Acquire, w7);
    ws, steps := ws + [w7], steps + [Acquire];
    Extend(ws, steps, w7, Tick, late);
    ws, steps := ws + [late], steps + [Tick];
    Extend(ws, steps, late, Renew(active, 200, Committed), last);
    ws, steps := ws + [last], steps + [Renew(active, 200, Committed)];
  }

  // ---------------------------------------------------------------------------------------
  // A table rebuilt from an old list
  // ---------------------------------------------------------------------------------------

  /** Everything that is live, or may still go live without a new grant, already had its entry
      in the list read at `earlier`. */
  ghost predicate KnownTo(w: World, earlier: World) {
    forall id :: id in w.mem.tunnels && (id in w.live || Occupying(w.mem.tunnels[id])) ==>
      id in earlier.mem.tunnels && earlier.mem.tunnels[id].ReservesPort() && SameDefinition(earlier.mem.tunnels[id], w.mem.tunnels[id])
  }

  lemma StartKnown(w: World)
    requires Inv(w)
    ensures KnownTo(w, w)
  {
    forall id | id in w.live ensures w.mem.tunnels[id].ReservesPort() {
      assert w.mem.tunnels[id].Revisited();
    }
  }

  lemma StoreOccupies(w: World, a: Action)
    requires Inv(w) && Enabled(w, a) && StoresTunnel(a) && !a.Provision?
    ensures var r := Stored(w, a);
            r.id in w.mem.tunnels && (Occupying(r) ==> Occupying(w.mem.tunnels[r.id]))
  {
    BaseIsGood(w, a.base);
    ChangeFlows(w, a);
  }

  lemma CopiesOccupyAlike(w: World, id: string)
    requires Inv(w) && id in w.mem.tunnels
    ensures id in w.disk.tunnels && Occupying(w.disk.tunnels[id]) == Occupying(w.mem.tunnels[id])
  {
    assert Current(w.mem.tunnels[id], w.disk.tunnels[id]);
  }

  lemma StepOccupies(w: World, a: Action, w': World, id: string)
    requires Inv(w) && Step(w, a, w') && !a.Provision?
    requires id in w'.mem.tunnels && Occupying(w'.mem.tunnels[id])
    ensures id in w.mem.tunnels && Occupying(w.mem.tunnels[id])
  {
    if StoresTunnel(a) {
      StoredIsNext(w, a, w');
      StoreOccupies(w, a);
    } else if a.Restart? {
      assert id in w.mem.tunnels;
      CopiesOccupyAlike(w, id);
    } else {
      StepLeavesTunnels(w, a, w');
    }
  }

  lemma StepExposes(w: World, a: Action, w': World)
    requires Step(w, a, w')
    ensures forall id :: id in w'.live ==> id in w.live || (id in w.mem.tunnels && Occupying(w.mem.tunnels[id]))
  {
  }

  lemma StepKeepsKnown(w: World, a: Action, w': World, earlier: World)
    requires Inv(w) && Step(w, a, w') && !a.Provision? && KnownTo(w, earlier)
    ensures KnownTo(w', earlier)
  {
    StepExposes(w, a, w');
    StepEvolves(w, a, w');
    forall id | id in w'.mem.tunnels && (id in w'.live || Occupying(w'.mem.tunnels[id]))
      ensures id in w.mem.tunnels && (id in w.live || Occupying(w.mem.tunnels[id]))
    {
      if Occupying(w'.mem.tunnels[id]) {
        StepOccupies(w, a, w', id);
      } else {
        assert id in w.live ==> id in w.mem.tunnels;
      }
    }
  }

  lemma {:induction false} RunKeepsKnown(ws: seq<World>, steps: seq<Action>, i: nat, j: nat)
    requires IsRun(ws, steps) && i <= j < |ws| && Inv(ws[0])
    requires forall k :: i <= k < j ==> !steps[k].Provision?
    ensures KnownTo(ws[j], ws[i])
  {
    RunKeepsInv(ws, steps, i);
    if i == j {
      StartKnown(ws[i]);
    } else {
      RunKeepsKnown(ws, steps, i, j - 1);
      RunKeepsInv(ws, steps, j - 1);
      StepKeepsKnown(ws[j - 1], steps[j - 1], ws[j], ws[i]);
    }
  }

  /** Start-up reads its list outside the operations lock. Installing a list read at an earlier
      instant is safe as long as nothing was provisioned since. */
  lemma StaleRebuildIsSafe(ws: seq<World>, steps: seq<Action>, i: nat, j: nat, list: seq<AclEntry>)
    requires IsRun(ws, steps) && i <= j < |ws| && Inv(ws[0])
    requires IsAclList(list, ws[i].mem.tunnels, "")
    requires forall k :: i <= k < j ==> !steps[k].Provision?
    ensures SourcesProtected(ws[j].(acl := list))
  {
    RunKeepsKnown(ws, steps, i, j);
    RunKeepsInv(ws, steps, i);
    forall id | id in ws[j].live && id in ws[j].mem.tunnels ensures Covers(list, ws[j].mem.tunnels[id]) {
      var r := ws[i].mem.tunnels[id];
      assert r.id == id && (|r.sources| > 0 ==> r.NeedsAcl());
      assert id != "" by { assert ValidId(r.id); }
    }
  }

  /** One restricted tunnel provisioned in between is enough to be exposed: the list read from
      the empty guard, installed once the tunnel is live, drops its protection. */
  lemma StaleRebuildUnprotects(w: World, y: TunnelResource) returns (ws: seq<World>, steps: seq<Action>, last: World)
    requires Initial(w) && w.clock == 1 && Fresh(y, 1) && |y.sources| > 0
    ensures Reaches(ws, steps, last) && SourcesProtected(last)
    ensures IsAclList([], ws[0].mem.tunnels, "") && !SourcesProtected(last.(acl := []))
  {
    var w1 := w.(holder := Some(1), read := w.mem.tunnels);
    var w2 := StoreTunnel(w1, y, Committed);
    var w3 := w2.(acl := [y.Entry()]);
    last := w3.(live := {y.id});
    ws, steps := [w], [];
    Extend(ws, steps, w, Acquire, w1);
    ws, steps := ws + [w1], steps + [Acquire];
    Extend(ws, steps, w1, Provision(y, Committed), w2);
    ws, steps := ws + [w2], steps + [Provision(y, Committed)];
    Extend(ws, steps, w2, InstallAcl([y.Entry()], "", true), w3);
    ws, steps := ws + [w3], steps + [InstallAcl([y.Entry()], "", true)];
    assert w3.live + {y.id} == {y.id};
    Extend(ws, steps, w3, AgentAdd(y.id, true), last);
    ws, steps := ws + [last], steps + [AgentAdd(y.id, true)];
    assert y.id in last.live && !Covers([], y);
  }
}
