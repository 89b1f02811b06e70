/** Which packets reach a managed tunnel: the installed table, the reservations it is compiled
    from, and the runs in which one reservation can shadow another. */
module PortReservations {
  import opened Base
  import opened SourceAcl
  import opened TunnelModel
  import opened GuardMachine
  import opened GuardInvariants
  import opened GuardRuns

  /** No two resources that reserve their port reserve the same one. */
  ghost predicate ReservationsExclusive(m: Memory) {
    forall a, b :: a in m.tunnels && b in m.tunnels && a != b
      && m.tunnels[a].ReservesPort() && m.tunnels[b].ReservesPort()
      ==> m.tunnels[a].listenPort != m.tunnels[b].listenPort
  }

  /** A cleanup request for a resource that had already given its port back. */
  predicate Reclaims(a: Action) {
    a.BeginCleanup? && !a.base.ReservesPort()
  }

  ghost predicate PortUnreserved(m: Memory, r: TunnelResource) {
    forall id :: id in m.tunnels && id != r.id && m.tunnels[id].ReservesPort()
      ==> m.tunnels[id].listenPort != r.listenPort
  }

  lemma StoreKeepsReservations(m: Memory, r: TunnelResource)
    requires ReservationsExclusive(m) && (r.ReservesPort() ==> PortUnreserved(m, r))
    ensures ReservationsExclusive(WithTunnel(m, r))
  {
  }

  lemma FreePortIsUnreserved(w: World, r: TunnelResource)
    requires Inv(w) && r.network == "tcp"
    ensures PortFree(w.mem, r) <==> PortUnreserved(w.mem, r)
  {
    forall id | id in w.mem.tunnels ensures w.mem.tunnels[id].network == "tcp" {
      assert GoodRecord(w.mem.tunnels[id], w.clock);
    }
  }

  lemma ChangeKeepsReservation(w: World, a: Action)
    requires Enabled(w, a) && StoresTunnel(a) && !a.Provision? && !Reclaims(a)
    ensures Stored(w, a).ReservesPort() ==> a.base.ReservesPort()
    ensures Stored(w, a).id == a.base.id && Stored(w, a).listenPort == a.base.listenPort
  {
  }

  lemma HeldReservesAlike(m: Memory, b: TunnelResource)
    requires Holds(m, b)
    ensures b.ReservesPort() == m.tunnels[b.id].ReservesPort() && SameDefinition(b, m.tunnels[b.id])
  {
  }

  lemma StoredReservation(w: World, a: Action)
    requires Inv(w) && Enabled(w, a) && StoresTunnel(a) && !Reclaims(a) && ReservationsExclusive(w.mem)
    ensures Stored(w, a).ReservesPort() ==> PortUnreserved(w.mem, Stored(w, a))
  {
    if a.Provision? {
      FreePortIsUnreserved(w, a.record);
    } else {
      ChangeKeepsReservation(w, a);
      BaseIsHeld(w, a);
      HeldReservesAlike(w.mem, a.base);
    }
  }

  lemma CopiesReserveAlike(w: World)
    requires Inv(w)
    ensures ReservationsExclusive(w.mem) <==> ReservationsExclusive(w.disk)
  {
    forall id | id in w.mem.tunnels
      ensures w.mem.tunnels[id].ReservesPort() == w.disk.tunnels[id].ReservesPort()
      ensures w.mem.tunnels[id].listenPort == w.disk.tunnels[id].listenPort
    {
      assert Current(w.mem.tunnels[id], w.disk.tunnels[id]);
    }
    if ReservationsExclusive(w.mem) {
      AlikeReserveAlike(w.mem, w.disk);
    }
    if ReservationsExclusive(w.disk) {
      AlikeReserveAlike(w.disk, w.mem);
    }
  }

  lemma AlikeReserveAlike(m: Memory, n: Memory)
    requires ReservationsExclusive(m) && n.tunnels.Keys == m.tunnels.Keys
    requires forall id :: id in m.tunnels ==>
               m.tunnels[id].ReservesPort() == n.tunnels[id].ReservesPort() && m.tunnels[id].listenPort == n.tunnels[id].listenPort
    ensures ReservationsExclusive(n)
  {
  }

  lemma FailClosedKeepsReservations(m: Memory, e: string, clock: Time)
    requires ReservationsExclusive(m)
    ensures ReservationsExclusive(FailClosedAll(m, e, clock))
  {
    FailClosedKeepsShape(m, e, clock);
    forall id | id in m.tunnels
      ensures FailClosedAll(m, e, clock).tunnels[id].ReservesPort() == m.tunnels[id].ReservesPort()
    {
    }
  }

  lemma StepKeepsReservations(w: World, a: Action, w': World)
    requires Inv(w) && Step(w, a, w') && !Reclaims(a) && ReservationsExclusive(w.mem)
    ensures ReservationsExclusive(w'.mem)
  {
    if StoresTunnel(a) {
      StoredIsNext(w, a, w');
      StoredReservation(w, a);
      StoreKeepsReservations(w.mem, Stored(w, a));
    } else if a.Restart? {
      CopiesReserveAlike(w);
    } else {
      StepLeavesTunnels(w, a, w');
      FailClosedKeepsReservations(w.mem, if a.FailClosed? then a.cause else "", w.clock);
    }
  }

  /** Every step keeps reservations exclusive but one, and that one exactly when the port it
      takes back is free: the test that provisioning makes and cleanup does not. */
  lemma ReclaimIsSafeIffPortFree(w: World, a: Action, w': World)
    requires Inv(w) && Step(w, a, w') && Reclaims(a) && !a.p.NotCommitted? && ReservationsExclusive(w.mem)
    ensures ReservationsExclusive(w'.mem) <==> PortFree(w.mem, a.base)
  {
    StoredIsNext(w, a, w');
    ReclaimedPort(w, a);
    if PortUnreserved(w.mem, Stored(w, a)) {
      StoreKeepsReservations(w.mem, Stored(w, a));
    } else {
      SharedReservation(w.mem, Stored(w, a));
    }
  }

  lemma ReclaimedPort(w: World, a: Action)
    requires Inv(w) && Enabled(w, a) && Reclaims(a)
    ensures Stored(w, a).ReservesPort() && (PortFree(w.mem, a.base) <==> PortUnreserved(w.mem, Stored(w, a)))
  {
    BaseIsGood(w, a.base);
    FreePortIsUnreserved(w, a.base);
  }

  lemma SharedReservation(m: Memory, r: TunnelResource)
    requires r.ReservesPort() && !PortUnreserved(m, r)
    ensures !ReservationsExclusive(WithTunnel(m, r))
  {
    var id :| id in m.tunnels && id != r.id && m.tunnels[id].ReservesPort() && m.tunnels[id].listenPort == r.listenPort;
    assert WithTunnel(m, r).tunnels[id] == m.tunnels[id] && WithTunnel(m, r).tunnels[r.id] == r;
  }

  lemma {:induction false} RunKeepsReservations(ws: seq<World>, steps: seq<Action>, i: nat)
    requires IsRun(ws, steps) && i < |ws| && Initial(ws[0])
    requires forall k :: 0 <= k < i ==> !Reclaims(steps[k])
    ensures ReservationsExclusive(ws[i].mem)
  {
    if i > 0 {
      RunKeepsReservations(ws, steps, i - 1);
      InitialIsGood(ws[0]);
      RunKeepsInv(ws, steps, i - 1);
      StepKeepsReservations(ws[i - 1], steps[i - 1], ws[i]);
    }
  }

  // ---------------------------------------------------------------------------------------
  // Packets
  // ---------------------------------------------------------------------------------------

  /** What the owner of a tunnel asked for. */
  predicate Entitled(r: TunnelResource, p: Packet) {
    |r.sources| > 0 ==> InAny(r.sources, p.source)
  }

  lemma LivePacketsAreFiltered(w: World, id: string, p: Packet)
    requires Inv(w) && SourcesProtected(w) && ReservationsExclusive(w.mem)
    requires id in w.live && p.port == w.mem.tunnels[id].listenPort
    ensures Accepts(Compile(w.acl), p) <==> Entitled(w.mem.tunnels[id], p)
  {
    var r := w.mem.tunnels[id];
    forall i | 0 <= i < |w.acl| && w.acl[i].port == p.port ensures w.acl[i] == r.Entry() {
      assert w.mem.tunnels[w.acl[i].id].NeedsAcl() && r.ReservesPort();
    }
    CompilerCorrect(w.acl, p);
    if |r.sources| > 0 {
      assert Covers(w.acl, r);
      FirstMatchAdmits(w.acl, r.Entry(), p);
    } else {
      assert forall i :: 0 <= i < |w.acl| ==> w.acl[i].port != p.port;
      UnlistedPortAdmits(w.acl, p);
    }
  }

  /** End to end: in every run that never loses the table and never reclaims a port, at every
      instant, the kernel admits to a live tunnel exactly the packets its owner allowed. */
  lemma EveryLivePacketIsFiltered(ws: seq<World>, steps: seq<Action>, i: nat, id: string, p: Packet)
    requires IsRun(ws, steps) && i < |ws| && Initial(ws[0])
    requires forall k :: 0 <= k < i ==> !Reclaims(steps[k]) && !steps[k].TableLost?
    requires id in ws[i].live && id in ws[i].mem.tunnels && p.port == ws[i].mem.tunnels[id].listenPort
    ensures Accepts(Compile(ws[i].acl), p) <==> Entitled(ws[i].mem.tunnels[id], p)
  {
    InitialIsGood(ws[0]);
    RunKeepsInv(ws, steps, i);
    SourceAclSafety(ws, steps, 0, i);
    RunKeepsReservations(ws, steps, i);
    LivePacketsAreFiltered(ws[i], id, p);
  }
}
