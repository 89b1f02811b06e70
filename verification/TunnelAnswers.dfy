/** What requests to the guard and attempts of the scheduler come to, said in the fields of the
    requests and of the records before and after. */
module TunnelAnswers {
  import opened Base
  import opened SourceAcl
  import opened AddressBits
  import opened TunnelModel
  import opened GuardMachine
  import opened GuardInvariants
  import opened GuardRuns
  import opened GuardLimits
  import opened GuardInterference

  // ---------------------------------------------------------------------------------------
  // Admission
  // ---------------------------------------------------------------------------------------

  predicate UrlSafe(id: string) {
    8 <= |id| <= 128
    && forall c :: c in id ==> 'a' <= c <= 'z' || 'A' <= c <= 'Z' || '0' <= c <= '9' || c in {'-', '_'}
  }

  /** What the guard accepts at `now`. */
  ghost predicate Admissible(q: ApplyRequest, now: Time) {
    && UrlSafe(Trim(q.id)) && q.generation >= 1
    && 1024 <= q.listenPort < 65536 && 1 <= q.targetPort < 65536
    && (q.listenIp.BlankIp? || (q.listenIp.LiteralIp? && !Multicast(q.listenIp.address)))
    && q.targetIp.LiteralIp? && !Multicast(q.targetIp.address) && q.targetIp.address.bits != 0
    && (Trim(q.network) == "" || Lower(Trim(q.network)) == "tcp")
    && |q.sources| <= 64 && (forall i :: 0 <= i < |q.sources| ==> Bounded(q.sources[i]))
    && q.speedLimit == 0 && q.connectionLimit == 0
    && q.hardNotAfter != 0 && q.leaseUntil != 0
    && now < q.hardNotAfter && now < q.leaseUntil <= now + 600_000_000_000
  }

  /** `r` is the tunnel that the request is about: its identity, its two ends, its network and its
      admitted sources. A blank listen address stands for 0.0.0.0. */
  ghost predicate Describes(q: ApplyRequest, r: TunnelResource) {
    && r.id == Trim(q.id) && r.tag == "rd-tun-" + Trim(q.id)
    && (if q.listenIp.BlankIp? then r.listenIp == Address(V4, 0) else q.listenIp == LiteralIp(r.listenIp))
    && r.listenPort == q.listenPort
    && q.targetIp == LiteralIp(r.targetIp) && r.targetPort == q.targetPort
    && r.network == "tcp" && Asked(q.sources, r.sources)
  }

  /** ... in the generation and until the deadlines that the request asks for. */
  ghost predicate AsksFor(q: ApplyRequest, r: TunnelResource) {
    Describes(q, r) && r.generation == q.generation && r.hardNotAfter == q.hardNotAfter && r.leaseUntil == q.leaseUntil
  }

  /** What is wrong with a request that is refused with `e`. */
  ghost predicate Complaint(q: ApplyRequest, now: Time, e: ApiError) {
    match e
    case InvalidResourceId => !UrlSafe(Trim(q.id))
    case InvalidGeneration => q.generation == 0
    case InvalidPort => !(1024 <= q.listenPort <= 65535) || !(1 <= q.targetPort <= 65535)
    case InvalidListenIp => q.listenIp.MalformedIp? || (q.listenIp.LiteralIp? && Multicast(q.listenIp.address))
    case InvalidTargetIp =>
      !q.targetIp.LiteralIp? || Multicast(q.targetIp.address) || q.targetIp.address.bits == 0
    case UnsupportedNetwork => Trim(q.network) != "" && Lower(Trim(q.network)) != "tcp"
    case InvalidSourceCidrs => !(|q.sources| <= 64 && forall i :: 0 <= i < |q.sources| ==> Bounded(q.sources[i]))
    case CapabilityUnavailable => q.speedLimit > 0 || q.connectionLimit != 0
    case MissingExpiry => q.hardNotAfter == 0 || q.leaseUntil == 0
    case ExpiredDeadline => q.hardNotAfter <= now || q.leaseUntil <= now
    case LeaseTooLong => q.leaseUntil > now + 600_000_000_000
    case _ => false
  }

  lemma IdIsUrlSafe(id: string)
    ensures ValidId(id) <==> UrlSafe(id)
  {
    if UrlSafe(id) {
      forall i | 0 <= i < |id| ensures IdChar(id[i]) {
        assert id[i] in id;
      }
    }
  }

  lemma AdmittedIff(q: ApplyRequest, now: Time)
    ensures Normalize(q, now).Ok? <==> Admissible(q, now)
  {
    IdIsUrlSafe(Trim(q.id));
    AcceptedIff(q.sources);
    LowerOfNothing(Trim(q.network));
  }

  lemma RefusalComplains(q: ApplyRequest, now: Time)
    ensures Normalize(q, now).Err? ==> Complaint(q, now, Normalize(q, now).error)
  {
    IdIsUrlSafe(Trim(q.id));
    AcceptedIff(q.sources);
    LowerOfNothing(Trim(q.network));
  }

  lemma LowerOfNothing(s: string)
    ensures Lower(s) == "" <==> s == ""
  {
    assert |Lower(s)| == |s|;
  }

  /** A request is admitted exactly when it is admissible, as the record it asks for in provisioning;
      otherwise the error says what is wrong with it. */
  lemma AdmissionMeans(q: ApplyRequest, now: Time, r: TunnelResource)
    ensures Normalize(q, now).Ok? <==> Admissible(q, now)
    ensures Normalize(q, now) == Ok(r) <==>
              && Admissible(q, now) && AsksFor(q, r) && r.state == Provisioning && r.cleanupTerminal == None
              && r.attempts == 0 && r.nextAttemptAt == None && r.lastError == "" && r.updatedAt == now
    ensures Normalize(q, now).Err? ==> Complaint(q, now, Normalize(q, now).error)
  {
    AdmittedIff(q, now);
    RefusalComplains(q, now);
    NormalizeMeans(q.sources, r.sources);
  }

  /** What reload accepts: a record that an admitted request could have led to, in whatever state. */
  lemma ReloadAccepts(r: TunnelResource)
    ensures Persistable(r) <==>
              && UrlSafe(r.id) && r.tag == "rd-tun-" + r.id && r.generation >= 1
              && 1024 <= r.listenPort <= 65535 && 1 <= r.targetPort <= 65535 && r.network == "tcp"
              && r.hardNotAfter != 0 && r.leaseUntil != 0 && r.updatedAt != 0
              && |r.sources| <= 64 && Asked(Texts(r.sources), r.sources)
              && forall i :: 0 <= i < |r.sources| ==> Bounded(Texts(r.sources)[i])
  {
    IdIsUrlSafe(r.id);
    CanonicalSourcesAreNormal(r.sources);
    NormalizeMeans(Texts(r.sources), r.sources);
  }

  // ---------------------------------------------------------------------------------------
  // Applying a tunnel
  // ---------------------------------------------------------------------------------------

  /** Another tunnel still has the port. */
  predicate PortTaken(m: Memory, q: ApplyRequest) {
    exists id :: id in m.tunnels && id != Trim(q.id) && m.tunnels[id].state !in {Deleted, Expired}
                 && m.tunnels[id].network == "tcp" && m.tunnels[id].listenPort == q.listenPort
  }

  lemma PortFreeMeans(m: Memory, q: ApplyRequest, r: TunnelResource)
    requires AsksFor(q, r)
    ensures PortFree(m, r) <==> !PortTaken(m, q)
  {
  }

  /** The record that an admissible request is turned into. */
  lemma AdmittedRecord(q: ApplyRequest, now: Time) returns (r: TunnelResource)
    requires Admissible(q, now)
    ensures Normalize(q, now).Ok? && r == Provisioned(Normalize(q, now).value)
    ensures AsksFor(q, r) && r.state == Provisioning && r.attempts == 0 && r.updatedAt == now && r.lastError == ""
    ensures |r.sources| > 0 ==> |q.sources| > 0
  {
    AdmittedIff(q, now);
    AdmissionMeans(q, now, Normalize(q, now).value);
    r := Provisioned(Normalize(q, now).value);
    SomeSource(q.sources, r.sources);
  }

  lemma SameTunnel(q: ApplyRequest, b: TunnelResource, r: TunnelResource)
    requires AsksFor(q, r) && |q.sources| <= 64 && forall i :: 0 <= i < |q.sources| ==> Bounded(q.sources[i])
    ensures SameDefinition(b, r) <==> Describes(q, b)
  {
    NormalizeMeans(q.sources, b.sources);
    NormalizeMeans(q.sources, r.sources);
  }

  const BY_RECORDS := {ResourceDeleted, StaleGeneration, GenerationConflict, LeaseExpired, DefinitionConflict, PortReserved}

  /** Which of the records refuses an admissible request, and with which error. */
  ghost predicate RefusedBy(m: Memory, q: ApplyRequest, now: Time, err: Option<ApiError>) {
    var id := Trim(q.id);
    if id !in m.tunnels then
      && err !in {Some(ResourceDeleted), Some(StaleGeneration), Some(GenerationConflict), Some(LeaseExpired),
                  Some(DefinitionConflict)}
      && (err == Some(PortReserved) <==> PortTaken(m, q))
    else
      var b := m.tunnels[id];
      var gone := b.state in {Deleted, DeletePending};
      var same := Describes(q, b) && b.hardNotAfter == q.hardNotAfter;
      && (err == Some(ResourceDeleted) <==> gone)
      && (err == Some(StaleGeneration) <==> !gone && q.generation < b.generation)
      && (err == Some(GenerationConflict) <==> !gone && q.generation == b.generation && !(b.state == Active && same))
      && (err == Some(LeaseExpired) <==>
            b.state == Active && q.generation == b.generation && same && (b.leaseUntil <= now || b.hardNotAfter <= now))
      && (err == Some(DefinitionConflict) <==> !gone && q.generation > b.generation && !Describes(q, b))
      && (err == Some(PortReserved) <==> !gone && q.generation > b.generation && Describes(q, b) && PortTaken(m, q))
  }

  /** The generation on record, running and asked for again. */
  ghost predicate Repeats(m: Memory, q: ApplyRequest, now: Time) {
    var id := Trim(q.id);
    && id in m.tunnels && m.tunnels[id].generation == q.generation && m.tunnels[id].state == Active
    && Describes(q, m.tunnels[id]) && m.tunnels[id].hardNotAfter == q.hardNotAfter
    && now < m.tunnels[id].leaseUntil && now < m.tunnels[id].hardNotAfter
  }

  /** The verdict in terms of the request. */
  lemma DecisionMeans(m: Memory, q: ApplyRequest, now: Time, r: TunnelResource)
    requires Admissible(q, now) && AsksFor(q, r)
    ensures var v := Decision(m, r, now);
            && RefusedBy(m, q, now, if v.Refuse? then Some(v.error) else None)
            && (v.Refuse? ==> v.error in BY_RECORDS)
            && (v.KeepLease? <==> Repeats(m, q, now) && q.leaseUntil <= m.tunnels[Trim(q.id)].leaseUntil)
            && (v.ExtendLease? <==> Repeats(m, q, now) && q.leaseUntil > m.tunnels[Trim(q.id)].leaseUntil)
  {
    PortFreeMeans(m, q, r);
    if Trim(q.id) in m.tunnels {
      SameTunnel(q, m.tunnels[Trim(q.id)], r);
    }
  }

  /** An admissible request is refused exactly for the reasons that its own record and the other
      records give, and a refusal changes nothing. In particular a newer generation that differs from
      the record in any address, port, network or source is refused. */
  lemma ApplyRefusals(seen: World, q: ApplyRequest, now: Time, end: World, resource: Option<TunnelResource>,
                      changed: bool, err: Option<ApiError>)
    requires ApplyAnswers(seen, q, now, end, resource, changed, err) && Admissible(q, now)
    ensures (err == Some(CapabilityUnavailable) && |q.sources| > 0) || RefusedBy(seen.mem, q, now, err)
    ensures err.Some? && (err.value == CapabilityUnavailable || err.value in BY_RECORDS) ==> end == seen && !changed
  {
    var r := AdmittedRecord(q, now);
    DecisionMeans(seen.mem, q, now, r);
    if !(err == Some(CapabilityUnavailable) && end == seen && !changed && |r.sources| > 0) {
      VerdictsEnd(seen, r, now, end, resource, changed, err);
      var v := Decision(seen.mem, r, now);
      SameRefusal(seen.mem, q, now, if v.Refuse? then Some(v.error) else None, err);
    }
  }

  /** An error that the records give is the verdict's, and with it nothing has changed. */
  lemma VerdictsEnd(seen: World, r: TunnelResource, now: Time, end: World, resource: Option<TunnelResource>,
                    changed: bool, err: Option<ApiError>)
    requires ApplyEnds(seen, r, now, end, resource, changed, err)
    ensures var v := Decision(seen.mem, r, now);
            if v.Refuse? then err == Some(v.error) && end == seen && !changed
            else err.Some? ==> err.value !in BY_RECORDS && err.value != CapabilityUnavailable
  {
  }

  lemma SameRefusal(m: Memory, q: ApplyRequest, now: Time, a: Option<ApiError>, b: Option<ApiError>)
    requires RefusedBy(m, q, now, a)
    requires a == b || (a == None && b.Some? && b.value !in BY_RECORDS)
    ensures RefusedBy(m, q, now, b)
  {
  }

  lemma SomeSource(values: seq<CidrText>, sources: seq<Cidr>)
    requires Asked(values, sources)
    ensures |sources| > 0 ==> |values| > 0
  {
    if |sources| > 0 {
      assert sources[0] in sources;
    }
  }

  /** A request that is not admissible changes nothing and is answered with what is wrong with it. */
  lemma ApplyComplaints(seen: World, q: ApplyRequest, now: Time, end: World, resource: Option<TunnelResource>,
                        changed: bool, err: Option<ApiError>)
    requires ApplyAnswers(seen, q, now, end, resource, changed, err) && !Admissible(q, now)
    ensures err.Some? && Complaint(q, now, err.value) && end == seen && !changed
  {
    AdmittedIff(q, now);
    RefusalComplains(q, now);
  }

  /** The record that a successful request leaves under its ID. */
  ghost predicate Granted(seen: World, q: ApplyRequest, end: World, r: TunnelResource) {
    && r.id == Trim(q.id) && AsksFor(q, r)
    && r.state == Active && r.cleanupTerminal == None && r.attempts == 0 && r.nextAttemptAt == None && r.lastError == ""
    && r.id in end.mem.tunnels && end.mem.tunnels[r.id] == r && r.id in end.disk.tunnels && end.disk.tunnels[r.id] == r
    && r.id in end.live && (r.sources != [] ==> AclEntry(r.id, q.listenPort, r.sources) in end.acl)
  }

  /** A successful request was admissible. With the generation on record it repeats or renews: the
      record is active and is the one asked for, and a longer lease is stored and nothing else
      changes. Otherwise the generation is new, no other tunnel had the port, and what is on record,
      exposed and admitted afterwards is what the request asks for, literally. */
  lemma ApplySuccess(seen: World, q: ApplyRequest, now: Time, end: World, resource: Option<TunnelResource>,
                     changed: bool, err: Option<ApiError>)
    requires ApplyAnswers(seen, q, now, end, resource, changed, err) && err == None
    ensures Admissible(q, now) && resource.Some?
    ensures if Repeats(seen.mem, q, now) then Renewal(seen, q, now, end, resource.value, changed)
            else
              && changed && Granted(seen, q, end, resource.value) && !PortTaken(seen.mem, q)
              && (Trim(q.id) in seen.mem.tunnels ==>
                    && q.generation > seen.mem.tunnels[Trim(q.id)].generation && Describes(q, seen.mem.tunnels[Trim(q.id)])
                    && seen.mem.tunnels[Trim(q.id)].state !in {Deleted, DeletePending})
  {
    AdmittedIff(q, now);
    var r := AdmittedRecord(q, now);
    DecisionMeans(seen.mem, q, now, r);
    if Repeats(seen.mem, q, now) {
      RenewalMeans(seen, q, now, end, r, resource, changed, err);
    } else {
      GrantMeans(seen, q, end, r, resource.value);
    }
  }

  /** The generation on record is kept, with the longer of the two leases. */
  ghost predicate Renewal(seen: World, q: ApplyRequest, now: Time, end: World, r: TunnelResource, changed: bool)
    requires Trim(q.id) in seen.mem.tunnels
  {
    var b := seen.mem.tunnels[Trim(q.id)];
    && (changed <==> q.leaseUntil > b.leaseUntil)
    && r == (if changed then b.(leaseUntil := q.leaseUntil, updatedAt := now, lastError := "") else b)
    && end.mem == seen.mem.(tunnels := seen.mem.tunnels[Trim(q.id) := r])
    && end.disk == (if changed then end.mem else seen.disk) && end.live == seen.live && end.acl == seen.acl
  }

  lemma RenewalMeans(seen: World, q: ApplyRequest, now: Time, end: World, r: TunnelResource,
                     resource: Option<TunnelResource>, changed: bool, err: Option<ApiError>)
    requires Repeats(seen.mem, q, now) && AsksFor(q, r) && err == None
    requires ApplyEnds(seen, r, now, end, resource, changed, err)
    requires Decision(seen.mem, r, now) == if q.leaseUntil > seen.mem.tunnels[Trim(q.id)].leaseUntil then ExtendLease else KeepLease
    ensures resource.Some? && Renewal(seen, q, now, end, resource.value, changed)
  {
    if !changed {
      assert seen.mem.tunnels[Trim(q.id) := resource.value] == seen.mem.tunnels;
    }
  }

  lemma GrantMeans(seen: World, q: ApplyRequest, end: World, r: TunnelResource, resource: TunnelResource)
    requires AsksFor(q, r) && r.attempts == 0 && r.id == Trim(q.id) && RunningIn(end, r, resource)
    ensures Granted(seen, q, end, resource)
  {
  }

  // ---------------------------------------------------------------------------------------
  // Taking a tunnel down
  // ---------------------------------------------------------------------------------------

  /** The copy says that generation is in the terminal state, or on its way there. */
  ghost predicate HeadsFor(m: Memory, id: string, generation: nat, terminal: State) {
    && id in m.tunnels && m.tunnels[id].generation == generation
    && var r := m.tunnels[id];
       || r.state == terminal
       || (r.state in {SuspendPending, DeletePending, ExpiryPending} && r.cleanupTerminal == Some(terminal))
  }

  /** Which requests are refused, with which error; a refusal changes nothing. */
  lemma CleanupRefusals(seen: World, end: World, id: string, generation: nat, terminal: State,
                        resource: Option<TunnelResource>, changed: bool, err: Option<ApiError>)
    requires CleanupEnds(seen, end, id, generation, terminal, resource, changed, err)
    ensures err == Some(InvalidIdentity) <==> !UrlSafe(id) || generation == 0
    ensures err == Some(NotFound) <==> UrlSafe(id) && generation > 0 && id !in seen.mem.tunnels
    ensures err == Some(StaleGeneration) <==>
              UrlSafe(id) && 0 < generation && id in seen.mem.tunnels && generation < seen.mem.tunnels[id].generation
    ensures err == Some(ResourceDeleted) <==>
              && UrlSafe(id) && 0 < generation && id in seen.mem.tunnels && generation >= seen.mem.tunnels[id].generation
              && terminal == Suspended && seen.mem.tunnels[id].state in {Deleted, DeletePending}
    ensures err in {Some(InvalidIdentity), Some(NotFound), Some(StaleGeneration), Some(ResourceDeleted)} ==>
              end == seen && !changed
  {
    IdIsUrlSafe(id);
  }

  /** A request that ends without an error, changed or not, leaves the record in memory with the
      requested generation, in the requested state or pending towards it. The file says the same
      exactly when both copies agree, which they do unless the request found the tunnel withdrawn by
      a fail-closed pass that could not be written. */
  lemma CleanupSuccess(seen: World, end: World, id: string, generation: nat, terminal: State,
                       resource: Option<TunnelResource>, changed: bool, err: Option<ApiError>)
    requires Inv(seen) && terminal in {Suspended, Deleted}
    requires CleanupEnds(seen, end, id, generation, terminal, resource, changed, err) && err == None
    ensures HeadsFor(end.mem, id, generation, terminal) && id in end.disk.tunnels
    ensures HeadsFor(end.disk, id, generation, terminal) <==> end.disk.tunnels[id] == end.mem.tunnels[id]
    ensures changed ==> end.disk == end.mem
    ensures !changed ==> end == seen
  {
    assert !changed ==> Current(seen.mem.tunnels[id], seen.disk.tunnels[id]);
  }

  /** After a delete without error both copies say deleted or delete pending. */
  lemma DeleteIsRecorded(seen: World, end: World, id: string, generation: nat,
                         resource: Option<TunnelResource>, changed: bool, err: Option<ApiError>)
    requires Inv(seen) && CleanupEnds(seen, end, id, generation, Deleted, resource, changed, err) && err == None
    ensures HeadsFor(end.mem, id, generation, Deleted) && HeadsFor(end.disk, id, generation, Deleted)
    ensures end.mem.tunnels[id].state in {Deleted, DeletePending} && end.disk.tunnels[id].state in {Deleted, DeletePending}
  {
    CleanupSuccess(seen, end, id, generation, Deleted, resource, changed, err);
    if !changed {
      assert Current(seen.mem.tunnels[id], seen.disk.tunnels[id]);
      assert GoodRecord(seen.mem.tunnels[id], seen.clock);
    }
  }

  /** From any fresh guard and for every restricted tunnel, a run after which a suspend request is
      answered as done although the file still says active: the fail-closed pass that withdrew the
      tunnel could not be written. */
  lemma SuspendedAheadOfTheFile(w: World, r: TunnelResource)
    returns (ws: seq<World>, steps: seq<Action>, last: World)
    requires Initial(w) && Fresh(r, w.clock) && r.sources != []
    ensures Reaches(ws, steps, last) && r.id in last.mem.tunnels
    ensures CleanupEnds(last, last, r.id, r.generation, Suspended, Some(last.mem.tunnels[r.id]), false, None)
    ensures HeadsFor(last.mem, r.id, r.generation, Suspended) && r.id in last.live
    ensures r.id in last.disk.tunnels && last.disk.tunnels[r.id].state == Active
  {
    var w1;
    ws, steps, w1 := GoLiveRestricted(w, r);
    last := w1.(mem := FailClosedAll(w1.mem, "", w1.clock));
    FailClosedAllChanges(w1.mem, "", w1.clock);
    Extend(ws, steps, w1, FailClosed("", NotCommitted), last);
    ws, steps := ws + [last], steps + [FailClosed("", NotCommitted)];
  }

  lemma GoLiveRestricted(w: World, r: TunnelResource) returns (ws: seq<World>, steps: seq<Action>, last: World)
    requires Initial(w) && Fresh(r, w.clock) && r.sources != []
    ensures Reaches(ws, steps, last) && last.clock == w.clock && last.live == {r.id} && last.disk == last.mem
    ensures last.mem.tunnels == map[r.id := Activated(r, w.clock)]
  {
    var entry := [r.Entry()];
    var w1 := w.(holder := Some(w.clock), read := w.mem.tunnels);
    var w2 := StoreTunnel(w1, r, Committed);
    var w3 := w2.(acl := entry);
    var w4 := w3.(live := {r.id});
    Extend([w], [], w, Acquire, w1);
    Extend([w] + [w1], [] + [Acquire], w1, Provision(r, Committed), w2);
    assert w2.mem.tunnels == map[r.id := r];
    assert entry[0] == r.Entry() && IsAclList(entry, w2.mem.tunnels, "");
    Extend([w] + [w1] + [w2], [] + [Acquire] + [Provision(r, Committed)], w2, InstallAcl(entry, "", true), w3);
    assert w3.live + {r.id} == {r.id};
    ws, steps := [w] + [w1] + [w2] + [w3], [] + [Acquire] + [Provision(r, Committed)] + [InstallAcl(entry, "", true)];
    Extend(ws, steps, w3, AgentAdd(r.id, true), w4);
    ws, steps, last := RecordsActive(ws + [w4], steps + [AgentAdd(r.id, true)], w4, r);
  }

  lemma RecordsActive(ws0: seq<World>, steps0: seq<Action>, w: World, r: TunnelResource)
    returns (ws: seq<World>, steps: seq<Action>, last: World)
    requires Reaches(ws0, steps0, w) && w.holder.Some? && w.mem.tunnels == map[r.id := r] && r.state.Provisioning?
    requires w.live == {r.id}
    ensures Reaches(ws, steps, last) && last.clock == w.clock && last.live == w.live && last.disk == last.mem
    ensures last.mem.tunnels == map[r.id := Activated(r, w.clock)]
  {
    var w1 := StoreTunnel(w, Activated(r, w.clock), Committed);
    last := w1.(holder := None);
    Extend(ws0, steps0, w, Activate(r, Committed), w1);
    Extend(ws0 + [w1], steps0 + [Activate(r, Committed)], w1, Release, last);
    ws, steps := ws0 + [w1] + [last], steps0 + [Activate(r, Committed)] + [Release];
    assert w.mem.tunnels[r.id := Activated(r, w.clock)] == map[r.id := Activated(r, w.clock)];
  }

  /** A request that reports a change has left nothing outside, and the record terminal in both
      copies, otherwise as it was. */
  lemma CleanupChanges(seen: World, end: World, id: string, generation: nat, terminal: State,
                       resource: Option<TunnelResource>, changed: bool, err: Option<ApiError>)
    requires Inv(seen) && CleanupEnds(seen, end, id, generation, terminal, resource, changed, err) && changed
    ensures id in seen.mem.tunnels && id in end.mem.tunnels && end.disk == end.mem && id !in end.live
    ensures var b, r := seen.mem.tunnels[id], end.mem.tunnels[id];
            && r == b.(generation := generation, state := terminal, cleanupTerminal := None, attempts := 0,
                       nextAttemptAt := None, lastError := "", updatedAt := r.updatedAt)
            && resource == Some(r) && (b.sources != [] ==> forall e: AclEntry :: e in end.acl ==> e.id != id)
  {
    var r := end.mem.tunnels[id];
    forall e: AclEntry | r.sources != [] && e in end.acl ensures e.id != id {
      var i :| 0 <= i < |end.acl| && end.acl[i] == e;
      assert !Lists(end.acl, id);
    }
  }

  /** The record is pending towards what was asked for, otherwise as it was. */
  predicate Awaits(r: TunnelResource, b: TunnelResource, generation: nat, terminal: State) {
    var pending := if terminal == Suspended then SuspendPending else DeletePending;
    r == b.(generation := generation, state := pending, cleanupTerminal := Some(terminal), attempts := r.attempts,
            nextAttemptAt := r.nextAttemptAt, lastError := r.lastError, updatedAt := r.updatedAt)
  }

  /** When the Agent or the table fails, memory has the record pending so, attempted at most once and
      due within five seconds. */
  lemma CleanupInterrupted(seen: World, end: World, id: string, generation: nat, terminal: State,
                           resource: Option<TunnelResource>, changed: bool, err: Option<ApiError>)
    requires terminal in {Suspended, Deleted}
    requires CleanupEnds(seen, end, id, generation, terminal, resource, changed, err)
    requires err in {Some(AgentRemoveFailed), Some(AclCleanupFailed)}
    ensures id in seen.mem.tunnels && id in end.mem.tunnels && !changed
    ensures var r := end.mem.tunnels[id];
            && Awaits(r, seen.mem.tunnels[id], generation, terminal) && r.attempts <= 1
            && AttemptAt(r).Some? && AttemptAt(r).value <= end.clock + 5_000_000_000
  {
  }

  /** A request that could not safely record its intent touches nothing outside and leaves both copies
      as they were, or both with the record pending, to be attempted at once. One that could not safely
      record its end leaves nothing outside, and the record in the requested state or pending. */
  lemma CleanupUnrecorded(seen: World, end: World, id: string, generation: nat, terminal: State,
                          resource: Option<TunnelResource>, changed: bool, err: Option<ApiError>)
    requires Inv(seen) && terminal in {Suspended, Deleted}
    requires CleanupEnds(seen, end, id, generation, terminal, resource, changed, err) && err == Some(StatePersistFailed)
    ensures id in seen.mem.tunnels && id in end.mem.tunnels && !changed
    ensures var b, r := seen.mem.tunnels[id], end.mem.tunnels[id];
            || (end.live == seen.live && end.acl == seen.acl
                && ((end.mem == seen.mem && end.disk == seen.disk)
                    || (end.disk == end.mem && Awaits(r, b, generation, terminal) && r.attempts == 0
                        && r.nextAttemptAt == None && r.lastError == "" && r.updatedAt == end.clock)))
            || (id !in end.live && HeadsFor(end.mem, id, generation, terminal))
  {
    assert GoodRecord(seen.mem.tunnels[id], seen.clock);
  }

  // ---------------------------------------------------------------------------------------
  // Attempts of the scheduler
  // ---------------------------------------------------------------------------------------

  /** Where a record goes once its inbound is gone. */
  function Destination(b: TunnelResource): Option<State> {
    match b.state
    case Active => Some(Expired)
    case SuspendPending => Some(Suspended)
    case DeletePending => Some(Deleted)
    case Provisioning => Some(Suspended)
    case ExpiryPending => b.cleanupTerminal
    case _ => None
  }

  /** An attempt that completes leaves nothing outside and, once written, the record in the state it
      was going to: a running tunnel whose deadline came is expired, a failed grant is suspended, a
      pending one is what was asked for. Nothing else of it changes. */
  lemma ClosedMeans(attempt: Attempt, expected: TunnelResource, seen: World, end: World)
    requires Inv(seen) && AttemptEnds(attempt, expected, seen, end) && attempt.Closed?
    ensures expected.id in seen.mem.tunnels && expected.id !in end.live
    ensures var b := seen.mem.tunnels[expected.id];
            && (b.sources != [] ==> !Lists(end.acl, b.id))
            && (b.state == Active ==> b.leaseUntil <= seen.clock || b.hardNotAfter <= seen.clock)
            && (!attempt.p.NotCommitted? ==>
                  && b.id in end.mem.tunnels
                  && var r := end.mem.tunnels[b.id];
                     && Some(r.state) == Destination(b)
                     && r == b.(state := r.state, cleanupTerminal := None, attempts := 0, nextAttemptAt := None,
                                lastError := "", updatedAt := end.clock))
  {
    assert GoodRecord(seen.mem.tunnels[expected.id], seen.clock);
  }

  /** An attempt that must be repeated leaves the record, once written, on the same way, with one more
      attempt counted and the next one after the delay for that many. */
  lemma RetriedMeans(attempt: Attempt, expected: TunnelResource, seen: World, end: World)
    requires Inv(seen) && AttemptEnds(attempt, expected, seen, end) && attempt.RetryAt?
    ensures expected.id in seen.mem.tunnels
    ensures var b := seen.mem.tunnels[expected.id];
            var count := if b.state == Active then 1 else b.attempts + 1;
            && (b.state == Active ==> b.leaseUntil <= seen.clock || b.hardNotAfter <= seen.clock)
            && seen.clock <= attempt.next - RetryDelay(count) <= end.clock
            && (!attempt.p.NotCommitted? ==>
                  && b.id in end.mem.tunnels
                  && var r := end.mem.tunnels[b.id];
                     && r.attempts == count && r.nextAttemptAt == Some(attempt.next)
                     && r.state == (if b.state == Active then ExpiryPending else b.state)
                     && r.cleanupTerminal == (if b.state == Active then Some(Expired) else b.cleanupTerminal)
                     && r == b.(state := r.state, cleanupTerminal := r.cleanupTerminal, attempts := count,
                                nextAttemptAt := r.nextAttemptAt, lastError := r.lastError, updatedAt := r.updatedAt))
  {
    assert GoodRecord(seen.mem.tunnels[expected.id], seen.clock);
  }

  /** An expiry whose intent was not safely recorded touches nothing outside, and leaves memory as it
      was or with the record expiring. */
  lemma IntentLostMeans(attempt: Attempt, expected: TunnelResource, seen: World, end: World)
    requires AttemptEnds(attempt, expected, seen, end) && attempt.IntentLost?
    ensures end.live == seen.live && end.acl == seen.acl && expected.id in seen.mem.tunnels
    ensures var b := seen.mem.tunnels[expected.id];
            end.mem == if attempt.p.NotCommitted? then seen.mem
                       else seen.mem.(tunnels := seen.mem.tunnels[b.id :=
                              b.(state := ExpiryPending, cleanupTerminal := Some(Expired), attempts := 0,
                                 nextAttemptAt := None, updatedAt := end.clock)])
  {
  }

  /** Outdated snapshots and tunnels whose deadline is ahead are left alone. */
  lemma SparedMeans(attempt: Attempt, expected: TunnelResource, seen: World, end: World)
    requires AttemptEnds(attempt, expected, seen, end) && (attempt.Outdated? || attempt.TooEarly?)
    ensures end == seen
    ensures attempt.TooEarly? ==>
              && expected.id in seen.mem.tunnels
              && var b := seen.mem.tunnels[expected.id];
                 b.state == Active && seen.clock < b.leaseUntil && seen.clock < b.hardNotAfter
  {
  }

  /** When the scheduler takes up a record: an active one at the earlier of its two deadlines, one
      that is to be taken down as soon as it was written and not before a set attempt time, and a
      terminal one never. */
  lemma AttemptTimes(r: TunnelResource)
    ensures AttemptAt(r).None? <==> r.state in {Suspended, Deleted, Expired}
    ensures r.state == Active && r.nextAttemptAt == None ==>
              && AttemptAt(r) in {Some(r.leaseUntil), Some(r.hardNotAfter)}
              && AttemptAt(r).value <= r.leaseUntil && AttemptAt(r).value <= r.hardNotAfter
    ensures r.state in {Provisioning, SuspendPending, DeletePending, ExpiryPending} ==>
              && AttemptAt(r) in {Some(r.updatedAt), r.nextAttemptAt} && AttemptAt(r).value >= r.updatedAt
              && (r.nextAttemptAt.Some? ==> AttemptAt(r).value >= r.nextAttemptAt.value)
  {
  }

  // ---------------------------------------------------------------------------------------
  // Failing closed, and the table
  // ---------------------------------------------------------------------------------------

  /** A fail-closed pass turns every restricted tunnel that is active or provisioning into one that
      expires towards suspended, to be attempted at once, and leaves everything else alone. */
  lemma FailClosedMeans(m: Memory, cause: string, clock: Time, id: string)
    requires id in m.tunnels
    ensures var after := FailClosedAll(m, cause, clock);
            && after.token == m.token && after.entries == m.entries && after.tunnels.Keys == m.tunnels.Keys
            && var b := m.tunnels[id];
               after.tunnels[id] ==
                 if b.sources != [] && (b.state == Active || b.state == Provisioning)
                 then b.(state := ExpiryPending, cleanupTerminal := Some(Suspended), lastError := cause, updatedAt := clock,
                         nextAttemptAt := None, attempts := 0)
                 else b
  {
  }

  /** No restricted tunnel is active or provisioning. */
  lemma NoneToCloseMeans(m: Memory)
    ensures NoneToClose(m) <==>
              forall id :: id in m.tunnels && m.tunnels[id].state in {Active, Provisioning} ==> m.tunnels[id].sources == []
  {
  }

  /** The table names the restricted tunnels that are neither deleted nor expired, but the excluded
      one, each with its port and its sources, by port and then by ID. */
  lemma ListedMeans(list: seq<AclEntry>, tunnels: map<string, TunnelResource>, exclude: string, e: AclEntry)
    requires IsAclList(list, tunnels, exclude) && forall id :: id in tunnels ==> tunnels[id].id == id
    ensures forall i, j :: 0 <= i < j < |list| ==>
              list[i].port < list[j].port || (list[i].port == list[j].port && Before(list[i].id, list[j].id))
    ensures e in list <==>
              && e.id in tunnels && e.id != exclude && tunnels[e.id].sources != []
              && tunnels[e.id].state !in {Deleted, Expired}
              && e.port == tunnels[e.id].listenPort && e.sources == tunnels[e.id].sources
  {
    if e in list {
      var i :| 0 <= i < |list| && list[i] == e;
    }
  }
}
