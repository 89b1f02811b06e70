/** The durable record of one managed tunnel and the rules for admitting a request:
    internal/expiryguard/tunnels.go without its state changes. */
module TunnelModel {
  import opened Base
  import opened SourceAcl

  datatype State =
    | Provisioning | Active
    | SuspendPending | Suspended
    | DeletePending | Deleted
    | ExpiryPending | Expired

  const MAX_LEASE := 10 * MINUTE

  datatype TunnelResource = TunnelResource(
    id: string,
    tag: string,
    generation: nat,
    listenIp: Address,
    listenPort: int,
    targetIp: Address,
    targetPort: int,
    network: string,
    sources: seq<Cidr>,
    hardNotAfter: Time,
    leaseUntil: Time,
    state: State,
    cleanupTerminal: Option<State>,
    attempts: nat,
    nextAttemptAt: Option<Time>,
    lastError: string,
    updatedAt: Time)
  {
    function EffectiveNotAfter(): Time {
      Min(leaseUntil, hardNotAfter)
    }

    predicate ReservesPort() {
      state != Deleted && state != Expired
    }

    predicate NeedsAcl() {
      |sources| > 0 && ReservesPort()
    }

    /** The states the scheduler comes back to. */
    predicate Revisited() {
      state in {Provisioning, Active, SuspendPending, DeletePending, ExpiryPending}
    }

    predicate Pending() {
      state in {SuspendPending, DeletePending, ExpiryPending}
    }

    function Entry(): AclEntry {
      AclEntry(id, listenPort, sources)
    }
  }

  /** tunnelidentity.Tag with its digest taken as injective: the tag determines the resource. */
  function Tag(id: string): string {
    "rd-tun-" + id
  }

  predicate IdChar(c: char) {
    'a' <= c <= 'z' || 'A' <= c <= 'Z' || '0' <= c <= '9' || c == '-' || c == '_'
  }

  predicate ValidId(id: string) {
    8 <= |id| <= 128 && forall i :: 0 <= i < |id| ==> IdChar(id[i])
  }

  predicate SameSpec(a: TunnelResource, b: TunnelResource) {
    SameDefinition(a, b) && a.generation == b.generation && a.hardNotAfter == b.hardNotAfter
  }

  predicate SameDefinition(a: TunnelResource, b: TunnelResource) {
    a.id == b.id && a.tag == b.tag && a.listenIp == b.listenIp && a.listenPort == b.listenPort
    && a.targetIp == b.targetIp && a.targetPort == b.targetPort && a.network == b.network
    && a.sources == b.sources
  }

  // ---------------------------------------------------------------------------------------
  // Requests
  // ---------------------------------------------------------------------------------------

  /** What net.ParseIP makes of one requested address. */
  datatype IpText = BlankIp | MalformedIp | LiteralIp(address: Address)

  datatype ApplyRequest = ApplyRequest(
    id: string,
    generation: nat,
    listenIp: IpText,
    listenPort: int,
    targetIp: IpText,
    targetPort: int,
    network: string,
    sources: seq<CidrText>,
    hardNotAfter: Time,
    leaseUntil: Time,
    speedLimit: nat,
    connectionLimit: int)

  datatype ApiError =
    | InvalidResourceId | InvalidGeneration | InvalidPort | InvalidListenIp | InvalidTargetIp
    | UnsupportedNetwork | InvalidSourceCidrs | CapabilityUnavailable | MissingExpiry
    | ExpiredDeadline | LeaseTooLong
    | InvalidIdentity | NotFound | ResourceDeleted | StaleGeneration | GenerationConflict
    | LeaseExpired | DefinitionConflict | PortReserved | AgentPreflightFailed | PortInUse
    | StatePersistFailed | AclApplyFailed | AgentApplyFailed | AgentRemoveFailed | AclCleanupFailed

  function NormalizeIp(text: IpText, fallback: Option<Address>): Option<Address> {
    match text
    case BlankIp => fallback
    case MalformedIp => None
    case LiteralIp(a) => if Multicast(a) then None else Some(a)
  }

  predicate ValidPorts(listenPort: int, targetPort: int) {
    1024 <= listenPort <= 65535 && 1 <= targetPort <= 65535
  }

  /** normalizeTunnelApply: the record a request asks for, in state provisioning. */
  function Normalize(q: ApplyRequest, now: Time): Result<TunnelResource, ApiError> {
    var id := Trim(q.id);
    var listenIp := NormalizeIp(q.listenIp, Some(Address(V4, 0)));
    var targetIp := NormalizeIp(q.targetIp, None);
    var network := if Lower(Trim(q.network)) == "" then "tcp" else Lower(Trim(q.network));
    var sources := NormalizeSources(q.sources);
    if !ValidId(id) then Err(InvalidResourceId)
    else if q.generation == 0 then Err(InvalidGeneration)
    else if !ValidPorts(q.listenPort, q.targetPort) then Err(InvalidPort)
    else if listenIp.None? then Err(InvalidListenIp)
    else if targetIp.None? || Unspecified(targetIp.value) then Err(InvalidTargetIp)
    else if network != "tcp" then Err(UnsupportedNetwork)
    else if sources.Err? then Err(InvalidSourceCidrs)
    else if q.speedLimit != 0 || q.connectionLimit != 0 then Err(CapabilityUnavailable)
    else if q.hardNotAfter == ZERO_TIME || q.leaseUntil == ZERO_TIME then Err(MissingExpiry)
    else if q.hardNotAfter <= now || q.leaseUntil <= now then Err(ExpiredDeadline)
    else if q.leaseUntil - now > MAX_LEASE then Err(LeaseTooLong)
    else Ok(TunnelResource(
      id, Tag(id), q.generation, listenIp.value, q.listenPort, targetIp.value, q.targetPort,
      network, sources.value, q.hardNotAfter, q.leaseUntil,
      Provisioning, None, 0, None, "", now))
  }

  /** validatePersistedTunnelResource: what reload insists on. */
  predicate Persistable(r: TunnelResource) {
    ValidId(r.id) && r.tag == Tag(r.id) && r.generation > 0
    && ValidPorts(r.listenPort, r.targetPort)
    && r.network == "tcp"
    && r.hardNotAfter != ZERO_TIME && r.leaseUntil != ZERO_TIME && r.updatedAt != ZERO_TIME
    && CanonicalSources(r.sources)
  }

  /** Every admitted request yields a record that reload will accept, with a lease inside the
      ten-minute bound. */
  lemma NormalizedIsPersistable(q: ApplyRequest, now: Time)
    requires Normalize(q, now).Ok? && now > ZERO_TIME
    ensures var r := Normalize(q, now).value;
            && Persistable(r)
            && r.leaseUntil <= r.updatedAt + MAX_LEASE
            && r.EffectiveNotAfter() > now
  {
    NormalizeIdempotent(q.sources);
    CanonicalSourcesAreNormal(Normalize(q, now).value.sources);
  }

  /** The guard's back-off, in nanoseconds: 5 s doubling to 320 s. */
  function RetryDelay(attempts: int): int {
    var n := if attempts < 1 then 1 else if attempts > 7 then 7 else attempts;
    Pow2(n - 1) * (5 * SECOND)
  }

  lemma {:induction false} Pow2Monotone(a: nat, b: nat)
    requires a <= b
    ensures Pow2(a) <= Pow2(b)
  {
    if a < b {
      Pow2Monotone(a, b - 1);
    }
  }

  lemma RetryDelayBounds(attempts: int)
    ensures 5 * SECOND <= RetryDelay(attempts) <= 320 * SECOND
    ensures RetryDelay(attempts) <= RetryDelay(attempts + 1)
  {
    var n := if attempts < 1 then 1 else if attempts > 7 then 7 else attempts;
    var m := if attempts + 1 < 1 then 1 else if attempts + 1 > 7 then 7 else attempts + 1;
    Pow2Monotone(n - 1, 6);
    Pow2Monotone(0, n - 1);
    Pow2Monotone(n - 1, m - 1);
    assert Pow2(6) == 64 by { assert Pow2(3) == 8; }
  }

  /** The first failed attempt is repeated after five seconds, each further one after twice as long
      as the one before, up to 320 seconds. */
  lemma RetryDelayDoubles(attempts: int)
    ensures attempts <= 1 ==> RetryDelay(attempts) == 5_000_000_000
    ensures 1 <= attempts < 7 ==> RetryDelay(attempts + 1) == 2 * RetryDelay(attempts)
    ensures attempts >= 7 ==> RetryDelay(attempts) == 320_000_000_000
  {
    assert Pow2(6) == 64 by { assert Pow2(3) == 8; }
  }
}
