/** The guard's table of used nonces (openRequest in internal/expiryguard/guard.go). */
module ReplayTable {
  import opened Base
  import opened GuardWire

  const BODY_LIMIT := 0x10000

  datatype Request = Request(verb: string, path: string, body: Bytes, metadata: Metadata)

  /** One arrival: the request, the clock reading with which it is opened, and the later one with
      which the table is consulted. */
  datatype Arrival = Arrival(request: Request, openedAt: Time, recorded: Time)

  function Received(body: Bytes): Bytes {
    if |body| > BODY_LIMIT then body[..BODY_LIMIT] else body
  }

  function Opened(c: Crypto, secret: string, a: Arrival): Result<Bytes, WireError> {
    Open(c, secret, a.request.verb, a.request.path, Received(a.request.body), a.request.metadata, a.openedAt)
  }

  /** What pruning leaves: nonces recorded at most two minutes ago. */
  function Pruned(seen: map<string, Time>, now: Time): map<string, Time> {
    map n | n in seen && now - seen[n] <= MAX_CLOCK_SKEW :: seen[n]
  }

  function Outcome(c: Crypto, secret: string, seen: map<string, Time>, a: Arrival): Result<Bytes, WireError> {
    if Opened(c, secret, a).Err? then Opened(c, secret, a)
    else if a.request.metadata.nonce in Pruned(seen, a.recorded) then Err(Replayed)
    else Opened(c, secret, a)
  }

  /** Only a request that opens touches the table. */
  function After(c: Crypto, secret: string, seen: map<string, Time>, a: Arrival): map<string, Time> {
    if Opened(c, secret, a).Err? then seen
    else if a.request.metadata.nonce in Pruned(seen, a.recorded) then Pruned(seen, a.recorded)
    else Pruned(seen, a.recorded)[a.request.metadata.nonce := a.recorded]
  }

  class Receiver {
    const secret: string
    var seenNonces: map<string, Time>

    constructor (secret: string)
      ensures this.secret == secret && seenNonces == map[]
    {
      this.secret := secret;
      seenNonces := map[];
    }

    method OpenRequest(c: Crypto, a: Arrival) returns (r: Result<Bytes, WireError>)
      modifies this
      ensures r == Outcome(c, secret, old(seenNonces), a)
      ensures seenNonces == After(c, secret, old(seenNonces), a)
    {
      r := Opened(c, secret, a);
      if r.Err? {
        return;
      }
      var remaining := seenNonces.Keys;
      ghost var before := seenNonces;
      while remaining != {}
        invariant remaining <= before.Keys && remaining <= seenNonces.Keys <= before.Keys
        invariant forall n :: n in seenNonces ==> seenNonces[n] == before[n]
        invariant forall n :: n in before && n !in remaining ==>
                    (n in seenNonces <==> a.recorded - before[n] <= MAX_CLOCK_SKEW)
        decreases |remaining|
      {
        var nonce :| nonce in remaining;
        remaining := remaining - {nonce};
        if a.recorded - seenNonces[nonce] > MAX_CLOCK_SKEW {
          seenNonces := seenNonces - {nonce};
        }
      }
      assert seenNonces == Pruned(before, a.recorded);
      if a.request.metadata.nonce in seenNonces {
        return Err(Replayed);
      }
      seenNonces := seenNonces[a.request.metadata.nonce := a.recorded];
    }
  }

  // ---------------------------------------------------------------------------------------
  // Histories of one process
  // ---------------------------------------------------------------------------------------

  /** The table after a number of arrivals, starting empty. */
  function Table(c: Crypto, secret: string, arrivals: seq<Arrival>): map<string, Time> {
    if arrivals == [] then map[]
    else After(c, secret, Table(c, secret, arrivals[..|arrivals| - 1]), arrivals[|arrivals| - 1])
  }

  predicate Accepted(c: Crypto, secret: string, arrivals: seq<Arrival>, i: nat)
    requires i < |arrivals|
  {
    Outcome(c, secret, Table(c, secret, arrivals[..i]), arrivals[i]).Ok?
  }

  predicate Monotone(arrivals: seq<Arrival>) {
    (forall i :: 0 <= i < |arrivals| ==> arrivals[i].openedAt <= arrivals[i].recorded)
    && forall i, j :: 0 <= i < j < |arrivals| ==> arrivals[i].recorded <= arrivals[j].recorded
  }

  lemma TableGrows(c: Crypto, secret: string, arrivals: seq<Arrival>, j: nat)
    requires j < |arrivals|
    ensures Table(c, secret, arrivals[..j + 1]) == After(c, secret, Table(c, secret, arrivals[..j]), arrivals[j])
  {
    assert arrivals[..j + 1][..j] == arrivals[..j];
  }

  predicate Remembers(seen: map<string, Time>, nonce: string, since: Time) {
    nonce in seen && since <= seen[nonce]
  }

  lemma StillRemembered(c: Crypto, secret: string, seen: map<string, Time>, a: Arrival, nonce: string, since: Time)
    requires Remembers(seen, nonce, since) && a.recorded - since <= MAX_CLOCK_SKEW
    ensures Remembers(After(c, secret, seen, a), nonce, since)
  {
    assert nonce in Pruned(seen, a.recorded);
  }

  lemma NewlyRemembered(c: Crypto, secret: string, seen: map<string, Time>, a: Arrival)
    requires Outcome(c, secret, seen, a).Ok?
    ensures Remembers(After(c, secret, seen, a), a.request.metadata.nonce, a.recorded)
  {
  }

  /** An accepted nonce stays in the table for two minutes of recorded time. */
  lemma {:induction false} NonceIsRemembered(c: Crypto, secret: string, arrivals: seq<Arrival>, i: nat, j: nat)
    requires i < j <= |arrivals| && Monotone(arrivals) && Accepted(c, secret, arrivals, i)
    requires arrivals[j - 1].recorded - arrivals[i].recorded <= MAX_CLOCK_SKEW
    ensures Remembers(Table(c, secret, arrivals[..j]), arrivals[i].request.metadata.nonce, arrivals[i].recorded)
  {
    TableGrows(c, secret, arrivals, j - 1);
    var nonce, seen := arrivals[i].request.metadata.nonce, Table(c, secret, arrivals[..j - 1]);
    if i < j - 1 {
      assert arrivals[j - 2].recorded <= arrivals[j - 1].recorded;
      NonceIsRemembered(c, secret, arrivals, i, j - 1);
      StillRemembered(c, secret, seen, arrivals[j - 1], nonce, arrivals[i].recorded);
    } else {
      NewlyRemembered(c, secret, seen, arrivals[i]);
    }
  }

  /** Two acceptances of one nonce are more than two minutes apart, in every history. */
  lemma AcceptancesAreApart(c: Crypto, secret: string, arrivals: seq<Arrival>, i: nat, j: nat)
    requires i < j < |arrivals| && Monotone(arrivals)
    requires Accepted(c, secret, arrivals, i) && Accepted(c, secret, arrivals, j)
    requires arrivals[i].request.metadata.nonce == arrivals[j].request.metadata.nonce
    ensures arrivals[j].recorded - arrivals[i].recorded > MAX_CLOCK_SKEW
  {
    if arrivals[j].recorded - arrivals[i].recorded <= MAX_CLOCK_SKEW {
      NonceIsRemembered(c, secret, arrivals, i, j);
    }
  }

  function SentAt(a: Arrival): Time
    requires ParseInt(a.request.metadata.timestamp).Some?
  {
    FromUnix(ParseInt(a.request.metadata.timestamp).value)
  }

  /** At most once: when a request is handled at one instant and its timestamp is not later than
      the clock at its first acceptance, no later arrival of it is accepted, in any history. */
  lemma AcceptedAtMostOnce(c: Crypto, secret: string, arrivals: seq<Arrival>, i: nat, j: nat)
    requires i < j < |arrivals| && Monotone(arrivals) && Accepted(c, secret, arrivals, i)
    requires arrivals[j].request == arrivals[i].request && arrivals[j].openedAt == arrivals[j].recorded
    requires SentAt(arrivals[i]) <= arrivals[i].recorded
    ensures !Accepted(c, secret, arrivals, j)
  {
    if Accepted(c, secret, arrivals, j) {
      AcceptancesAreApart(c, secret, arrivals, i, j);
    }
  }

  /** Every time in the table is that of an acceptance. */
  lemma {:induction false} TableTells(c: Crypto, secret: string, arrivals: seq<Arrival>, j: nat, nonce: string) returns (i: nat)
    requires j <= |arrivals| && nonce in Table(c, secret, arrivals[..j])
    ensures i < j && Accepted(c, secret, arrivals, i) && arrivals[i].request.metadata.nonce == nonce
    ensures Table(c, secret, arrivals[..j])[nonce] == arrivals[i].recorded
  {
    assert arrivals[..0] == [];
    TableGrows(c, secret, arrivals, j - 1);
    var seen, a := Table(c, secret, arrivals[..j - 1]), arrivals[j - 1];
    EntryComesFrom(c, secret, seen, a, nonce);
    if Outcome(c, secret, seen, a).Ok? && a.request.metadata.nonce == nonce {
      i := j - 1;
    } else {
      i := TableTells(c, secret, arrivals, j - 1, nonce);
    }
  }

  /** An entry is new or an older one. */
  lemma EntryComesFrom(c: Crypto, secret: string, seen: map<string, Time>, a: Arrival, nonce: string)
    requires nonce in After(c, secret, seen, a)
    ensures if Outcome(c, secret, seen, a).Ok? && a.request.metadata.nonce == nonce
            then After(c, secret, seen, a)[nonce] == a.recorded
            else nonce in seen && After(c, secret, seen, a)[nonce] == seen[nonce]
  {
    if !(Outcome(c, secret, seen, a).Ok? && a.request.metadata.nonce == nonce) {
      OlderEntry(c, secret, seen, a, nonce);
    }
  }

  lemma OlderEntry(c: Crypto, secret: string, seen: map<string, Time>, a: Arrival, nonce: string)
    requires nonce in After(c, secret, seen, a)
    requires Outcome(c, secret, seen, a).Err? || a.request.metadata.nonce != nonce
    ensures nonce in seen && After(c, secret, seen, a)[nonce] == seen[nonce]
  {
    if Outcome(c, secret, seen, a) != Err(Replayed) {
      OpenNeverSaysReplayed(c, secret, a);
    }
  }

  predicate AcceptedNonce(c: Crypto, secret: string, arrivals: seq<Arrival>, i: nat, nonce: string)
    requires i < |arrivals|
  {
    Accepted(c, secret, arrivals, i) && arrivals[i].request.metadata.nonce == nonce
  }

  /** The whole behaviour of the table in one condition, for every arrival of every history: it is
      accepted exactly when it opens and no acceptance of its nonce was recorded in the two minutes
      before. */
  lemma AcceptedIff(c: Crypto, secret: string, arrivals: seq<Arrival>, j: nat)
    requires j < |arrivals| && Monotone(arrivals)
    ensures Accepted(c, secret, arrivals, j) <==>
              && Opened(c, secret, arrivals[j]).Ok?
              && forall i :: 0 <= i < j && AcceptedNonce(c, secret, arrivals, i, arrivals[j].request.metadata.nonce) ==>
                   arrivals[j].recorded - arrivals[i].recorded > MAX_CLOCK_SKEW
  {
    if Accepted(c, secret, arrivals, j) {
      forall i | 0 <= i < j && AcceptedNonce(c, secret, arrivals, i, arrivals[j].request.metadata.nonce)
        ensures arrivals[j].recorded - arrivals[i].recorded > MAX_CLOCK_SKEW
      {
        AcceptancesAreApart(c, secret, arrivals, i, j);
      }
    } else if Opened(c, secret, arrivals[j]).Ok? {
      var i := TableTells(c, secret, arrivals, j, arrivals[j].request.metadata.nonce);
    }
  }

  /** A later arrival of an accepted request, whatever arrives in between, is accepted exactly when
      its timestamp is still in the window and more than two minutes have been recorded since every
      acceptance of its nonce. */
  lemma AcceptedAgainIff(c: Crypto, secret: string, arrivals: seq<Arrival>, i: nat, j: nat)
    requires i < j < |arrivals| && Monotone(arrivals) && Accepted(c, secret, arrivals, i)
    requires arrivals[j].request == arrivals[i].request
    ensures Accepted(c, secret, arrivals, j) <==>
              && -MAX_CLOCK_SKEW <= arrivals[j].openedAt - SentAt(arrivals[i]) <= MAX_CLOCK_SKEW
              && forall k :: i <= k < j && AcceptedNonce(c, secret, arrivals, k, arrivals[i].request.metadata.nonce) ==>
                   arrivals[j].recorded - arrivals[k].recorded > MAX_CLOCK_SKEW
  {
    AcceptedIff(c, secret, arrivals, j);
  }

  /** So a replay at one instant of a monotone clock can succeed exactly for requests stamped
      later than the clock that first accepted them. */
  lemma ReplayIffFromTheFuture(c: Crypto, secret: string, arrivals: seq<Arrival>)
    requires |arrivals| > 0 && Accepted(c, secret, arrivals, |arrivals| - 1)
    ensures var last := arrivals[|arrivals| - 1];
            (exists t: Time :: t >= last.recorded && Accepted(c, secret, arrivals + [Arrival(last.request, t, t)], |arrivals|))
            <==> SentAt(last) > last.recorded
  {
    var last := arrivals[|arrivals| - 1];
    forall t: Time
      ensures Accepted(c, secret, arrivals + [Arrival(last.request, t, t)], |arrivals|) <==>
                -MAX_CLOCK_SKEW <= t - SentAt(last) <= MAX_CLOCK_SKEW && t - last.recorded > MAX_CLOCK_SKEW
    {
      AgainAtOnce(c, secret, arrivals, t);
    }
    if SentAt(last) > last.recorded {
      var t := SentAt(last) + MAX_CLOCK_SKEW;
      assert Accepted(c, secret, arrivals + [Arrival(last.request, t, t)], |arrivals|);
    }
  }

  lemma AgainAtOnce(c: Crypto, secret: string, arrivals: seq<Arrival>, t: Time)
    requires |arrivals| > 0 && Accepted(c, secret, arrivals, |arrivals| - 1)
    ensures var last := arrivals[|arrivals| - 1];
            Accepted(c, secret, arrivals + [Arrival(last.request, t, t)], |arrivals|) <==>
              -MAX_CLOCK_SKEW <= t - SentAt(last) <= MAX_CLOCK_SKEW && t - last.recorded > MAX_CLOCK_SKEW
  {
    var n := |arrivals| - 1;
    assert (arrivals + [Arrival(arrivals[n].request, t, t)])[..n + 1] == arrivals && arrivals[..n + 1] == arrivals;
    TableGrows(c, secret, arrivals, n);
  }

  /** Whoever cannot produce an acceptable request cannot change the table. */
  lemma RefusedRequestLeavesTable(c: Crypto, secret: string, seen: map<string, Time>, a: Arrival)
    requires Outcome(c, secret, seen, a).Err?
    ensures After(c, secret, seen, a).Keys <= seen.Keys
    ensures Outcome(c, secret, seen, a) != Err(Replayed) ==> After(c, secret, seen, a) == seen
  {
    if Outcome(c, secret, seen, a) != Err(Replayed) {
      OpenNeverSaysReplayed(c, secret, a);
    }
  }

  lemma OpenNeverSaysReplayed(c: Crypto, secret: string, a: Arrival)
    ensures Opened(c, secret, a) != Err(Replayed)
  {
  }
}
