/** Sealed requests between controller and guard (internal/guardwire/wire.go). Cryptography is a
    record of functions; what it must satisfy is a predicate that each theorem asks for. */
module GuardWire {
  import opened Base

  type Bytes = seq<bv8>

  const MAX_CLOCK_SKEW: int := 2 * MINUTE
  const MESSAGE_NONCE_SIZE := 12
  const TAG_SIZE := 16
  const SIGNATURE_SIZE := 32

  /** Unix time zero, counted from the zero time. */
  const EPOCH: Time := 62135596800 * SECOND

  datatype Crypto = Crypto(
    derive: (string, string) -> Bytes,
    digest: Bytes -> Bytes,
    mac: (Bytes, string) -> Bytes,
    seal: (Bytes, Bytes, Bytes, string) -> Bytes,
    open: (Bytes, Bytes, Bytes, string) -> Option<Bytes>,
    encode: Bytes -> string,
    decode: string -> Option<Bytes>)
  {
    /** Decoding inverts encoding, decryption inverts encryption, and the sizes are fixed. */
    ghost predicate Correct() {
      && (forall b :: decode(encode(b)) == Some(b))
      && (forall k, m :: |mac(k, m)| == SIGNATURE_SIZE)
      && (forall k, n, p, a :: |seal(k, n, p, a)| == |p| + TAG_SIZE && open(k, n, seal(k, n, p, a), a) == Some(p))
      && (forall b, i :: 0 <= i < |encode(b)| ==> encode(b)[i] != '\n')
    }
  }

  datatype Metadata = Metadata(timestamp: string, nonce: string, signature: string)

  datatype WireError =
    | MissingArguments | MissingSecret | InvalidTimestamp | OutsideWindow | InvalidNonce
    | InvalidSignature | InvalidPayload | Replayed

  // ---------------------------------------------------------------------------------------
  // Decimal timestamps
  // ---------------------------------------------------------------------------------------

  const MAX_INT64 := 0x7FFF_FFFF_FFFF_FFFF

  function Digits(n: nat): string {
    if n < 10 then ['0' + n as char] else Digits(n / 10) + ['0' + (n % 10) as char]
  }

  /** strconv.FormatInt in base ten */
  function FormatInt(n: int): string {
    if n < 0 then "-" + Digits(-n) else Digits(n)
  }

  function ParseDigits(s: string): Option<nat> {
    if s == [] then Some(0)
    else
      var c, rest := s[|s| - 1], ParseDigits(s[..|s| - 1]);
      if '0' <= c <= '9' && rest.Some? then Some(10 * rest.value + (c - '0') as nat) else None
  }

  /** strconv.ParseInt in base ten, 64 bits */
  function ParseInt(s: string): Option<int> {
    if s == [] then None
    else
      var negative := s[0] == '-';
      var digits := if s[0] in {'-', '+'} then s[1..] else s;
      var n := ParseDigits(digits);
      if digits == [] || n.None? then None
      else
        var magnitude: int := n.value;
        var value: int := if negative then -magnitude else magnitude;
        if -MAX_INT64 - 1 <= value <= MAX_INT64 then Some(value) else None
  }

  lemma {:induction false} DigitsParse(n: nat)
    ensures Digits(n) != [] && ParseDigits(Digits(n)) == Some(n)
    ensures forall i :: 0 <= i < |Digits(n)| ==> '0' <= Digits(n)[i] <= '9'
  {
    if n < 10 {
      assert Digits(n)[..0] == [];
    } else {
      DigitsParse(n / 10);
      assert Digits(n)[..|Digits(n)| - 1] == Digits(n / 10);
    }
  }

  lemma TimestampsParse(n: int)
    requires -MAX_INT64 - 1 <= n <= MAX_INT64
    ensures ParseInt(FormatInt(n)) == Some(n)
  {
    if n < 0 {
      NegativeParses(n);
    } else {
      PositiveParses(n);
    }
  }

  lemma PositiveParses(n: nat)
    requires n <= MAX_INT64
    ensures ParseInt(Digits(n)) == Some(n)
  {
    DigitsParse(n);
    assert Digits(n)[0] !in {'-', '+'};
  }

  lemma NegativeParses(n: int)
    requires -MAX_INT64 - 1 <= n < 0
    ensures ParseInt("-" + Digits(-n)) == Some(n)
  {
    DigitsParse(-n);
    assert ("-" + Digits(-n))[0] == '-' && ("-" + Digits(-n))[1..] == Digits(-n);
  }

  lemma {:induction false} OnlyDigits(s: string)
    requires ParseDigits(s).Some?
    ensures '\n' !in s
  {
    if s != [] {
      OnlyDigits(s[..|s| - 1]);
      assert s == s[..|s| - 1] + [s[|s| - 1]];
    }
  }

  lemma TimestampHasOneLine(s: string)
    requires ParseInt(s).Some?
    ensures '\n' !in s
  {
    if s[0] in {'-', '+'} {
      OnlyDigits(s[1..]);
      assert s == [s[0]] + s[1..];
    } else {
      OnlyDigits(s);
    }
  }

  /** time.Time.Unix: whole seconds since the epoch, rounded down. */
  function UnixSeconds(t: Time): int {
    (t - EPOCH) / SECOND
  }

  function FromUnix(seconds: int): Time {
    EPOCH + seconds * SECOND
  }

  // ---------------------------------------------------------------------------------------
  // Seal and Open
  // ---------------------------------------------------------------------------------------

  function Aad(verb: string, path: string, timestamp: string, nonce: string): string {
    Upper(verb) + "\n" + path + "\n" + timestamp + "\n" + nonce
  }

  function Canonical(c: Crypto, verb: string, path: string, timestamp: string, nonce: string, body: Bytes): string {
    Aad(verb, path, timestamp, nonce) + "\n" + c.encode(c.digest(body))
  }

  datatype Sealed = Sealed(body: Bytes, metadata: Metadata)

  /** The two nonces are the random choices of the sender. */
  function Seal(c: Crypto, secret: string, verb: string, path: string, plaintext: Bytes, now: Time,
                requestNonce: Bytes, messageNonce: Bytes): Result<Sealed, WireError>
    requires |requestNonce| == 18 && |messageNonce| == MESSAGE_NONCE_SIZE
  {
    if Trim(secret) == "" || verb == "" || path == "" then Err(MissingArguments)
    else
      var timestamp := FormatInt(UnixSeconds(now));
      var nonce := c.encode(requestNonce);
      var ciphertext := c.seal(c.derive("encryption", secret), messageNonce, plaintext,
                               Aad(verb, path, timestamp, nonce));
      var body := messageNonce + ciphertext;
      var signature := c.mac(c.derive("authentication", secret),
                             Canonical(c, verb, path, timestamp, nonce, body));
      Ok(Sealed(body, Metadata(timestamp, nonce, c.encode(signature))))
  }

  predicate InWindow(timestamp: string, now: Time)
    requires ParseInt(timestamp).Some?
  {
    -MAX_CLOCK_SKEW <= now - FromUnix(ParseInt(timestamp).value) <= MAX_CLOCK_SKEW
  }

  function Open(c: Crypto, secret: string, verb: string, path: string, body: Bytes, m: Metadata, now: Time)
    : Result<Bytes, WireError>
  {
    var nonce, signature := c.decode(m.nonce), c.decode(m.signature);
    if Trim(secret) == "" then Err(MissingSecret)
    else if ParseInt(m.timestamp).None? then Err(InvalidTimestamp)
    else if !InWindow(m.timestamp, now) then Err(OutsideWindow)
    else if nonce.None? || |nonce.value| < 16 then Err(InvalidNonce)
    else if signature.None? || |signature.value| != SIGNATURE_SIZE then Err(InvalidSignature)
    else if signature.value != c.mac(c.derive("authentication", secret),
                                     Canonical(c, verb, path, m.timestamp, m.nonce, body)) then Err(InvalidSignature)
    else if |body| < MESSAGE_NONCE_SIZE + TAG_SIZE then Err(InvalidPayload)
    else
      var plaintext := c.open(c.derive("encryption", secret), body[..MESSAGE_NONCE_SIZE], body[MESSAGE_NONCE_SIZE..],
                              Aad(verb, path, m.timestamp, m.nonce));
      if plaintext.None? then Err(InvalidPayload) else Ok(plaintext.value)
  }

  /** Opening what was sealed gives back the plaintext exactly when the receiver's clock is within
      two minutes of the sender's, taken down to the second; otherwise it is refused as outside
      the window. The letter case of the method does not matter. */
  lemma OpenInvertsSeal(c: Crypto, secret: string, verb: string, verb': string, path: string, plaintext: Bytes,
                        sent: Time, requestNonce: Bytes, messageNonce: Bytes, received: Time)
    requires c.Correct() && |requestNonce| == 18 && |messageNonce| == MESSAGE_NONCE_SIZE
    requires -MAX_INT64 - 1 <= UnixSeconds(sent) <= MAX_INT64 && Upper(verb') == Upper(verb)
    ensures var s := Seal(c, secret, verb, path, plaintext, sent, requestNonce, messageNonce);
            && (s.Err? <==> Trim(secret) == "" || verb == "" || path == "")
            && (s.Ok? ==>
                  var result := Open(c, secret, verb', path, s.value.body, s.value.metadata, received);
                  var sentSecond := sent - (sent - EPOCH) % SECOND;
                  if -MAX_CLOCK_SKEW <= received - sentSecond <= MAX_CLOCK_SKEW then result == Ok(plaintext)
                  else result == Err(OutsideWindow))
  {
    TimestampsParse(UnixSeconds(sent));
    assert FromUnix(UnixSeconds(sent)) == sent - (sent - EPOCH) % SECOND;
    var s := Seal(c, secret, verb, path, plaintext, sent, requestNonce, messageNonce);
    if s.Ok? && InWindow(s.value.metadata.timestamp, received) {
      SealedOpens(c, secret, verb, verb', path, plaintext, s.value.metadata.timestamp, requestNonce, messageNonce, received);
    }
  }

  /** The part of opening that does not depend on when the request was sealed. */
  lemma SealedOpens(c: Crypto, secret: string, verb: string, verb': string, path: string, plaintext: Bytes,
                    timestamp: string, requestNonce: Bytes, messageNonce: Bytes, received: Time)
    requires c.Correct() && |requestNonce| == 18 && |messageNonce| == MESSAGE_NONCE_SIZE && Trim(secret) != ""
    requires ParseInt(timestamp).Some? && InWindow(timestamp, received) && Upper(verb') == Upper(verb)
    ensures var nonce := c.encode(requestNonce);
            var body := messageNonce + c.seal(c.derive("encryption", secret), messageNonce, plaintext, Aad(verb, path, timestamp, nonce));
            var signature := c.mac(c.derive("authentication", secret), Canonical(c, verb, path, timestamp, nonce, body));
            Open(c, secret, verb', path, body, Metadata(timestamp, nonce, c.encode(signature)), received) == Ok(plaintext)
  {
    var aad := Aad(verb, path, timestamp, c.encode(requestNonce));
    var ciphertext := c.seal(c.derive("encryption", secret), messageNonce, plaintext, aad);
    var body := messageNonce + ciphertext;
    assert body[..MESSAGE_NONCE_SIZE] == messageNonce && body[MESSAGE_NONCE_SIZE..] == ciphertext;
  }

  // ---------------------------------------------------------------------------------------
  // What a signature covers
  // ---------------------------------------------------------------------------------------

  lemma CanonicalIsInjective(c: Crypto, verb: string, path: string, timestamp: string, nonce: string, body: Bytes,
                             verb': string, path': string, timestamp': string, nonce': string, body': Bytes)
    requires '\n' !in Upper(verb) + path + timestamp + nonce
    requires '\n' !in Upper(verb') + path' + timestamp' + nonce'
    requires Canonical(c, verb, path, timestamp, nonce, body) == Canonical(c, verb', path', timestamp', nonce', body')
    ensures Upper(verb) == Upper(verb') && path == path' && timestamp == timestamp' && nonce == nonce'
    ensures c.encode(c.digest(body)) == c.encode(c.digest(body'))
  {
    var d, d' := c.encode(c.digest(body)), c.encode(c.digest(body'));
    var t, t' := timestamp + "\n" + (nonce + "\n" + d), timestamp' + "\n" + (nonce' + "\n" + d');
    assert Canonical(c, verb, path, timestamp, nonce, body) == Upper(verb) + "\n" + (path + "\n" + t);
    assert Canonical(c, verb', path', timestamp', nonce', body') == Upper(verb') + "\n" + (path' + "\n" + t');
    FirstPart('\n', Upper(verb), path + "\n" + t, Upper(verb'), path' + "\n" + t');
    FirstPart('\n', path, t, path', t');
    FirstPart('\n', timestamp, nonce + "\n" + d, timestamp', nonce' + "\n" + d');
    FirstPart('\n', nonce, d, nonce', d');
  }

  // ---------------------------------------------------------------------------------------
  // What is accepted
  // ---------------------------------------------------------------------------------------

  /** The text that is signed, line by line. */
  function SignedText(c: Crypto, verb: string, path: string, m: Metadata, body: Bytes): string {
    Upper(verb) + "\n" + path + "\n" + m.timestamp + "\n" + m.nonce + "\n" + c.encode(c.digest(body))
  }

  /** A request is accepted exactly when there is a secret, its timestamp is a number of seconds
      within two minutes of the clock either way, its nonce has at least 16 bytes, its 32 bytes of
      signature are those of its five lines, and its body, a nonce of 12 bytes and the rest, decrypts
      under the first four of them; the plaintext is what it decrypts to. */
  lemma OpenAccepts(c: Crypto, secret: string, verb: string, path: string, body: Bytes, m: Metadata, now: Time, plaintext: Bytes)
    ensures Open(c, secret, verb, path, body, m, now) == Ok(plaintext) <==>
              && Trim(secret) != "" && ParseInt(m.timestamp).Some?
              && -120_000_000_000 <= now - (EPOCH + ParseInt(m.timestamp).value * 1_000_000_000) <= 120_000_000_000
              && c.decode(m.nonce).Some? && |c.decode(m.nonce).value| >= 16
              && c.decode(m.signature) == Some(c.mac(c.derive("authentication", secret), SignedText(c, verb, path, m, body)))
              && |c.decode(m.signature).value| == 32 && |body| >= 28
              && c.open(c.derive("encryption", secret), body[..12], body[12..],
                        Upper(verb) + "\n" + path + "\n" + m.timestamp + "\n" + m.nonce) == Some(plaintext)
  {
  }

  /** A signature taken from one accepted request fits no other: whatever else is accepted with
      it has the same method, path, timestamp, nonce and body. The two collisions that would
      break it, in the code and in the digest, are excluded for this pair. */
  lemma SignatureBindsRequest(c: Crypto, secret: string,
                              verb: string, path: string, body: Bytes, m: Metadata, now: Time,
                              verb': string, path': string, body': Bytes, m': Metadata, now': Time)
    requires c.Correct()
    requires Open(c, secret, verb, path, body, m, now).Ok? && Open(c, secret, verb', path', body', m', now').Ok?
    requires c.decode(m.signature) == c.decode(m'.signature)
    requires '\n' !in Upper(verb) + path + m.nonce && '\n' !in Upper(verb') + path' + m'.nonce
    requires var k := c.derive("authentication", secret);
             var s, s' := Canonical(c, verb, path, m.timestamp, m.nonce, body),
                          Canonical(c, verb', path', m'.timestamp, m'.nonce, body');
             c.mac(k, s) == c.mac(k, s') ==> s == s'
    requires c.digest(body) == c.digest(body') ==> body == body'
    ensures Upper(verb') == Upper(verb) && path' == path && body' == body
    ensures m'.timestamp == m.timestamp && m'.nonce == m.nonce
  {
    TimestampHasOneLine(m.timestamp);
    TimestampHasOneLine(m'.timestamp);
    CanonicalIsInjective(c, verb, path, m.timestamp, m.nonce, body, verb', path', m'.timestamp, m'.nonce, body');
    assert c.decode(c.encode(c.digest(body))) == Some(c.digest(body));
    assert c.decode(c.encode(c.digest(body'))) == Some(c.digest(body'));
  }

  /** A timestamp that is accepted is a 64-bit number. */
  lemma ParsedIsInt64(s: string)
    requires ParseInt(s).Some?
    ensures -9_223_372_036_854_775_808 <= ParseInt(s).value <= 9_223_372_036_854_775_807
  {
  }
}
