/** Source restrictions of managed tunnels: canonical CIDR lists, the nftables rule list the
    guard compiles from them, and what a packet meets when the kernel walks that list. */
module SourceAcl {
  import opened Base
  import opened Ordering

  datatype Family = V4 | V6

  datatype Address = Address(family: Family, bits: nat)

  function Width(family: Family): nat {
    if family.V4? then 32 else 128
  }

  function Pow2(n: nat): (p: nat)
    ensures p > 0
  {
    if n == 0 then 1 else 2 * Pow2(n - 1)
  }

  /** A CIDR range in canonical form: `base` has no host bits. */
  datatype Cidr = Cidr(family: Family, base: nat, prefix: nat)

  /** What net.ParseCIDR makes of one requested range. */
  datatype CidrText = Malformed | Literal(address: Address, prefix: nat)

  datatype CidrError = TooManyCidrs | MalformedCidr | UnboundedCidr

  function HostSize(family: Family, prefix: nat): (size: nat)
    ensures size > 0
  {
    if prefix <= Width(family) then Pow2(Width(family) - prefix) else 1
  }

  /** Clears the low bits below `size`, a power of two. */
  function Mask(bits: nat, size: nat): (masked: nat)
    requires size > 0
  {
    Product(size, bits / size)
  }

  function Product(x: nat, y: nat): nat {
    x * y
  }

  function Canonical(address: Address, prefix: nat): Cidr {
    Cidr(address.family, Mask(address.bits, HostSize(address.family, prefix)), prefix)
  }

  predicate Contains(c: Cidr, a: Address) {
    a.family == c.family && Mask(a.bits, HostSize(c.family, c.prefix)) == c.base
  }

  predicate InAny(sources: seq<Cidr>, a: Address) {
    exists i :: 0 <= i < |sources| && Contains(sources[i], a)
  }

  predicate Multicast(a: Address) {
    if a.family.V4? then a.bits / Pow2(28) == 14 else a.bits / Pow2(120) == 255
  }

  predicate Unspecified(a: Address) {
    a.bits == 0
  }

  const MAX_SOURCES := 64

  function CidrProblem(v: CidrText): Option<CidrError> {
    match v
    case Malformed => Some(MalformedCidr)
    case Literal(address, prefix) =>
      var c := Canonical(address, prefix);
      if prefix == 0 || Unspecified(Address(c.family, c.base)) || Multicast(Address(c.family, c.base))
      then Some(UnboundedCidr) else None
  }

  /** The order a canonical list is kept in. */
  predicate CidrBefore(a: Cidr, b: Cidr) {
    if a.family != b.family then a.family.V4?
    else if a.base != b.base then a.base < b.base
    else a.prefix < b.prefix
  }

  predicate StrictlySorted(s: seq<Cidr>) {
    forall i, j :: 0 <= i < j < |s| ==> CidrBefore(s[i], s[j])
  }

  /** Inserts a range into a sorted list; a range already there is not repeated. */
  function Insert(c: Cidr, s: seq<Cidr>): (r: seq<Cidr>)
    requires StrictlySorted(s)
    ensures StrictlySorted(r)
    ensures forall x :: x in r <==> x == c || x in s
    ensures |r| <= |s| + 1
  {
    InsertInto(c, s, CidrBefore)
  }

  function Sort(s: seq<Cidr>): (r: seq<Cidr>)
    ensures StrictlySorted(r)
    ensures forall x :: x in r <==> x in s
    ensures |r| <= |s|
  {
    if s == [] then [] else Insert(s[0], Sort(s[1..]))
  }

  function FirstProblem(values: seq<CidrText>): (p: Option<CidrError>)
    ensures p.None? <==> forall v :: v in values ==> CidrProblem(v).None?
  {
    if values == [] then None
    else if CidrProblem(values[0]).Some? then CidrProblem(values[0])
    else FirstProblem(values[1..])
  }

  function Ranges(values: seq<CidrText>): seq<Cidr>
    requires forall v :: v in values ==> v.Literal?
  {
    seq(|values|, i requires 0 <= i < |values| => Canonical(values[i].address, values[i].prefix))
  }

  /** The canonical list of the requested ranges, or why the request is refused. */
  function NormalizeSources(values: seq<CidrText>): Result<seq<Cidr>, CidrError> {
    if |values| > MAX_SOURCES then Err(TooManyCidrs)
    else if FirstProblem(values).Some? then Err(FirstProblem(values).value)
    else Ok(Sort(Ranges(values)))
  }

  /** The text form of a canonical list, as it is written to the state file. */
  function Texts(sources: seq<Cidr>): seq<CidrText> {
    seq(|sources|, i requires 0 <= i < |sources| =>
      Literal(Address(sources[i].family, sources[i].base), sources[i].prefix))
  }

  lemma StrictlySortedUnique(a: seq<Cidr>, b: seq<Cidr>)
    requires StrictlySorted(a) && StrictlySorted(b) && forall x :: x in a <==> x in b
    ensures a == b
  {
    AscendingIsUnique(a, b, CidrBefore);
  }

  lemma Distributes(n: int, k: int, q: int)
    ensures n * (k - q) == n * k - n * q
  {
  }

  lemma ProductAtLeast(n: int, d: int)
    requires n >= 0 && d != 0
    ensures n * d >= n || n * d <= -n
  {
    Distributes(n, d, 1);
    Distributes(n, d, -1);
    if d >= 1 {
      ProductNonNegative(n, d - 1);
    } else {
      ProductNonNegative(n, -1 - d);
      Distributes(n, -1, d);
    }
  }

  lemma ProductNonNegative(n: nat, d: nat)
    ensures n * d >= 0
  {
  }

  lemma QuotientOfMultiple(n: nat, k: nat)
    requires n > 0
    ensures Product(n, k) / n == k
  {
    var q := Product(n, k) / n;
    var r := Product(n, k) % n;
    assert n * k == n * q + r;
    Distributes(n, k, q);
    if k != q {
      assert false by { ProductAtLeast(n, k - q); }
    }
  }

  /** Masking is idempotent, so a canonical range is its own canonical form. */
  lemma CanonicalIdempotent(address: Address, prefix: nat)
    ensures var c := Canonical(address, prefix); Canonical(Address(c.family, c.base), c.prefix) == c
  {
    MaskTwice(address.bits, HostSize(address.family, prefix));
  }

  lemma MaskTwice(bits: nat, size: nat)
    requires size > 0
    ensures Mask(Mask(bits, size), size) == Mask(bits, size)
  {
    QuotientOfMultiple(size, bits / size);
  }

  /** A canonical list survives being normalised again: what the guard writes to its state
      file is exactly what reload accepts. */
  lemma NormalizeIdempotent(values: seq<CidrText>)
    requires NormalizeSources(values).Ok?
    ensures NormalizeSources(Texts(NormalizeSources(values).value)) == NormalizeSources(values)
  {
    var sources := NormalizeSources(values).value;
    var texts := Texts(sources);
    var ranges := Ranges(values);
    forall i | 0 <= i < |sources|
      ensures CidrProblem(texts[i]).None? && Canonical(texts[i].address, texts[i].prefix) == sources[i]
    {
      assert sources[i] in sources && sources[i] in ranges;
      var j :| 0 <= j < |ranges| && ranges[j] == sources[i];
      assert values[j] in values;
      CanonicalIdempotent(values[j].address, values[j].prefix);
    }
    assert FirstProblem(texts).None?;
    assert Ranges(texts) == sources;
    StrictlySortedUnique(Sort(sources), sources);
  }

  lemma {:induction false} FirstProblemAt(values: seq<CidrText>, i: nat)
    requires i < |values|
    requires forall v :: v in values[..i] ==> CidrProblem(v).None?
    requires CidrProblem(values[i]).Some?
    ensures FirstProblem(values) == CidrProblem(values[i])
  {
    if i > 0 {
      assert values[0] in values[..i];
      forall v | v in values[1..][..i - 1] ensures CidrProblem(v).None? {
        assert values[1..][..i - 1] == values[..i][1..];
        assert v in values[..i];
      }
      FirstProblemAt(values[1..], i - 1);
    }
  }

  /** A list that is its own normal form. */
  predicate CanonicalSources(sources: seq<Cidr>) {
    |sources| <= MAX_SOURCES && StrictlySorted(sources)
    && forall i :: 0 <= i < |sources| ==>
         var text := Literal(Address(sources[i].family, sources[i].base), sources[i].prefix);
         CidrProblem(text).None? && Canonical(text.address, text.prefix) == sources[i]
  }

  lemma CanonicalSourcesAreNormal(sources: seq<Cidr>)
    ensures CanonicalSources(sources) <==> NormalizeSources(Texts(sources)) == Ok(sources)
  {
    var texts := Texts(sources);
    if CanonicalSources(sources) {
      assert forall v :: v in texts ==> CidrProblem(v).None?;
      assert Ranges(texts) == sources;
      StrictlySortedUnique(Sort(sources), sources);
    } else if NormalizeSources(texts) == Ok(sources) {
      forall i | 0 <= i < |sources|
        ensures CidrProblem(texts[i]).None? && Canonical(texts[i].address, texts[i].prefix) == sources[i]
      {
        assert texts[i] in texts;
        var ranges := Ranges(texts);
        assert sources[i] in sources && sources[i] in ranges;
        CanonicalIdempotent(texts[i].address, texts[i].prefix);
        var j :| 0 <= j < |ranges| && ranges[j] == sources[i];
        CanonicalIdempotent(texts[j].address, texts[j].prefix);
      }
    }
  }

  /** The loop of the source: canonicalise, drop repeats in arrival order, then sort. */
  method NormalizeSourceCidrs(values: seq<CidrText>) returns (r: Result<seq<Cidr>, CidrError>)
    ensures r == NormalizeSources(values)
  {
    if |values| > MAX_SOURCES {
      return Err(TooManyCidrs);
    }
    var seen: set<Cidr> := {};
    var result: seq<Cidr> := [];
    var i := 0;
    while i < |values|
      invariant 0 <= i <= |values|
      invariant forall v :: v in values[..i] ==> CidrProblem(v).None?
      invariant forall x :: x in seen <==> x in Ranges(values[..i])
      invariant forall x :: x in result <==> x in seen
    {
      var problem := CidrProblem(values[i]);
      if problem.Some? {
        FirstProblemAt(values, i);
        return Err(problem.value);
      }
      var c := Canonical(values[i].address, values[i].prefix);
      assert values[..i + 1] == values[..i] + [values[i]];
      assert Ranges(values[..i + 1]) == Ranges(values[..i]) + [c];
      if c !in seen {
        seen := seen + {c};
        result := result + [c];
      }
      i := i + 1;
    }
    assert values[..|values|] == values;
    StrictlySortedUnique(Sort(result), Sort(Ranges(values)));
    return Ok(Sort(result));
  }

  // ---------------------------------------------------------------------------------------
  // The compiled table
  // ---------------------------------------------------------------------------------------

  /** What the compiler reads of one source-restricted resource. */
  datatype AclEntry = AclEntry(id: string, port: int, sources: seq<Cidr>)

  datatype Rule =
    | AcceptFrom(family: Family, sources: seq<Cidr>, port: int)
    | DropPort(port: int)

  datatype Packet = Packet(source: Address, port: int)

  function OfFamily(sources: seq<Cidr>, family: Family): seq<Cidr> {
    if sources == [] then []
    else (if sources[0].family == family then [sources[0]] else []) + OfFamily(sources[1..], family)
  }

  function AcceptRule(family: Family, sources: seq<Cidr>, port: int): seq<Rule> {
    if sources == [] then [] else [AcceptFrom(family, sources, port)]
  }

  function EntryRules(e: AclEntry): seq<Rule> {
    AcceptRule(V4, OfFamily(e.sources, V4), e.port)
    + AcceptRule(V6, OfFamily(e.sources, V6), e.port)
    + [DropPort(e.port)]
  }

  function Compile(entries: seq<AclEntry>): seq<Rule> {
    if entries == [] then [] else EntryRules(entries[0]) + Compile(entries[1..])
  }

  lemma {:induction false} OfFamilyAppend(xs: seq<Cidr>, x: Cidr, family: Family)
    ensures OfFamily(xs + [x], family) == OfFamily(xs, family) + (if x.family == family then [x] else [])
  {
    if xs != [] {
      assert (xs + [x])[1..] == xs[1..] + [x];
      OfFamilyAppend(xs[1..], x, family);
    }
  }

  lemma {:induction false} CompileAppend(xs: seq<AclEntry>, x: AclEntry)
    ensures Compile(xs + [x]) == Compile(xs) + EntryRules(x)
  {
    if xs != [] {
      assert (xs + [x])[1..] == xs[1..] + [x];
      CompileAppend(xs[1..], x);
    }
  }

  /** The two address lists of one resource. */
  method SplitFamilies(sources: seq<Cidr>) returns (v4: seq<Cidr>, v6: seq<Cidr>)
    ensures v4 == OfFamily(sources, V4) && v6 == OfFamily(sources, V6)
  {
    v4, v6 := [], [];
    for j := 0 to |sources|
      invariant v4 == OfFamily(sources[..j], V4) && v6 == OfFamily(sources[..j], V6)
    {
      assert sources[..j + 1] == sources[..j] + [sources[j]];
      OfFamilyAppend(sources[..j], sources[j], V4);
      OfFamilyAppend(sources[..j], sources[j], V6);
      if sources[j].family.V4? {
        v4 := v4 + [sources[j]];
      } else {
        v6 := v6 + [sources[j]];
      }
    }
    assert sources[..|sources|] == sources;
  }

  /** The rule builder of the source: per resource, up to two accepts and then a drop. */
  method BuildRules(entries: seq<AclEntry>) returns (rules: seq<Rule>)
    ensures rules == Compile(entries)
  {
    rules := [];
    for i := 0 to |entries|
      invariant rules == Compile(entries[..i])
    {
      var e := entries[i];
      var v4, v6 := SplitFamilies(e.sources);
      assert entries[..i + 1] == entries[..i] + [e];
      CompileAppend(entries[..i], e);
      var block: seq<Rule> := [];
      if |v4| > 0 {
        block := block + [AcceptFrom(V4, v4, e.port)];
      }
      if |v6| > 0 {
        block := block + [AcceptFrom(V6, v6, e.port)];
      }
      block := block + [DropPort(e.port)];
      rules := rules + block;
    }
    assert entries[..|entries|] == entries;
  }

  predicate Matches(rule: Rule, p: Packet) {
    p.port == rule.port
    && (rule.AcceptFrom? ==> p.source.family == rule.family && InAny(rule.sources, p.source))
  }

  /** The kernel's walk: the first matching rule decides, the chain's policy is accept. */
  predicate Accepts(rules: seq<Rule>, p: Packet) {
    if rules == [] then true
    else if Matches(rules[0], p) then rules[0].AcceptFrom?
    else Accepts(rules[1..], p)
  }

  /** What the restriction is meant to do: the first listed resource with the packet's port
      decides, and it admits exactly its own sources. */
  predicate Admits(entries: seq<AclEntry>, p: Packet) {
    if entries == [] then true
    else if entries[0].port == p.port then InAny(entries[0].sources, p.source)
    else Admits(entries[1..], p)
  }

  lemma {:induction false} OfFamilyMembers(sources: seq<Cidr>, family: Family, a: Address)
    ensures a.family == family ==> (InAny(OfFamily(sources, family), a) <==> InAny(sources, a))
    ensures InAny(OfFamily(sources, family), a) ==> a.family == family
  {
    if sources != [] {
      OfFamilyMembers(sources[1..], family, a);
      InAnyConcat([sources[0]], sources[1..], a);
      assert sources == [sources[0]] + sources[1..];
      var head := if sources[0].family == family then [sources[0]] else [];
      InAnyConcat(head, OfFamily(sources[1..], family), a);
    }
  }

  lemma InAnyConcat(xs: seq<Cidr>, ys: seq<Cidr>, a: Address)
    ensures InAny(xs + ys, a) <==> InAny(xs, a) || InAny(ys, a)
  {
    if InAny(xs, a) {
      var i :| 0 <= i < |xs| && Contains(xs[i], a);
      assert (xs + ys)[i] == xs[i];
    }
    if InAny(ys, a) {
      var i :| 0 <= i < |ys| && Contains(ys[i], a);
      assert (xs + ys)[|xs| + i] == ys[i];
    }
  }

  lemma {:induction false} AcceptsConcat(xs: seq<Rule>, ys: seq<Rule>, p: Packet)
    ensures Accepts(xs + ys, p) ==
            if exists i :: 0 <= i < |xs| && Matches(xs[i], p) then Accepts(xs, p) else Accepts(ys, p)
  {
    if xs == [] {
      assert xs + ys == ys;
    } else {
      assert (xs + ys)[1..] == xs[1..] + ys;
      AcceptsConcat(xs[1..], ys, p);
      if exists i :: 0 <= i < |xs| && Matches(xs[i], p) {
        var i :| 0 <= i < |xs| && Matches(xs[i], p);
        if i > 0 { assert xs[1..][i - 1] == xs[i]; }
      }
      if exists i :: 0 <= i < |xs[1..]| && Matches(xs[1..][i], p) {
        var i :| 0 <= i < |xs[1..]| && Matches(xs[1..][i], p);
        assert xs[i + 1] == xs[1..][i];
      }
    }
  }

  lemma EntryDecides(e: AclEntry, p: Packet)
    ensures (exists i :: 0 <= i < |EntryRules(e)| && Matches(EntryRules(e)[i], p)) <==> e.port == p.port
    ensures e.port == p.port ==> (Accepts(EntryRules(e), p) <==> InAny(e.sources, p.source))
  {
    var rules := EntryRules(e);
    var v4 := AcceptRule(V4, OfFamily(e.sources, V4), e.port);
    var v6 := AcceptRule(V6, OfFamily(e.sources, V6), e.port);
    assert rules[|rules| - 1] == DropPort(e.port);
    OfFamilyMembers(e.sources, V4, p.source);
    OfFamilyMembers(e.sources, V6, p.source);
    AcceptsConcat(v4 + v6, [DropPort(e.port)], p);
    AcceptsConcat(v4, v6, p);
    if e.port == p.port {
      assert Matches(rules[|rules| - 1], p);
      if p.source.family.V4? {
        assert |v4| > 0 ==> (v4 + v6)[0] == v4[0];
      } else {
        assert |v6| > 0 ==> (v4 + v6)[|v4|] == v6[0];
      }
    }
  }

  /** The compiled table decides every packet as intended, for any list of resources and any
      mix of address families. */
  lemma {:induction false} CompilerCorrect(entries: seq<AclEntry>, p: Packet)
    ensures Accepts(Compile(entries), p) <==> Admits(entries, p)
  {
    if entries != [] {
      CompilerCorrect(entries[1..], p);
      EntryDecides(entries[0], p);
      AcceptsConcat(EntryRules(entries[0]), Compile(entries[1..]), p);
    }
  }

  /** When no other entry shares an entry's port, that entry alone decides for its port. */
  lemma SoleEntryDecides(entries: seq<AclEntry>, k: nat, p: Packet)
    requires k < |entries| && entries[k].port == p.port
    requires forall i :: 0 <= i < |entries| && i != k ==> entries[i].port != p.port
    ensures Accepts(Compile(entries), p) <==> InAny(entries[k].sources, p.source)
  {
    CompilerCorrect(entries, p);
    FirstMatchAdmits(entries, entries[k], p);
  }

  lemma {:induction false} FirstMatchAdmits(entries: seq<AclEntry>, e: AclEntry, p: Packet)
    requires e in entries && e.port == p.port
    requires forall i :: 0 <= i < |entries| && entries[i].port == p.port ==> entries[i] == e
    ensures Admits(entries, p) <==> InAny(e.sources, p.source)
  {
    if entries[0].port != p.port {
      FirstMatchAdmits(entries[1..], e, p);
    }
  }

  /** A port no entry names is left open. */
  lemma {:induction false} UnlistedPortOpen(entries: seq<AclEntry>, p: Packet)
    requires forall i :: 0 <= i < |entries| ==> entries[i].port != p.port
    ensures Accepts(Compile(entries), p)
  {
    CompilerCorrect(entries, p);
    UnlistedPortAdmits(entries, p);
  }

  lemma {:induction false} UnlistedPortAdmits(entries: seq<AclEntry>, p: Packet)
    requires forall i :: 0 <= i < |entries| ==> entries[i].port != p.port
    ensures Admits(entries, p)
  {
    if entries != [] {
      UnlistedPortAdmits(entries[1..], p);
    }
  }
}
