/** What a range means bit by bit: its prefix fixes the leading bits of an address, and which ranges
    and addresses are refused. */
module AddressBits {
  import opened Base
  import opened Ordering
  import opened SourceAcl

  /** Bit `k` of a number, the lowest first. */
  function Bit(n: nat, k: nat): nat {
    if k == 0 then n % 2 else Bit(n / 2, k - 1)
  }

  /** Numbers with the same bits are equal. */
  lemma {:induction false} BitsDecide(a: nat, b: nat)
    requires forall k: nat :: Bit(a, k) == Bit(b, k)
    ensures a == b
    decreases a + b
  {
    if a + b > 0 {
      assert Bit(a, 0) == Bit(b, 0);
      forall k: nat ensures Bit(a / 2, k) == Bit(b / 2, k) {
        assert Bit(a, k + 1) == Bit(b, k + 1);
      }
      BitsDecide(a / 2, b / 2);
    }
  }

  // ---------------------------------------------------------------------------------------
  // Division by powers of two
  // ---------------------------------------------------------------------------------------

  lemma QuotientWithRest(n: nat, q: nat, r: nat)
    requires r < n
    ensures (Product(n, q) + r) / n == q
  {
    var d := (Product(n, q) + r) / n;
    var rest := (Product(n, q) + r) % n;
    assert n * q + r == n * d + rest;
    Distributes(n, q, d);
    if q != d {
      assert false by { ProductAtLeast(n, q - d); }
    }
  }

  function Quotient(n: nat, size: nat): nat
    requires size > 0
  {
    n / size
  }

  lemma Halve(bits: nat, size: nat)
    requires size > 0
    ensures Quotient(bits, 2 * size) == Quotient(bits / 2, size)
  {
    var q, r := (bits / 2) / size, (bits / 2) % size;
    assert bits / 2 == size * q + r;
    assert (2 * size) * q == 2 * (size * q);
    QuotientWithRest(2 * size, q, 2 * r + bits % 2);
  }

  lemma HalvePower(n: nat, j: nat)
    requires j > 0
    ensures Quotient(n, Pow2(j)) == Quotient(n / 2, Pow2(j - 1))
  {
    Halve(n, Pow2(j - 1));
  }

  lemma QuotientByOne(n: nat)
    ensures Quotient(n, Pow2(0)) == n
  {
  }

  /** Dividing by a power of two drops the low bits. */
  lemma {:induction false} ShiftedBit(n: nat, j: nat, k: nat)
    ensures Bit(Quotient(n, Pow2(j)), k) == Bit(n, j + k)
  {
    if j == 0 {
      QuotientByOne(n);
    } else {
      HalvePower(n, j);
      ShiftedBit(n / 2, j - 1, k);
    }
  }

  /** Masking clears the low bits and keeps the others. */
  lemma {:induction false} MaskedBit(bits: nat, j: nat, k: nat)
    ensures Bit(Mask(bits, Pow2(j)), k) == if k < j then 0 else Bit(bits, k)
  {
    if j == 0 {
      assert Mask(bits, 1) == bits;
    } else {
      HalveMask(bits, j);
      if k > 0 {
        MaskedBit(bits / 2, j - 1, k - 1);
      }
    }
  }

  lemma HalveMask(bits: nat, j: nat)
    requires j > 0
    ensures Mask(bits, Pow2(j)) == 2 * Mask(bits / 2, Pow2(j - 1))
  {
    var size := Pow2(j - 1);
    Halve(bits, size);
    DoubleProduct(size, Quotient(bits / 2, size));
  }

  lemma DoubleProduct(size: nat, q: nat)
    ensures Product(2 * size, q) == 2 * Product(size, q)
  {
    assert (2 * size) * q == 2 * (size * q);
  }

  /** How many bits an address has. */
  function AddressSize(family: Family): nat {
    match family
    case V4 => 32
    case V6 => 128
  }

  /** `base` has the bits of `bits` from position `from` on, and zeros below. */
  ghost predicate LeadingBits(base: nat, bits: nat, from: int) {
    forall k: nat :: Bit(base, k) == if k < from then 0 else Bit(bits, k)
  }

  lemma MaskIff(bits: nat, family: Family, prefix: nat, base: nat)
    ensures base == Mask(bits, HostSize(family, prefix)) <==> LeadingBits(base, bits, AddressSize(family) - prefix)
  {
    var j := if prefix <= AddressSize(family) then AddressSize(family) - prefix else 0;
    forall k: nat ensures Bit(Mask(bits, HostSize(family, prefix)), k) == if k < j then 0 else Bit(bits, k) {
      MaskedBit(bits, j, k);
    }
    if LeadingBits(base, bits, AddressSize(family) - prefix) {
      BitsDecide(base, Mask(bits, HostSize(family, prefix)));
    }
  }

  // ---------------------------------------------------------------------------------------
  // Ranges
  // ---------------------------------------------------------------------------------------

  /** `c` is the range written with this address and prefix. */
  ghost predicate Written(c: Cidr, a: Address, prefix: nat) {
    c.family == a.family && c.prefix == prefix && LeadingBits(c.base, a.bits, AddressSize(a.family) - prefix)
  }

  lemma CanonicalIsWritten(c: Cidr, a: Address, prefix: nat)
    ensures c == Canonical(a, prefix) <==> Written(c, a, prefix)
  {
    MaskIff(a.bits, a.family, prefix, c.base);
  }

  ghost predicate AgreeFrom(a: nat, b: nat, from: int) {
    forall k: nat :: k >= from ==> Bit(a, k) == Bit(b, k)
  }

  ghost predicate ZeroBelow(n: nat, from: int) {
    forall k: nat :: k < from ==> Bit(n, k) == 0
  }

  lemma LeadingIff(base: nat, bits: nat, from: int)
    ensures LeadingBits(base, bits, from) <==> ZeroBelow(base, from) && AgreeFrom(bits, base, from)
  {
    if LeadingBits(base, bits, from) {
      assert ZeroBelow(base, from);
      assert AgreeFrom(bits, base, from);
    }
    if ZeroBelow(base, from) && AgreeFrom(bits, base, from) {
      forall k: nat ensures Bit(base, k) == if k < from then 0 else Bit(bits, k) {
        assert k >= from ==> Bit(bits, k) == Bit(base, k);
      }
    }
  }

  /** A range without host bits admits exactly the addresses of its family that agree with it in the
      leading bits, as many as the prefix says. */
  lemma PrefixFixesLeadingBits(c: Cidr, a: Address)
    requires ZeroBelow(c.base, AddressSize(c.family) - c.prefix)
    ensures Contains(c, a) <==> a.family == c.family && AgreeFrom(a.bits, c.base, AddressSize(c.family) - c.prefix)
  {
    MaskIff(a.bits, c.family, c.prefix, c.base);
    LeadingIff(c.base, a.bits, AddressSize(c.family) - c.prefix);
  }

  /** Every bit above the width of its family is zero. */
  ghost predicate Fitting(a: Address) {
    forall k: nat :: k >= (AddressSize(a.family)) ==> Bit(a.bits, k) == 0
  }

  lemma {:induction false} NoBits(k: nat)
    ensures Bit(0, k) == 0
  {
    if k > 0 {
      NoBits(k - 1);
    }
  }

  lemma QuotientBits(n: nat, j: nat, value: nat)
    ensures Quotient(n, Pow2(j)) == value <==> ShiftedIs(n, j, value)
  {
    var q := Quotient(n, Pow2(j));
    forall k: nat ensures Bit(q, k) == Bit(n, j + k) {
      ShiftedBit(n, j, k);
    }
    SameBitsIff(n, j, q, value);
  }

  lemma SameBitsIff(n: nat, j: nat, quotient: nat, value: nat)
    requires ShiftedIs(n, j, quotient)
    ensures quotient == value <==> ShiftedIs(n, j, value)
  {
    if ShiftedIs(n, j, value) {
      forall k: nat ensures Bit(quotient, k) == Bit(value, k) {
        assert Bit(quotient, k) == Bit(n, j + k) && Bit(value, k) == Bit(n, j + k);
      }
      BitsDecide(quotient, value);
    }
  }

  /** The bits of `value` are those of `n` from position `j` on. */
  ghost predicate ShiftedIs(n: nat, j: nat, value: nat) {
    forall k: nat :: Bit(value, k) == Bit(n, j + k)
  }

  /** One less than a power of two has as many ones. */
  lemma {:induction false} BitsOfOnes(j: nat, k: nat)
    ensures Bit(Pow2(j) - 1, k) == if k < j then 1 else 0
  {
    if j == 0 {
      NoBits(k);
    } else {
      assert (Pow2(j) - 1) / 2 == Pow2(j - 1) - 1 && (Pow2(j) - 1) % 2 == 1;
      if k > 0 {
        BitsOfOnes(j - 1, k - 1);
      }
    }
  }

  /** Multicast addresses begin with the bits 1110 in IPv4 and with eight ones in IPv6. */
  lemma MulticastBits(a: Address)
    requires Fitting(a)
    ensures Multicast(a) <==>
              if a.family.V4? then Bit(a.bits, 31) == 1 && Bit(a.bits, 30) == 1 && Bit(a.bits, 29) == 1 && Bit(a.bits, 28) == 0
              else TopByteIsOnes(a.bits)
  {
    if a.family.V4? {
      MulticastV4(a.bits);
    } else {
      MulticastV6(a.bits);
    }
  }

  lemma MulticastV4(n: nat)
    requires forall k: nat :: k >= 32 ==> Bit(n, k) == 0
    ensures Quotient(n, Pow2(28)) == 14 <==> Bit(n, 31) == 1 && Bit(n, 30) == 1 && Bit(n, 29) == 1 && Bit(n, 28) == 0
  {
    QuotientBits(n, 28, 14);
    BitsOfFourteen();
    if ShiftedIs(n, 28, 14) {
      assert Bit(14, 0) == Bit(n, 28 + 0) && Bit(14, 1) == Bit(n, 28 + 1);
      assert Bit(14, 2) == Bit(n, 28 + 2) && Bit(14, 3) == Bit(n, 28 + 3);
    }
  }

  lemma BitsOfFourteen()
    ensures forall k: nat :: Bit(14, k) == if 1 <= k <= 3 then 1 else 0
  {
    assert Pow2(3) - 1 == 7;
    forall k: nat ensures Bit(14, k) == if 1 <= k <= 3 then 1 else 0 {
      if k > 0 {
        BitsOfOnes(3, k - 1);
      }
    }
  }

  lemma MulticastV6(n: nat)
    requires forall k: nat :: k >= 128 ==> Bit(n, k) == 0
    ensures Quotient(n, Pow2(120)) == 255 <==> TopByteIsOnes(n)
  {
    QuotientBits(n, 120, 255);
    BitsOfByte();
    OnesAtTheTop(n, 255);
  }

  ghost predicate TopByteIsOnes(n: nat) {
    forall k: nat :: 120 <= k < 128 ==> Bit(n, k) == 1
  }

  lemma OnesAtTheTop(n: nat, byte: nat)
    requires forall k: nat :: k >= 128 ==> Bit(n, k) == 0
    requires forall k: nat :: Bit(byte, k) == if k < 8 then 1 else 0
    ensures ShiftedIs(n, 120, byte) <==> TopByteIsOnes(n)
  {
    if ShiftedIs(n, 120, byte) {
      forall k: nat | 120 <= k < 128 ensures Bit(n, k) == 1 {
        assert Bit(byte, k - 120) == Bit(n, 120 + (k - 120));
      }
    }
    if TopByteIsOnes(n) {
      forall k: nat ensures Bit(byte, k) == Bit(n, 120 + k) {
        assert Bit(n, 120 + k) == if k < 8 then 1 else 0;
      }
    }
  }

  lemma BitsOfByte()
    ensures forall k: nat :: Bit(255, k) == if k < 8 then 1 else 0
  {
    assert Pow2(4) == 16;
    assert Pow2(8) - 1 == 255;
    forall k: nat ensures Bit(255, k) == if k < 8 then 1 else 0 {
      BitsOfOnes(8, k);
    }
  }

  /** A requested range is refused as malformed, or as unbounded: its prefix is zero, it begins at
      the unspecified address, or it begins in the multicast range. */
  lemma RefusedRanges(v: CidrText, c: Cidr)
    requires v.Literal? && Written(c, v.address, v.prefix)
    ensures CidrProblem(Malformed) == Some(MalformedCidr)
    ensures CidrProblem(v) == Some(UnboundedCidr) <==>
              v.prefix == 0 || !SomeBit(c.base) || Multicast(Address(v.address.family, c.base))
    ensures CidrProblem(v) != Some(UnboundedCidr) ==> CidrProblem(v) == None
  {
    CanonicalIsWritten(c, v.address, v.prefix);
    SomeBitIff(c.base);
  }

  ghost predicate SomeBit(n: nat) {
    exists k: nat :: Bit(n, k) == 1
  }

  lemma SomeBitIff(n: nat)
    ensures SomeBit(n) <==> n != 0
  {
    forall k: nat ensures Bit(0, k) == 0 {
      NoBits(k);
    }
    forall k: nat ensures Bit(n, k) in {0, 1} {
      BitIsBinary(n, k);
    }
    if !SomeBit(n) {
      BitsDecide(n, 0);
    }
  }

  lemma {:induction false} BitIsBinary(n: nat, k: nat)
    ensures Bit(n, k) in {0, 1}
  {
    if k > 0 {
      BitIsBinary(n / 2, k - 1);
    }
  }

  // ---------------------------------------------------------------------------------------
  // Lists
  // ---------------------------------------------------------------------------------------

  /** A requested range that the guard accepts. */
  ghost predicate Bounded(v: CidrText) {
    v.Literal? && v.prefix != 0
    && exists base: nat ::
         && LeadingBits(base, v.address.bits, AddressSize(v.address.family) - v.prefix)
         && SomeBit(base) && !Multicast(Address(v.address.family, base))
  }

  lemma BoundedIff(v: CidrText)
    ensures CidrProblem(v).None? <==> Bounded(v)
  {
    if v.Literal? {
      var c := Canonical(v.address, v.prefix);
      CanonicalIsWritten(c, v.address, v.prefix);
      RefusedRanges(v, c);
      if Bounded(v) {
        var base: nat :| && LeadingBits(base, v.address.bits, AddressSize(v.address.family) - v.prefix)
                         && SomeBit(base) && !Multicast(Address(v.address.family, base));
        CanonicalIsWritten(c.(base := base), v.address, v.prefix);
      }
    }
  }

  /** `sources` lists exactly the requested ranges, each once and in order. */
  ghost predicate Asked(values: seq<CidrText>, sources: seq<Cidr>) {
    && StrictlySorted(sources)
    && (forall i :: 0 <= i < |values| ==> values[i].Literal?)
    && (forall c :: c in sources ==> exists i :: 0 <= i < |values| && Written(c, values[i].address, values[i].prefix))
    && (forall i, c :: 0 <= i < |values| && Written(c, values[i].address, values[i].prefix) ==> c in sources)
  }

  lemma AcceptedIff(values: seq<CidrText>)
    ensures NormalizeSources(values).Ok? <==> |values| <= 64 && forall i :: 0 <= i < |values| ==> Bounded(values[i])
  {
    forall i | 0 <= i < |values| ensures CidrProblem(values[i]).None? <==> Bounded(values[i]) {
      BoundedIff(values[i]);
    }
    assert FirstProblem(values).None? <==> forall i :: 0 <= i < |values| ==> CidrProblem(values[i]).None? by {
      if forall i :: 0 <= i < |values| ==> CidrProblem(values[i]).None? {
        forall v | v in values ensures CidrProblem(v).None? {}
      }
    }
  }

  /** A list of ranges is accepted if and only if it has at most 64 elements, each of them bounded;
      the result lists exactly what was asked for. */
  lemma NormalizeMeans(values: seq<CidrText>, sources: seq<Cidr>)
    ensures NormalizeSources(values).Ok? <==> |values| <= 64 && forall i :: 0 <= i < |values| ==> Bounded(values[i])
    ensures NormalizeSources(values).Ok? ==> (NormalizeSources(values).value == sources <==> Asked(values, sources))
  {
    AcceptedIff(values);
    if NormalizeSources(values).Ok? {
      NormalFormIsAsked(values, sources);
    }
  }

  lemma NormalFormIsAsked(values: seq<CidrText>, sources: seq<Cidr>)
    requires NormalizeSources(values).Ok?
    ensures NormalizeSources(values).value == sources <==> Asked(values, sources)
  {
    var ranges := Ranges(values);
    forall i, c | 0 <= i < |values| ensures c == ranges[i] <==> Written(c, values[i].address, values[i].prefix) {
      CanonicalIsWritten(c, values[i].address, values[i].prefix);
    }
    if NormalizeSources(values).value == sources {
      forall c | c in sources ensures exists i :: 0 <= i < |values| && Written(c, values[i].address, values[i].prefix) {
        var i :| 0 <= i < |ranges| && ranges[i] == c;
      }
      forall i, c | 0 <= i < |values| && Written(c, values[i].address, values[i].prefix) ensures c in sources {
        assert ranges[i] in ranges;
      }
    }
    if Asked(values, sources) {
      forall c ensures c in sources <==> c in Sort(ranges) {
        if c in ranges {
          var i :| 0 <= i < |ranges| && ranges[i] == c;
        }
      }
      StrictlySortedUnique(sources, Sort(ranges));
    }
  }
}
