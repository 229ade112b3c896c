/**
 Addresses as numbers and networks as prefixes (internal/abuse/policy.go and the
 masking it relies on). Parsing and printing addresses is not modelled: a value
 here stands for the canonical text of that address or network.
 */
module Networks {
  datatype Family = V4 | V6

  function Bits(f: Family): nat {
    if f == V4 then 32 else 128
  }

  datatype Addr = Addr(family: Family, value: nat)

  datatype Cidr = Cidr(family: Family, base: nat, ones: nat)

  function Pow2(n: nat): (r: nat)
    ensures r >= 1
  {
    if n == 0 then 1 else 2 * Pow2(n - 1)
  }

  /** The address with its host bits cleared. */
  function Masked(v: nat, size: nat): nat
    requires size >= 1
  {
    v - v % size
  }

  /** The number of addresses in a network. */
  function Size(n: Cidr): (r: nat)
    ensures r >= 1
  {
    if n.ones <= Bits(n.family) then Pow2(Bits(n.family) - n.ones) else 1
  }

  /** A network as parsed: the prefix fits and the host bits are clear. */
  predicate IsCidr(n: Cidr) {
    n.ones <= Bits(n.family) && Masked(n.base, Size(n)) == n.base
  }

  function Base(n: Cidr): Addr {
    Addr(n.family, n.base)
  }

  predicate Contains(n: Cidr, a: Addr) {
    n.family == a.family && Masked(a.value, Size(n)) == n.base
  }

  // ---- arithmetic ---------------------------------------------------------

  lemma {:induction false} Pow2Splits(n: nat, m: nat)
    requires n <= m
    ensures Pow2(m) == Pow2(n) * Pow2(m - n)
  {
    if n < m {
      Pow2Splits(n, m - 1);
      Doubled(Pow2(n), Pow2(m - 1 - n));
    }
  }

  lemma {:induction false} Doubled(a: nat, b: nat)
    ensures 2 * (a * b) == a * (2 * b)
  {}

  lemma {:induction false} ProductGrows(a: nat, b: nat, d: nat)
    requires a < b
    ensures a * d + d <= b * d
  {
    if a + 1 < b {
      ProductGrows(a, b - 1, d);
    }
    assert (b - 1) * d + d == b * d;
  }

  lemma {:induction false} OneQuotient(d: nat, q: nat, s: nat, k: nat, r: nat)
    requires r < d && s < d && q * d + s == k * d + r
    ensures q == k && s == r
  {
    if q < k {
      ProductGrows(q, k, d);
    } else if k < q {
      ProductGrows(k, q, d);
    }
  }

  lemma {:induction false} Divided(x: nat, d: nat) returns (q: nat, s: nat)
    requires d >= 1
    ensures q == x / d && s == x % d < d && q * d + s == x
  {
    q, s := x / d, x % d;
  }

  lemma {:induction false} RemainderIs(x: nat, d: nat, k: nat, r: nat)
    requires r < d && k * d + r == x
    ensures x / d == k && x % d == r
  {
    var q, s := Divided(x, d);
    OneQuotient(d, q, s, k, r);
  }

  /** A quotient split once more. */
  lemma {:induction false} Regrouped(b: nat, times: nat, c: nat, size: nat)
    requires c < times
    ensures (b * times + c) * size == b * (size * times) + c * size
    ensures c * size + size <= size * times
  {
    ProductGrows(c, times, size);
    calc {
      (b * times + c) * size;
      b * times * size + c * size;
      b * (times * size) + c * size;
      b * (size * times) + c * size;
    }
  }

  /** Clearing the low bits and then more of them is clearing the greater number. */
  lemma {:induction false} MaskedTwice(v: nat, size: nat, times: nat, wide: nat)
    requires size >= 1 && times >= 1 && wide >= 1 && wide == size * times
    ensures Masked(Masked(v, size), wide) == Masked(v, wide)
  {
    var a, r := Divided(v, size);
    var b, c := Divided(a, times);
    Regrouped(b, times, c, size);
    RemainderIs(v, wide, b, c * size + r);
    RemainderIs(a * size, wide, b, c * size);
  }

  // ---- nesting ------------------------------------------------------------

  lemma {:induction false} SizesDivide(wide: Cidr, narrow: Cidr) returns (times: nat)
    requires IsCidr(wide) && IsCidr(narrow) && wide.family == narrow.family && wide.ones <= narrow.ones
    ensures times >= 1 && Size(wide) == Size(narrow) * times
  {
    var bits := Bits(wide.family);
    Pow2Splits(bits - narrow.ones, bits - wide.ones);
    times := Pow2(narrow.ones - wide.ones);
  }

  /** A wider network holds either all of a narrower one, with its base, or none of it. */
  lemma {:induction false} AllOrNothing(wide: Cidr, narrow: Cidr, a: Addr)
    requires IsCidr(wide) && IsCidr(narrow) && wide.ones <= narrow.ones && Contains(narrow, a)
    ensures Contains(wide, a) <==> Contains(wide, Base(narrow))
  {
    if wide.family == narrow.family {
      var times := SizesDivide(wide, narrow);
      MaskedTwice(a.value, Size(narrow), times, Size(wide));
    }
  }

  /** A network holds its own base address. */
  lemma {:induction false} HoldsBase(n: Cidr)
    requires IsCidr(n)
    ensures Contains(n, Base(n))
  {}

  /** Two networks share an address exactly when one holds the base of the other. */
  lemma {:induction false} MeetAtBase(n: Cidr, m: Cidr)
    requires IsCidr(n) && IsCidr(m)
    ensures (exists a :: Contains(n, a) && Contains(m, a)) <==> Contains(n, Base(m)) || Contains(m, Base(n))
  {
    HoldsBase(n);
    HoldsBase(m);
    if a :| Contains(n, a) && Contains(m, a) {
      if n.ones <= m.ones {
        AllOrNothing(n, m, a);
      } else {
        AllOrNothing(m, n, a);
      }
    }
  }

  // ---- how an address is counted -----------------------------------------

  /** `Network`: an IPv4 address itself, the base of the /64 of an IPv6 one. */
  function CountedAs(a: Addr): Addr {
    if a.family == V4 then a else Addr(V6, Masked(a.value, Size(Cidr(V6, 0, 64))))
  }

  /** `Subnet`: the /24 of an IPv4 address, the /48 of an IPv6 one. */
  function Subnet(a: Addr): Cidr {
    var n := Cidr(a.family, 0, if a.family == V4 then 24 else 48);
    n.(base := Masked(a.value, Size(n)))
  }

  lemma {:induction false} MaskedIsCidr(f: Family, v: nat, ones: nat)
    requires ones <= Bits(f)
    ensures var n := Cidr(f, Masked(v, Size(Cidr(f, 0, ones))), ones); IsCidr(n) && Contains(n, Addr(f, v))
  {
    var size := Size(Cidr(f, 0, ones));
    var k, r := Divided(v, size);
    RemainderIs(Masked(v, size), size, k, 0);
  }

  /** Addresses of one IPv6 /64 are counted as one, and an address is counted inside its own subnet. */
  lemma {:induction false} CountedTogether(a: Addr, b: Addr)
    ensures CountedAs(a) == CountedAs(b) <==>
            a == b || (a.family == V6 && Contains(Cidr(V6, CountedAs(a).value, 64), b))
    ensures IsCidr(Subnet(a)) && Contains(Subnet(a), a) && Contains(Subnet(a), CountedAs(a))
  {
    var sub := Subnet(a);
    MaskedIsCidr(a.family, a.value, sub.ones);
    if a.family == V6 {
      MaskedIsCidr(V6, a.value, 64);
      AllOrNothing(sub, Cidr(V6, CountedAs(a).value, 64), a);
    }
  }
}
