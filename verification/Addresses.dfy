/** IPv4 addresses as integers, inclusive address ranges, and the subnet arithmetic of
    Python's `ipaddress` that the payload validators rely on. */
module Addresses {
  import opened Common

  const ADDRESS_SPACE := 0x1_0000_0000

  type Ip = x: int | 0 <= x < 0x1_0000_0000

  /** An inclusive range: a distribution range or an exclusion. */
  datatype Range = Range(start: Ip, end: Ip) {
    predicate WellFormed() {
      start <= end
    }

    predicate Contains(a: int) {
      start <= a <= end
    }

    /** `this` lies inside `outer`. */
    predicate Within(outer: Range) {
      outer.start <= start && end <= outer.end
    }
  }

  predicate Overlap(a: Range, b: Range) {
    a.start <= b.end && b.start <= a.end
  }

  predicate Covered(a: int, holes: set<Range>) {
    exists e :: e in holes && e.Contains(a)
  }

  ghost predicate PairwiseDisjoint(holes: set<Range>) {
    forall a, b :: a in holes && b in holes && a != b ==> !Overlap(a, b)
  }

  /** The smallest range holding both arguments. */
  function Hull(a: Range, b: Range): Range {
    Range(if a.start <= b.start then a.start else b.start,
          if a.end >= b.end then a.end else b.end)
  }

  /* ---- Bit operations on unbounded naturals, as Python's int has them ---- */

  /** a & ~m */
  function AndNot(a: nat, m: nat): nat
    decreases a
  {
    if a == 0 then 0 else (if m % 2 == 1 then 0 else a % 2) + 2 * AndNot(a / 2, m / 2)
  }

  /** a | b */
  function BitOr(a: nat, b: nat): nat
    decreases a + b
  {
    if a == 0 && b == 0 then 0
    else (if a % 2 == 1 || b % 2 == 1 then 1 else 0) + 2 * BitOr(a / 2, b / 2)
  }

  function Pow2(n: nat): (p: nat)
    ensures p >= 1
  {
    if n == 0 then 1 else 2 * Pow2(n - 1)
  }

  /** Clearing the low k bits subtracts the remainder modulo 2^k. */
  lemma {:induction false} AndNotIsFloor(a: nat, k: nat)
    ensures AndNot(a, Pow2(k) - 1) == a - a % Pow2(k)
    decreases k
  {
    hide AndNot, Pow2;
    Pow2Step(k);
    if k == 0 {
      AndNotZero(a);
    } else {
      var m := Pow2(k - 1);
      AndNotOddMask(a, m);
      AndNotIsFloor(a / 2, k - 1);
      DoubledFloor(a, m, AndNot(a / 2, m - 1));
    }
  }

  lemma Pow2Step(k: nat)
    ensures Pow2(k) == if k == 0 then 1 else 2 * Pow2(k - 1)
  {
  }

  lemma DoubledFloor(a: nat, m: nat, half: nat)
    requires m > 0 && half == a / 2 - (a / 2) % m
    ensures 2 * half == a - a % (2 * m)
  {
    DoubleModulus(a, m);
  }

  lemma AndNotOddMask(a: nat, m: nat)
    requires m >= 1
    ensures AndNot(a, 2 * m - 1) == 2 * AndNot(a / 2, m - 1)
  {
    assert (2 * m - 1) % 2 == 1 && (2 * m - 1) / 2 == m - 1;
  }

  lemma {:induction false} AndNotZero(a: nat)
    ensures AndNot(a, 0) == a
  {
    if a > 0 {
      AndNotZero(a / 2);
    }
  }

  lemma DoubleModulus(a: nat, m: nat)
    requires m > 0
    ensures a % (2 * m) == 2 * ((a / 2) % m) + a % 2
  {
    var q, r := (a / 2) / m, (a / 2) % m;
    assert a / 2 == q * m + r;
    assert a == (2 * m) * q + (2 * r + a % 2) by {
      assert a == 2 * (a / 2) + a % 2;
    }
    ModuloUnique(a, 2 * m, q, 2 * r + a % 2);
  }

  lemma MulMonotone(d: nat, a: nat, b: nat)
    requires a <= b
    ensures d * a <= d * b
  {
    assert d * b == d * a + d * (b - a);
  }

  /** Quotient and remainder are the only pair with their defining property. */
  lemma ModuloUnique(a: nat, d: nat, q: nat, r: nat)
    requires d > 0 && r < d
    requires a == d * q + r
    ensures a % d == r && a / d == q
  {
    var q', r' := a / d, a % d;
    assert a == d * q' + r' && 0 <= r' < d;
    if q' > q {
      MulMonotone(d, q + 1, q');
    } else if q' < q {
      MulMonotone(d, q' + 1, q);
    }
  }

  /** Or-ing into cleared low bits is addition. */
  lemma {:induction false} OrIsSum(a: nat, b: nat, k: nat)
    requires a % Pow2(k) == 0 && b < Pow2(k)
    ensures BitOr(a, b) == a + b
    decreases k, a
  {
    if k == 0 {
      OrZero(a);
    } else if a == 0 && b == 0 {
    } else {
      var m := Pow2(k - 1);
      DoubleModulus(a, m);
      OrIsSum(a / 2, b / 2, k - 1);
    }
  }

  lemma {:induction false} OrZero(a: nat)
    ensures BitOr(a, 0) == a
  {
    if a > 0 {
      OrZero(a / 2);
    }
  }

  /* ---- Subnets ---- */

  /** Addresses in a subnet of the given prefix length. */
  function BlockSize(prefix: nat): nat
    requires prefix <= 32
  {
    Pow2(32 - prefix)
  }

  predicate IsNetmask(mask: Ip, prefix: nat) {
    prefix <= 32 && mask == ADDRESS_SPACE - BlockSize(prefix)
  }

  predicate IsHostmask(mask: Ip, prefix: nat) {
    prefix <= 32 && mask == BlockSize(prefix) - 1
  }

  /** The prefix length IPv4Network reads from a dotted mask: a netmask first, then a host mask. */
  function PrefixOf(mask: Ip): Option<nat> {
    if exists p: nat :: p <= 32 && IsNetmask(mask, p) then
      NetmaskPrefix(mask)
    else if exists p: nat :: p <= 32 && IsHostmask(mask, p) then
      HostmaskPrefix(mask)
    else None
  }

  function NetmaskPrefix(mask: Ip): Option<nat>
    requires exists p: nat :: p <= 32 && IsNetmask(mask, p)
  {
    BlockSizeInjective();
    var p: nat :| p <= 32 && IsNetmask(mask, p);
    Some(p)
  }

  function HostmaskPrefix(mask: Ip): Option<nat>
    requires exists p: nat :: p <= 32 && IsHostmask(mask, p)
  {
    BlockSizeInjective();
    var p: nat :| p <= 32 && IsHostmask(mask, p);
    Some(p)
  }

  lemma {:induction false} Pow2Grows(m: nat, n: nat)
    requires m < n
    ensures Pow2(m) < Pow2(n)
  {
    if m + 1 < n {
      Pow2Grows(m, n - 1);
    }
  }

  lemma BlockSizeInjective()
    ensures forall p: nat, q: nat :: p <= 32 && q <= 32 && BlockSize(p) == BlockSize(q) ==> p == q
  {
    forall p: nat, q: nat | p <= 32 && q <= 32 && p < q
      ensures BlockSize(q) < BlockSize(p)
    {
      Pow2Grows(32 - q, 32 - p);
    }
  }

  lemma Pow2Values()
    ensures Pow2(8) == 256 && Pow2(24) == 0x100_0000 && Pow2(32) == ADDRESS_SPACE
  {
    assert Pow2(8) == 256;
    assert Pow2(16) == 0x1_0000;
    assert Pow2(24) == 0x100_0000;
  }

  lemma {:induction false} Pow2Sum(m: nat, n: nat)
    ensures Pow2(m + n) == Pow2(m) * Pow2(n)
  {
    if n > 0 {
      Pow2Sum(m, n - 1);
    }
  }

  /** An aligned block that starts below b * n also ends below it. */
  lemma AlignedBlockFits(a: nat, b: nat, n: nat)
    requires b > 0 && a % b == 0 && a < b * n
    ensures a + b <= b * n
  {
    var q := a / b;
    assert a == b * q;
    if q >= n {
      MulMonotone(b, n, q);
    } else {
      MulMonotone(b, q + 1, n);
    }
  }

  lemma BlockFits(scope: Ip, prefix: nat)
    requires prefix <= 32 && scope % BlockSize(prefix) == 0
    ensures scope + BlockSize(prefix) <= ADDRESS_SPACE
  {
    Pow2Values();
    Pow2Sum(32 - prefix, prefix);
    AlignedBlockFits(scope, BlockSize(prefix), Pow2(prefix));
  }

  /** The subnet that IPv4Network(scope/mask, strict=True) denotes, from network to broadcast
      address; None where that constructor raises. */
  function SubnetOf(scope: Ip, mask: Ip): Option<Range> {
    match PrefixOf(mask)
    case None => None
    case Some(p) =>
      if p <= 32 && scope % BlockSize(p) == 0 then
        BlockFits(scope, p);
        Some(Range(scope, scope + BlockSize(p) - 1))
      else None
  }

  /** The prefix length found is the mask's own: as a netmask, or failing that as a host mask. */
  lemma PrefixOfMask(mask: Ip)
    ensures PrefixOf(mask).Some? <==> exists p: nat :: IsNetmask(mask, p) || IsHostmask(mask, p)
    ensures PrefixOf(mask).Some? ==>
              var p := PrefixOf(mask).value;
              IsNetmask(mask, p) || (IsHostmask(mask, p) && forall q: nat :: !IsNetmask(mask, q))
  {
    if exists p: nat :: IsNetmask(mask, p) || IsHostmask(mask, p) {
      var p: nat :| IsNetmask(mask, p) || IsHostmask(mask, p);
    }
  }

  /** 255.255.255.0 is a /24. */
  lemma DefaultMaskIsSlash24()
    ensures PrefixOf(ADDRESS_SPACE - 256) == Some(24)
  {
    Pow2Values();
    BlockSizeInjective();
    assert IsNetmask(ADDRESS_SPACE - 256, 24);
  }
}
