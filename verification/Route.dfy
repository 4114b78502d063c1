// IPv4 route selection for a directed broadcast (src/wol.rs), over addresses as 32-bit numbers.

module MaskArithmetic {

  function Pow2(n: nat): (p: nat)
    ensures p >= 1
  {
    if n == 0 then 1 else 2 * Pow2(n - 1)
  }

  lemma {:induction false} Pow2Add(a: nat, b: nat)
    ensures Pow2(a + b) == Pow2(a) * Pow2(b)
  {
    if a == 0 {
    } else {
      Pow2Add(a - 1, b);
      assert Pow2(a + b) == 2 * Pow2(a + b - 1);
    }
  }

  lemma {:induction false} Pow2Grows(a: nat, b: nat)
    requires a <= b
    ensures Pow2(a) <= Pow2(b)
  {
    if a < b { Pow2Grows(a, b - 1); }
  }

  /** Bitwise and, or of two numbers. */
  function And(x: nat, y: nat): nat {
    if x == 0 || y == 0 then 0 else x % 2 * (y % 2) + 2 * And(x / 2, y / 2)
  }

  function Or(x: nat, y: nat): nat {
    if x == 0 && y == 0 then 0 else (if x % 2 == 1 || y % 2 == 1 then 1 else 0) + 2 * Or(x / 2, y / 2)
  }

  /** Complement of a number of `w` bits. */
  function Not(x: nat, w: nat): nat
    requires x < Pow2(w)
  {
    Pow2(w) - 1 - x
  }

  /** `leading_ones` and `trailing_zeros` of a number of `w` bits. */
  function LeadingOnes(m: nat, w: nat): (n: nat)
    requires m < Pow2(w)
    ensures n <= w
  {
    if w == 0 || m < Pow2(w - 1) then 0 else 1 + LeadingOnes(m - Pow2(w - 1), w - 1)
  }

  function TrailingZeros(m: nat, w: nat): (n: nat)
    requires m < Pow2(w)
    ensures n <= w
  {
    if w == 0 || m % 2 == 1 then 0 else 1 + TrailingZeros(m / 2, w - 1)
  }

  /** The mask of `w` bits whose first `p` bits are set. */
  function PrefixMask(p: nat, w: nat): (m: nat)
    requires p <= w
  {
    Pow2Grows(w - p, w);
    Pow2(w) - Pow2(w - p)
  }

  lemma {:induction false} PrefixMaskCounts(p: nat, w: nat)
    requires p <= w
    ensures PrefixMask(p, w) < Pow2(w)
    ensures LeadingOnes(PrefixMask(p, w), w) == p
    ensures TrailingZeros(PrefixMask(p, w), w) == w - p
  {
    LeadingOfMask(p, w);
    TrailingOfMask(p, w);
  }

  lemma {:induction false} LeadingOfMask(p: nat, w: nat)
    requires p <= w
    ensures LeadingOnes(PrefixMask(p, w), w) == p
  {
    if p == 0 {
    } else {
      LeadingOfMask(p - 1, w - 1);
      Pow2Grows(w - p, w - 1);
    }
  }

  lemma {:induction false} TrailingOfMask(p: nat, w: nat)
    requires p <= w
    ensures TrailingZeros(PrefixMask(p, w), w) == w - p
  {
    if p == w {
    } else {
      TrailingOfMask(p, w - 1);
      assert PrefixMask(p, w) == 2 * PrefixMask(p, w - 1);
    }
  }

  /** A number with `p` leading ones lies in the last block of 2^(w-p) numbers. */
  lemma {:induction false} LeadingBounds(m: nat, w: nat)
    requires m < Pow2(w)
    ensures PrefixMask(LeadingOnes(m, w), w) <= m
  {
    if w > 0 && m >= Pow2(w - 1) {
      LeadingBounds(m - Pow2(w - 1), w - 1);
    }
  }

  /** A number with `z` trailing zeros is a multiple of 2^z. */
  lemma {:induction false} TrailingFactor(m: nat, w: nat) returns (q: nat)
    requires m < Pow2(w)
    ensures m == q * Pow2(TrailingZeros(m, w))
  {
    if w == 0 || m % 2 == 1 {
      q := m;
    } else {
      q := TrailingFactor(m / 2, w - 1);
      assert m == 2 * (q * Pow2(TrailingZeros(m / 2, w - 1)));
    }
  }

  lemma SmallMultiple(a: int, d: nat)
    requires 0 - d < a * d < d
    ensures a == 0
  {
    assert a >= 1 ==> (a - 1) * d >= 0;
    assert a <= -1 ==> (a + 1) * d <= 0;
  }

  /** The mask test accepts exactly the nonzero contiguous masks, and then counts their prefix. */
  lemma MaskTest(m: nat, w: nat)
    requires m < Pow2(w)
    ensures var p := LeadingOnes(m, w);
            (p != 0 && p + TrailingZeros(m, w) == w) <==> (m != 0 && exists n: nat :: n <= w && m == PrefixMask(n, w))
    ensures LeadingOnes(m, w) + TrailingZeros(m, w) == w ==> m == PrefixMask(LeadingOnes(m, w), w)
  {
    if LeadingOnes(m, w) + TrailingZeros(m, w) == w {
      CountsFixMask(m, w);
      Pow2Grows(0, w);
    }
    if n: nat :| n <= w && m == PrefixMask(n, w) {
      PrefixMaskCounts(n, w);
    }
  }

  lemma CountsFixMask(m: nat, w: nat)
    requires m < Pow2(w) && LeadingOnes(m, w) + TrailingZeros(m, w) == w
    ensures m == PrefixMask(LeadingOnes(m, w), w)
  {
    var p := LeadingOnes(m, w);
    var q := TrailingFactor(m, w);
    LeadingBounds(m, w);
    Pow2Add(p, w - p);
    LastBlock(m, q, Pow2(p), Pow2(w - p));
  }

  lemma LastBlock(m: nat, q: nat, blocks: nat, d: nat)
    requires m == q * d && blocks * d - d <= m < blocks * d
    ensures m == blocks * d - d
  {
    var a := q - blocks + 1;
    assert a * d == q * d - blocks * d + d;
    SmallMultiple(a, d);
  }

  lemma ModUnique(x: nat, d: nat, q: nat, r: nat)
    requires x == q * d + r && r < d
    ensures x % d == r
  {
    var a := x / d - q;
    assert x == x / d * d + x % d;
    assert a * d == x / d * d - q * d;
    SmallMultiple(a, d);
  }

  lemma ModHalf(x: nat, k: nat)
    requires k > 0
    ensures x % Pow2(k) == 2 * (x / 2 % Pow2(k - 1)) + x % 2
  {
    var half := Pow2(k - 1);
    var q, r := x / 2 / half, x / 2 % half;
    assert x / 2 == q * half + r;
    assert x == q * (2 * half) + (2 * r + x % 2);
    ModUnique(x, 2 * half, q, 2 * r + x % 2);
  }

  lemma AndOfDouble(x: nat, m: nat)
    ensures And(x, 2 * m) == 2 * And(x / 2, m)
    ensures And(x, 2 * m + 1) == x % 2 + 2 * And(x / 2, m)
  {
    assert (2 * m) / 2 == m && (2 * m) % 2 == 0 && (2 * m + 1) / 2 == m && (2 * m + 1) % 2 == 1;
    if x == 0 || m == 0 {
      assert And(x / 2, m) == 0;
    }
  }

  /** Masking with a prefix mask clears the host part. */
  lemma {:induction false} AndPrefixMask(x: nat, p: nat, w: nat)
    requires p <= w && x < Pow2(w)
    ensures And(x, PrefixMask(p, w)) == x - x % Pow2(w - p)
  {
    hide And;
    if w == 0 {
      AndZero(x);
    } else if p < w {
      AndPrefixMask(x / 2, p, w - 1);
      ModHalf(x, w - p);
      AndOfDouble(x, PrefixMask(p, w - 1));
      assert PrefixMask(p, w) == 2 * PrefixMask(p, w - 1);
    } else {
      AndPrefixMask(x / 2, w - 1, w - 1);
      AndOfDouble(x, PrefixMask(w - 1, w - 1));
      assert PrefixMask(w, w) == 2 * PrefixMask(w - 1, w - 1) + 1;
    }
  }

  lemma AndZero(x: nat)
    ensures And(x, 0) == 0
  {
  }

  lemma {:induction false} OrLowBits(s: nat, k: nat)
    requires s % Pow2(k) == 0
    ensures Or(s, Pow2(k) - 1) == s + Pow2(k) - 1
  {
    if k == 0 {
      OrZero(s);
    } else {
      ModHalf(s, k);
      OrLowBits(s / 2, k - 1);
      assert (Pow2(k) - 1) / 2 == Pow2(k - 1) - 1;
    }
  }

  lemma {:induction false} OrZero(s: nat)
    ensures Or(s, 0) == s
  {
    if s > 0 { OrZero(s / 2); }
  }
}

module RouteSelection {
  import opened Common
  import opened MaskArithmetic

  const BITS: nat := 32
  const ALL_ONES: nat := 0xFFFF_FFFF

  type Address = a: nat | a <= ALL_ONES

  datatype Ipv4Interface = Ipv4Interface(index: nat, address: Address, netmask: Address, up: bool, broadcast: bool)

  datatype Ipv4Route = Ipv4Route(interface: nat, source: Address, broadcast: Address, prefixLen: nat)

  datatype Selection =
    | Selected(route: Ipv4Route)
    | NoMatch
    | Ambiguous(prefixLen: nat)
    | Unusable(prefixLen: nat)

  lemma Width()
    ensures Pow2(BITS) == ALL_ONES + 1
  {
    assert Pow2(8) == 256;
    Pow2Add(8, 8);
    Pow2Add(16, 16);
  }

  predicate Eligible(i: Ipv4Interface) {
    && i.up && i.broadcast && i.index != 0
    && i.address != 0                              // unspecified
    && i.address / 0x100_0000 != 127               // loopback
    && !(224 <= i.address / 0x100_0000 < 240)      // multicast
    && i.address != ALL_ONES                       // limited broadcast
  }

  function Dotted(a: byte, b: byte, c: byte, d: byte): Address {
    a as nat * 0x100_0000 + b as nat * 0x1_0000 + c as nat * 0x100 + d as nat
  }

  /** An interface counts if it is up and can broadcast, has a number, and its address is none of 0.0.0.0,
      127.x.x.x, 224.x.x.x to 239.x.x.x and 255.255.255.255. */
  lemma EligibleExactly(i: Ipv4Interface, a: byte, b: byte, c: byte, d: byte)
    requires i.address == Dotted(a, b, c, d)
    ensures Eligible(i) <==>
              && i.up && i.broadcast && i.index != 0
              && [a, b, c, d] != [0, 0, 0, 0] && [a, b, c, d] != [255, 255, 255, 255]
              && a != 127 && !(224 <= a <= 239)
  {
    assert i.address / 0x100_0000 == a as nat;
    assert [a, b, c, d] == [0, 0, 0, 0] <==> a == 0 && b == 0 && c == 0 && d == 0;
    assert [a, b, c, d] == [255, 255, 255, 255] <==> a == 255 && b == 255 && c == 255 && d == 255;
  }

  /** The size of the subnets with a prefix of `p` bits. */
  function Size(p: nat): nat
    requires p <= BITS
  {
    Pow2(BITS - p)
  }

  /** `a` with its `k` low bits cleared. */
  function Cleared(a: nat, k: nat): nat {
    if k == 0 then a else 2 * Cleared(a / 2, k - 1)
  }

  function Network(a: nat, p: nat): nat
    requires p <= BITS
  {
    Cleared(a, BITS - p)
  }

  predicate HasPrefix(mask: nat, p: nat) {
    p <= BITS && mask == PrefixMask(p, BITS)
  }

  /** The interface is eligible, its mask has the nonempty prefix `p`, and the target lies in its subnet. */
  predicate Matches(target: Address, i: Ipv4Interface, p: nat) {
    Eligible(i) && 0 < p && HasPrefix(i.netmask, p) && Network(target, p) == Network(i.address, p)
  }

  /** It matches and no interface of the inventory matches with a longer prefix. */
  ghost predicate Longest(target: Address, all: set<Ipv4Interface>, i: Ipv4Interface, p: nat) {
    i in all && Matches(target, i, p) && forall j, q: nat :: j in all && Matches(target, j, q) ==> q <= p
  }

  /** A subnet in which the target is an ordinary host and whose broadcast is not the limited one. */
  predicate Usable(target: Address, p: nat)
    requires p <= BITS
  {
    p <= 30 && Network(target, p) < target < Network(target, p) + Size(p) - 1 < ALL_ONES
  }

  /** The specification of the selection, for an inventory as a set: order and repetition do not matter. */
  ghost predicate Selects(target: Address, all: set<Ipv4Interface>, selection: Selection) {
    match selection
    case NoMatch => forall i, p: nat :: i in all ==> !Matches(target, i, p)
    case Ambiguous(p) => exists i, j :: Longest(target, all, i, p) && Longest(target, all, j, p) && i.index != j.index
    case Unusable(p) =>
      && (exists i :: Longest(target, all, i, p))
      && (forall i, j :: Longest(target, all, i, p) && Longest(target, all, j, p) ==> i.index == j.index)
      && p <= BITS && !Usable(target, p)
    case Selected(route) =>
      var p := route.prefixLen;
      && (exists i :: Longest(target, all, i, p) && i.address == route.source)
      && (forall i :: Longest(target, all, i, p) ==> i.index == route.interface && route.source <= i.address)
      && p <= BITS && Usable(target, p)
      && route.broadcast == Network(target, p) + Size(p) - 1
  }

  lemma PrefixIsUnique(mask: nat, p: nat, q: nat)
    requires HasPrefix(mask, p) && HasPrefix(mask, q)
    ensures p == q
  {
    PrefixMaskCounts(p, BITS);
    PrefixMaskCounts(q, BITS);
  }

  /** The specification determines the outcome, so the outcome does not depend on the order of the inventory. */
  lemma SelectionIsUnique(target: Address, all: set<Ipv4Interface>, r: Selection, s: Selection)
    requires Selects(target, all, r) && Selects(target, all, s)
    ensures r == s
  {
    if !r.NoMatch? && !s.NoMatch? {
      var i, p := SelectionHasLongest(target, all, r);
      var j, q := SelectionHasLongest(target, all, s);
      assert p <= q && q <= p;
    } else if !r.NoMatch? {
      var i, p := SelectionHasLongest(target, all, r);
    } else if !s.NoMatch? {
      var i, p := SelectionHasLongest(target, all, s);
    }
  }

  lemma SelectionHasLongest(target: Address, all: set<Ipv4Interface>, r: Selection) returns (i: Ipv4Interface, p: nat)
    requires Selects(target, all, r) && !r.NoMatch?
    ensures Longest(target, all, i, p) && p == if r.Selected? then r.route.prefixLen else r.prefixLen
    ensures r.Selected? ==> i.address == r.route.source
  {
    match r
    case Ambiguous(q) =>
      var a, b :| Longest(target, all, a, q) && Longest(target, all, b, q) && a.index != b.index;
      i, p := a, q;
    case Unusable(q) =>
      var a :| Longest(target, all, a, q);
      i, p := a, q;
    case Selected(route) =>
      var a :| Longest(target, all, a, route.prefixLen) && a.address == route.source;
      i, p := a, route.prefixLen;
  }

  /** Any permutation of the inventory gives the same outcome. */
  lemma PermutationInvariant(target: Address, a: seq<Ipv4Interface>, b: seq<Ipv4Interface>, r: Selection, s: Selection)
    requires multiset(a) == multiset(b)
    requires Selects(target, Elements(a), r) && Selects(target, Elements(b), s)
    ensures r == s
  {
    forall i ensures i in Elements(a) <==> i in Elements(b) {
      assert i in multiset(a) <==> i in a;
      assert i in multiset(b) <==> i in b;
    }
    assert Elements(a) == Elements(b);
    SelectionIsUnique(target, Elements(a), r, s);
  }

  /** A selected route is a directed broadcast to a subnet of at least four addresses with the target inside. No
      eligible interface shares a smaller subnet with the target, and those in this subnet are one interface, of which
      the route has the lowest address. */
  lemma SelectedRouteShape(target: Address, all: set<Ipv4Interface>, route: Ipv4Route)
    requires Selects(target, all, Selected(route))
    ensures route.prefixLen <= 30
    ensures var network := Network(target, route.prefixLen);
            && Network(route.source, route.prefixLen) == network
            && network < target < route.broadcast == network + Size(route.prefixLen) - 1 < ALL_ONES
    ensures forall j, q: nat :: j in all && Eligible(j) && 0 < q && HasPrefix(j.netmask, q) &&
                                Network(j.address, q) == Network(target, q) ==>
              && q <= route.prefixLen
              && (q == route.prefixLen ==> j.index == route.interface && route.source <= j.address)
  {
    var i, p := SelectionHasLongest(target, all, Selected(route));
    forall j, q: nat | j in all && Eligible(j) && 0 < q && HasPrefix(j.netmask, q) &&
                       Network(j.address, q) == Network(target, q)
      ensures q <= p && (q == p ==> j.index == route.interface && route.source <= j.address)
    {
      assert Matches(target, j, q);
      if q == p { assert Longest(target, all, j, p); }
    }
  }

  /** The only eligible interface whose subnet holds the target is selected, if the target is neither the first nor the
      last address of a subnet of at least four, and the last one is not 255.255.255.255. */
  lemma OnlyInterfaceIsSelected(target: Address, all: set<Ipv4Interface>, i: Ipv4Interface, p: nat, s: Selection)
    requires Selects(target, all, s) && i in all && Eligible(i) && 1 <= p <= 30 && i.netmask == PrefixMask(p, 32)
    requires Network(target, p) == Network(i.address, p)
    requires Network(target, p) < target < Network(target, p) + Pow2(32 - p) - 1 < 0xFFFF_FFFF
    requires forall j, q: nat :: j in all && Matches(target, j, q) ==> j == i
    ensures s == Selected(Ipv4Route(i.index, i.address, Network(target, p) + Pow2(32 - p) - 1, p))
  {
    assert Matches(target, i, p);
    forall j, q: nat | j in all && Matches(target, j, q) ensures q == p {
      PrefixIsUnique(i.netmask, p, q);
    }
    assert Longest(target, all, i, p);
    assert Usable(target, p);
    if !s.NoMatch? {
      var j, q := SelectionHasLongest(target, all, s);
      assert j == i && q == p;
    }
  }

  // ----- The one-pass accumulator -----

  /** What the loop has established about the interfaces seen so far. */
  ghost predicate Accumulated(target: Address, seen: set<Ipv4Interface>, selected: Option<Ipv4Route>, ambiguous: bool) {
    if selected.None? then !ambiguous && forall i, p: nat :: i in seen ==> !Matches(target, i, p)
    else
      var best := selected.value;
      var p := best.prefixLen;
      && 0 < p <= BITS
      && best.broadcast == Network(target, p) + Size(p) - 1
      && (exists i :: Longest(target, seen, i, p) && i.index == best.interface && i.address == best.source)
      && (ambiguous <==> exists j :: Longest(target, seen, j, p) && j.index != best.interface)
      && (!ambiguous ==> forall j :: Longest(target, seen, j, p) ==> best.source <= j.address)
  }

  function RouteOf(target: Address, i: Ipv4Interface, p: nat): (r: Ipv4Route)
    requires Matches(target, i, p)
  {
    NetworkBounds(i.address, p);
    Ipv4Route(i.index, i.address, Network(target, p) + Size(p) - 1, p)
  }

  lemma {:induction false} ClearedIsFloor(a: nat, k: nat)
    ensures Cleared(a, k) == a - a % Pow2(k)
  {
    if k == 0 {
    } else {
      ClearedIsFloor(a / 2, k - 1);
      ModHalf(a, k);
    }
  }

  lemma NetworkBounds(a: Address, p: nat)
    requires p <= BITS
    ensures Network(a, p) <= a < Network(a, p) + Size(p) <= ALL_ONES + 1
    ensures Network(a, p) % Size(p) == 0 && Network(a, p) == a - a % Size(p)
  {
    hide Cleared;
    Width();
    Pow2Add(p, BITS - p);
    ClearedIsFloor(a, BITS - p);
    BlockBounds(a, Pow2(p), Size(p));
  }

  lemma BlockBounds(a: nat, blocks: nat, d: nat)
    requires d > 0 && a < blocks * d
    ensures a - a % d <= a < a - a % d + d <= blocks * d && (a - a % d) % d == 0
  {
    var q := a / d;
    assert a == q * d + a % d;
    ModUnique(q * d, d, q, 0);
    NextMultiple(q, blocks, d);
  }

  lemma NextMultiple(q: nat, blocks: nat, d: nat)
    requires q * d < blocks * d
    ensures q * d + d <= blocks * d
  {
    var k := blocks - q;
    assert k * d == blocks * d - q * d;
    assert k <= 0 ==> (0 - k) * d >= 0;
    assert k >= 1 ==> (k - 1) * d >= 0;
  }

  /** The bit tests of the loop body decide `Matches`. */
  lemma BodyTests(target: Address, i: Ipv4Interface)
    requires Eligible(i)
    ensures i.netmask < Pow2(BITS)
    ensures var p := LeadingOnes(i.netmask, BITS);
            (p != 0 && p + TrailingZeros(i.netmask, BITS) == BITS &&
             And(target, i.netmask) == And(i.address, i.netmask))
              <==> Matches(target, i, p)
    ensures forall q: nat :: Matches(target, i, q) ==> q == LeadingOnes(i.netmask, BITS)
  {
    hide And, Or, LeadingOnes, TrailingZeros, Network, Eligible;
    Width();
    var p := LeadingOnes(i.netmask, BITS);
    forall q: nat | Matches(target, i, q) ensures q == p { PrefixMaskCounts(q, BITS); }
    if p + TrailingZeros(i.netmask, BITS) == BITS {
      CountsFixMask(i.netmask, BITS);
    }
    if HasPrefix(i.netmask, p) {
      PrefixMaskCounts(p, BITS);
      AndPrefixMask(target, p, BITS);
      AndPrefixMask(i.address, p, BITS);
      NetworkBounds(i.address, p);
      NetworkBounds(target, p);
    }
  }

  /** The bit operations of the loop body compute the route of a matching interface. */
  lemma BodyRoute(target: Address, i: Ipv4Interface, p: nat)
    requires Matches(target, i, p) && i.netmask < Pow2(BITS)
    ensures Or(And(i.address, i.netmask), Not(i.netmask, BITS)) <= ALL_ONES
    ensures RouteOf(target, i, p)
              == Ipv4Route(i.index, i.address, Or(And(i.address, i.netmask), Not(i.netmask, BITS)), p)
  {
    hide And, Or, LeadingOnes, TrailingZeros, Network, Eligible, Pow2;
    Width();
    AndPrefixMask(i.address, p, BITS);
    NetworkBounds(i.address, p);
    OrLowBits(Network(i.address, p), BITS - p);
  }

  lemma SeeOther(target: Address, seen: set<Ipv4Interface>, i: Ipv4Interface, selected: Option<Ipv4Route>,
                 ambiguous: bool)
    requires Accumulated(target, seen, selected, ambiguous)
    requires forall p: nat :: !Matches(target, i, p)
    ensures Accumulated(target, seen + {i}, selected, ambiguous)
  {
    assert forall j, p :: Longest(target, seen + {i}, j, p) <==> Longest(target, seen, j, p);
  }

  /** The accumulator after a matching interface. */
  function Accumulate(target: Address, i: Ipv4Interface, p: nat, selected: Option<Ipv4Route>, ambiguous: bool)
    : (Option<Ipv4Route>, bool)
    requires Matches(target, i, p)
  {
    var candidate := RouteOf(target, i, p);
    if selected.None? then (Some(candidate), ambiguous)
    else
      var best := selected.value;
      if p > best.prefixLen then (Some(candidate), false)
      else if p < best.prefixLen then (selected, ambiguous)
      else if i.index != best.interface then (selected, true)
      else if i.address < best.source then (Some(candidate), ambiguous)
      else (selected, ambiguous)
  }

  lemma SeeMatching(target: Address, seen: set<Ipv4Interface>, i: Ipv4Interface, p: nat, selected: Option<Ipv4Route>,
                    ambiguous: bool)
    requires Accumulated(target, seen, selected, ambiguous) && Matches(target, i, p)
    ensures var (next, both) := Accumulate(target, i, p, selected, ambiguous);
            Accumulated(target, seen + {i}, next, both)
  {
    var all := seen + {i};
    assert forall q: nat :: Matches(target, i, q) ==> q == p by {
      forall q: nat | Matches(target, i, q) ensures q == p { PrefixIsUnique(i.netmask, p, q); }
    }
    if selected.None? || p > selected.value.prefixLen {
      LongerMatch(target, seen, i, p, selected, ambiguous);
    } else if p < selected.value.prefixLen {
      assert forall j, q :: Longest(target, all, j, q) <==> Longest(target, seen, j, q);
    } else {
      EqualMatch(target, seen, i, p, selected.value, ambiguous);
    }
  }

  lemma LongerMatch(target: Address, seen: set<Ipv4Interface>, i: Ipv4Interface, p: nat, selected: Option<Ipv4Route>,
                    ambiguous: bool)
    requires Accumulated(target, seen, selected, ambiguous) && Matches(target, i, p)
    requires selected.None? || p > selected.value.prefixLen
    requires forall q: nat :: Matches(target, i, q) ==> q == p
    ensures Accumulated(target, seen + {i}, Some(RouteOf(target, i, p)), false)
  {
    var all := seen + {i};
    assert forall j, q: nat :: j in seen && Matches(target, j, q) ==> q < p;
    assert Longest(target, all, i, p);
    assert forall j :: Longest(target, all, j, p) ==> j == i;
  }

  lemma EqualMatch(target: Address, seen: set<Ipv4Interface>, i: Ipv4Interface, p: nat, best: Ipv4Route,
                   ambiguous: bool)
    requires Accumulated(target, seen, Some(best), ambiguous) && Matches(target, i, p) && p == best.prefixLen
    requires forall q: nat :: Matches(target, i, q) ==> q == p
    ensures var (next, both) := Accumulate(target, i, p, Some(best), ambiguous);
            Accumulated(target, seen + {i}, next, both)
  {
    var all := seen + {i};
    assert forall j, q: nat :: Longest(target, seen, j, q) ==> q == p;
    assert forall j :: Longest(target, all, j, p) <==> j == i || Longest(target, seen, j, p);
  }

  /** `x << n` on 32 bits, which panics for a shift of 32 or more. */
  function ShiftLeft(x: Address, n: nat): nat
    requires n < BITS
  {
    if n == 0 then x else 2 * ShiftLeft(x, n - 1) % 0x1_0000_0000
  }

  lemma DoubledOnes(q: nat)
    requires 0 < q && 2 * q <= 0x1_0000_0000
    ensures 2 * (0x1_0000_0000 - q) % 0x1_0000_0000 == 0x1_0000_0000 - 2 * q
  {
  }

  lemma {:induction false} ShiftedAllOnes(n: nat)
    requires n < BITS
    ensures ShiftLeft(ALL_ONES, n) == 0x1_0000_0000 - Pow2(n)
  {
    if n == 0 {
    } else {
      ShiftedAllOnes(n - 1);
      assert 2 * Pow2(n - 1) <= 0x1_0000_0000 by {
        Width();
        Pow2Grows(n, BITS);
      }
      DoubledOnes(Pow2(n - 1));
    }
  }

  lemma ShiftedOnes(p: nat)
    requires 0 < p <= BITS
    ensures ShiftLeft(ALL_ONES, BITS - p) == PrefixMask(p, BITS) <= ALL_ONES
  {
    hide ShiftLeft;
    Width();
    ShiftedAllOnes(BITS - p);
  }

  /** The final tests of the selection, on an accumulated route that is not ambiguous. */
  lemma FinalTests(target: Address, seen: set<Ipv4Interface>, best: Ipv4Route)
    requires Accumulated(target, seen, Some(best), false)
    ensures var mask := ShiftLeft(ALL_ONES, BITS - best.prefixLen);
            (best.prefixLen >= 31 || target == And(best.source, mask) || target == best.broadcast ||
             best.broadcast == ALL_ONES)
              <==> !Usable(target, best.prefixLen)
  {
    Width();
    var p := best.prefixLen;
    ShiftedOnes(p);
    AndPrefixMask(best.source, p, BITS);
    NetworkBounds(best.source, p);
    NetworkBounds(target, p);
    var i :| Longest(target, seen, i, p) && i.address == best.source;
  }

  lemma Concludes(target: Address, all: set<Ipv4Interface>, selected: Option<Ipv4Route>, ambiguous: bool)
    requires Accumulated(target, all, selected, ambiguous)
    ensures selected.None? ==> Selects(target, all, NoMatch)
    ensures selected.Some? && ambiguous ==> Selects(target, all, Ambiguous(selected.value.prefixLen))
    ensures selected.Some? && !ambiguous && selected.value.prefixLen <= BITS ==>
              Selects(target, all, if Usable(target, selected.value.prefixLen) then Selected(selected.value)
                                   else Unusable(selected.value.prefixLen))
  {
    if selected.Some? {
      var p := selected.value.prefixLen;
      var i :| Longest(target, all, i, p) && i.index == selected.value.interface && i.address == selected.value.source;
    }
  }

  lemma PrefixIsPositive(target: Address, seen: set<Ipv4Interface>, best: Ipv4Route, ambiguous: bool)
    requires Accumulated(target, seen, Some(best), ambiguous)
    ensures 0 < best.prefixLen <= BITS
  {
  }

  method SelectIpv4Route(target: Address, interfaces: seq<Ipv4Interface>) returns (selection: Selection)
    ensures Selects(target, Elements(interfaces), selection)
  {
    hide Accumulated, And, Or, LeadingOnes, TrailingZeros, Selects, RouteOf, Usable;
    hide Network, Size, Pow2, Longest, HasPrefix;
    var selected: Option<Ipv4Route> := None;
    var ambiguous := false;
    NothingSeen(target);
    assert Elements(interfaces[..0]) == {};
    for k := 0 to |interfaces|
      invariant Accumulated(target, Elements(interfaces[..k]), selected, ambiguous)
    {
      var interface := interfaces[k];
      ghost var seen := Elements(interfaces[..k]);
      assert Elements(interfaces[..k + 1]) == seen + {interface};
      if !interface.up || !interface.broadcast || interface.index == 0 || interface.address == 0
         || interface.address / 0x100_0000 == 127 || 224 <= interface.address / 0x100_0000 < 240
         || interface.address == ALL_ONES
      {
        SeeOther(target, seen, interface, selected, ambiguous);
        continue;
      }
      BodyTests(target, interface);
      var mask := interface.netmask;
      var prefixLen := LeadingOnes(mask, BITS);
      if prefixLen == 0 || prefixLen + TrailingZeros(mask, BITS) != BITS {
        SeeOther(target, seen, interface, selected, ambiguous);
        continue;
      }
      var subnet := And(interface.address, mask);
      if And(target, mask) != subnet {
        SeeOther(target, seen, interface, selected, ambiguous);
        continue;
      }
      SeeMatching(target, seen, interface, prefixLen, selected, ambiguous);
      BodyRoute(target, interface, prefixLen);
      var candidate := Ipv4Route(interface.index, interface.address, Or(subnet, Not(mask, BITS)), prefixLen);
      if selected.None? {
        selected := Some(candidate);
      } else if candidate.prefixLen > selected.value.prefixLen {
        selected := Some(candidate);
        ambiguous := false;
      } else if candidate.prefixLen == selected.value.prefixLen {
        if candidate.interface != selected.value.interface {
          ambiguous := true;
        } else if candidate.source < selected.value.source {
          selected := Some(candidate);
        }
      }
    }
    assert interfaces[..|interfaces|] == interfaces;
    Concludes(target, Elements(interfaces), selected, ambiguous);
    if selected.None? { return NoMatch; }
    var route := selected.value;
    if ambiguous { return Ambiguous(route.prefixLen); }
    PrefixIsPositive(target, Elements(interfaces), route, ambiguous);
    FinalTests(target, Elements(interfaces), route);
    var mask := ShiftLeft(ALL_ONES, BITS - route.prefixLen);
    if route.prefixLen >= 31 || target == And(route.source, mask) || target == route.broadcast ||
       route.broadcast == ALL_ONES
    {
      return Unusable(route.prefixLen);
    }
    return Selected(route);
  }

  lemma NothingSeen(target: Address)
    ensures Accumulated(target, {}, None, false)
  {
  }
}
