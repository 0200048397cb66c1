/** IPv4 addresses as 32-bit numbers, their text, and the addresses the runtime derives from a subnet. */
module Ipv4 {
  import opened Wrappers
  import opened CStrings
  import opened Numbers

  const TWO32: nat := 0x1_0000_0000

  type Addr = a: nat | a < TWO32

  /** The four decimal fields of an address. */
  function Octets(a: Addr): (fs: seq<string>)
    ensures |fs| == 4
  {
    [Dec(a / 0x100_0000), Dec(a / 0x1_0000 % 256), Dec(a / 256 % 256), Dec(a % 256)]
  }

  /** inet_ntop: the dotted quad of an address. */
  function Ntop(a: Addr): string {
    Join(Octets(a), '.')
  }

  /** One field of a dotted quad: one to three digits, no leading zero, at most 255. */
  function Octet(f: string): (o: Option<nat>)
    ensures o.Some? ==> o.value < 256
  {
    if 1 <= |f| <= 3 && AllDigits(f) && (|f| == 1 || f[0] != '0') && Value(f) < 256 then Some(Value(f)) else None
  }

  /** inet_pton: the address of a dotted quad, if the text is one. */
  function Pton(s: string): Option<Addr> {
    var fs := Fields(s, '.');
    if |fs| != 4 then None
    else
      match (Octet(fs[0]), Octet(fs[1]), Octet(fs[2]), Octet(fs[3]))
      case (Some(a), Some(b), Some(c), Some(d)) => Some(((a * 256 + b) * 256 + c) * 256 + d)
      case _ => None
  }

  lemma DecOfOctet(n: nat)
    requires n < 256
    ensures Octet(Dec(n)) == Some(n) && '.' !in Dec(n) && '/' !in Dec(n) && |Dec(n)| <= 3
  {
    ValueOfDec(n);
    DecHasNo(n, '.');
    DecHasNo(n, '/');
    if n >= 100 {
      assert |Dec(n / 10 / 10)| == 1;
    }
  }

  lemma OctetsAreOctets(a: Addr)
    ensures var fs := Octets(a);
            && Octet(fs[0]) == Some(a / 0x100_0000) && Octet(fs[1]) == Some(a / 0x1_0000 % 256)
            && Octet(fs[2]) == Some(a / 256 % 256) && Octet(fs[3]) == Some(a % 256)
    ensures forall f :: f in Octets(a) ==> '.' !in f && '/' !in f && |f| <= 3
  {
    DecOfOctet(a / 0x100_0000);
    DecOfOctet(a / 0x1_0000 % 256);
    DecOfOctet(a / 256 % 256);
    DecOfOctet(a % 256);
  }

  lemma Join4(a: string, b: string, c: string, d: string, sep: char)
    ensures Join([a, b, c, d], sep) == a + [sep] + (b + [sep] + (c + [sep] + d))
  {
    assert [a, b, c, d][1..] == [b, c, d] && [b, c, d][1..] == [c, d] && [c, d][1..] == [d];
    assert Join([c, d], sep) == c + [sep] + d;
    assert Join([b, c, d], sep) == b + [sep] + Join([c, d], sep);
  }

  lemma FourBytes(a: Addr)
    ensures ((a / 0x100_0000 * 256 + a / 0x1_0000 % 256) * 256 + a / 256 % 256) * 256 + a % 256 == a
  {
    assert a / 0x1_0000 == a / 0x100_0000 * 256 + a / 0x1_0000 % 256;
    assert a / 256 == a / 0x1_0000 * 256 + a / 256 % 256;
  }

  /** Printing an address and parsing the text gives the address back. */
  lemma PtonOfNtop(a: Addr)
    ensures Pton(Ntop(a)) == Some(a)
  {
    hide Fields, Join, Octet, Octets;
    OctetsAreOctets(a);
    FieldsOfJoin(Octets(a), '.');
    FourBytes(a);
  }

  /** The bytes of an address, the highest one first, are the four decimal fields of its text. */
  lemma QuadText(a: nat, b: nat, c: nat, d: nat)
    requires a < 256 && b < 256 && c < 256 && d < 256
    ensures Ntop(((a * 256 + b) * 256 + c) * 256 + d) == Dec(a) + "." + (Dec(b) + "." + (Dec(c) + "." + Dec(d)))
  {
    hide Dec, Join;
    Bytes(a, b, c, d);
    Join4(Dec(a), Dec(b), Dec(c), Dec(d), '.');
  }

  lemma LowByte(x: nat, d: nat)
    requires d < 256
    ensures (x * 256 + d) / 256 == x && (x * 256 + d) % 256 == d
  {
  }

  lemma Bytes(a: nat, b: nat, c: nat, d: nat)
    requires a < 256 && b < 256 && c < 256 && d < 256
    ensures var n := ((a * 256 + b) * 256 + c) * 256 + d;
            n / 0x100_0000 == a && n / 0x1_0000 % 256 == b && n / 256 % 256 == c && n % 256 == d
  {
    var x := a * 256 + b;
    var y := x * 256 + c;
    var n := y * 256 + d;
    LowByte(y, d);
    LowByte(x, c);
    LowByte(a, b);
    assert n / 0x1_0000 == y / 256 && n / 0x100_0000 == x / 256;
  }

  lemma NtopText(a: Addr)
    ensures '/' !in Ntop(a) && 7 <= |Ntop(a)| <= 15
  {
    hide Octet, Dec, Join;
    OctetsAreOctets(a);
    JoinHasNo(Octets(a), '.', '/');
    var fs := Octets(a);
    assert fs[0] in fs && fs[1] in fs && fs[2] in fs && fs[3] in fs;
    Join4(fs[0], fs[1], fs[2], fs[3], '.');
    assert fs == [fs[0], fs[1], fs[2], fs[3]];
  }

  lemma OctetIsDec(f: string)
    ensures Octet(f).Some? ==> Dec(Octet(f).value) == f
  {
    if Octet(f).Some? {
      DecOfValue(f);
    }
  }

  /** Every text that inet_pton takes is what inet_ntop prints for its address. */
  lemma NtopOfPton(s: string)
    ensures Pton(s).Some? ==> Ntop(Pton(s).value) == s
  {
    hide Octet, Fields, Join, Ntop;
    var fs := Fields(s, '.');
    if Pton(s).Some? {
      OctetIsDec(fs[0]);
      OctetIsDec(fs[1]);
      OctetIsDec(fs[2]);
      OctetIsDec(fs[3]);
      QuadText(Octet(fs[0]).value, Octet(fs[1]).value, Octet(fs[2]).value, Octet(fs[3]).value);
      JoinOfFields(s, '.');
      Join4(fs[0], fs[1], fs[2], fs[3], '.');
      assert fs == [fs[0], fs[1], fs[2], fs[3]];
    }
  }

  /* ---- Addresses derived from a subnet text ---- */

  /** The address before the slash; `junk` is what the address variable holds when inet_pton rejects the text. */
  function Base(subnet: string, junk: Addr): Addr {
    match Pton(Before(subnet, '/'))
    case Some(a) => a
    case None => junk
  }

  /** The first address of the subnet, as the bridge and the container's default route use it. */
  function GatewayText(subnet: string, junk: Addr): string {
    Ntop((Base(subnet, junk) + 1) % TWO32)
  }

  /** The address put on the bridge, with the subnet's own suffix; none when the subnet has no slash. */
  function BridgeCidr(subnet: string, junk: Addr): Option<string> {
    if '/' in subnet then Some(GatewayText(subnet, junk) + "/" + After(subnet, '/')) else None
  }

  /** The random offset: 2 to 254. */
  function Offset(draw: nat): (o: nat)
    ensures 2 <= o <= 254
  {
    draw % 253 + 2
  }

  /** The address drawn for a base, in 32-bit arithmetic. */
  function Drawn(base: Addr, draw: nat): Addr {
    (base + Offset(draw)) % TWO32
  }

  function Allocated(subnet: string, draw: nat, junk: Addr): Addr {
    Drawn(Base(subnet, junk), draw)
  }

  const ADDRESS_FIELD: nat := 64

  /** What the bounded copies leave in the address field; none when the subnet has no slash. */
  function AllocText(subnet: string, draw: nat, junk: Addr): Option<string> {
    if '/' in subnet
    then Some(Take(Ntop(Allocated(subnet, draw, junk)) + "/" + After(subnet, '/'), ADDRESS_FIELD - 1))
    else None
  }

  /** The text cut at its slash, as both setup and cleanup do before they name the address in a rule. */
  function StripSuffix(text: string): string {
    Before(text, '/')
  }

  /** The first address after the base, as the bridge and the container's route get it. */
  method FirstAddress(subnet: string, slash: nat, junk: Addr) returns (gateway: string)
    requires slash == IndexOf(subnet, '/') < |subnet|
    ensures gateway == GatewayText(subnet, junk) && |gateway| < ADDRESS_FIELD
  {
    hide Pton, Ntop;
    var parsed := Pton(subnet[..slash]);
    var base := if parsed.Some? then parsed.value else junk;
    NtopText((base + 1) % TWO32);
    gateway := Ntop((base + 1) % TWO32);
  }

  lemma TwoAppends(a: string, b: string, c: string, n: nat)
    requires |a| <= n
    ensures var ab := a + Take(b, n - |a|); |ab| <= n && ab + Take(c, n - |ab|) == Take(a + b + c, n)
  {
    BoundedAppend(a, b, n);
    BoundedAppend(a + b, c, n);
  }

  /** network_allocate_ip: two bounded appends build the address text. */
  method AllocateIp(subnet: string, draw: nat, junk: Addr) returns (status: Status, ip: string)
    ensures status == if '/' in subnet then Ok else Einval
    ensures status == Ok ==> AllocText(subnet, draw, junk) == Some(ip) && |ip| < 64
    ensures status == Ok ==>
              match Pton(Before(subnet, '/'))
              case Some(base) => Pton(Before(ip, '/')) == Some((base + (draw % 253 + 2)) % 0x1_0000_0000)
              case None => true
  {
    hide Pton, Ntop, Take, IndexOf;
    AllocatedText(subnet, draw, junk);
    ip := "";
    var slash := IndexOf(subnet, '/');
    if slash == |subnet| {
      return Einval, ip;
    }
    var network := subnet[..slash];
    var parsed := Pton(network);
    var base := if parsed.Some? then parsed.value else junk;
    var offset := draw % 253 + 2;
    ip := Ntop((base + offset) % TWO32);
    NtopText((base + offset) % TWO32);
    TwoAppends(ip, "/", subnet[slash + 1..], ADDRESS_FIELD - 1);
    ip := ip + Take("/", ADDRESS_FIELD - |ip| - 1);
    ip := ip + Take(subnet[slash + 1..], ADDRESS_FIELD - |ip| - 1);
    status := Ok;
  }

  /** Cutting the allocated text at its slash leaves the dotted quad, which reads back as base plus offset. */
  lemma StrippedIsAllocated(subnet: string, draw: nat, junk: Addr)
    requires '/' in subnet
    ensures var text := AllocText(subnet, draw, junk).value;
            && StripSuffix(text) == Ntop(Allocated(subnet, draw, junk))
            && Pton(StripSuffix(text)) == Some(Allocated(subnet, draw, junk))
    ensures |After(subnet, '/')| <= 47 ==>
              AllocText(subnet, draw, junk).value == Ntop(Allocated(subnet, draw, junk)) + "/" + After(subnet, '/')
  {
    hide Pton, Ntop;
    var quad := Ntop(Allocated(subnet, draw, junk));
    NtopText(Allocated(subnet, draw, junk));
    PtonOfNtop(Allocated(subnet, draw, junk));
    var full := quad + "/" + After(subnet, '/');
    var text := Take(full, ADDRESS_FIELD - 1);
    assert text == quad + ['/'] + text[|quad| + 1..];
    CutJoined(quad, '/', text[|quad| + 1..]);
  }

  /**
   The allocated text names the subnet's own address plus the draw's offset, with the subnet's own suffix when
   that fits.
   */
  lemma AllocatedText(subnet: string, draw: nat, junk: Addr)
    ensures AllocText(subnet, draw, junk).Some? <==> '/' in subnet
    ensures '/' in subnet ==>
              match Pton(Before(subnet, '/'))
              case Some(base) =>
                var a, ip := (base + (draw % 253 + 2)) % 0x1_0000_0000, AllocText(subnet, draw, junk).value;
                && Pton(Before(ip, '/')) == Some(a)
                && (|After(subnet, '/')| <= 47 ==> ip == Ntop(a) + "/" + After(subnet, '/'))
              case None => true
  {
    hide Pton, Ntop, Take, IndexOf;
    if '/' in subnet {
      StrippedIsAllocated(subnet, draw, junk);
    }
  }

  /** The gateway's text names the subnet's own address plus one; the bridge gets it with the subnet's own suffix. */
  lemma FirstAddressText(subnet: string, junk: Addr)
    ensures BridgeCidr(subnet, junk).Some? <==> '/' in subnet
    ensures match Pton(Before(subnet, '/'))
            case Some(base) =>
              var first := Ntop((base + 1) % 0x1_0000_0000);
              && GatewayText(subnet, junk) == first && Pton(first) == Some((base + 1) % 0x1_0000_0000)
              && ('/' in subnet ==> BridgeCidr(subnet, junk) == Some(first + "/" + After(subnet, '/')))
            case None => true
  {
    hide Pton, Ntop;
    match Pton(Before(subnet, '/'))
    case Some(base) => PtonOfNtop((base + 1) % TWO32);
    case None =>
  }

  /** A subnet in its usual notation is taken apart into its address and its suffix. */
  lemma SubnetText(base: Addr, suffix: string)
    ensures var subnet := Ntop(base) + "/" + suffix;
            && '/' in subnet && Before(subnet, '/') == Ntop(base) && After(subnet, '/') == suffix
            && Pton(Before(subnet, '/')) == Some(base)
  {
    hide Pton, Ntop;
    NtopText(base);
    PtonOfNtop(base);
    CutJoined(Ntop(base), '/', suffix);
    assert Ntop(base) + "/" + suffix == Ntop(base) + ['/'] + suffix;
  }

  /* ---- Blocks of addresses ---- */

  function Pow2(k: nat): (n: nat)
    ensures n > 0
  {
    if k == 0 then 1 else 2 * Pow2(k - 1)
  }

  /** How many addresses share a prefix of this length. */
  function BlockSize(prefix: nat): (n: nat)
    requires prefix <= 32
    ensures n > 0
  {
    Pow2(32 - prefix)
  }

  function BlockStart(a: nat, size: nat): nat
    requires size > 0
  {
    a - a % size
  }

  lemma {:induction false} Pow2Splits(k: nat, m: nat)
    requires k <= m
    ensures Pow2(k) * Pow2(m - k) == Pow2(m)
  {
    if k > 0 {
      Pow2Splits(k - 1, m - 1);
      assert Pow2(k) * Pow2(m - k) == 2 * (Pow2(k - 1) * Pow2(m - k));
    }
  }

  lemma {:induction false} Pow2Grows(k: nat, m: nat)
    requires k <= m
    ensures Pow2(k) <= Pow2(m)
    decreases m - k
  {
    if k < m {
      Pow2Grows(k + 1, m);
    }
  }

  lemma Scale(s: nat, a: nat, b: nat)
    requires a <= b
    ensures s * a <= s * b
  {
  }

  lemma BlockInside(a: nat, size: nat, n: nat)
    requires size > 0 && a < size * n
    ensures BlockStart(a, size) + size <= size * n
  {
    var q := a / size;
    assert a == size * q + a % size;
    if q >= n {
      Scale(size, n, q);
      assert false;
    }
    Scale(size, q + 1, n);
  }

  lemma BlockFits(a: Addr, prefix: nat)
    requires prefix <= 32
    ensures BlockStart(a, BlockSize(prefix)) + BlockSize(prefix) <= TWO32
  {
    var size, n := BlockSize(prefix), Pow2(prefix);
    Pow2Splits(32 - prefix, 32);
    assert size * n == TWO32 by {
      assert Pow2(4) == 16;
      Pow2Splits(4, 8);
      Pow2Splits(8, 16);
      Pow2Splits(16, 32);
    }
    BlockInside(a, size, n);
  }

  /** An address that can be given to a host: strictly inside its block, and not the gateway. */
  predicate Usable(a: nat, base: nat, size: nat)
    requires size > 0
  {
    BlockStart(base, size) < a < BlockStart(base, size) + size - 1 && a != base + 1
  }

  /** A draw that does not wrap around at 32 bits and gives a usable address. */
  predicate GoodDraw(base: Addr, draw: nat, prefix: nat)
    requires prefix <= 32
  {
    Drawn(base, draw) == base + Offset(draw) && Usable(Drawn(base, draw), base, BlockSize(prefix))
  }

  /** Every draw is good exactly when at least 256 addresses of the block lie from the base on. */
  lemma AllocationUsable(base: Addr, prefix: nat)
    requires prefix <= 32
    ensures (forall draw: nat :: GoodDraw(base, draw, prefix)) <==> base % BlockSize(prefix) + 256 <= BlockSize(prefix)
  {
    hide BlockSize;
    var size := BlockSize(prefix);
    BlockFits(base, prefix);
    if base % size + 256 <= size {
      forall draw: nat
        ensures GoodDraw(base, draw, prefix)
      {
        assert base + Offset(draw) < TWO32;
      }
    } else {
      assert Offset(252) == 254;
      assert !GoodDraw(base, 252, prefix);
    }
  }

  /** For a base at the start of its block, every draw is good exactly for prefixes of at most 24 bits. */
  lemma AlignedAllocationUsable(base: Addr, prefix: nat)
    requires prefix <= 32 && base % BlockSize(prefix) == 0
    ensures (forall draw: nat :: GoodDraw(base, draw, prefix)) <==> prefix <= 24
  {
    AllocationUsable(base, prefix);
    assert Pow2(8) == 256 && Pow2(7) == 128;
    if prefix <= 24 {
      Pow2Grows(8, 32 - prefix);
    } else {
      Pow2Grows(32 - prefix, 7);
    }
  }

  /**
   The text that an allocation leaves reads back as base plus offset, without wrap-around, and that address is
   usable.
   */
  predicate GoodText(text: string, base: Addr, draw: nat, prefix: nat)
    requires prefix <= 32
  {
    var a := base + (draw % 253 + 2);
    Pton(Before(text, '/')) == Some(a % TWO32) && a < TWO32 && Usable(a, base, BlockSize(prefix))
  }

  /**
   For a subnet in its usual notation, every allocated text is good exactly when 256 addresses of its block lie
   from the base on.
   */
  lemma AllocatedTextUsable(base: Addr, prefix: nat, junk: Addr)
    requires prefix <= 32
    ensures var subnet := Ntop(base) + "/" + Dec(prefix);
            && (forall draw: nat :: AllocText(subnet, draw, junk).Some?)
            && ((forall draw: nat :: GoodText(AllocText(subnet, draw, junk).value, base, draw, prefix))
                <==> base % BlockSize(prefix) + 256 <= BlockSize(prefix))
            && (base % BlockSize(prefix) == 0 ==>
                  ((forall draw: nat :: GoodText(AllocText(subnet, draw, junk).value, base, draw,
                      prefix)) <==> prefix <= 24))
  {
    hide BlockSize, Pton, Ntop, Dec, AllocText;
    var subnet := Ntop(base) + "/" + Dec(prefix);
    SubnetText(base, Dec(prefix));
    forall draw: nat
      ensures AllocText(subnet, draw, junk).Some?
      ensures GoodText(AllocText(subnet, draw, junk).value, base, draw, prefix) == GoodDraw(base, draw, prefix)
    {
      AllocatedText(subnet, draw, junk);
    }
    AllocationUsable(base, prefix);
    if base % BlockSize(prefix) == 0 {
      AlignedAllocationUsable(base, prefix);
    }
  }
}
